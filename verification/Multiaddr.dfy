/** The verdict on a multiaddress (src/addr_filter.cpp:130-204). */
module Multiaddr {
  import opened Fields
  import opened Segments
  import opened Ip4
  import opened Ip6
  import opened Order
  import Ip6Forms

  datatype Verdict = Ok | Wildcard | ZeroPort | Loopback

  /** One component of a multiaddress; `Dangling` is a protocol whose value is missing at the end. */
  datatype Component = Flag(name: string) | Valued(proto: string, value: string) | Dangling(name: string)

  predicate TakesValue(proto: string) {
    proto == "ip4" || proto == "ip6" || proto == "tcp" || proto == "udp" ||
    proto == "sctp" || proto == "dns" || proto == "dns4" || proto == "dns6" ||
    proto == "dnsaddr" || proto == "p2p" || proto == "ipfs" || proto == "unix" ||
    proto == "onion" || proto == "onion3" || proto == "memory"
  }

  /** Segments paired into components from the left. */
  function Components(parts: seq<string>): seq<Component>
    decreases |parts|
  {
    if parts == [] then []
    else if !TakesValue(parts[0]) then [Flag(parts[0])] + Components(parts[1..])
    else if |parts| == 1 then [Dangling(parts[0])]
    else [Valued(parts[0], parts[1])] + Components(parts[2..])
  }

  predicate AllZeroDigits(s: string) {
    s != "" && forall k :: 0 <= k < |s| ==> s[k] == '0'
  }

  const UNSPECIFIED: seq<nat> := [0, 0, 0, 0, 0, 0, 0, 0]
  const LOOPBACK: seq<nat> := [0, 0, 0, 0, 0, 0, 0, 1]

  predicate WildcardHost(c: Component) {
    c.Valued? &&
    ((c.proto == "ip4" && IsQuad(c.value) && QuadOf(c.value) == [0, 0, 0, 0]) ||
     (c.proto == "ip6" && Parse(c.value) == Some(UNSPECIFIED)))
  }

  predicate PortZero(c: Component) {
    c.Valued? && (c.proto == "tcp" || c.proto == "udp" || c.proto == "sctp") && AllZeroDigits(c.value)
  }

  predicate LoopbackHost(c: Component) {
    c.Valued? &&
    ((c.proto == "ip4" && IsQuad(c.value) && QuadOf(c.value)[0] == 127) ||
     (c.proto == "ip6" && Parse(c.value) == Some(LOOPBACK)))
  }

  /** A fault on every platform. */
  predicate Hard(c: Component) {
    WildcardHost(c) || PortZero(c)
  }

  function HardVerdict(c: Component): Verdict
    requires Hard(c)
  {
    if WildcardHost(c) then Wildcard else ZeroPort
  }

  /** `k` is the first component at fault. */
  ghost predicate FirstHard(cs: seq<Component>, k: nat) {
    k < |cs| && Hard(cs[k]) && forall j :: 0 <= j < k ==> !Hard(cs[j])
  }

  /** The verdict on components: the first hard fault, else loopback anywhere if that is a fault. */
  ghost predicate Judged(cs: seq<Component>, allowLoopback: bool, v: Verdict) {
    if exists k: nat :: FirstHard(cs, k) then
      exists k: nat :: FirstHard(cs, k) && v == HardVerdict(cs[k])
    else
      v == if !allowLoopback && exists k :: 0 <= k < |cs| && LoopbackHost(cs[k]) then Loopback else Ok
  }

  ghost function Judge(cs: seq<Component>, allowLoopback: bool): (v: Verdict)
    ensures Judged(cs, allowLoopback, v)
  {
    if exists k: nat :: FirstHard(cs, k) then
      var k: nat :| FirstHard(cs, k);
      HardVerdict(cs[k])
    else if !allowLoopback && exists k :: 0 <= k < |cs| && LoopbackHost(cs[k]) then Loopback
    else Ok
  }

  /** The verdict on a multiaddress. */
  ghost function VerdictOf(s: string, allowLoopback: bool): Verdict {
    Judge(Components(Segs(s)), allowLoopback)
  }

  /** `isZeroPort` */
  method IsZeroPort(s: string) returns (zero: bool)
    ensures zero <==> AllZeroDigits(s)
  {
    if s == "" {
      return false;
    }
    for i := 0 to |s|
      invariant forall k :: 0 <= k < i ==> s[k] == '0'
    {
      if s[i] != '0' {
        return false;
      }
    }
    return true;
  }

  lemma ComponentsStep(parts: seq<string>, i: nat)
    requires i < |parts|
    ensures !TakesValue(parts[i]) ==> Components(parts[i..]) == [Flag(parts[i])] + Components(parts[i + 1..])
    ensures TakesValue(parts[i]) && i + 1 == |parts| ==> Components(parts[i..]) == [Dangling(parts[i])]
    ensures TakesValue(parts[i]) && i + 1 < |parts| ==>
      Components(parts[i..]) == [Valued(parts[i], parts[i + 1])] + Components(parts[i + 2..])
  {
    assert parts[i..][1..] == parts[i + 1..];
    if i + 1 < |parts| {
      assert parts[i..][2..] == parts[i + 2..];
    }
  }

  /** What the loop of `Classify` has seen: components without a hard fault. */
  ghost predicate Clean(seen: seq<Component>, loopback: bool) {
    && (forall k :: 0 <= k < |seen| ==> !Hard(seen[k]))
    && (loopback <==> exists k :: 0 <= k < |seen| && LoopbackHost(seen[k]))
  }

  lemma CleanSnoc(seen: seq<Component>, loopback: bool, c: Component)
    requires Clean(seen, loopback) && !Hard(c)
    ensures Clean(seen + [c], loopback || LoopbackHost(c))
  {
    hide Hard, LoopbackHost;
    if loopback {
      var k :| 0 <= k < |seen| && LoopbackHost(seen[k]);
      assert (seen + [c])[k] == seen[k];
    }
    assert (seen + [c])[|seen|] == c;
    forall k | 0 <= k < |seen + [c]| && LoopbackHost((seen + [c])[k]) ensures loopback || LoopbackHost(c) {
      assert k < |seen| ==> (seen + [c])[k] == seen[k];
    }
  }

  lemma HardNext(seen: seq<Component>, loopback: bool, c: Component, rest: seq<Component>, allow: bool)
    requires Clean(seen, loopback) && Hard(c)
    ensures Judged(seen + [c] + rest, allow, HardVerdict(c))
  {
    hide Hard, LoopbackHost, HardVerdict;
    assert FirstHard(seen + [c] + rest, |seen|);
  }

  lemma NoneHard(seen: seq<Component>, loopback: bool, allow: bool)
    requires Clean(seen, loopback)
    ensures Judged(seen, allow, if loopback && !allow then Loopback else Ok)
  {
    hide Hard, LoopbackHost;
  }

  /** The checks on one component with a value. */
  method Inspect(proto: string, value: string) returns (fault: Verdict, loopback: bool)
    ensures
      var c := Valued(proto, value);
      && (fault == Ok <==> !Hard(c))
      && (Hard(c) ==> fault == HardVerdict(c))
      && (!Hard(c) ==> (loopback <==> LoopbackHost(c)))
  {
    hide IsQuad, QuadOf, Parse;
    loopback := false;
    if proto == "ip4" {
      var good, v := ParseIp4(value);
      if good {
        if v[0] == 0 && v[1] == 0 && v[2] == 0 && v[3] == 0 {
          assert v == [0, 0, 0, 0];
          return Wildcard, false;
        }
        if v[0] == 127 {
          loopback := true;
        }
      }
    } else if proto == "ip6" {
      var good, g := ParseIp6(value);
      if good {
        var allZero, isLoopback := true, true;
        for k := 0 to 8
          invariant allZero <==> forall j :: 0 <= j < k ==> g[j] == 0
          invariant isLoopback <==> forall j :: 0 <= j < k ==> g[j] == if j == 7 then 1 else 0
        {
          if g[k] != 0 {
            allZero := false;
          }
          if g[k] != (if k == 7 then 1 else 0) {
            isLoopback := false;
          }
        }
        assert allZero <==> g == UNSPECIFIED;
        assert isLoopback <==> g == LOOPBACK;
        if allZero {
          return Wildcard, false;
        }
        if isLoopback {
          loopback := true;
        }
      }
    } else if proto == "tcp" || proto == "udp" || proto == "sctp" {
      var zero := IsZeroPort(value);
      if zero {
        return ZeroPort, false;
      }
    }
    return Ok, loopback;
  }

  /** `classify` */
  method Classify(multiaddr: string, allowLoopback: bool) returns (v: Verdict)
    ensures v == VerdictOf(multiaddr, allowLoopback)
  {
    hide Components, Hard, LoopbackHost, HardVerdict, Clean, Judged, Judge;
    var parts := SplitSegments(multiaddr);
    var loopbackHost := false;
    ghost var seen: seq<Component> := [];
    var i := 0;
    assert parts[0..] == parts;
    CleanNil();
    while i < |parts|
      invariant 0 <= i <= |parts|
      invariant Components(parts) == seen + Components(parts[i..])
      invariant Clean(seen, loopbackHost)
    {
      ComponentsStep(parts, i);
      var proto := parts[i];
      if !TakesValue(proto) {
        FlagHarmless(Flag(proto));
        CleanSnoc(seen, loopbackHost, Flag(proto));
        seen := seen + [Flag(proto)];
        i := i + 1;
        continue;
      }
      if i + 1 >= |parts| {
        FlagHarmless(Dangling(proto));
        CleanSnoc(seen, loopbackHost, Dangling(proto));
        seen := seen + [Dangling(proto)];
        assert Components(parts) == seen;
        break;
      }
      var value := parts[i + 1];
      var fault, loopback := Inspect(proto, value);
      if fault != Ok {
        HardNext(seen, loopbackHost, Valued(proto, value), Components(parts[i + 2..]), allowLoopback);
        assert Components(parts) == seen + [Valued(proto, value)] + Components(parts[i + 2..]);
        JudgedIs(Components(parts), allowLoopback, fault);
        return fault;
      }
      CleanSnoc(seen, loopbackHost, Valued(proto, value));
      seen := seen + [Valued(proto, value)];
      loopbackHost := loopbackHost || loopback;
      i := i + 2;
    }
    if i == |parts| {
      ComponentsNil(parts);
      assert seen + [] == seen;
    }
    NoneHard(seen, loopbackHost, allowLoopback);
    JudgedIs(seen, allowLoopback, if loopbackHost && !allowLoopback then Loopback else Ok);
    if loopbackHost && !allowLoopback {
      return Loopback;
    }
    return Ok;
  }

  lemma JudgedIs(cs: seq<Component>, allow: bool, v: Verdict)
    requires Judged(cs, allow, v)
    ensures v == Judge(cs, allow)
  {
    OneVerdict(cs, allow, v, Judge(cs, allow));
  }

  lemma CleanNil()
    ensures Clean([], false)
  {
  }

  lemma ComponentsNil(parts: seq<string>)
    ensures Components(parts[|parts|..]) == [] && Components([]) == []
  {
  }

  lemma FlagHarmless(c: Component)
    requires !c.Valued?
    ensures !Hard(c) && !LoopbackHost(c)
  {
  }

  // --------------------------------------------------------------- composition

  /** No protocol is left without its value. */
  predicate Complete(cs: seq<Component>) {
    forall k :: 0 <= k < |cs| ==> !cs[k].Dangling?
  }

  lemma CompleteStep(p: seq<string>)
    requires p != [] && Complete(Components(p))
    ensures TakesValue(p[0]) ==> |p| >= 2
    ensures Complete(Components(p[if TakesValue(p[0]) then 2 else 1..]))
  {
    hide TakesValue, Components, Complete;
    ComponentsStep(p, 0);
    assert p[0..] == p;
    DanglingIncomplete(p[0]);
    if TakesValue(p[0]) {
      if |p| >= 2 {
        CompleteCons(Valued(p[0], p[1]), Components(p[2..]));
      }
    } else {
      CompleteCons(Flag(p[0]), Components(p[1..]));
    }
  }

  lemma DanglingIncomplete(t: string)
    ensures !Complete([Dangling(t)])
  {
    assert [Dangling(t)][0].Dangling?;
  }

  /** After complete components the walk starts afresh. */
  lemma {:induction false} ComponentsAppend(p: seq<string>, q: seq<string>)
    requires Complete(Components(p))
    ensures Components(p + q) == Components(p) + Components(q)
    decreases |p|
  {
    hide TakesValue, Components, Complete;
    if p == [] {
      ComponentsNil(p);
      assert p + q == q && [] + Components(q) == Components(q);
    } else {
      CompleteStep(p);
      var n := if TakesValue(p[0]) then 2 else 1;
      ComponentsStep(p, 0);
      ComponentsStep(p + q, 0);
      ComponentsAppend(p[n..], q);
      assert p[0..] == p && (p + q)[0..] == p + q;
      assert (p + q)[n..] == p[n..] + q;
    }
  }

  /** Segments that leave a protocol without its value end with that protocol. */
  lemma {:induction false} DanglingEnd(p: seq<string>)
    requires !Complete(Components(p))
    ensures p != [] && TakesValue(p[|p| - 1])
    ensures Complete(Components(p[..|p| - 1]))
    ensures Components(p) == Components(p[..|p| - 1]) + [Dangling(p[|p| - 1])]
    decreases |p|
  {
    hide TakesValue, Components;
    ComponentsNil(p);
    if p != [] {
      ComponentsStep(p, 0);
      assert p[0..] == p;
      if TakesValue(p[0]) && |p| == 1 {
        assert p[..0] == [];
      } else {
        var n := if TakesValue(p[0]) then 2 else 1;
        var c := if TakesValue(p[0]) then Valued(p[0], p[1]) else Flag(p[0]);
        CompleteCons(c, Components(p[n..]));
        DanglingEnd(p[n..]);
        var q := p[..|p| - 1];
        ComponentsStep(q, 0);
        assert q[0..] == q && q[n..] == p[n..][..|p| - n - 1];
        CompleteCons(c, Components(q[n..]));
      }
    }
  }

  lemma CompleteCons(c: Component, cs: seq<Component>)
    requires !c.Dangling?
    ensures Complete([c] + cs) <==> Complete(cs)
  {
    if Complete([c] + cs) {
      forall k | 0 <= k < |cs| ensures !cs[k].Dangling? {
        assert ([c] + cs)[k + 1] == cs[k];
      }
    }
  }

  /** The verdict on two lists of components in a row, from the two lists. */
  lemma JudgedAppend(cs: seq<Component>, ds: seq<Component>, allow: bool, v: Verdict, w: Verdict)
    requires Judged(cs, allow, v) && Judged(ds, allow, w)
    ensures Judged(cs + ds, allow, if v == Wildcard || v == ZeroPort then v
                                   else if w == Wildcard || w == ZeroPort then w
                                   else if v == Loopback || w == Loopback then Loopback else Ok)
  {
    hide Hard, LoopbackHost, HardVerdict, Judged;
    HardOrNot(cs, allow, v);
    HardOrNot(ds, allow, w);
    if v == Wildcard || v == ZeroPort {
      var k: nat :| FirstHard(cs, k) && v == HardVerdict(cs[k]);
      JudgedHard(cs + ds, k, allow);
    } else if w == Wildcard || w == ZeroPort {
      var k: nat :| FirstHard(ds, k) && w == HardVerdict(ds[k]);
      JudgedHard(cs + ds, |cs| + k, allow);
    } else {
      NoFaultAppend(cs, ds);
      JudgedSoft(cs + ds, allow);
    }
  }

  lemma JudgedHard(cs: seq<Component>, k: nat, allow: bool)
    requires FirstHard(cs, k)
    ensures Judged(cs, allow, HardVerdict(cs[k]))
  {
    hide Hard, LoopbackHost, HardVerdict;
  }

  ghost predicate NoneHardIn(cs: seq<Component>) {
    forall k :: 0 <= k < |cs| ==> !Hard(cs[k])
  }

  ghost predicate SomeLoopback(cs: seq<Component>) {
    exists k :: 0 <= k < |cs| && LoopbackHost(cs[k])
  }

  lemma JudgedSoft(cs: seq<Component>, allow: bool)
    requires NoneHardIn(cs)
    ensures Judged(cs, allow, if !allow && SomeLoopback(cs) then Loopback else Ok)
  {
    hide Hard, LoopbackHost, HardVerdict;
  }

  lemma NoFaultAppend(cs: seq<Component>, ds: seq<Component>)
    requires NoneHardIn(cs) && NoneHardIn(ds)
    ensures NoneHardIn(cs + ds) && (SomeLoopback(cs + ds) <==> SomeLoopback(cs) || SomeLoopback(ds))
  {
    hide Hard, LoopbackHost;
    forall k | 0 <= k < |cs| ensures (cs + ds)[k] == cs[k] {
    }
    forall k | 0 <= k < |ds| ensures (cs + ds)[|cs| + k] == ds[k] {
    }
  }

  /** Reading a verdict back: which of the two kinds it is. */
  lemma HardOrNot(cs: seq<Component>, allow: bool, v: Verdict)
    requires Judged(cs, allow, v)
    ensures v == Wildcard || v == ZeroPort ==> exists k: nat :: FirstHard(cs, k) && v == HardVerdict(cs[k])
    ensures v == Ok || v == Loopback ==> NoneHardIn(cs) && (v == Loopback <==> !allow && SomeLoopback(cs))
  {
    hide WildcardHost, PortZero, LoopbackHost;
    if !exists k: nat :: FirstHard(cs, k) {
      NoFirst(cs, |cs|);
    }
  }

  lemma {:induction false} NoFirst(cs: seq<Component>, n: nat)
    requires n <= |cs| && !exists k: nat :: FirstHard(cs, k)
    ensures forall j :: 0 <= j < n ==> !Hard(cs[j])
  {
    if n > 0 {
      NoFirst(cs, n - 1);
      assert !FirstHard(cs, n - 1);
    }
  }

  /** A verdict is unique. */
  lemma OneVerdict(cs: seq<Component>, allow: bool, v: Verdict, w: Verdict)
    requires Judged(cs, allow, v) && Judged(cs, allow, w)
    ensures v == w
  {
    hide Hard, HardVerdict, LoopbackHost, Judged;
    HardOrNot(cs, allow, v);
    HardOrNot(cs, allow, w);
    if v == Wildcard || v == ZeroPort {
      var k: nat :| FirstHard(cs, k) && v == HardVerdict(cs[k]);
      if w == Wildcard || w == ZeroPort {
        var j: nat :| FirstHard(cs, j) && w == HardVerdict(cs[j]);
        assert k == j;
      }
    }
  }

  // ---------------------------------------------------------- harmless suffixes

  /** Components that bring no fault and no loopback. */
  predicate Harmless(cs: seq<Component>) {
    forall k :: 0 <= k < |cs| ==> !Hard(cs[k]) && !LoopbackHost(cs[k])
  }

  lemma HarmlessAppend(cs: seq<Component>, ds: seq<Component>, allow: bool)
    requires Harmless(ds)
    ensures Judge(cs + ds, allow) == Judge(cs, allow)
  {
    hide Hard, LoopbackHost, HardVerdict, Judged, Judge;
    JudgeSound(cs, allow);
    JudgeSound(ds, allow);
    JudgeSound(cs + ds, allow);
    JudgedSoft(ds, allow);
    OneVerdict(ds, allow, Judge(ds, allow), Ok);
    var v := Judge(cs, allow);
    JudgedAppend(cs, ds, allow, v, Ok);
    OneVerdict(cs + ds, allow, Judge(cs + ds, allow), v);
  }

  lemma JudgeSound(cs: seq<Component>, allow: bool)
    ensures Judged(cs, allow, Judge(cs, allow))
  {
  }

  /** A word that is neither a quad, a group nor digits is no host and no port. */
  lemma WordIsHarmless(proto: string, t: string)
    requires t != "" && !IsGroup(t) && '.' !in t && ':' !in t && '%' !in t && t[0] != '0'
    ensures Harmless([Valued(proto, t)])
  {
    SplitAtom(t, '.');
    FindUnique(t, '%', |t|);
    assert t[..|t|] == t && t + "" == t;
    Ip6Forms.WalkPiece(t, "", true, START);
    WordsCases(t);
    PushCases(START, t);
    WalkFail("", false);
  }

  lemma Suffixes(id: string)
    ensures Harmless(Components(IdSegments(id))) && Harmless(Components(["p2p"] + IdSegments(id)))
    ensures Harmless(Components(["p2p-circuit"] + (["p2p"] + IdSegments(id))))
  {
    var end := IdSegments(id);
    assert ["p2p"] + end == if id == "" then ["p2p"] else ["p2p", id];
    assert ["p2p", id][2..] == [];
    var c := ["p2p-circuit"] + (["p2p"] + end);
    assert c[1..] == ["p2p"] + end;
  }

  /** Appending harmless segments, whatever state the walk of `p` ends in. */
  lemma SuffixHarmless(p: seq<string>, word: string, rest: seq<string>, allow: bool)
    requires word == "p2p" || word == "p2p-circuit"
    requires Harmless(Components([word] + rest)) && Harmless(Components(rest))
    ensures Judge(Components(p + ([word] + rest)), allow) == Judge(Components(p), allow)
  {
    hide Judge, TakesValue, Components, Hard, LoopbackHost, IsGroup;
    if Complete(Components(p)) {
      ComponentsAppend(p, [word] + rest);
      HarmlessAppend(Components(p), Components([word] + rest), allow);
    } else {
      DanglingEnd(p);
      var q, proto := p[..|p| - 1], p[|p| - 1];
      var s := [proto, word] + rest;
      assert p + ([word] + rest) == q + s;
      ComponentsAppend(q, s);
      ComponentsStep(s, 0);
      assert s[0..] == s && s[2..] == rest;
      WordsAreNoGroups();
      WordIsHarmless(proto, word);
      HarmlessCons(Valued(proto, word), Components(rest));
      HarmlessAppend(Components(q), [Valued(proto, word)] + Components(rest), allow);
      FlagHarmless(Dangling(proto));
      HarmlessAppend(Components(q), [Dangling(proto)], allow);
    }
  }

  lemma WordsAreNoGroups()
    ensures !IsGroup("p2p") && !IsGroup("p2p-circuit")
  {
    assert HexValue("p2p"[0]) < 0;
  }

  lemma HarmlessCons(c: Component, cs: seq<Component>)
    requires Harmless([c]) && Harmless(cs)
    ensures Harmless([c] + cs)
  {
    hide Hard, LoopbackHost;
    assert [c][0] == c;
  }

  function IdSegments(id: string): seq<string> {
    if id == "" then [] else [id]
  }

  lemma SegsWithPeer(a: string, id: string)
    requires '/' !in id
    ensures Segs("p2p/" + id) == ["p2p"] + IdSegments(id)
    ensures Segs(a + "/p2p/" + id) == Segs(a) + (["p2p"] + IdSegments(id))
  {
    hide Segs;
    SegsAtom(id);
    SegsAtom("p2p");
    SegsAppend("p2p", id);
    SegsAppend(a, "p2p/" + id);
    assert "p2p" + "/" + id == "p2p/" + id;
    assert a + "/" + ("p2p/" + id) == a + "/p2p/" + id;
  }

  lemma SegsWithRelay(a: string, id: string)
    requires '/' !in id
    ensures Segs(a + "/p2p-circuit/p2p/" + id) == Segs(a) + (["p2p-circuit"] + (["p2p"] + IdSegments(id)))
  {
    hide Segs;
    SegsWithPeer(a, id);
    SegsAtom("p2p-circuit");
    SegsAppend("p2p-circuit", "p2p/" + id);
    SegsAppend(a, "p2p-circuit/p2p/" + id);
    assert "p2p-circuit" + "/" + ("p2p/" + id) == "p2p-circuit/p2p/" + id;
    assert a + "/" + ("p2p-circuit/p2p/" + id) == a + "/p2p-circuit/p2p/" + id;
  }

  /** A peer id after any address, with or without a relay hop before it, never changes the verdict. */
  lemma PeerSuffixKeepsVerdict(a: string, id: string, allow: bool)
    requires '/' !in id
    ensures VerdictOf(a + "/p2p/" + id, allow) == VerdictOf(a, allow)
    ensures VerdictOf(a + "/p2p-circuit/p2p/" + id, allow) == VerdictOf(a, allow)
  {
    hide Components, Segs, Judge, Harmless;
    SegsWithPeer(a, id);
    SegsWithRelay(a, id);
    Suffixes(id);
    SuffixHarmless(Segs(a), "p2p", IdSegments(id), allow);
    SuffixHarmless(Segs(a), "p2p-circuit", ["p2p"] + IdSegments(id), allow);
  }

  /** Of two verdicts in a row: the first hard fault, else loopback of either. */
  function Combined(v: Verdict, w: Verdict): Verdict {
    if v == Wildcard || v == ZeroPort then v
    else if w == Wildcard || w == ZeroPort then w
    else if v == Loopback || w == Loopback then Loopback else Ok
  }

  /** Concatenation: the first hard fault of `a` and then of `b`, else loopback of either. */
  lemma VerdictOfConcatenation(a: string, b: string, allow: bool)
    requires Complete(Components(Segs(a)))
    ensures VerdictOf(a + "/" + b, allow) == Combined(VerdictOf(a, allow), VerdictOf(b, allow))
  {
    hide Components, Segs, Judge, Judged;
    SegsAppend(a, b);
    ComponentsAppend(Segs(a), Segs(b));
    var cs, ds := Components(Segs(a)), Components(Segs(b));
    JudgeSound(cs, allow);
    JudgeSound(ds, allow);
    JudgedAppend(cs, ds, allow, Judge(cs, allow), Judge(ds, allow));
    JudgedIs(cs + ds, allow, Combined(Judge(cs, allow), Judge(ds, allow)));
  }

  // ------------------------------------------------------------- host and port

  /** The verdict on one host and one port, from their values alone. */
  lemma HostPort(proto: string, host: string, transport: string, port: string, allow: bool)
    requires proto == "ip4" || proto == "ip6"
    requires transport == "tcp" || transport == "udp" || transport == "sctp"
    requires '/' !in host && host != "" && '/' !in port && port != ""
    ensures
      var h := Valued(proto, host);
      VerdictOf("/" + proto + "/" + host + "/" + transport + "/" + port, allow) ==
        if WildcardHost(h) then Wildcard
        else if AllZeroDigits(port) then ZeroPort
        else if LoopbackHost(h) && !allow then Loopback else Ok
  {
    var h, p := Valued(proto, host), Valued(transport, port);
    var parts := [proto, host, transport, port];
    ComponentsOfFour(parts);
    assert Segs("/" + proto + "/" + host + "/" + transport + "/" + port) == parts by {
      PathOfFour(parts);
      SegsOfPath(parts);
    }
    hide Components, Segs, Judge, WildcardHost, LoopbackHost, AllZeroDigits;
    JudgeTwo(h, p, allow);
  }

  lemma ComponentsOfFour(parts: seq<string>)
    requires |parts| == 4 && TakesValue(parts[0]) && TakesValue(parts[2])
    ensures Components(parts) == [Valued(parts[0], parts[1]), Valued(parts[2], parts[3])]
  {
    hide TakesValue, Components;
    ComponentsStep(parts, 0);
    ComponentsStep(parts, 2);
    ComponentsNil(parts);
    assert parts[0..] == parts;
  }

  lemma PathCons(t: string, parts: seq<string>)
    ensures Path([t] + parts) == "/" + t + Path(parts)
  {
    assert ([t] + parts)[1..] == parts;
  }

  lemma PathOfFour(parts: seq<string>)
    requires |parts| == 4
    ensures Path(parts) == "/" + parts[0] + "/" + parts[1] + "/" + parts[2] + "/" + parts[3]
  {
    hide Path;
    PathUnfolds([]);
    PathCons(parts[3], []);
    PathCons(parts[2], [parts[3]]);
    PathCons(parts[1], [parts[2], parts[3]]);
    PathCons(parts[0], [parts[1], parts[2], parts[3]]);
    assert [parts[3]] + [] == [parts[3]] && [parts[2]] + [parts[3]] == [parts[2], parts[3]];
    assert [parts[1]] + [parts[2], parts[3]] == [parts[1], parts[2], parts[3]];
    assert [parts[0]] + [parts[1], parts[2], parts[3]] == parts;
  }

  lemma JudgeTwo(h: Component, p: Component, allow: bool)
    requires !LoopbackHost(p) && !WildcardHost(p)
    ensures Judge([h, p], allow) ==
      if Hard(h) then HardVerdict(h)
      else if Hard(p) then ZeroPort
      else if LoopbackHost(h) && !allow then Loopback else Ok
  {
    hide WildcardHost, PortZero, LoopbackHost, Judge;
    var cs := [h, p];
    if Hard(h) {
      assert FirstHard(cs, 0);
      JudgedHard(cs, 0, allow);
      JudgedIs(cs, allow, HardVerdict(h));
    } else if Hard(p) {
      assert FirstHard(cs, 1);
      JudgedHard(cs, 1, allow);
      JudgedIs(cs, allow, HardVerdict(p));
    } else {
      JudgedSoft(cs, allow);
      assert SomeLoopback(cs) <==> LoopbackHost(h) by {
        assert LoopbackHost(h) ==> LoopbackHost(cs[0]);
      }
      JudgedIs(cs, allow, if !allow && SomeLoopback(cs) then Loopback else Ok);
    }
  }

  /** A dotted quad and a port alone. */
  lemma QuadWithPort(q: string, transport: string, port: string, allow: bool)
    requires IsQuad(q) && '/' !in port && port != ""
    requires transport == "tcp" || transport == "udp" || transport == "sctp"
    ensures VerdictOf("/" + "ip4" + "/" + q + "/" + transport + "/" + port, allow) ==
      if QuadOf(q) == [0, 0, 0, 0] then Wildcard
      else if AllZeroDigits(port) then ZeroPort
      else if QuadOf(q)[0] == 127 && !allow then Loopback else Ok
  {
    QuadText(q);
    hide IsQuad, Parse, AllZeroDigits, VerdictOf;
    HostPort("ip4", q, transport, port, allow);
  }

  /** A form of an IPv6 address, scoped or not, and a port alone. */
  lemma FormWithPort(f: Ip6Forms.Form, zone: string, text: string, transport: string, port: string, allow: bool)
    requires Ip6Forms.WellFormed(f) && '/' !in zone && '/' !in port && port != ""
    requires text == Ip6Forms.Text(f) || text == Ip6Forms.Text(f) + "%" + zone
    requires transport == "tcp" || transport == "udp" || transport == "sctp"
    ensures VerdictOf("/" + "ip6" + "/" + text + "/" + transport + "/" + port, allow) ==
      if Ip6Forms.Address(f) == [0, 0, 0, 0, 0, 0, 0, 0] then Wildcard
      else if AllZeroDigits(port) then ZeroPort
      else if Ip6Forms.Address(f) == [0, 0, 0, 0, 0, 0, 0, 1] && !allow then Loopback else Ok
  {
    FormText(f);
    Ip6Forms.FormsAreRead(f, zone);
    hide IsQuad, Parse, AllZeroDigits, VerdictOf, Ip6Forms.Text, Ip6Forms.WellFormed, Ip6Forms.Address;
    HostPort("ip6", text, transport, port, allow);
  }

  // --------------------------------------------------------- a host in any address

  /** One host alone. */
  lemma HostAlone(proto: string, host: string, allow: bool)
    requires proto == "ip4" || proto == "ip6"
    requires '/' !in host && host != ""
    ensures Complete(Components(Segs(proto + "/" + host)))
    ensures
      var h := Valued(proto, host);
      VerdictOf(proto + "/" + host, allow) ==
        if WildcardHost(h) then Wildcard else if LoopbackHost(h) && !allow then Loopback else Ok
  {
    var h := Valued(proto, host);
    assert Segs(proto + "/" + host) == [proto, host] by {
      SegsAppend(proto, host);
      SegsAtom(proto);
      SegsAtom(host);
      assert [proto] + [host] == [proto, host];
    }
    assert Components([proto, host]) == [h] by {
      ComponentsOfTwo([proto, host]);
    }
    hide Components, Segs, Judge, WildcardHost, LoopbackHost;
    JudgeOne(h, allow);
  }

  lemma ComponentsOfTwo(parts: seq<string>)
    requires |parts| == 2 && TakesValue(parts[0])
    ensures Components(parts) == [Valued(parts[0], parts[1])]
  {
    hide TakesValue, Components;
    ComponentsStep(parts, 0);
    ComponentsNil(parts);
    assert parts[0..] == parts;
  }

  lemma JudgeOne(h: Component, allow: bool)
    requires !PortZero(h)
    ensures Judge([h], allow) ==
      if WildcardHost(h) then Wildcard else if LoopbackHost(h) && !allow then Loopback else Ok
  {
    hide WildcardHost, PortZero, LoopbackHost, Judge;
    var cs := [h];
    if Hard(h) {
      assert FirstHard(cs, 0);
      JudgedHard(cs, 0, allow);
      JudgedIs(cs, allow, HardVerdict(h));
    } else {
      JudgedSoft(cs, allow);
      assert SomeLoopback(cs) <==> LoopbackHost(h) by {
        assert LoopbackHost(h) ==> LoopbackHost(cs[0]);
      }
      JudgedIs(cs, allow, if !allow && SomeLoopback(cs) then Loopback else Ok);
    }
  }

  /** One host between two parts of an address, the first of which ends on a complete component. */
  lemma HostInside(a: string, proto: string, host: string, b: string, allow: bool)
    requires Complete(Components(Segs(a)))
    requires proto == "ip4" || proto == "ip6"
    requires '/' !in host && host != ""
    ensures
      var v := VerdictOf(proto + "/" + host, allow);
      && VerdictOf(a + "/" + (proto + "/" + host), allow) == Combined(VerdictOf(a, allow), v)
      && VerdictOf(a + "/" + (proto + "/" + host + "/" + b), allow) ==
         Combined(VerdictOf(a, allow), Combined(v, VerdictOf(b, allow)))
  {
    hide Components, Segs, Complete, VerdictOf, Combined;
    HostAlone(proto, host, allow);
    VerdictOfConcatenation(proto + "/" + host, b, allow);
    VerdictOfConcatenation(a, proto + "/" + host, allow);
    VerdictOfConcatenation(a, proto + "/" + host + "/" + b, allow);
  }

  /**
   Wherever a dotted quad stands in an address, it counts by its four numbers alone: with nothing after it, or with any
   rest after it.
   */
  lemma QuadsByValue(a: string, q: string, b: string, allow: bool)
    requires Complete(Components(Segs(a))) && IsQuad(q)
    ensures
      var v :=
        if QuadOf(q) == [0, 0, 0, 0] then Wildcard else if QuadOf(q)[0] == 127 && !allow then Loopback else Ok;
      && VerdictOf(a + "/" + ("ip4" + "/" + q), allow) == Combined(VerdictOf(a, allow), v)
      && VerdictOf(a + "/" + ("ip4" + "/" + q + "/" + b), allow) ==
         Combined(VerdictOf(a, allow), Combined(v, VerdictOf(b, allow)))
  {
    QuadText(q);
    hide IsQuad, Parse, VerdictOf, Components, Segs, Complete, Combined;
    HostAlone("ip4", q, allow);
    HostInside(a, "ip4", q, b, allow);
  }

  /**
   Wherever a form of an IPv6 address stands in an address, scoped or not, it counts by its eight words alone: with
   nothing after it, or with any rest after it.
   */
  lemma FormsByValue(a: string, f: Ip6Forms.Form, zone: string, text: string, b: string, allow: bool)
    requires Complete(Components(Segs(a))) && Ip6Forms.WellFormed(f) && '/' !in zone
    requires text == Ip6Forms.Text(f) || text == Ip6Forms.Text(f) + "%" + zone
    ensures
      var v :=
        if Ip6Forms.Address(f) == [0, 0, 0, 0, 0, 0, 0, 0] then Wildcard
        else if Ip6Forms.Address(f) == [0, 0, 0, 0, 0, 0, 0, 1] && !allow then Loopback else Ok;
      && VerdictOf(a + "/" + ("ip6" + "/" + text), allow) == Combined(VerdictOf(a, allow), v)
      && VerdictOf(a + "/" + ("ip6" + "/" + text + "/" + b), allow) ==
         Combined(VerdictOf(a, allow), Combined(v, VerdictOf(b, allow)))
  {
    FormText(f);
    Ip6Forms.FormsAreRead(f, zone);
    hide IsQuad, Parse, VerdictOf, Components, Segs, Complete, Combined, Ip6Forms.Text, Ip6Forms.WellFormed,
      Ip6Forms.Address;
    HostAlone("ip6", text, allow);
    HostInside(a, "ip6", text, b, allow);
  }

  lemma QuadText(q: string)
    requires IsQuad(q)
    ensures q != "" && '/' !in q
  {
    JoinSplit(q, '.');
    var p := Split(q, '.');
    forall k | 0 <= k < 4 ensures '/' !in p[k] {
      assert IsOctet(p[k]);
    }
    Ip6Forms.JoinFree(p, '.', '/');
    Ip6Forms.QuadIsPiece(q);
  }

  lemma FormText(f: Ip6Forms.Form)
    requires Ip6Forms.WellFormed(f)
    ensures Ip6Forms.Text(f) != "" && '/' !in Ip6Forms.Text(f)
  {
    Ip6Forms.WalkForm(f);
    match f
    case Full(g) =>
      NoSlash(g, true);
      Ip6Forms.JoinFree(g, ':', '/');
    case Elided(l, r) =>
      NoSlash(l, false);
      NoSlash(r, true);
      Ip6Forms.JoinFree(l, ':', '/');
      Ip6Forms.JoinFree(r, ':', '/');
  }

  lemma NoSlash(ts: seq<string>, quadAllowed: bool)
    requires Ip6Forms.Groups(ts, quadAllowed)
    ensures Free(ts, '/')
  {
    forall k | 0 <= k < |ts| ensures '/' !in ts[k] {
      if IsGroup(ts[k]) {
        assert forall j :: 0 <= j < |ts[k]| ==> HexValue(ts[k][j]) >= 0;
      } else {
        QuadText(ts[k]);
      }
    }
  }
}
