/** IPv6 literals (src/addr_filter.cpp:57-128). */
module Ip6 {
  import opened Digits
  import opened Fields
  import opened Ip4
  import opened Order

  /** The value of a hexadecimal digit in either case, -1 for other characters. */
  function HexValue(c: char): (d: int)
    ensures -1 <= d < 16
  {
    if '0' <= c <= '9' then c as int - '0' as int
    else if 'a' <= c <= 'f' then c as int - 'a' as int + 10
    else if 'A' <= c <= 'F' then c as int - 'A' as int + 10
    else -1
  }

  predicate AllHex(s: string) {
    forall k :: 0 <= k < |s| ==> HexValue(s[k]) >= 0
  }

  function HexValues(s: string): (d: seq<nat>)
    requires AllHex(s)
    ensures |d| == |s| && forall k :: 0 <= k < |s| ==> d[k] == HexValue(s[k])
  {
    seq(|s|, k requires 0 <= k < |s| => HexValue(s[k]))
  }

  /** One to four hexadecimal digits. */
  predicate IsGroup(s: string) {
    1 <= |s| <= 4 && AllHex(s)
  }

  function Hex(s: string): nat
    requires AllHex(s)
  {
    Num(16, HexValues(s))
  }

  /** The 16-bit words one piece between colons stands for: a group is one, a dotted quad two. */
  function WordsOf(t: string): Option<seq<nat>> {
    if '.' in t then
      if IsQuad(t) then
        var v := QuadOf(t);
        Some([v[0] * 256 + v[1], v[2] * 256 + v[3]])
      else None
    else if IsGroup(t) then Some([Hex(t)])
    else None
  }

  /** What the scan has collected: words before and after the gap `::`. */
  datatype Scan = Fail | Seen(head: seq<nat>, tail: seq<nat>, gap: bool)

  const START := Seen([], [], false)

  function Push(st: Scan, t: string): Scan {
    if st.Fail? then Fail
    else
      match WordsOf(t)
      case None => Fail
      case Some(w) =>
        if st.gap then
          if |st.tail| + |w| > 8 then Fail else st.(tail := st.tail + w)
        else
          if |st.head| + |w| > 8 then Fail else st.(head := st.head + w)
  }

  /** The scan from `s` on; `first` says that `s` is the whole literal. */
  function Walk(s: string, first: bool, st: Scan): Scan
    decreases |s|
  {
    if st.Fail? || s == "" then st
    else if "::" <= s then
      if st.gap then Fail else Walk(s[2..], false, st.(gap := true))
    else if s[0] == ':' then
      if first then Fail else Walk(s[1..], false, st)
    else
      var j := Find(s, ':');
      Walk(s[j..], false, Push(st, s[..j]))
  }

  function Zeros(n: nat): (z: seq<nat>)
    ensures |z| == n && forall k :: 0 <= k < n ==> z[k] == 0
  {
    seq(n, _ => 0)
  }

  /** The eight words, the gap standing for at least one zero word. */
  function Expand(st: Scan): (g: Option<seq<nat>>)
    ensures g.Some? ==> |g.value| == 8
  {
    if st.Fail? then None
    else if !st.gap then if |st.head| == 8 then Some(st.head) else None
    else if |st.head| + |st.tail| > 7 then None
    else Some(st.head + Zeros(8 - |st.head| - |st.tail|) + st.tail)
  }

  /** The literal without its scope id. */
  function Unscoped(s: string): string {
    s[..Find(s, '%')]
  }

  /** The eight words that `parseIp6` reads, if it accepts. */
  function Parse(s: string): (g: Option<seq<nat>>)
    ensures g.Some? ==> |g.value| == 8
  {
    if Unscoped(s) == "" then None else Expand(Walk(Unscoped(s), true, START))
  }

  lemma HexStep(s: string, i: nat)
    requires i < |s| && AllHex(s[..i]) && HexValue(s[i]) >= 0
    ensures AllHex(s[..i + 1]) && Hex(s[..i + 1]) == Hex(s[..i]) * 16 + HexValue(s[i])
  {
    assert s[..i + 1] == s[..i] + [s[i]];
    assert HexValues(s[..i + 1]) == HexValues(s[..i]) + [HexValue(s[i])];
    NumSnoc(16, HexValues(s[..i]), HexValue(s[i]));
  }

  /** `parseHex16` */
  method ParseHex16(s: string) returns (ok: bool, out: nat)
    ensures ok <==> IsGroup(s)
    ensures ok ==> out == Hex(s)
  {
    if s == "" || |s| > 4 {
      return false, 0;
    }
    var v := 0;
    var i := 0;
    while i < |s|
      invariant 0 <= i <= |s| && AllHex(s[..i]) && v == Hex(s[..i])
    {
      var c := s[i];
      var d := 0;
      if '0' <= c && c <= '9' {
        d := c as int - '0' as int;
      } else if 'a' <= c && c <= 'f' {
        d := c as int - 'a' as int + 10;
      } else if 'A' <= c && c <= 'F' {
        d := c as int - 'A' as int + 10;
      } else {
        assert HexValue(s[i]) < 0;
        return false, 0;
      }
      HexStep(s, i);
      v := v * 16 + d;
      i := i + 1;
    }
    assert s[..i] == s;
    return true, v;
  }

  lemma WalkCases(s: string, first: bool, st: Scan)
    requires s != "" && st.Seen?
    ensures "::" <= s && st.gap ==> Walk(s, first, st) == Fail
    ensures "::" <= s && !st.gap ==> Walk(s, first, st) == Walk(s[2..], false, st.(gap := true))
    ensures !("::" <= s) && s[0] == ':' ==> Walk(s, first, st) == if first then Fail else Walk(s[1..], false, st)
    ensures s[0] != ':' ==>
      Find(s, ':') > 0 && Walk(s, first, st) == Walk(s[Find(s, ':')..], false, Push(st, s[..Find(s, ':')]))
  {
  }

  /** One turn of the scan at position `i`. */
  lemma WalkStep(s: string, i: nat, st: Scan)
    requires i < |s| && st.Seen?
    ensures "::" <= s[i..] ==>
      Walk(s[i..], i == 0, st) == if st.gap then Fail else Walk(s[i + 2..], false, st.(gap := true))
    ensures !("::" <= s[i..]) && s[i] == ':' ==>
      Walk(s[i..], i == 0, st) == if i == 0 then Fail else Walk(s[i + 1..], false, st)
    ensures s[i] != ':' ==>
      var j := i + Find(s[i..], ':');
      i < j <= |s| && Walk(s[i..], i == 0, st) == Walk(s[j..], false, Push(st, s[i..j]))
  {
    hide Walk, Push, Find;
    WalkCases(s[i..], i == 0, st);
    if "::" <= s[i..] {
      assert s[i..][2..] == s[i + 2..];
    } else if s[i] == ':' {
      assert s[i..][1..] == s[i + 1..];
    } else {
      var j := i + Find(s[i..], ':');
      assert s[i..][..j - i] == s[i..j] && s[i..][j - i..] == s[j..];
    }
  }

  lemma WalkFail(s: string, first: bool)
    ensures Walk(s, first, Fail) == Fail
  {
  }

  lemma WalkEnd(s: string, first: bool, st: Scan)
    ensures Walk(s[|s|..], first, st) == st
  {
  }

  lemma ExpandCases(st: Scan)
    ensures st.Fail? ==> Expand(st).None?
    ensures st.Seen? && !st.gap ==> Expand(st) == if |st.head| == 8 then Some(st.head) else None
    ensures st.Seen? && st.gap && |st.head| + |st.tail| > 7 ==> Expand(st).None?
    ensures st.Seen? && st.gap && |st.head| + |st.tail| <= 7 ==>
      Expand(st) == Some(st.head + Zeros(8 - |st.head| - |st.tail|) + st.tail)
  {
  }

  lemma PushCases(st: Scan, t: string)
    requires st.Seen?
    ensures
      var n := if st.gap then |st.tail| else |st.head|;
      && (WordsOf(t).None? ==> Push(st, t) == Fail)
      && (WordsOf(t).Some? && n + |WordsOf(t).value| > 8 ==> Push(st, t) == Fail)
      && (WordsOf(t).Some? && n + |WordsOf(t).value| <= 8 ==>
            Push(st, t) == if st.gap then st.(tail := st.tail + WordsOf(t).value)
                           else st.(head := st.head + WordsOf(t).value))
  {
  }

  /** `group.find('.') != npos` */
  lemma FindIn(t: string, c: char)
    ensures Find(t, c) < |t| <==> c in t
  {
    if Find(t, c) == |t| {
      assert t[..|t|] == t;
    }
  }

  lemma UnscopedIs(text: string, s: string)
    requires s == text[..Find(text, '%')] || (Find(text, '%') == |text| && s == text)
    ensures s == "" ==> Parse(text).None?
    ensures s != "" ==> Parse(text) == Outcome(s)
  {
    assert text[..|text|] == text;
  }

  lemma WordsCases(t: string)
    ensures '.' in t && !IsQuad(t) ==> WordsOf(t) == None
    ensures '.' in t && IsQuad(t) ==>
      WordsOf(t) == Some([QuadOf(t)[0] * 256 + QuadOf(t)[1], QuadOf(t)[2] * 256 + QuadOf(t)[3]])
    ensures '.' !in t ==> WordsOf(t) == if IsGroup(t) then Some([Hex(t)]) else None
  {
  }

  /** The inner part of the scan: one piece is read into the buffer in use, `n` words of it filled. */
  method ReadGroup(group: string, dst: array<nat>, n: nat) returns (ok: bool, m: nat)
    requires dst.Length == 8 && n <= 8
    modifies dst
    ensures ok <==> WordsOf(group).Some? && n + |WordsOf(group).value| <= 8
    ensures ok ==> m <= 8 && dst[..m] == old(dst[..n]) + WordsOf(group).value
  {
    hide WordsOf, IsQuad, QuadOf, IsGroup, Hex, Find;
    WordsCases(group);
    FindIn(group, '.');
    ghost var before := dst[..n];
    if Find(group, '.') < |group| {
      var good, v4 := ParseIp4(group);
      if !good {
        return false, 0;
      }
      if n + 2 > 8 {
        return false, 0;
      }
      dst[n] := v4[0] * 256 + v4[1];
      dst[n + 1] := v4[2] * 256 + v4[3];
      assert dst[..n + 2] == before + [dst[n], dst[n + 1]];
      return true, n + 2;
    }
    var good, g := ParseHex16(group);
    if !good {
      return false, 0;
    }
    if n >= 8 {
      return false, 0;
    }
    dst[n] := g;
    assert dst[..n + 1] == before + [g];
    return true, n + 1;
  }

  /** The last part: both halves copied into a zeroed buffer, the tail at its end. */
  method FillGap(head: array<nat>, nHead: nat, tail: array<nat>, nTail: nat) returns (out: seq<nat>)
    requires head.Length == tail.Length == 8 && nHead + nTail <= 7
    ensures out == head[..nHead] + Zeros(8 - nHead - nTail) + tail[..nTail]
  {
    var buf := new nat[8](_ => 0);
    var k := 0;
    while k < nHead
      invariant 0 <= k <= nHead
      invariant forall i :: 0 <= i < 8 ==> buf[i] == if i < k then head[i] else 0
    {
      buf[k] := head[k];
      k := k + 1;
    }
    k := 0;
    while k < nTail
      invariant 0 <= k <= nTail
      invariant forall i :: 0 <= i < 8 ==>
        buf[i] == if i < nHead then head[i] else if 8 - nTail <= i < 8 - nTail + k then tail[i - 8 + nTail] else 0
    {
      buf[8 - nTail + k] := tail[k];
      k := k + 1;
    }
    return buf[..];
  }

  /** The scan of `s` has come to position `i` with `st`. */
  ghost predicate Reached(s: string, i: nat, st: Scan) {
    && i <= |s| && st.Seen?
    && Walk(s, true, START) == Walk(s[i..], i == 0, st)
  }

  /** What the whole scan of `s` gives. */
  ghost function Outcome(s: string): Option<seq<nat>> {
    Expand(Walk(s, true, START))
  }

  lemma StartIs()
    ensures START == Seen([], [], false)
  {
  }

  lemma ReachedStart(s: string)
    ensures Reached(s, 0, START)
  {
    assert s[0..] == s;
  }

  lemma ReachedGap(s: string, i: nat, st: Scan)
    requires Reached(s, i, st) && i < |s| && "::" <= s[i..]
    ensures st.gap ==> Outcome(s).None?
    ensures !st.gap ==> Reached(s, i + 2, st.(gap := true))
  {
    WalkStep(s, i, st);
  }

  lemma ReachedColon(s: string, i: nat, st: Scan)
    requires Reached(s, i, st) && i < |s| && s[i] == ':' && !("::" <= s[i..])
    ensures i == 0 ==> Outcome(s).None?
    ensures i > 0 ==> Reached(s, i + 1, st)
  {
    WalkStep(s, i, st);
  }

  lemma ReachedPiece(s: string, i: nat, st: Scan, j: nat)
    requires Reached(s, i, st) && i < |s| && s[i] != ':' && j == i + Find(s[i..], ':')
    ensures i < j <= |s|
    ensures
      var w := WordsOf(s[i..j]);
      var n := if st.gap then |st.tail| else |st.head|;
      && (w.None? || n + |w.value| > 8 ==> Outcome(s).None?)
      && (w.Some? && n + |w.value| <= 8 ==>
            Reached(s, j, if st.gap then st.(tail := st.tail + w.value) else st.(head := st.head + w.value)))
  {
    hide Walk, Push, WordsOf, Find, Expand;
    ExpandCases(Fail);
    WalkStep(s, i, st);
    PushCases(st, s[i..j]);
    WalkFail(s[j..], false);
  }

  lemma ReachedEnd(s: string, st: Scan)
    requires Reached(s, |s|, st)
    ensures Outcome(s) == Expand(st)
  {
    WalkEnd(s, |s| == 0, st);
  }

  /** `parseIp6`: eight-word buffers before and after the gap, filled left to right. */
  method ParseIp6(text: string) returns (ok: bool, out: seq<nat>)
    ensures ok <==> Parse(text).Some?
    ensures ok ==> out == Parse(text).value
  {
    hide *;
    var s := text;
    var pct := Find(text, '%');
    if pct < |text| {
      s := text[..pct];
    }
    UnscopedIs(text, s);
    if s == "" {
      return false, [];
    }
    var head, tail := new nat[8](_ => 0), new nat[8](_ => 0);
    var nHead: nat, nTail: nat, afterGap := 0, 0, false;
    var i := 0;
    ghost var st := START;
    ReachedStart(s);
    assert st == Seen(head[..0], tail[..0], false) by {
      StartIs();
    }
    while i < |s|
      invariant 0 <= i <= |s| && nHead <= 8 && nTail <= 8
      invariant st == Seen(head[..nHead], tail[..nTail], afterGap)
      invariant Reached(s, i, st)
    {
      if "::" <= s[i..] {
        ReachedGap(s, i, st);
        if afterGap {
          return false, [];
        }
        afterGap := true;
        st := st.(gap := true);
        i := i + 2;
        continue;
      }
      if s[i] == ':' {
        ReachedColon(s, i, st);
        if i == 0 {
          return false, [];
        }
        i := i + 1;
        continue;
      }
      var j := i + Find(s[i..], ':');
      ReachedPiece(s, i, st, j);
      if afterGap {
        var good, n := ReadGroup(s[i..j], tail, nTail);
        if !good {
          return false, [];
        }
        nTail := n;
      } else {
        var good, n := ReadGroup(s[i..j], head, nHead);
        if !good {
          return false, [];
        }
        nHead := n;
      }
      st := Seen(head[..nHead], tail[..nTail], afterGap);
      i := j;
    }
    ReachedEnd(s, st);
    ExpandCases(st);
    if !afterGap {
      if nHead != 8 {
        return false, [];
      }
      assert head[..8] == head[..];
      return true, head[..];
    }
    if nHead + nTail > 7 {
      return false, [];
    }
    out := FillGap(head, nHead, tail, nTail);
    return true, out;
  }
}
