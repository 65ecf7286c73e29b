/**
 The textual forms of section 2.2 of RFC 4291, and what `parseIp6` makes of them:
 full groups, one run of zeros elided as `::`, a dotted quad at the end.
 */
module Ip6Forms {
  import opened Fields
  import opened Ip4
  import opened Ip6
  import opened Order

  /** A rendering of an address: the pieces between colons, or those on either side of `::`. */
  datatype Form = Full(groups: seq<string>) | Elided(left: seq<string>, right: seq<string>)

  function Text(f: Form): string {
    match f
    case Full(g) => Join(g, ':')
    case Elided(l, r) => Join(l, ':') + "::" + Join(r, ':')
  }

  predicate Readable(ts: seq<string>) {
    forall k :: 0 <= k < |ts| ==> WordsOf(ts[k]).Some?
  }

  /** The words that pieces stand for, one after the other. */
  function Value(ts: seq<string>): seq<nat>
    requires Readable(ts)
  {
    if ts == [] then [] else WordsOf(ts[0]).value + Value(ts[1..])
  }

  /** Groups of one to four hexadecimal digits, the last one possibly a dotted quad. */
  predicate Groups(ts: seq<string>, quadAllowed: bool) {
    forall k :: 0 <= k < |ts| ==> IsGroup(ts[k]) || (quadAllowed && k == |ts| - 1 && IsQuad(ts[k]))
  }

  predicate WellFormed(f: Form) {
    match f
    case Full(g) => Groups(g, true) && Readable(g) && |Value(g)| == 8
    case Elided(l, r) =>
      Groups(l, false) && Groups(r, true) && Readable(l) && Readable(r) && |Value(l)| + |Value(r)| <= 7
  }

  /** The eight words a form denotes. */
  function Address(f: Form): (a: seq<nat>)
    requires WellFormed(f)
    ensures |a| == 8
  {
    match f
    case Full(g) => Value(g)
    case Elided(l, r) => Value(l) + Zeros(8 - |Value(l)| - |Value(r)|) + Value(r)
  }

  // ------------------------------------------------------------ pieces in a row

  function PushAll(st: Scan, ts: seq<string>): Scan
    decreases |ts|
  {
    if ts == [] then st else PushAll(Push(st, ts[0]), ts[1..])
  }

  /** Pieces are neither empty nor contain a colon. */
  predicate Pieces(ts: seq<string>) {
    Free(ts, ':') && forall k :: 0 <= k < |ts| ==> ts[k] != ""
  }

  lemma JoinStarts(ts: seq<string>)
    requires ts != [] && Pieces(ts)
    ensures Join(ts, ':') != "" && Join(ts, ':')[0] == ts[0][0] != ':'
    ensures |ts| > 1 ==> Join(ts, ':') == ts[0] + ":" + Join(ts[1..], ':')
    ensures |ts| == 1 ==> Join(ts, ':') == ts[0]
  {
    assert ts[0][0] in ts[0];
  }

  lemma WalkPiece(t: string, rest: string, first: bool, st: Scan)
    requires t != "" && ':' !in t && (rest == "" || rest[0] == ':')
    ensures Walk(t + rest, first, st) == Walk(rest, false, Push(st, t))
  {
    var s := t + rest;
    if st.Fail? {
      WalkFail(s, first);
      WalkFail(rest, false);
    } else {
      hide Walk;
      assert s[0] == t[0] && t[0] in t;
      assert s[..|t|] == t && s[|t|..] == rest;
      FindUnique(s, ':', |t|);
      WalkCases(s, first, st);
    }
  }

  lemma WalkColon(s: string, st: Scan)
    requires s != "" && s[0] != ':'
    ensures Walk(":" + s, false, st) == Walk(s, false, st)
  {
    if st.Fail? {
      WalkFail(":" + s, false);
      WalkFail(s, false);
    } else {
      assert (":" + s)[1] == s[0] && (":" + s)[1..] == s;
      WalkCases(":" + s, false, st);
    }
  }

  /** The scan reads pieces between colons one after the other. */
  lemma {:induction false} WalkPieces(ts: seq<string>, rest: string, first: bool, st: Scan)
    requires ts != [] && Pieces(ts) && (rest == "" || rest[0] == ':')
    ensures Walk(Join(ts, ':') + rest, first, st) == Walk(rest, false, PushAll(st, ts))
  {
    hide Walk, Join, Push;
    JoinStarts(ts);
    if |ts| == 1 {
      WalkPiece(ts[0], rest, first, st);
      assert ts[1..] == [];
    } else {
      JoinStarts(ts[1..]);
      var tail := Join(ts[1..], ':') + rest;
      assert Join(ts, ':') + rest == ts[0] + (":" + tail);
      WalkPiece(ts[0], ":" + tail, first, st);
      WalkColon(tail, Push(st, ts[0]));
      WalkPieces(ts[1..], rest, false, Push(st, ts[0]));
    }
  }

  function Used(st: Scan): nat
    requires st.Seen?
  {
    if st.gap then |st.tail| else |st.head|
  }

  function Extend(st: Scan, w: seq<nat>): Scan
    requires st.Seen?
  {
    if st.gap then st.(tail := st.tail + w) else st.(head := st.head + w)
  }

  lemma {:induction false} PushAllFail(ts: seq<string>)
    ensures PushAll(Fail, ts) == Fail
  {
    if ts != [] {
      PushAllFail(ts[1..]);
    }
  }

  /** Reading pieces succeeds when each is readable and they fit, and appends their words. */
  lemma {:induction false} PushAllWords(st: Scan, ts: seq<string>)
    requires st.Seen? && Used(st) <= 8
    ensures PushAll(st, ts).Seen? <==> Readable(ts) && Used(st) + |Value(ts)| <= 8
    ensures PushAll(st, ts).Seen? ==> PushAll(st, ts) == Extend(st, Value(ts))
    decreases |ts|
  {
    hide Push, WordsOf;
    if ts == [] {
      assert st == Extend(st, []);
    } else {
      PushCases(st, ts[0]);
      if WordsOf(ts[0]).None? || Used(st) + |WordsOf(ts[0]).value| > 8 {
        PushAllFail(ts[1..]);
        if Readable(ts) {
          assert |Value(ts)| >= |WordsOf(ts[0]).value|;
        }
      } else {
        var w := WordsOf(ts[0]).value;
        PushAllWords(Extend(st, w), ts[1..]);
        ReadableSplit(ts);
        if Readable(ts[1..]) {
          assert Extend(st, w + Value(ts[1..])) == Extend(Extend(st, w), Value(ts[1..]));
        }
      }
    }
  }

  lemma ReadableSplit(ts: seq<string>)
    requires ts != []
    ensures Readable(ts) <==> WordsOf(ts[0]).Some? && Readable(ts[1..])
  {
    if WordsOf(ts[0]).Some? && Readable(ts[1..]) {
      forall k | 0 <= k < |ts| ensures WordsOf(ts[k]).Some? {
        assert k > 0 ==> ts[k] == ts[1..][k - 1];
      }
    }
  }

  // ------------------------------------------------------------- standard forms

  lemma GroupIsPiece(t: string)
    requires IsGroup(t)
    ensures t != "" && ':' !in t && '%' !in t && '.' !in t && WordsOf(t).Some?
  {
    assert forall k :: 0 <= k < |t| ==> HexValue(t[k]) >= 0;
  }

  lemma {:induction false} JoinFree(f: seq<string>, c: char, d: char)
    requires c != d && Free(f, d)
    ensures d !in Join(f, c)
  {
    if |f| > 1 {
      JoinFree(f[1..], c, d);
    }
  }

  lemma QuadIsPiece(t: string)
    requires IsQuad(t)
    ensures t != "" && ':' !in t && '%' !in t && '.' in t && WordsOf(t).Some?
  {
    var f := Split(t, '.');
    JoinSplit(t, '.');
    forall k | 0 <= k < 4 ensures ':' !in f[k] && '%' !in f[k] {
      assert IsOctet(f[k]);
    }
    JoinFree(f, '.', ':');
    JoinFree(f, '.', '%');
    JoinCons(f[0], f[1..], '.');
    assert f == [f[0]] + f[1..];
    assert t == f[0] + ['.'] + Join(f[1..], '.');
    assert t[|f[0]|] == '.';
  }

  lemma GroupsArePieces(ts: seq<string>, quadAllowed: bool)
    requires Groups(ts, quadAllowed)
    ensures Pieces(ts) && Free(ts, '%') && Readable(ts)
    ensures forall k :: 0 <= k < |ts| - 1 ==> '.' !in ts[k]
  {
    hide IsGroup, IsQuad, WordsOf;
    forall k | 0 <= k < |ts|
      ensures ts[k] != "" && ':' !in ts[k] && '%' !in ts[k] && WordsOf(ts[k]).Some?
      ensures k < |ts| - 1 ==> '.' !in ts[k]
    {
      if IsGroup(ts[k]) {
        GroupIsPiece(ts[k]);
      } else {
        QuadIsPiece(ts[k]);
      }
    }
  }

  lemma WalkGap(s: string, first: bool, st: Scan)
    requires st.Seen?
    ensures Walk("::" + s, first, st) == if st.gap then Fail else Walk(s, false, st.(gap := true))
  {
    assert ("::" + s)[2..] == s && "::" <= "::" + s;
    WalkCases("::" + s, first, st);
  }

  lemma WalkNil(first: bool, st: Scan)
    ensures Walk("", first, st) == st
  {
  }

  /** Pieces at the end of a literal, none of them allowed. */
  lemma WalkLast(ts: seq<string>, first: bool, st: Scan)
    requires Pieces(ts)
    ensures Walk(Join(ts, ':'), first, st) == PushAll(st, ts)
  {
    hide Walk;
    if ts == [] {
      WalkNil(first, st);
    } else {
      WalkPieces(ts, "", first, st);
      assert Join(ts, ':') + "" == Join(ts, ':');
      WalkNil(false, PushAll(st, ts));
    }
  }

  /** The scan of a literal with one `::` in it. */
  lemma WalkElided(l: seq<string>, r: seq<string>)
    requires Pieces(l) && Pieces(r)
    ensures Walk(Join(l, ':') + "::" + Join(r, ':'), true, START) ==
      var st := PushAll(START, l);
      if st.Fail? then Fail else PushAll(st.(gap := true), r)
    ensures PushAll(START, l).Seen? ==> !PushAll(START, l).gap
  {
    hide Walk, Join;
    var rest := "::" + Join(r, ':');
    var st := PushAll(START, l);
    PushAllWords(START, l);
    assert Join(l, ':') + "::" + Join(r, ':') == Join(l, ':') + rest;
    if l == [] {
      assert Join(l, ':') == "" by {
        JoinNone();
      }
      assert Join(l, ':') + rest == rest;
    } else {
      WalkPieces(l, rest, true, START);
    }
    var first := l == [];
    if st.Seen? {
      WalkGap(Join(r, ':'), first, st);
      WalkLast(r, false, st.(gap := true));
    } else {
      WalkFail(rest, first);
    }
  }

  lemma JoinNone()
    ensures Join([], ':') == ""
  {
  }

  lemma WalkForm(f: Form)
    requires WellFormed(f)
    ensures Text(f) != "" && '%' !in Text(f)
    ensures Expand(Walk(Text(f), true, START)) == Some(Address(f))
  {
    hide Walk, WordsOf, IsGroup, IsQuad;
    match f
    case Full(g) =>
      GroupsArePieces(g, true);
      JoinStarts(g);
      JoinFree(g, ':', '%');
      WalkLast(g, true, START);
      PushAllWords(START, g);
      assert [] + Value(g) == Value(g);
      assert PushAll(START, g) == Seen(Value(g), [], false);
    case Elided(l, r) =>
      GroupsArePieces(l, false);
      GroupsArePieces(r, true);
      JoinFree(l, ':', '%');
      JoinFree(r, ':', '%');
      WalkElided(l, r);
      PushAllWords(START, l);
      assert [] + Value(l) == Value(l) && [] + Value(r) == Value(r);
      var half := Seen(Value(l), [], true);
      assert PushAll(START, l).(gap := true) == half;
      PushAllWords(half, r);
      assert PushAll(half, r) == Seen(Value(l), Value(r), true);
  }

  lemma UnscopedOf(u: string, zone: string)
    requires '%' !in u
    ensures Unscoped(u) == u && Unscoped(u + "%" + zone) == u
  {
    FindUnique(u, '%', |u|);
    var s := u + "%" + zone;
    assert s[..|u|] == u;
    FindUnique(s, '%', |u|);
  }

  /** Every standard form of an address is accepted, with or without a scope id, and read as that address. */
  lemma FormsAreRead(f: Form, zone: string)
    requires WellFormed(f)
    ensures Parse(Text(f)) == Some(Address(f))
    ensures Parse(Text(f) + "%" + zone) == Some(Address(f))
  {
    WalkForm(f);
    UnscopedOf(Text(f), zone);
  }

  // ------------------------------------------------ every address has its forms

  function HexDigit(d: nat): (c: char)
    requires d < 16
    ensures HexValue(c) == d
  {
    if d < 10 then (d + '0' as int) as char else (d - 10 + 'a' as int) as char
  }

  /** A word as four hexadecimal digits. */
  function WordText(w: nat): string
    requires w < 0x1_0000
  {
    [HexDigit(w / 0x1000), HexDigit(w / 0x100 % 16), HexDigit(w / 0x10 % 16), HexDigit(w % 16)]
  }

  lemma FourDigits(w: nat)
    requires w < 0x1_0000
    ensures w == ((w / 0x1000 * 16 + w / 0x100 % 16) * 16 + w / 0x10 % 16) * 16 + w % 16
  {
    assert w / 0x100 == w / 0x10 / 16 && w / 0x1000 == w / 0x100 / 16;
  }

  lemma HexOfFour(t: string, a: nat, b: nat, c: nat, d: nat)
    requires |t| == 4 && HexValue(t[0]) == a && HexValue(t[1]) == b && HexValue(t[2]) == c && HexValue(t[3]) == d
    ensures IsGroup(t) && Hex(t) == ((a * 16 + b) * 16 + c) * 16 + d
  {
    hide HexValue, Hex;
    assert AllHex(t[..0]) && Hex(t[..0]) == 0 by {
      HexOfNone(t[..0]);
    }
    HexStep(t, 0);
    HexStep(t, 1);
    HexStep(t, 2);
    HexStep(t, 3);
    assert t[..4] == t;
  }

  lemma HexOfNone(t: string)
    requires t == ""
    ensures AllHex(t) && Hex(t) == 0
  {
  }

  lemma WordTextReads(w: nat)
    requires w < 0x1_0000
    ensures IsGroup(WordText(w)) && WordsOf(WordText(w)) == Some([w])
  {
    hide WordsOf, IsGroup, Hex;
    FourDigits(w);
    HexOfFour(WordText(w), w / 0x1000, w / 0x100 % 16, w / 0x10 % 16, w % 16);
    GroupIsPiece(WordText(w));
    WordsCases(WordText(w));
  }

  function Texts(g: seq<nat>): (ts: seq<string>)
    requires forall k :: 0 <= k < |g| ==> g[k] < 0x1_0000
    ensures |ts| == |g|
  {
    seq(|g|, k requires 0 <= k < |g| => WordText(g[k]))
  }

  lemma {:induction false} TextsRead(g: seq<nat>)
    requires forall k :: 0 <= k < |g| ==> g[k] < 0x1_0000
    ensures Groups(Texts(g), false) && Groups(Texts(g), true) && Readable(Texts(g)) && Value(Texts(g)) == g
  {
    hide WordText, WordsOf, IsGroup;
    forall k | 0 <= k < |g| ensures IsGroup(Texts(g)[k]) && WordsOf(Texts(g)[k]) == Some([g[k]]) {
      WordTextReads(g[k]);
    }
    if g != [] {
      TextsRead(g[1..]);
      assert Texts(g)[1..] == Texts(g[1..]);
      assert g == [g[0]] + g[1..];
    }
  }

  /** Every address has a full form, and an elided one for each of its non-empty runs of zero words. */
  lemma AddressHasForms(g: seq<nat>, a: nat, b: nat)
    requires |g| == 8 && forall k :: 0 <= k < 8 ==> g[k] < 0x1_0000
    requires a < b <= 8 && forall k :: a <= k < b ==> g[k] == 0
    ensures WellFormed(Full(Texts(g))) && Address(Full(Texts(g))) == g
    ensures
      var f := Elided(Texts(g[..a]), Texts(g[b..]));
      WellFormed(f) && Address(f) == g
  {
    hide Texts;
    TextsRead(g);
    TextsRead(g[..a]);
    TextsRead(g[b..]);
    assert g == g[..a] + Zeros(b - a) + g[b..];
  }

  // --------------------------------------------------- exactly the standard forms

  /** `u` is a form of section 2.2 of RFC 4291. */
  ghost predicate IsForm(u: string) {
    exists f :: WellFormed(f) && Text(f) == u
  }

  /** No lone colon at the end, no `:::`, and a dotted piece only at the end. */
  predicate Standard(u: string) {
    var f := Split(u, ':');
    && (|f| >= 2 && f[|f| - 1] == "" ==> f[|f| - 2] == "")
    && (forall k :: 1 <= k < |f| - 2 ==> f[k] != "" || f[k + 1] != "")
    && (forall k :: 0 <= k < |f| - 1 ==> '.' !in f[k])
  }

  lemma PiecesSplit(ts: seq<string>)
    requires Pieces(ts)
    ensures Split(Join(ts, ':'), ':') == if ts == [] then [""] else ts
  {
    if ts == [] {
      SplitAtom("", ':');
    } else {
      SplitJoin(ts, ':');
    }
  }

  lemma ElidedSplit(l: seq<string>, r: seq<string>)
    requires Pieces(l) && Pieces(r)
    ensures Split(Join(l, ':') + "::" + Join(r, ':'), ':')
         == (if l == [] then [""] else l) + [""] + if r == [] then [""] else r
  {
    hide Split, Join, Pieces;
    var a, b := Join(l, ':'), Join(r, ':');
    PiecesSplit(l);
    PiecesSplit(r);
    SplitAtom("", ':');
    SplitAppend("", b, ':');
    assert "" + [':'] + b == ":" + b;
    SplitAppend(a, ":" + b, ':');
    assert a + [':'] + (":" + b) == a + "::" + b;
  }

  /** Forms are standard. */
  lemma FormsAreStandard(f: Form)
    requires WellFormed(f)
    ensures Standard(Text(f))
  {
    hide WordsOf, IsGroup, IsQuad, Standard, Split, Join, Value;
    match f
    case Full(g) =>
      GroupsArePieces(g, true);
      PiecesSplit(g);
      FullIsStandard(Text(f), g);
    case Elided(l, r) =>
      GroupsArePieces(l, false);
      GroupsArePieces(r, true);
      LastIsPlain(l);
      ElidedSplit(l, r);
      ElidedIsStandard(Text(f), l, r);
  }

  lemma FullIsStandard(u: string, g: seq<string>)
    requires Pieces(g) && (forall k :: 0 <= k < |g| - 1 ==> '.' !in g[k])
    requires Split(u, ':') == if g == [] then [""] else g
    ensures Standard(u)
  {
    hide Split;
  }

  lemma ElidedIsStandard(u: string, l: seq<string>, r: seq<string>)
    requires Pieces(l) && Pieces(r)
    requires (forall k :: 0 <= k < |l| ==> '.' !in l[k]) && (forall k :: 0 <= k < |r| - 1 ==> '.' !in r[k])
    requires Split(u, ':') == (if l == [] then [""] else l) + [""] + if r == [] then [""] else r
    ensures Standard(u)
  {
    hide Split;
  }

  lemma LastIsPlain(l: seq<string>)
    requires Groups(l, false)
    ensures forall k :: 0 <= k < |l| ==> '.' !in l[k]
  {
    forall k | 0 <= k < |l| ensures '.' !in l[k] {
      GroupIsPiece(l[k]);
    }
  }

  lemma ReadableGroups(ts: seq<string>, quadAllowed: bool)
    requires Readable(ts)
    requires forall k :: 0 <= k < |ts| && (k < |ts| - 1 || !quadAllowed) ==> '.' !in ts[k]
    ensures Groups(ts, quadAllowed)
  {
    hide IsGroup, IsQuad, WordsOf;
    forall k | 0 <= k < |ts|
      ensures IsGroup(ts[k]) || (quadAllowed && k == |ts| - 1 && IsQuad(ts[k]))
    {
      WordsCases(ts[k]);
    }
  }

  /** Without an empty piece an accepted literal is a full form. */
  lemma FullForm(ts: seq<string>)
    requires ts != [] && Pieces(ts) && Expand(Walk(Join(ts, ':'), true, START)).Some?
    requires forall k :: 0 <= k < |ts| - 1 ==> '.' !in ts[k]
    ensures WellFormed(Full(ts))
  {
    hide Walk, WordsOf, Join;
    WalkLast(ts, true, START);
    PushAllWords(START, ts);
    ExpandCases(PushAll(START, ts));
    assert [] + Value(ts) == Value(ts);
    ReadableGroups(ts, true);
  }

  /** With one `::` between pieces it is an elided form. */
  lemma ElidedForm(l: seq<string>, r: seq<string>)
    requires Pieces(l) && Pieces(r)
    requires Expand(Walk(Join(l, ':') + "::" + Join(r, ':'), true, START)).Some?
    requires forall k :: 0 <= k < |l| ==> '.' !in l[k]
    requires forall k :: 0 <= k < |r| - 1 ==> '.' !in r[k]
    ensures WellFormed(Elided(l, r))
  {
    hide Walk, WordsOf, Join;
    WalkElided(l, r);
    ExpandCases(Fail);
    PushAllWords(START, l);
    assert [] + Value(l) == Value(l);
    var half := PushAll(START, l).(gap := true);
    PushAllWords(half, r);
    assert [] + Value(r) == Value(r);
    ExpandCases(PushAll(half, r));
    ReadableGroups(l, false);
    ReadableGroups(r, true);
  }

  /** A lone colon at the start is refused. */
  lemma LoneColonFails(f: seq<string>)
    requires |f| >= 2 && f[0] == "" && Free(f, ':') && (|f| == 2 || f[1] != "")
    ensures Walk(Join(f, ':'), true, START) == Fail
  {
    var s := Join(f, ':');
    JoinCons("", f[1..], ':');
    assert f == [""] + f[1..];
    assert s == ":" + Join(f[1..], ':');
    if f[1] != "" {
      if |f| > 2 {
        JoinCons(f[1], f[2..], ':');
        assert f[1..] == [f[1]] + f[2..];
      }
      assert f[1][0] in f[1];
      assert s[1] == f[1][0];
    } else {
      assert s == ":";
    }
    WalkCases(s, true, START);
  }

  /** A second `::` is refused. */
  lemma SecondGapFails(l: seq<string>, m: seq<string>, rest: string)
    requires Pieces(l) && Pieces(m) && m != []
    ensures Walk(Join(l, ':') + "::" + (Join(m, ':') + ("::" + rest)), true, START) == Fail
  {
    hide Walk, Join, Push;
    var tail := Join(m, ':') + ("::" + rest);
    var st := PushAll(START, l);
    PushAllWords(START, l);
    var first := l == [];
    if l == [] {
      JoinNone();
      assert Join(l, ':') + "::" + tail == "::" + tail;
    } else {
      assert Join(l, ':') + "::" + tail == Join(l, ':') + ("::" + tail);
      WalkPieces(l, "::" + tail, true, START);
    }
    if st.Fail? {
      WalkFail("::" + tail, first);
    } else {
      WalkGap(tail, first, st);
      var half := st.(gap := true);
      WalkPieces(m, "::" + rest, false, half);
      PushAllWords(half, m);
      if PushAll(half, m).Fail? {
        WalkFail("::" + rest, false);
      } else {
        WalkGap(rest, false, PushAll(half, m));
      }
    }
  }

  /** The first empty piece, if there is one. */
  lemma FirstEmpty(f: seq<string>) returns (k: nat)
    ensures k <= |f| && (k < |f| ==> f[k] == "")
    ensures forall j :: 0 <= j < k ==> f[j] != ""
  {
    k := 0;
    while k < |f| && f[k] != ""
      invariant k <= |f| && forall j :: 0 <= j < k ==> f[j] != ""
    {
      k := k + 1;
    }
  }

  /** Joining around an empty piece is joining around `::`. */
  lemma JoinAroundEmpty(f: seq<string>, k: nat)
    requires 0 < k < |f| - 1 && f[k] == ""
    ensures Join(f, ':') == Join(f[..k], ':') + "::" + Join(f[k + 1..], ':')
  {
    hide Join;
    var l, r := f[..k], f[k + 1..];
    JoinCons("", r, ':');
    assert f == l + ([""] + r);
    JoinAppend(l, [""] + r, ':');
    assert "" + [':'] + Join(r, ':') == ":" + Join(r, ':');
    assert Join(l, ':') + [':'] + (":" + Join(r, ':')) == Join(l, ':') + "::" + Join(r, ':');
  }

  /** What follows an accepted `::` has no empty piece, or is one. */
  lemma AfterGap(l: seq<string>, r: seq<string>)
    requires Pieces(l) && r != [] && Free(r, ':')
    requires Walk(Join(l, ':') + "::" + Join(r, ':'), true, START) != Fail
    requires r[0] != "" && r[|r| - 1] == "" ==> r[|r| - 2] == ""
    requires r[0] == "" ==> |r| == 1
    ensures r == [""] || Pieces(r)
  {
    if r != [""] {
      hide Walk, Join;
      var q := FirstEmpty(r);
      if q < |r| {
        InnerEmptyFails(l, r, q);
        assert false;
      }
    }
  }

  lemma InnerEmptyFails(l: seq<string>, r: seq<string>, q: nat)
    requires Pieces(l) && 0 < q < |r| - 1 && r[q] == "" && Pieces(r[..q])
    ensures Walk(Join(l, ':') + "::" + Join(r, ':'), true, START) == Fail
  {
    hide *;
    JoinAroundEmpty(r, q);
    var rest := Join(r[q + 1..], ':');
    assert Join(r[..q], ':') + "::" + rest == Join(r[..q], ':') + ("::" + rest);
    SecondGapFails(l, r[..q], rest);
  }

  lemma GapFormExists(u: string, l: seq<string>, r: seq<string>)
    requires Pieces(l) && r != [] && Free(r, ':') && u == Join(l, ':') + "::" + Join(r, ':')
    requires Expand(Walk(u, true, START)).Some?
    requires r[0] != "" && r[|r| - 1] == "" ==> r[|r| - 2] == ""
    requires r[0] == "" ==> |r| == 1
    requires forall k :: 0 <= k < |l| ==> '.' !in l[k]
    requires forall k :: 0 <= k < |r| - 1 ==> '.' !in r[k]
    ensures IsForm(u)
  {
    hide Walk, Join, WordsOf;
    ExpandCases(Fail);
    AfterGap(l, r);
    var right := if r == [""] then [] else r;
    JoinNone();
    JoinOne("", ':');
    assert Join(right, ':') == Join(r, ':');
    ElidedForm(l, right);
    assert Text(Elided(l, right)) == u;
  }

  /** An accepted literal that is standard is a form. */
  lemma StandardIsForm(u: string)
    requires u != "" && Expand(Walk(u, true, START)).Some? && Standard(u)
    ensures IsForm(u)
  {
    hide Walk, Join, Split, WordsOf, Expand, WellFormed;
    ExpandCases(Fail);
    var f := Split(u, ':');
    JoinSplit(u, ':');
    SplitFree(u, ':');
    var k := FirstEmpty(f);
    if k == |f| {
      FullForm(f);
      assert Text(Full(f)) == u;
    } else if k == 0 {
      if |f| == 1 {
        JoinSingle(f);
        assert false;
      }
      if |f| == 2 || f[1] != "" {
        LoneColonFails(f);
        assert false;
      }
      JoinTwoEmpty(f);
      GapFormExists(u, [], f[2..]);
    } else {
      JoinAroundEmpty(f, k);
      GapFormExists(u, f[..k], f[k + 1..]);
    }
  }

  lemma JoinSingle(f: seq<string>)
    requires |f| == 1
    ensures Join(f, ':') == f[0]
  {
  }

  lemma JoinTwoEmpty(f: seq<string>)
    requires |f| > 2 && f[0] == "" && f[1] == ""
    ensures Join(f, ':') == Join([], ':') + "::" + Join(f[2..], ':')
  {
    assert f[1..] == [""] + f[2..] && f == [""] + f[1..];
    JoinCons("", f[2..], ':');
    JoinCons("", f[1..], ':');
  }

  /** Dropping the scope id leaves nothing more to drop. */
  lemma UnscopedTwice(u: string)
    ensures '%' !in Unscoped(u) && Unscoped(Unscoped(u)) == Unscoped(u) && Parse(Unscoped(u)) == Parse(u)
    ensures '%' !in u ==> Unscoped(u) == u
  {
    hide Walk, Expand;
    UnscopedOf(Unscoped(u), "");
    if '%' !in u {
      UnscopedOf(u, "");
    }
  }

  lemma UnscopedForms(u: string)
    requires '%' !in u
    ensures IsForm(u) <==> Parse(u).Some? && Standard(u)
  {
    UnscopedOf(u, "");
    if IsForm(u) {
      var f :| WellFormed(f) && Text(f) == u;
      FormsAreRead(f, "");
      FormsAreStandard(f);
    }
    if Parse(u).Some? && Standard(u) {
      StandardIsForm(u);
    }
  }

  lemma FormHasNoScope(u: string)
    requires IsForm(u)
    ensures '%' !in u
  {
    hide Walk, Expand;
    var f :| WellFormed(f) && Text(f) == u;
    WalkForm(f);
  }

  /**
   Exactly the standard forms: what is before the scope id of a literal is one iff the literal is accepted and that part
   is standard; the whole literal is one iff it has no scope id besides.
   */
  lemma FormIffAcceptedAndStandard(u: string)
    ensures IsForm(Unscoped(u)) <==> Parse(u).Some? && Standard(Unscoped(u))
    ensures IsForm(u) <==> '%' !in u && Parse(u).Some? && Standard(u)
  {
    hide IsForm, Parse, Standard, Unscoped;
    UnscopedTwice(u);
    UnscopedForms(Unscoped(u));
    if IsForm(u) {
      FormHasNoScope(u);
    }
  }

  /** The other direction alone fails: a colon after any full form is accepted too, and is no form. */
  lemma TrailingColonIsAccepted(f: Form)
    requires f.Full? && WellFormed(f)
    ensures Parse(Text(f) + ":") == Some(Address(f)) && !IsForm(Text(f) + ":")
  {
    hide Walk, Join, Split, WordsOf, IsGroup, IsQuad;
    var g, u := f.groups, Text(f) + ":";
    GroupsArePieces(g, true);
    WalkPieces(g, ":", true, START);
    WalkLoneColon(PushAll(START, g));
    PushAllWords(START, g);
    assert [] + Value(g) == Value(g);
    JoinFree(g, ':', '%');
    UnscopedOf(u, "");
    PiecesSplit(g);
    SplitAtom("", ':');
    SplitAppend(Text(f), "", ':');
    assert Text(f) + [':'] + "" == u;
    UnscopedForms(u);
  }

  lemma WalkLoneColon(st: Scan)
    ensures Walk(":", false, st) == st
  {
  }

  /** A colon more changes nothing for the scan, once past the start and before a piece or the end. */
  lemma WalkExtraColon(r: seq<string>, st: Scan)
    requires Pieces(r)
    ensures Walk(":" + Join(r, ':'), false, st) == Walk(Join(r, ':'), false, st)
  {
    hide Walk, Join;
    if r == [] {
      JoinNone();
      assert ":" + "" == ":";
      WalkLoneColon(st);
      WalkNil(false, st);
    } else {
      JoinStarts(r);
      WalkColon(Join(r, ':'), st);
    }
  }

  /** The scan of a literal with `:::` in it is that of the literal with `::` in its place. */
  lemma WalkTriple(l: seq<string>, r: seq<string>)
    requires Pieces(l) && Pieces(r)
    ensures Walk(Join(l, ':') + ":::" + Join(r, ':'), true, START) ==
            Walk(Join(l, ':') + "::" + Join(r, ':'), true, START)
  {
    hide Walk, Join;
    var st := PushAll(START, l);
    var first := l == [];
    var three, two := "::" + (":" + Join(r, ':')), "::" + Join(r, ':');
    assert Join(l, ':') + ":::" + Join(r, ':') == Join(l, ':') + three;
    assert Join(l, ':') + "::" + Join(r, ':') == Join(l, ':') + two;
    if l == [] {
      JoinNone();
      assert "" + three == three && "" + two == two;
    } else {
      WalkPieces(l, three, true, START);
      WalkPieces(l, two, true, START);
    }
    if st.Seen? {
      WalkGap(":" + Join(r, ':'), first, st);
      WalkGap(Join(r, ':'), first, st);
      WalkExtraColon(r, st.(gap := true));
    } else {
      WalkFail(three, first);
      WalkFail(two, first);
    }
  }

  /** A third colon in the gap of any elided form is accepted as the same address, and is no form. */
  lemma TripleColonIsAccepted(f: Form)
    requires f.Elided? && WellFormed(f)
    ensures
      var u := Join(f.left, ':') + ":::" + Join(f.right, ':');
      Parse(u) == Some(Address(f)) && !IsForm(u)
  {
    hide Walk, Join, Split, WordsOf, IsGroup, IsQuad, PushAll, Expand;
    var l, r := f.left, f.right;
    var u := Join(l, ':') + ":::" + Join(r, ':');
    GroupsArePieces(l, false);
    GroupsArePieces(r, true);
    WalkTriple(l, r);
    WalkForm(f);
    JoinFree(l, ':', '%');
    JoinFree(r, ':', '%');
    UnscopedOf(u, "");
    assert !Standard(u) by {
      TripleSplit(l, r);
    }
    UnscopedForms(u);
  }

  lemma TripleSplit(l: seq<string>, r: seq<string>)
    requires Pieces(l) && Pieces(r)
    ensures !Standard(Join(l, ':') + ":::" + Join(r, ':'))
  {
    hide Split, Join, Pieces;
    var a, b := Join(l, ':'), Join(r, ':');
    var u := a + ":::" + b;
    PiecesSplit(l);
    PiecesSplit(r);
    SplitAtom("", ':');
    SplitAppend("", b, ':');
    assert "" + [':'] + b == ":" + b;
    SplitAppend("", ":" + b, ':');
    assert "" + [':'] + (":" + b) == "::" + b;
    SplitAppend(a, "::" + b, ':');
    assert a + [':'] + ("::" + b) == u;
    var x, y := if l == [] then [""] else l, if r == [] then [""] else r;
    var f := Split(u, ':');
    assert f == x + (["" ] + ([""] + y));
    assert f[|x|] == "" && f[|x| + 1] == "";
  }

  /**
   Dotted quads are accepted at any place among groups, and read in place; the literal is a form iff none but the last
   piece is one.
   */
  lemma InnerQuadIsAccepted(ts: seq<string>)
    requires (forall k :: 0 <= k < |ts| ==> IsGroup(ts[k]) || IsQuad(ts[k])) && Readable(ts) && |Value(ts)| == 8
    ensures Parse(Join(ts, ':')) == Some(Value(ts))
    ensures IsForm(Join(ts, ':')) <==> forall k :: 0 <= k < |ts| - 1 ==> !IsQuad(ts[k])
  {
    hide Walk, Join, Split, WordsOf, IsGroup, IsQuad;
    var u := Join(ts, ':');
    forall k | 0 <= k < |ts|
      ensures ts[k] != "" && ':' !in ts[k] && '%' !in ts[k] && (IsQuad(ts[k]) <==> '.' in ts[k])
    {
      if IsGroup(ts[k]) {
        GroupIsPiece(ts[k]);
      }
      if IsQuad(ts[k]) {
        QuadIsPiece(ts[k]);
      }
    }
    WalkLast(ts, true, START);
    PushAllWords(START, ts);
    assert [] + Value(ts) == Value(ts);
    JoinFree(ts, ':', '%');
    UnscopedOf(u, "");
    PiecesSplit(ts);
    UnscopedForms(u);
    JoinStarts(ts);
  }
}
