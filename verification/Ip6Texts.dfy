/** What `parseIp6` makes of every way to write an address: letters of either case, one to four digits, any gap. */
module Ip6Texts {
  import opened Fields
  import opened Ip4
  import opened Ip6
  import opened Ip6Forms
  import opened Numerals
  import opened Order

  // ------------------------------------------------------------------------- the case

  function UpperChar(c: char): char {
    if 'a' <= c <= 'z' then (c as int - 'a' as int + 'A' as int) as char else c
  }

  function LowerChar(c: char): char {
    if 'A' <= c <= 'Z' then (c as int - 'A' as int + 'a' as int) as char else c
  }

  function Upper(s: string): (t: string)
    ensures |t| == |s| && forall k :: 0 <= k < |s| ==> t[k] == UpperChar(s[k])
  {
    seq(|s|, k requires 0 <= k < |s| => UpperChar(s[k]))
  }

  function Lower(s: string): (t: string)
    ensures |t| == |s| && forall k :: 0 <= k < |s| ==> t[k] == LowerChar(s[k])
  {
    seq(|s|, k requires 0 <= k < |s| => LowerChar(s[k]))
  }

  /** The same text, up to the case of its letters. */
  predicate SameButCase(s: string, t: string) {
    |s| == |t| && forall k :: 0 <= k < |s| ==> LowerChar(s[k]) == LowerChar(t[k])
  }

  predicate IsLetter(c: char) {
    'a' <= LowerChar(c) <= 'z'
  }

  /** A letter means the same in either case, and any other character is itself. */
  lemma SameChar(c: char, d: char)
    requires LowerChar(c) == LowerChar(d)
    ensures HexValue(c) == HexValue(d)
    ensures !IsLetter(c) || !IsLetter(d) ==> c == d
  {
  }

  lemma SameFind(s: string, t: string, c: char)
    requires SameButCase(s, t) && !IsLetter(c)
    ensures Find(s, c) == Find(t, c)
  {
    hide LowerChar, IsLetter;
    forall k | 0 <= k < |s|
      ensures s[k] == c <==> t[k] == c
    {
      SameChar(s[k], t[k]);
    }
    var j := Find(t, c);
    forall k | 0 <= k < j
      ensures s[k] != c
    {
      assert t[k] == t[..j][k];
    }
    FindUnique(s, c, j);
  }

  lemma Marks()
    ensures !IsLetter(':') && !IsLetter('%') && !IsLetter('.')
    ensures forall c :: IsDigit(c) ==> !IsLetter(c)
  {
  }

  /** What has a dot among digits has no letters, so the case of a quad cannot differ. */
  lemma QuadHasNoLetters(s: string)
    requires IsQuad(s)
    ensures forall k :: 0 <= k < |s| ==> !IsLetter(s[k])
  {
    var f := Split(s, '.');
    JoinSplit(s, '.');
    forall c | IsLetter(c)
      ensures c !in s
    {
      forall k | 0 <= k < 4
        ensures c !in f[k]
      {
        assert IsOctet(f[k]);
      }
      JoinFree(f, '.', c);
    }
  }

  lemma SameQuad(s: string, t: string)
    requires SameButCase(s, t) && IsQuad(s)
    ensures t == s
  {
    hide IsQuad, LowerChar, IsLetter;
    QuadHasNoLetters(s);
    forall k | 0 <= k < |s|
      ensures t[k] == s[k]
    {
      SameChar(s[k], t[k]);
    }
  }

  lemma SameWords(s: string, t: string)
    requires SameButCase(s, t)
    ensures WordsOf(s) == WordsOf(t)
  {
    hide WordsOf, LowerChar, HexValue, IsQuad, QuadOf, Find;
    Marks();
    SameFind(s, t, '.');
    FindIn(s, '.');
    FindIn(t, '.');
    WordsCases(s);
    WordsCases(t);
    if IsQuad(s) {
      SameQuad(s, t);
    } else if IsQuad(t) {
      SameQuad(t, s);
    }
    forall k | 0 <= k < |s|
      ensures HexValue(s[k]) == HexValue(t[k])
    {
      SameChar(s[k], t[k]);
    }
    if IsGroup(s) {
      assert HexValues(s) == HexValues(t);
    }
  }

  /** The scan does not see the case of letters. */
  lemma {:induction false} SameWalk(s: string, t: string, first: bool, st: Scan)
    requires SameButCase(s, t)
    ensures Walk(s, first, st) == Walk(t, first, st)
    decreases |s|
  {
    hide Walk, Push, WordsOf, IsLetter, LowerChar;
    Marks();
    if st.Fail? {
      WalkFail(s, first);
      WalkFail(t, first);
    } else if s == "" {
      WalkNil(first, st);
    } else {
      WalkCases(s, first, st);
      WalkCases(t, first, st);
      SameChar(s[0], t[0]);
      if |s| > 1 {
        SameChar(s[1], t[1]);
      }
      if "::" <= s {
        SameWalk(s[2..], t[2..], false, st.(gap := true));
      } else if s[0] == ':' {
        SameWalk(s[1..], t[1..], false, st);
      } else {
        SameFind(s, t, ':');
        var j := Find(s, ':');
        SameWords(s[..j], t[..j]);
        SamePush(st, s[..j], t[..j]);
        StartsPiece(s);
        SameWalk(s[j..], t[j..], false, Push(st, s[..j]));
      }
    }
  }

  lemma SamePush(st: Scan, s: string, t: string)
    requires WordsOf(s) == WordsOf(t)
    ensures Push(st, s) == Push(st, t)
  {
  }

  lemma StartsPiece(s: string)
    requires s != "" && s[0] != ':'
    ensures Find(s, ':') > 0
  {
  }

  /** Case is irrelevant: texts that differ only in the case of letters are accepted alike and read as one address. */
  lemma SameButCaseReadsAlike(u: string, v: string)
    requires SameButCase(u, v)
    ensures Parse(u) == Parse(v)
  {
    hide Walk, Expand;
    Marks();
    SameFind(u, v, '%');
    SameWalk(Unscoped(u), Unscoped(v), true, START);
  }

  lemma CaseIsIrrelevant(u: string)
    ensures Parse(Upper(u)) == Parse(u) == Parse(Lower(u))
  {
    hide Parse;
    SameButCaseReadsAlike(Upper(u), u);
    SameButCaseReadsAlike(u, Lower(u));
  }

  // -------------------------------------------------------------------- any rendering

  /** `t` writes the word `w` in one to four hexadecimal digits, each in either case. */
  ghost predicate Renders(t: string, w: nat) {
    exists d, caps :: Hexes(d, caps) && t == Spelled(d, caps) && Worth(d) == w
  }

  lemma RenderedReads(t: string, w: nat)
    requires Renders(t, w)
    ensures IsGroup(t) && WordsOf(t) == Some([w])
  {
    hide Spelled, Worth, WordsOf;
    var d, caps :| Hexes(d, caps) && t == Spelled(d, caps) && Worth(d) == w;
    SpelledReads(d, caps);
  }

  ghost predicate AllRender(ts: seq<string>, g: seq<nat>) {
    |ts| == |g| && forall k :: 0 <= k < |g| ==> Renders(ts[k], g[k])
  }

  lemma {:induction false} RenderedWords(ts: seq<string>, g: seq<nat>)
    requires AllRender(ts, g)
    ensures Groups(ts, false) && Groups(ts, true) && Readable(ts) && Value(ts) == g
  {
    hide Renders, WordsOf, IsGroup;
    forall k | 0 <= k < |g|
      ensures IsGroup(ts[k]) && WordsOf(ts[k]) == Some([g[k]])
    {
      RenderedReads(ts[k], g[k]);
    }
    if g != [] {
      RenderedWords(ts[1..], g[1..]);
      assert g == [g[0]] + g[1..];
    }
  }

  /** Every rendering of the eight words, each in one to four digits of either case, is a form of just that address. */
  lemma AnyFullRendering(ts: seq<string>, g: seq<nat>)
    requires AllRender(ts, g) && |g| == 8
    ensures WellFormed(Full(ts)) && Address(Full(ts)) == g && Parse(Join(ts, ':')) == Some(g)
  {
    hide AllRender, Parse;
    RenderedWords(ts, g);
    FormsAreRead(Full(ts), "");
  }

  /** With any of its non-empty runs of zero words elided. */
  lemma AnyElidedRendering(l: seq<string>, r: seq<string>, g: seq<nat>, a: nat, b: nat)
    requires |g| == 8 && a < b <= 8 && forall k :: a <= k < b ==> g[k] == 0
    requires AllRender(l, g[..a]) && AllRender(r, g[b..])
    ensures WellFormed(Elided(l, r)) && Address(Elided(l, r)) == g
    ensures Parse(Join(l, ':') + "::" + Join(r, ':')) == Some(g)
  {
    hide AllRender, Parse;
    RenderedWords(l, g[..a]);
    RenderedWords(r, g[b..]);
    assert g == g[..a] + Zeros(b - a) + g[b..];
    FormsAreRead(Elided(l, r), "");
  }

  /** With the last two words as a dotted quad of their four bytes, in full or after a gap. */
  lemma AnyDottedRendering(l: seq<string>, r: seq<string>, n: seq<nat>, w: seq<nat>, g: seq<nat>, a: nat, b: nat)
    requires |n| == |w| == 4 && forall k :: 0 <= k < 4 ==> n[k] <= 255 && Wide(n[k], w[k])
    requires |g| == 8 && g[6] == n[0] * 256 + n[1] && g[7] == n[2] * 256 + n[3]
    requires a < b <= 6 && forall k :: a <= k < b ==> g[k] == 0
    requires AllRender(l, g[..a]) && AllRender(r, g[b..6])
    ensures Parse(Join(l, ':') + "::" + Join(r + [Dotted(n, w)], ':')) == Some(g)
  {
    hide AllRender, Parse, IsQuad, WordsOf, Dotted;
    RenderedWords(l, g[..a]);
    RenderedWords(r, g[b..6]);
    QuadLast(r, n, w);
    assert g == g[..a] + Zeros(b - a) + (g[b..6] + [g[6], g[7]]);
    FormsAreRead(Elided(l, r + [Dotted(n, w)]), "");
  }

  lemma AnyFullDottedRendering(ts: seq<string>, n: seq<nat>, w: seq<nat>, g: seq<nat>)
    requires |n| == |w| == 4 && forall k :: 0 <= k < 4 ==> n[k] <= 255 && Wide(n[k], w[k])
    requires |g| == 8 && g[6] == n[0] * 256 + n[1] && g[7] == n[2] * 256 + n[3] && AllRender(ts, g[..6])
    ensures Parse(Join(ts + [Dotted(n, w)], ':')) == Some(g)
  {
    hide AllRender, Parse, IsQuad, WordsOf, Dotted;
    RenderedWords(ts, g[..6]);
    QuadLast(ts, n, w);
    assert g == g[..6] + [g[6], g[7]];
    FormsAreRead(Full(ts + [Dotted(n, w)]), "");
  }

  lemma QuadLast(ts: seq<string>, n: seq<nat>, w: seq<nat>)
    requires |n| == |w| == 4 && forall k :: 0 <= k < 4 ==> n[k] <= 255 && Wide(n[k], w[k])
    requires Groups(ts, false) && Readable(ts)
    ensures
      var all := ts + [Dotted(n, w)];
      Groups(all, true) && Readable(all) && Value(all) == Value(ts) + [n[0] * 256 + n[1], n[2] * 256 + n[3]]
  {
    hide IsGroup, IsQuad, WordsOf, Dotted;
    var q := Dotted(n, w);
    DottedReads(n, w);
    DottedHasDot(n, w);
    WordsCases(q);
    ValueSnoc(ts, q);
  }

  lemma {:induction false} ValueSnoc(ts: seq<string>, t: string)
    requires Readable(ts) && WordsOf(t).Some?
    ensures Readable(ts + [t]) && Value(ts + [t]) == Value(ts) + WordsOf(t).value
  {
    hide WordsOf;
    if ts == [] {
      assert ts + [t] == [t] && [t][1..] == [];
    } else {
      ValueSnoc(ts[1..], t);
      assert (ts + [t])[1..] == ts[1..] + [t];
    }
  }

  // -------------------------------------------------------------------- how many words

  /** Without a gap a literal is accepted iff its pieces are worth just eight words. */
  lemma EightWords(ts: seq<string>)
    requires ts != [] && Pieces(ts) && Free(ts, '%')
    ensures Parse(Join(ts, ':')).Some? <==> Readable(ts) && |Value(ts)| == 8
  {
    hide Walk, Join, WordsOf;
    WalkLast(ts, true, START);
    PushAllWords(START, ts);
    JoinFree(ts, ':', '%');
    JoinStarts(ts);
    UnscopedOf(Join(ts, ':'), "");
    if Readable(ts) {
      assert [] + Value(ts) == Value(ts);
    }
  }

  /** With a gap it is accepted iff its pieces are worth at most seven, so that the gap stands for one at least. */
  lemma AtMostSevenWords(l: seq<string>, r: seq<string>)
    requires Pieces(l) && Pieces(r) && Free(l, '%') && Free(r, '%')
    ensures Parse(Join(l, ':') + "::" + Join(r, ':')).Some? <==>
            Readable(l) && Readable(r) && |Value(l)| + |Value(r)| <= 7
  {
    hide Walk, Join, WordsOf, PushAll;
    var u := Join(l, ':') + "::" + Join(r, ':');
    WalkElided(l, r);
    PushAllWords(START, l);
    var st := PushAll(START, l);
    if st.Seen? {
      PushAllWords(st.(gap := true), r);
      assert [] + Value(l) == Value(l);
      if Readable(r) {
        assert [] + Value(r) == Value(r);
      }
    }
    JoinFree(l, ':', '%');
    JoinFree(r, ':', '%');
    UnscopedOf(u, "");
  }
}
