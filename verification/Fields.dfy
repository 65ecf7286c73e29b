/** Cutting a string at every occurrence of a separator character, and joining the pieces again. */
module Fields {

  /** `string_view::find`, the length standing for `npos`. */
  function Find(s: string, c: char): (j: nat)
    ensures j <= |s| && c !in s[..j]
    ensures j < |s| ==> s[j] == c
  {
    if s == "" || s[0] == c then 0 else
      var j := Find(s[1..], c);
      assert s[..j + 1] == [s[0]] + s[1..][..j];
      j + 1
  }

  lemma {:induction false} FindUnique(s: string, c: char, j: nat)
    requires j <= |s| && c !in s[..j] && (j < |s| ==> s[j] == c)
    ensures Find(s, c) == j
  {
    if j > 0 {
      assert s[0] == s[..j][0] && s[1..][..j - 1] == s[..j][1..];
      FindUnique(s[1..], c, j - 1);
    }
  }

  /** The pieces between the separators, empty ones included. */
  function Split(s: string, c: char): (f: seq<string>)
    ensures |f| > 0
    decreases |s|
  {
    var j := Find(s, c);
    if j == |s| then [s] else [s[..j]] + Split(s[j + 1..], c)
  }

  function Join(f: seq<string>, c: char): string {
    if f == [] then "" else if |f| == 1 then f[0] else f[0] + [c] + Join(f[1..], c)
  }

  lemma JoinCons(t: string, f: seq<string>, c: char)
    requires f != []
    ensures Join([t] + f, c) == t + [c] + Join(f, c)
  {
    assert ([t] + f)[1..] == f;
  }

  predicate Free(f: seq<string>, c: char) {
    forall k :: 0 <= k < |f| ==> c !in f[k]
  }

  lemma {:induction false} SplitFree(s: string, c: char)
    ensures Free(Split(s, c), c)
    decreases |s|
  {
    var j := Find(s, c);
    if j < |s| {
      SplitFree(s[j + 1..], c);
    }
  }

  lemma SplitStep(s: string, c: char)
    ensures Find(s, c) == |s| ==> Split(s, c) == [s]
    ensures Find(s, c) < |s| ==> Split(s, c) == [s[..Find(s, c)]] + Split(s[Find(s, c) + 1..], c)
  {
  }

  /** The piece that starts at `i` and ends before the next separator at `j`. */
  lemma NextPiece(s: string, c: char, i: nat, j: nat)
    requires i <= j <= |s| && j == i + Find(s[i..], c)
    ensures Split(s[i..], c) == if j < |s| then [s[i..j]] + Split(s[j + 1..], c) else [s[i..j]]
  {
    hide Split, Find;
    SplitStep(s[i..], c);
    assert s[i..][..j - i] == s[i..j];
    if j < |s| {
      assert s[i..][j - i + 1..] == s[j + 1..];
    } else {
      assert s[i..] == s[i..j];
    }
  }

  lemma JoinOne(t: string, c: char)
    ensures Join([t], c) == t
  {
  }

  /** Joining what was split gives the string back. */
  lemma {:induction false} JoinSplit(s: string, c: char)
    ensures Join(Split(s, c), c) == s
    decreases |s|
  {
    hide Split, Join;
    var j := Find(s, c);
    SplitStep(s, c);
    if j < |s| {
      JoinSplit(s[j + 1..], c);
      JoinCons(s[..j], Split(s[j + 1..], c), c);
      assert s == s[..j] + [c] + s[j + 1..];
    } else {
      JoinOne(s, c);
    }
  }

  /** Splitting at a separator in the middle splits both sides. */
  lemma {:induction false} SplitAppend(a: string, b: string, c: char)
    ensures Split(a + [c] + b, c) == Split(a, c) + Split(b, c)
    decreases |a|
  {
    hide Split, Find;
    var s := a + [c] + b;
    var j := Find(a, c);
    assert s[..j] == a[..j];
    FindUnique(s, c, j);
    SplitStep(s, c);
    SplitStep(a, c);
    if j == |a| {
      assert s[..j] == a && s[j + 1..] == b;
    } else {
      assert s[j + 1..] == a[j + 1..] + [c] + b;
      SplitAppend(a[j + 1..], b, c);
    }
  }

  lemma SplitAtom(s: string, c: char)
    requires c !in s
    ensures Split(s, c) == [s]
  {
    FindUnique(s, c, |s|);
  }

  /** Splitting what was joined gives the pieces back. */
  lemma {:induction false} SplitJoin(f: seq<string>, c: char)
    requires |f| > 0 && Free(f, c)
    ensures Split(Join(f, c), c) == f
  {
    SplitAtom(f[0], c);
    if |f| > 1 {
      SplitAppend(f[0], Join(f[1..], c), c);
      SplitJoin(f[1..], c);
    }
  }

  lemma {:induction false} JoinAppend(f: seq<string>, g: seq<string>, c: char)
    requires f != [] && g != []
    ensures Join(f + g, c) == Join(f, c) + [c] + Join(g, c)
  {
    if |f| == 1 {
      assert f + g == [f[0]] + g;
      JoinCons(f[0], g, c);
    } else {
      assert f + g == [f[0]] + (f[1..] + g);
      JoinCons(f[0], f[1..] + g, c);
      JoinAppend(f[1..], g, c);
    }
  }
}
