/** The segments of a multiaddress (src/addr_filter.cpp:13-25). */
module Segments {
  import opened Fields

  function NonEmpty(f: seq<string>): (r: seq<string>)
    ensures forall k :: 0 <= k < |r| ==> r[k] != ""
  {
    if f == [] then [] else (if f[0] == "" then [] else [f[0]]) + NonEmpty(f[1..])
  }

  /** The non-empty pieces between slashes. */
  function Segs(s: string): seq<string> {
    NonEmpty(Split(s, '/'))
  }

  lemma NonEmptyCons(t: string, f: seq<string>)
    ensures NonEmpty([t] + f) == (if t == "" then [] else [t]) + NonEmpty(f)
  {
    assert ([t] + f)[1..] == f;
  }

  lemma NonEmptyNil()
    ensures NonEmpty([]) == []
  {
  }

  lemma {:induction false} NonEmptyAppend(f: seq<string>, g: seq<string>)
    ensures NonEmpty(f + g) == NonEmpty(f) + NonEmpty(g)
  {
    hide NonEmpty;
    if f == [] {
      NonEmptyNil();
      assert f + g == g;
    } else {
      NonEmptyAppend(f[1..], g);
      NonEmptyCons(f[0], f[1..]);
      assert f == [f[0]] + f[1..];
      NonEmptyCons(f[0], f[1..] + g);
      assert f + g == [f[0]] + (f[1..] + g);
    }
  }

  /** Segments of a concatenation are the concatenated segments. */
  lemma SegsAppend(a: string, b: string)
    ensures Segs(a + "/" + b) == Segs(a) + Segs(b)
  {
    SplitAppend(a, b, '/');
    NonEmptyAppend(Split(a, '/'), Split(b, '/'));
  }

  lemma SegsAtom(s: string)
    requires '/' !in s
    ensures Segs(s) == if s == "" then [] else [s]
  {
    SplitAtom(s, '/');
    assert [s] == [s] + [];
    NonEmptyCons(s, []);
  }

  lemma SegsSlash(s: string)
    ensures Segs("/" + s) == Segs(s)
  {
    SegsAtom("");
    SegsAppend("", s);
    assert "" + "/" + s == "/" + s;
  }

  /** A list of segments written out as a multiaddress. */
  function Path(parts: seq<string>): string {
    if parts == [] then "" else "/" + parts[0] + Path(parts[1..])
  }

  lemma PathUnfolds(parts: seq<string>)
    ensures parts == [] ==> Path(parts) == ""
    ensures parts != [] ==> Path(parts) == "/" + (parts[0] + Path(parts[1..]))
  {
  }

  /** Segments come back from the multiaddress that lists them. */
  lemma {:induction false} SegsOfPath(parts: seq<string>)
    requires Free(parts, '/') && forall k :: 0 <= k < |parts| ==> parts[k] != ""
    ensures Segs(Path(parts)) == parts
  {
    hide Segs, Path;
    PathUnfolds(parts);
    if parts == [] {
      SegsAtom("");
    } else {
      var rest := Path(parts[1..]);
      PathUnfolds(parts[1..]);
      SegsOfPath(parts[1..]);
      SegsAtom(parts[0]);
      SegsSlash(parts[0] + rest);
      if parts[1..] == [] {
        assert parts[0] + rest == parts[0];
      } else {
        var more := parts[1] + Path(parts[1..][1..]);
        assert parts[0] + rest == parts[0] + "/" + more;
        SegsAppend(parts[0], more);
        SegsSlash(more);
      }
    }
  }

  /** The segments from position `i` on, none once past the end. */
  function Rest(s: string, i: nat): seq<string> {
    if i <= |s| then Segs(s[i..]) else []
  }

  /** What one pass of the loop finds. */
  lemma NextSegment(s: string, i: nat, j: nat)
    requires i <= j <= |s| && j == i + Find(s[i..], '/')
    ensures Rest(s, i) == (if j > i then [s[i..j]] else []) + Rest(s, j + 1)
  {
    var t := s[i..];
    assert t[..j - i] == s[i..j];
    if j < |s| {
      assert t[j - i + 1..] == s[j + 1..];
      NonEmptyCons(s[i..j], Split(s[j + 1..], '/'));
    } else {
      SegsAtom(t);
      assert t == s[i..j];
    }
  }

  lemma RestEnds(s: string)
    ensures Rest(s, 0) == Segs(s) && Rest(s, |s| + 1) == []
  {
    assert s[0..] == s;
  }

  /** `segments`: each pass looks for the next slash. */
  method SplitSegments(s: string) returns (out: seq<string>)
    ensures out == Segs(s)
  {
    hide Segs, Find, Rest;
    out := [];
    var i := 0;
    RestEnds(s);
    while i <= |s|
      invariant 0 <= i <= |s| + 1
      invariant Segs(s) == out + Rest(s, i)
    {
      var j := i + Find(s[i..], '/');
      NextSegment(s, i, j);
      if j > i {
        out := out + [s[i..j]];
      }
      i := j + 1;
    }
  }
}
