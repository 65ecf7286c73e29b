/** Optional values, and what it means for a list to come from another with some elements left out. */
module Order {

  datatype Option<T> = None | Some(value: T)

  /** `a` is `b` with some elements left out. */
  ghost predicate Subsequence<T>(a: seq<T>, b: seq<T>)
    decreases |b|
  {
    || a == []
    || (b != [] && a[|a| - 1] == b[|b| - 1] && Subsequence(a[..|a| - 1], b[..|b| - 1]))
    || (b != [] && Subsequence(a, b[..|b| - 1]))
  }

  lemma SubsequenceSnoc<T>(a: seq<T>, b: seq<T>, x: T)
    requires Subsequence(a, b)
    ensures Subsequence(a, b + [x]) && Subsequence(a + [x], b + [x])
  {
    assert (a + [x])[..|a|] == a && (b + [x])[..|b|] == b;
  }

  /** Leaving one more element out. */
  lemma {:induction false} SubsequenceErase<T>(a: seq<T>, k: nat, b: seq<T>)
    requires k < |a| && Subsequence(a, b)
    ensures Subsequence(a[..k] + a[k + 1..], b)
    decreases |b|
  {
    var front := b[..|b| - 1];
    if Subsequence(a, front) {
      SubsequenceErase(a, k, front);
    } else if k == |a| - 1 {
      assert a[..k] + a[k + 1..] == a[..|a| - 1];
    } else {
      SubsequenceErase(a[..|a| - 1], k, front);
      var rest := a[..|a| - 1][..k] + a[..|a| - 1][k + 1..];
      assert rest == (a[..k] + a[k + 1..])[..|a| - 2];
    }
  }

  lemma {:induction false} SubsequencePrefix<T>(a: seq<T>, c: seq<T>, b: seq<T>)
    requires Subsequence(a + c, b)
    ensures Subsequence(a, b)
    decreases |c|
  {
    if c == [] {
      assert a + c == a;
    } else {
      SubsequenceErase(a + c, |a| + |c| - 1, b);
      assert (a + c)[..|a| + |c| - 1] + (a + c)[|a| + |c|..] == a + c[..|c| - 1];
      SubsequencePrefix(a, c[..|c| - 1], b);
    }
  }
}
