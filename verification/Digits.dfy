/** Positional numerals of an arbitrary base, most significant digit first. */
module Digits {

  /** Every digit of `d` is below the base. */
  predicate Below(b: nat, d: seq<nat>) {
    forall k :: 0 <= k < |d| ==> d[k] < b
  }

  /** The number that the digits `d` denote in base `b`. */
  function Num(b: nat, d: seq<nat>): nat {
    if d == [] then 0 else Num(b, d[..|d| - 1]) * b + d[|d| - 1]
  }

  lemma NumSnoc(b: nat, d: seq<nat>, x: nat)
    ensures Num(b, d + [x]) == Num(b, d) * b + x
  {
    assert (d + [x])[..|d|] == d;
  }

  lemma MultipleBeyond(b: int, t: int)
    requires b >= 0
    ensures t >= 1 ==> b * t >= b
    ensures t <= -1 ==> b * t <= -b
  {
    if t >= 1 {
      assert b * t == b * (t - 1) + b;
    } else if t <= -1 {
      assert b * t == b * (t + 1) - b;
    }
  }

  /** A number splits in one way into a multiple of the base and a last digit. */
  lemma SplitUnique(b: nat, q: nat, x: nat, r: nat, y: nat)
    requires q * b + x == r * b + y && x < b && y < b
    ensures q == r && x == y
  {
    assert b * (q - r) == y - x;
    MultipleBeyond(b, q - r);
  }

  /** Dividing out the last digit. */
  lemma SplitLast(b: nat, q: nat, x: nat)
    requires x < b
    ensures (q * b + x) / b == q && (q * b + x) % b == x
  {
    var v := q * b + x;
    assert v == v / b * b + v % b;
    SplitUnique(b, q, x, v / b, v % b);
  }

  /** Digit strings of one length that denote one number are equal. */
  lemma {:induction false} NumInjective(b: nat, d: seq<nat>, e: seq<nat>)
    requires Below(b, d) && Below(b, e)
    requires |d| == |e| && Num(b, d) == Num(b, e)
    ensures d == e
  {
    if d != [] {
      var m, n := |d| - 1, |e| - 1;
      SplitUnique(b, Num(b, d[..m]), d[m], Num(b, e[..n]), e[n]);
      NumInjective(b, d[..m], e[..n]);
      assert d == d[..m] + [d[m]] && e == e[..n] + [e[n]];
    }
  }
}
