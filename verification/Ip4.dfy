/** Dotted quads (src/addr_filter.cpp:27-55). */
module Ip4 {
  import opened Digits
  import opened Fields

  predicate IsDigit(c: char) {
    '0' <= c <= '9'
  }

  predicate AllDigits(s: string) {
    forall k :: 0 <= k < |s| ==> IsDigit(s[k])
  }

  function DigitValues(s: string): (d: seq<nat>)
    requires AllDigits(s)
    ensures |d| == |s| && forall k :: 0 <= k < |s| ==> d[k] == s[k] as int - '0' as int
  {
    seq(|s|, k requires 0 <= k < |s| => s[k] as int - '0' as int)
  }

  /** The decimal number a run of digits denotes. */
  function Decimal(s: string): nat
    requires AllDigits(s)
  {
    Num(10, DigitValues(s))
  }

  /** One to three digits for a value of at most 255. */
  predicate IsOctet(s: string) {
    1 <= |s| <= 3 && AllDigits(s) && Decimal(s) <= 255
  }

  /** Four octets between dots. */
  predicate IsQuad(s: string) {
    var f := Split(s, '.');
    |f| == 4 && forall k :: 0 <= k < 4 ==> IsOctet(f[k])
  }

  function QuadOf(s: string): (v: seq<nat>)
    requires IsQuad(s)
    ensures |v| == 4 && forall k :: 0 <= k < 4 ==> v[k] == Decimal(Split(s, '.')[k]) <= 255
  {
    seq(4, k requires 0 <= k < 4 => Decimal(Split(s, '.')[k]))
  }

  /** Four octets joined by dots are a quad of just those values, and every quad is of that form. */
  lemma QuadOfParts(p: seq<string>)
    requires |p| == 4 && forall k :: 0 <= k < 4 ==> IsOctet(p[k])
    ensures IsQuad(Join(p, '.'))
    ensures forall k :: 0 <= k < 4 ==> AllDigits(p[k]) && QuadOf(Join(p, '.'))[k] == Decimal(p[k])
  {
    forall k | 0 <= k < 4 ensures '.' !in p[k] {
      assert IsOctet(p[k]);
    }
    SplitJoin(p, '.');
  }

  lemma DecimalStep(s: string, i: nat)
    requires i < |s| && AllDigits(s[..i + 1])
    ensures AllDigits(s[..i])
    ensures Decimal(s[..i + 1]) == Decimal(s[..i]) * 10 + (s[i] as int - '0' as int)
  {
    forall k | 0 <= k < i ensures IsDigit(s[..i][k]) {
      assert s[..i][k] == s[..i + 1][k];
    }
    assert s[i] == s[..i + 1][i];
    assert DigitValues(s[..i + 1]) == DigitValues(s[..i]) + [s[i] as int - '0' as int];
    NumSnoc(10, DigitValues(s[..i]), s[i] as int - '0' as int);
  }

  /** `parseU8` */
  method ParseU8(s: string) returns (ok: bool, out: nat)
    ensures ok <==> IsOctet(s)
    ensures ok ==> out == Decimal(s)
  {
    out := 0;
    if s == "" || |s| > 3 {
      return false, 0;
    }
    var v := 0;
    var i := 0;
    while i < |s|
      invariant 0 <= i <= |s| && AllDigits(s[..i]) && v == Decimal(s[..i])
    {
      var c := s[i];
      if c < '0' || c > '9' {
        assert !IsDigit(s[i]);
        return false, 0;
      }
      assert s[..i + 1] == s[..i] + [c];
      DecimalStep(s, i);
      v := v * 10 + (c as int - '0' as int);
      i := i + 1;
    }
    assert s[..i] == s;
    if v > 255 {
      return false, 0;
    }
    return true, v;
  }

  /** Octets read so far and their values. */
  ghost predicate Octets(p: seq<string>, v: seq<nat>) {
    && |p| <= |v|
    && forall k :: 0 <= k < |p| ==> IsOctet(p[k]) && v[k] == Decimal(p[k])
  }

  lemma OctetsNone(s: string, v: seq<nat>)
    ensures Octets([], v) && Split(s, '.') == [] + Split(s[0..], '.')
  {
    assert s[0..] == s;
  }

  lemma OctetsSnoc(p: seq<string>, v: seq<nat>, t: string)
    requires Octets(p, v) && |p| < |v| && IsOctet(t)
    ensures Octets(p + [t], v[|p| := Decimal(t)])
  {
    hide Decimal;
  }

  lemma PieceRead(s: string, p: seq<string>, i: nat, j: nat)
    requires i <= j <= |s| && j == i + Find(s[i..], '.')
    requires Split(s, '.') == p + Split(s[i..], '.')
    ensures j < |s| ==> Split(s, '.') == p + [s[i..j]] + Split(s[j + 1..], '.')
    ensures j == |s| ==> Split(s, '.') == p + [s[i..j]]
  {
    hide *;
    NextPiece(s, '.', i, j);
    if j < |s| {
      assert p + ([s[i..j]] + Split(s[j + 1..], '.')) == p + [s[i..j]] + Split(s[j + 1..], '.');
    }
  }

  lemma OctetsDone(s: string, v: seq<nat>)
    requires |Split(s, '.')| == 4 == |v| && Octets(Split(s, '.'), v)
    ensures IsQuad(s) && v == QuadOf(s)
  {
  }

  lemma NoQuad(s: string, p: seq<string>, i: nat, j: nat)
    requires |p| < 4 && i <= j <= |s| && j == i + Find(s[i..], '.')
    requires Split(s, '.') == p + Split(s[i..], '.')
    requires !IsOctet(s[i..j]) || (j == |s| && |p| < 3) || (j < |s| && |p| == 3)
    ensures !IsQuad(s)
  {
    hide Split, Find, IsOctet;
    NextPiece(s, '.', i, j);
    assert Split(s, '.')[|p|] == s[i..j];
  }

  /** `parseIp4` */
  method ParseIp4(s: string) returns (ok: bool, out: seq<nat>)
    ensures ok <==> IsQuad(s)
    ensures ok ==> out == QuadOf(s)
  {
    hide *;
    var v := new nat[4](_ => 0);
    ghost var read: seq<string> := [];
    var i := 0;
    var part := 0;
    OctetsNone(s, v[..]);
    while part < 4
      invariant 0 <= part <= 4 && |read| == part && Octets(read, v[..])
      invariant part < 4 ==> 0 <= i <= |s| && Split(s, '.') == read + Split(s[i..], '.')
      invariant part == 4 ==> Split(s, '.') == read
    {
      var j := i + Find(s[i..], '.');
      if part == 3 {
        if j < |s| {
          NoQuad(s, read, i, j);
          return false, [];
        }
      } else if j == |s| {
        NoQuad(s, read, i, j);
        return false, [];
      }
      var good, n := ParseU8(s[i..j]);
      if !good {
        NoQuad(s, read, i, j);
        return false, [];
      }
      PieceRead(s, read, i, j);
      OctetsSnoc(read, v[..], s[i..j]);
      ghost var before := v[..];
      v[part] := n;
      assert v[..] == before[part := n];
      read := read + [s[i..j]];
      i := j + 1;
      part := part + 1;
    }
    OctetsDone(s, v[..]);
    return true, v[..];
  }
}
