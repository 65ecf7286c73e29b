/**
 How numbers are written, apart from how the parsers read them: decimal octets and hexadecimal groups as positions in
 tables of digits, and what the parsers of src/addr_filter.cpp:27-70 make of every such text.
 */
module Numerals {
  import opened Digits
  import opened Fields
  import opened Ip4
  import opened Ip6
  import opened Order

  const DECIMAL: string := "0123456789"
  const LOWER: string := "0123456789abcdef"
  const UPPER: string := "0123456789ABCDEF"

  // -------------------------------------------------------------------- decimal octets

  /** `n` can be written with `w` decimal digits. */
  predicate Wide(n: nat, w: nat) {
    (w == 1 && n < 10) || (w == 2 && n < 100) || (w == 3 && n < 1000)
  }

  /** `n` in `w` decimal digits, leading zeros included. */
  function Written(n: nat, w: nat): string
    requires Wide(n, w)
  {
    if w == 1 then [DECIMAL[n]]
    else if w == 2 then [DECIMAL[n / 10], DECIMAL[n % 10]]
    else [DECIMAL[n / 100], DECIMAL[n / 10 % 10], DECIMAL[n % 10]]
  }

  lemma DecimalDigit(k: nat)
    requires k < 10
    ensures DECIMAL[k] as int == '0' as int + k && IsDigit(DECIMAL[k])
  {
  }

  lemma DecimalChar(c: char)
    requires IsDigit(c)
    ensures 0 <= c as int - '0' as int < 10 && DECIMAL[c as int - '0' as int] == c
  {
    DecimalDigit(c as int - '0' as int);
  }

  /** The value of one, two and three digits. */
  lemma DecimalPlaces(s: string)
    requires AllDigits(s)
    ensures s == "" ==> Decimal(s) == 0
    ensures |s| == 1 ==> Decimal(s) == s[0] as int - '0' as int
    ensures |s| == 2 ==> Decimal(s) == (s[0] as int - '0' as int) * 10 + (s[1] as int - '0' as int)
    ensures |s| == 3 ==>
      Decimal(s) == (s[0] as int - '0' as int) * 100 + (s[1] as int - '0' as int) * 10 + (s[2] as int - '0' as int)
  {
    hide Decimal;
    NoDigits();
    assert s[..0] == "" && s[..|s|] == s;
    if 1 <= |s| <= 3 {
      DecimalStep(s, 0);
    }
    if 2 <= |s| <= 3 {
      DecimalStep(s, 1);
    }
    if |s| == 3 {
      DecimalStep(s, 2);
    }
  }

  lemma NoDigits()
    ensures Decimal("") == 0
  {
  }

  lemma Places(n: nat)
    requires n < 1000
    ensures n == n / 100 * 100 + n / 10 % 10 * 10 + n % 10 && n / 100 < 10
    ensures n < 100 ==> n == n / 10 * 10 + n % 10 && n / 10 < 10
  {
    assert n / 10 / 10 == n / 100;
  }

  /** However written, in one to three digits, a number is read as itself; it is an octet iff it is at most 255. */
  lemma WrittenReads(n: nat, w: nat)
    requires Wide(n, w)
    ensures AllDigits(Written(n, w)) && Decimal(Written(n, w)) == n
    ensures IsOctet(Written(n, w)) <==> n <= 255
    ensures Written(n, w) != "" && '.' !in Written(n, w) && '/' !in Written(n, w)
  {
    hide Decimal;
    Places(n);
    DecimalDigit(n % 10);
    DecimalDigit(n / 10 % 10);
    if n < 100 {
      DecimalDigit(n / 10);
    }
    DecimalDigit(n / 100);
    DecimalPlaces(Written(n, w));
  }

  lemma TwoPlaces(a: nat, b: nat)
    requires a < 10 && b < 10
    ensures (a * 10 + b) / 10 == a && (a * 10 + b) % 10 == b
  {
  }

  lemma ThreePlaces(a: nat, b: nat, c: nat)
    requires a < 10 && b < 10 && c < 10
    ensures
      var n := a * 100 + b * 10 + c;
      n / 100 == a && n / 10 % 10 == b && n % 10 == c
  {
    SplitLast(10, a * 10 + b, c);
    SplitLast(10, a, b);
    SplitLast(100, a, b * 10 + c);
  }

  /** The number and the width of a run of one to three digits. */
  lemma DigitsAreWritten(t: string) returns (n: nat, w: nat)
    requires 1 <= |t| <= 3 && AllDigits(t)
    ensures Wide(n, w) && t == Written(n, w) && n == Decimal(t)
  {
    hide Decimal, Written;
    DecimalPlaces(t);
    n, w := Decimal(t), |t|;
    var d: seq<nat> := DigitValues(t);
    forall k | 0 <= k < |t|
      ensures d[k] < 10 && DECIMAL[d[k]] == t[k]
    {
      DecimalChar(t[k]);
    }
    if w == 2 {
      TwoPlaces(d[0], d[1]);
    } else if w == 3 {
      ThreePlaces(d[0], d[1], d[2]);
    }
    WrittenIs(t, n, d);
  }

  lemma WrittenIs(t: string, n: nat, d: seq<nat>)
    requires 1 <= |t| <= 3 && |d| == |t| && Wide(n, |t|)
    requires forall k :: 0 <= k < |t| ==> d[k] < 10 && DECIMAL[d[k]] == t[k]
    requires |t| == 1 ==> n == d[0]
    requires |t| == 2 ==> n / 10 == d[0] && n % 10 == d[1]
    requires |t| == 3 ==> n / 100 == d[0] && n / 10 % 10 == d[1] && n % 10 == d[2]
    ensures t == Written(n, |t|)
  {
  }

  /** The octets are just the numbers up to 255 written in one to three digits. */
  lemma OctetsAreWritten(t: string)
    ensures IsOctet(t) <==> exists n, w :: n <= 255 && Wide(n, w) && t == Written(n, w)
  {
    hide Decimal, Written;
    if IsOctet(t) {
      var n, w := DigitsAreWritten(t);
      assert n <= 255 && Wide(n, w) && t == Written(n, w);
    }
    if n: nat, w: nat :| n <= 255 && Wide(n, w) && t == Written(n, w) {
      WrittenReads(n, w);
    }
  }

  /** Four numbers written out between dots. */
  function Dotted(n: seq<nat>, w: seq<nat>): string
    requires |n| == |w| == 4 && forall k :: 0 <= k < 4 ==> Wide(n[k], w[k])
  {
    Written(n[0], w[0]) + "." + Written(n[1], w[1]) + "." + Written(n[2], w[2]) + "." + Written(n[3], w[3])
  }

  lemma DottedJoins(n: seq<nat>, w: seq<nat>)
    requires |n| == |w| == 4 && forall k :: 0 <= k < 4 ==> Wide(n[k], w[k])
    ensures Dotted(n, w) ==
            Join([Written(n[0], w[0]), Written(n[1], w[1]), Written(n[2], w[2]), Written(n[3], w[3])], '.')
  {
    hide Written, Join;
    var p := [Written(n[0], w[0]), Written(n[1], w[1]), Written(n[2], w[2]), Written(n[3], w[3])];
    JoinOne(p[3], '.');
    JoinCons(p[2], [p[3]], '.');
    JoinCons(p[1], [p[2], p[3]], '.');
    JoinCons(p[0], [p[1], p[2], p[3]], '.');
    assert [p[2]] + [p[3]] == [p[2], p[3]] && [p[1]] + [p[2], p[3]] == [p[1], p[2], p[3]];
    assert [p[0]] + [p[1], p[2], p[3]] == p;
  }

  /** Any four numbers up to 255, however wide they are written, are a quad of just those numbers. */
  lemma DottedReads(n: seq<nat>, w: seq<nat>)
    requires |n| == |w| == 4 && forall k :: 0 <= k < 4 ==> n[k] <= 255 && Wide(n[k], w[k])
    ensures IsQuad(Dotted(n, w)) && QuadOf(Dotted(n, w)) == n
  {
    hide Written, Join, Decimal, IsOctet, IsQuad, QuadOf;
    var p := [Written(n[0], w[0]), Written(n[1], w[1]), Written(n[2], w[2]), Written(n[3], w[3])];
    DottedJoins(n, w);
    forall k | 0 <= k < 4
      ensures IsOctet(p[k]) && AllDigits(p[k]) && Decimal(p[k]) == n[k]
    {
      WrittenReads(n[k], w[k]);
    }
    QuadOfParts(p);
    assert QuadOf(Dotted(n, w)) == n;
  }

  /** And every quad is such a text. */
  lemma QuadsAreDotted(q: string) returns (n: seq<nat>, w: seq<nat>)
    requires IsQuad(q)
    ensures |n| == |w| == 4 && forall k :: 0 <= k < 4 ==> n[k] <= 255 && Wide(n[k], w[k])
    ensures q == Dotted(n, w) && QuadOf(q) == n
  {
    hide Written, Join, Decimal;
    var p := Split(q, '.');
    JoinSplit(q, '.');
    assert IsOctet(p[0]) && IsOctet(p[1]) && IsOctet(p[2]) && IsOctet(p[3]);
    var n0, w0 := DigitsAreWritten(p[0]);
    var n1, w1 := DigitsAreWritten(p[1]);
    var n2, w2 := DigitsAreWritten(p[2]);
    var n3, w3 := DigitsAreWritten(p[3]);
    n, w := [n0, n1, n2, n3], [w0, w1, w2, w3];
    DottedJoins(n, w);
    assert p == [p[0], p[1], p[2], p[3]];
    DottedReads(n, w);
  }

  // ----------------------------------------------------------------- hexadecimal groups

  /** The sixteen digits, in either case, and no other character. */
  lemma HexDigits(c: char)
    ensures forall k :: 0 <= k < 16 ==> HexValue(LOWER[k]) == k && HexValue(UPPER[k]) == k
    ensures HexValue(c) >= 0 <==> c in LOWER || c in UPPER
    ensures HexValue(c) >= 0 ==> c == LOWER[HexValue(c)] || c == UPPER[HexValue(c)]
  {
    HexTable();
  }

  lemma HexTable()
    ensures |LOWER| == |UPPER| == 16
    ensures forall k :: 0 <= k < 16 ==> LOWER[k] as int == if k < 10 then '0' as int + k else 'a' as int + k - 10
    ensures forall k :: 0 <= k < 16 ==> UPPER[k] as int == if k < 10 then '0' as int + k else 'A' as int + k - 10
  {
  }

  /** One to four hexadecimal digits, and for each whether it is a capital. */
  predicate Hexes(d: seq<nat>, caps: seq<bool>) {
    1 <= |d| <= 4 && |caps| == |d| && forall k :: 0 <= k < |d| ==> d[k] < 16
  }

  function Spelled(d: seq<nat>, caps: seq<bool>): (t: string)
    requires Hexes(d, caps)
    ensures |t| == |d| && AllHex(t)
    ensures forall k :: 0 <= k < |t| ==> t[k] == if caps[k] then UPPER[d[k]] else LOWER[d[k]]
  {
    HexDigits('0');
    seq(|d|, k requires 0 <= k < |d| => if caps[k] then UPPER[d[k]] else LOWER[d[k]])
  }

  /** What digits are worth by their places. */
  function Worth(d: seq<nat>): nat
    requires 1 <= |d| <= 4
  {
    if |d| == 1 then d[0]
    else if |d| == 2 then 16 * d[0] + d[1]
    else if |d| == 3 then 256 * d[0] + 16 * d[1] + d[2]
    else 4096 * d[0] + 256 * d[1] + 16 * d[2] + d[3]
  }

  lemma HexPlaces(t: string, d: seq<nat>)
    requires 1 <= |t| <= 4 && |d| == |t| && forall k :: 0 <= k < |t| ==> HexValue(t[k]) == d[k]
    ensures IsGroup(t) && Hex(t) == Worth(d)
  {
    hide Hex, HexValue;
    NoHexes();
    assert t[..0] == "" && t[..|t|] == t;
    HexStep(t, 0);
    if 2 <= |t| {
      HexStep(t, 1);
    }
    if 3 <= |t| {
      HexStep(t, 2);
    }
    if |t| == 4 {
      HexStep(t, 3);
    }
  }

  lemma NoHexes()
    ensures AllHex("") && Hex("") == 0
  {
  }

  /** One to four digits, each in either case, are a group worth what the digits are by their places. */
  lemma SpelledReads(d: seq<nat>, caps: seq<bool>)
    requires Hexes(d, caps)
    ensures AllHex(Spelled(d, caps)) && IsGroup(Spelled(d, caps)) && Hex(Spelled(d, caps)) == Worth(d)
    ensures WordsOf(Spelled(d, caps)) == Some([Worth(d)])
  {
    hide Hex, Worth, WordsOf;
    HexDigits('0');
    HexPlaces(Spelled(d, caps), d);
    NoDot(Spelled(d, caps));
    WordsCases(Spelled(d, caps));
  }

  lemma NoDot(t: string)
    requires IsGroup(t)
    ensures '.' !in t
  {
    assert forall k :: 0 <= k < |t| ==> HexValue(t[k]) >= 0;
  }

  /** The groups are just the texts of one to four digits, each in either case. */
  lemma GroupsAreSpelled(t: string)
    ensures IsGroup(t) <==> exists d, caps :: Hexes(d, caps) && t == Spelled(d, caps)
  {
    hide HexValue;
    if IsGroup(t) {
      var d: seq<nat> := seq(|t|, k requires 0 <= k < |t| => HexValue(t[k]));
      var caps := seq(|t|, k requires 0 <= k < |t| => t[k] != LOWER[HexValue(t[k])]);
      forall k | 0 <= k < |t|
        ensures d[k] < 16 && t[k] == if caps[k] then UPPER[d[k]] else LOWER[d[k]]
      {
        HexDigits(t[k]);
      }
      assert Hexes(d, caps) && t == Spelled(d, caps);
    }
    if d: seq<nat>, caps: seq<bool> :| Hexes(d, caps) && t == Spelled(d, caps) {
      SpelledReads(d, caps);
    }
  }

  /** A dotted quad is worth the two groups whose digits write its four bytes, two digits each. */
  lemma QuadIsTwoGroups(n: seq<nat>, w: seq<nat>, hi: seq<nat>, lo: seq<nat>, caps: seq<bool>, less: seq<bool>)
    requires |n| == |w| == |hi| == |lo| == |caps| == |less| == 4
    requires forall k :: 0 <= k < 4 ==> n[k] <= 255 && Wide(n[k], w[k])
    requires forall k :: 0 <= k < 4 ==> hi[k] < 16 && lo[k] < 16 && n[k] == 16 * hi[k] + lo[k]
    ensures
      WordsOf(Dotted(n, w)) ==
      Some([Hex(Spelled([hi[0], lo[0], hi[1], lo[1]], caps)), Hex(Spelled([hi[2], lo[2], hi[3], lo[3]], less))])
  {
    hide Written, IsQuad, QuadOf, WordsOf, Spelled, Dotted, Worth, Hex, IsGroup;
    var d, e := [hi[0], lo[0], hi[1], lo[1]], [hi[2], lo[2], hi[3], lo[3]];
    DottedReads(n, w);
    SpelledReads(d, caps);
    SpelledReads(e, less);
    DottedHasDot(n, w);
    WordsCases(Dotted(n, w));
    TwoBytes(n[0], n[1], d, hi[0], lo[0], hi[1], lo[1]);
    TwoBytes(n[2], n[3], e, hi[2], lo[2], hi[3], lo[3]);
  }

  lemma TwoBytes(m: nat, n: nat, d: seq<nat>, a: nat, b: nat, e: nat, f: nat)
    requires m == 16 * a + b && n == 16 * e + f && d == [a, b, e, f]
    ensures Worth(d) == m * 256 + n
  {
  }

  lemma DottedHasDot(n: seq<nat>, w: seq<nat>)
    requires |n| == |w| == 4 && forall k :: 0 <= k < 4 ==> Wide(n[k], w[k])
    ensures '.' in Dotted(n, w)
  {
    hide Written;
    assert Dotted(n, w)[|Written(n[0], w[0])|] == '.';
  }
}
