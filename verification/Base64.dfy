/**
 The base64 codec of src/utils.cpp, specified by section 4 of RFC 4648: the
 bits of the input read as one number, cut into six-bit groups.
 */
module Base64 {
  import opened Digits

  /** A C++ `uint8_t`. */
  type Byte = x: nat | x < 256

  /** A C++ `char` seen as an unsigned octet, which is how the decoder indexes its table. */
  type Octet = c: char | c as int < 256 witness 'A'

  const UPPER: string := "ABCDEFGHIJKLMNOPQRSTUVWXYZ"
  const LOWER: string := "abcdefghijklmnopqrstuvwxyz"
  const REST: string := "0123456789+/"
  const ALPHABET: string := UPPER + LOWER + REST

  datatype Error = BadLength | MisplacedPadding | DataAfterPadding | InvalidCharacter | NonCanonicalBits

  datatype Result = Decoded(bytes: seq<Byte>) | Rejected(error: Error)

  // ---------------------------------------------------------------- reference

  /** The numbers of bits that can be left over when bytes and six-bit groups meet. */
  type Bits = b: nat | b == 0 || b == 2 || b == 4 || b == 6

  /** `v << bits` */
  function ShiftLeft(v: nat, bits: Bits): nat {
    if bits == 0 then v else if bits == 2 then 4 * v else if bits == 4 then 16 * v else 64 * v
  }

  /** `v >> bits` */
  function ShiftRight(v: nat, bits: Bits): nat {
    if bits == 0 then v else if bits == 2 then v / 4 else if bits == 4 then v / 16 else v / 64
  }

  /** `v & ((1 << bits) - 1)` */
  function LowBits(v: nat, bits: Bits): nat {
    if bits == 0 then 0 else if bits == 2 then v % 4 else if bits == 4 then v % 16 else v % 64
  }

  /**
   `groups` are the six-bit groups of the bit string `data`: as few as hold its
   bits, the `pad` bits missing from the last group added on the right as zeros.
   */
  ghost predicate Sextets(data: seq<Byte>, groups: seq<nat>, pad: Bits) {
    && Below(64, groups)
    && 6 * |groups| == 8 * |data| + pad && pad < 6
    && Num(64, groups) == ShiftLeft(Num(256, data), pad)
  }

  function Letter(k: nat): (c: Octet)
    requires k < 64
    ensures c == ALPHABET[k]
  {
    LetterAt(k);
    ALPHABET[k]
  }

  function Chars(d: seq<nat>): (r: seq<Octet>)
    requires Below(64, d)
    ensures |r| == |d|
    ensures forall k :: 0 <= k < |d| ==> r[k] == Letter(d[k])
  {
    seq(|d|, k requires 0 <= k < |d| => Letter(d[k]))
  }

  function Padding(n: nat): (r: seq<Octet>)
    ensures |r| == n && forall k :: 0 <= k < n ==> r[k] == '='
  {
    seq(n, _ => '=')
  }

  /** `text` is letters for `groups`, then `=` for what is missing from the last four characters. */
  ghost predicate Spells(text: seq<Octet>, groups: seq<nat>) {
    && Below(64, groups)
    && |groups| <= |text| <= |groups| + 2 && |text| % 4 == 0
    && text == Chars(groups) + Padding(|text| - |groups|)
  }

  /** `text` is the base64 text of `data`. */
  ghost predicate Encodes(data: seq<Byte>, text: seq<Octet>) {
    exists groups, pad: Bits :: Sextets(data, groups, pad) && Spells(text, groups)
  }

  /** Bytes have one text. */
  lemma OneText(d: seq<Byte>, s: seq<Octet>, t: seq<Octet>)
    requires Encodes(d, s) && Encodes(d, t)
    ensures s == t
  {
    var g, p: Bits :| Sextets(d, g, p) && Spells(s, g);
    var h, q: Bits :| Sextets(d, h, q) && Spells(t, h);
    SameCount(|d|, |g|, p, |h|, q);
    NumInjective(64, g, h);
    SameLength(|g|, |s|, |t|);
  }

  /** A text has one meaning. */
  lemma OneMeaning(text: seq<Octet>, d: seq<Byte>, e: seq<Byte>)
    requires Encodes(d, text) && Encodes(e, text)
    ensures d == e
  {
    var g, p: Bits :| Sextets(d, g, p) && Spells(text, g);
    var h, q: Bits :| Sextets(e, h, q) && Spells(text, h);
    SpellsOnce(text, g, h);
    SameBytes(|g|, |d|, p, |e|, q);
    NumInjective(256, d, e);
  }

  lemma SameCount(n: nat, m: nat, p: Bits, k: nat, q: Bits)
    requires 6 * m == 8 * n + p && p < 6 && 6 * k == 8 * n + q && q < 6
    ensures m == k && p == q
  {
  }

  lemma SameBytes(m: nat, n: nat, p: Bits, k: nat, q: Bits)
    requires 6 * m == 8 * n + p && 6 * m == 8 * k + q
    ensures n == k && p == q
  {
  }

  lemma SameLength(m: nat, s: nat, t: nat)
    requires s % 4 == 0 && t % 4 == 0 && m <= s <= m + 2 && m <= t <= m + 2
    ensures s == t
  {
  }

  /** A text spells one sequence of groups. */
  lemma SpellsOnce(text: seq<Octet>, g: seq<nat>, h: seq<nat>)
    requires Spells(text, g) && Spells(text, h)
    ensures g == h
  {
    SpellsShape(text, g);
    SpellsShape(text, h);
    if |g| < |text| {
      assert text[|g|] == '=';
    }
    if |h| < |text| {
      assert text[|h|] == '=';
    }
    assert |g| == |h|;
    forall k | 0 <= k < |g| ensures g[k] == h[k] {
      assert IndexOf(text[k]) == g[k];
    }
  }

  /** What such a text looks like, position by position. */
  lemma SpellsShape(text: seq<Octet>, g: seq<nat>)
    requires Spells(text, g)
    ensures forall k :: 0 <= k < |g| ==> text[k] != '=' && IndexOf(text[k]) == g[k]
    ensures forall k :: |g| <= k < |text| ==> text[k] == '='
  {
    forall k | 0 <= k < |g| ensures text[k] != '=' && IndexOf(text[k]) == g[k] {
      LetterAt(g[k]);
    }
  }

  // ----------------------------------------------------------------- alphabet

  /** Where a character stands in the alphabet, -1 when nowhere. */
  function IndexOf(c: char): (i: int)
    ensures -1 <= i < 64
  {
    if 'A' <= c <= 'Z' then c as int - 'A' as int
    else if 'a' <= c <= 'z' then c as int - 'a' as int + 26
    else if '0' <= c <= '9' then c as int - '0' as int + 52
    else if c == '+' then 62
    else if c == '/' then 63
    else -1
  }

  lemma UpperAt(k: nat)
    requires k < 26
    ensures |UPPER| == 26 && UPPER[k] as int == 'A' as int + k
  {
  }

  lemma LowerAt(k: nat)
    requires k < 26
    ensures |LOWER| == 26 && LOWER[k] as int == 'a' as int + k
  {
  }

  lemma RestAt(k: nat)
    requires k < 12
    ensures |REST| == 12
    ensures REST[k] as int == if k < 10 then '0' as int + k else if k == 10 then '+' as int else '/' as int
  {
  }

  lemma AlphabetAt(k: nat)
    requires k < 64
    ensures |ALPHABET| == 64
    ensures ALPHABET[k] as int ==
      if k < 26 then 'A' as int + k
      else if k < 52 then 'a' as int + k - 26
      else if k < 62 then '0' as int + k - 52
      else if k == 62 then '+' as int else '/' as int
  {
    if k < 26 {
      UpperAt(k);
    } else if k < 52 {
      LowerAt(k - 26);
    } else {
      RestAt(k - 52);
    }
  }

  lemma LetterAt(k: nat)
    requires k < 64
    ensures |ALPHABET| == 64
    ensures IndexOf(ALPHABET[k]) == k && ALPHABET[k] as int < 256
  {
    AlphabetAt(k);
  }

  lemma LetterOfIndex(c: char)
    requires IndexOf(c) >= 0
    ensures Letter(IndexOf(c)) == c
  {
    AlphabetAt(IndexOf(c));
  }

  lemma CharsAppend(d: seq<nat>, e: seq<nat>)
    requires Below(64, d) && Below(64, e)
    ensures Below(64, d + e) && Chars(d + e) == Chars(d) + Chars(e)
  {
  }

  // ------------------------------------------------------------------ encoder

  /** `(a << 16) | (b << 8) | c`: the bits of three bytes do not overlap, so `|` adds. */
  function Pack(a: nat, b: nat, c: nat): nat {
    a * 0x1_0000 + b * 0x100 + c
  }

  /** The six-bit groups of three bytes. */
  function Block(a: Byte, b: Byte, c: Byte): (g: seq<nat>)
    ensures |g| == 4 && Below(64, g)
  {
    [a / 4, a % 4 * 16 + b / 16, b % 16 * 4 + c / 64, c % 64]
  }

  lemma PickGroup(n: nat, b: nat, hi: nat, g: nat, lo: nat)
    requires lo < b && g < 64 && n == (hi * 64 + g) * b + lo
    ensures n / b % 64 == g
  {
    SplitLast(b, hi * 64 + g, lo);
    SplitLast(64, hi, g);
  }

  /** `(n >> 18) & 0x3f` and so on pick the six-bit groups out of a packed block. */
  lemma UnpackBlock(a: Byte, b: Byte, c: Byte, n: nat)
    requires n == Pack(a, b, c)
    ensures Block(a, b, c) == [n / 0x4_0000 % 64, n / 0x1000 % 64, n / 0x40 % 64, n % 64]
  {
    var g := Block(a, b, c);
    PickGroup(n, 0x4_0000, 0, g[0], (g[1] * 64 + g[2]) * 64 + g[3]);
    PickGroup(n, 0x1000, g[0], g[1], g[2] * 64 + g[3]);
    PickGroup(n, 0x40, g[0] * 64 + g[1], g[2], g[3]);
    PickGroup(n, 1, (g[0] * 64 + g[1]) * 64 + g[2], g[3], 0);
  }

  lemma NumFour(b: nat, d: seq<nat>, w: nat, x: nat, y: nat, z: nat)
    ensures Num(b, d + [w, x, y, z]) == (((Num(b, d) * b + w) * b + x) * b + y) * b + z
    ensures Num(b, d + [w, x, y]) == ((Num(b, d) * b + w) * b + x) * b + y
    ensures Num(b, d + [w, x]) == (Num(b, d) * b + w) * b + x
  {
    NumSnoc(b, d, w);
    NumSnoc(b, d + [w], x);
    NumSnoc(b, d + [w] + [x], y);
    NumSnoc(b, d + [w] + [x] + [y], z);
    assert d + [w] + [x] == d + [w, x];
    assert d + [w] + [x] + [y] == d + [w, x, y];
    assert d + [w] + [x] + [y] + [z] == d + [w, x, y, z];
  }

  lemma SameBits(v: nat, a: Byte, b: Byte, c: Byte)
    ensures
      var g := Block(a, b, c);
      && (((v * 64 + g[0]) * 64 + g[1]) * 64 + g[2]) * 64 + g[3] == ((v * 256 + a) * 256 + b) * 256 + c
      && (c == 0 ==> ((v * 64 + g[0]) * 64 + g[1]) * 64 + g[2] == ((v * 256 + a) * 256 + b) * 4)
      && (b == c == 0 ==> (v * 64 + g[0]) * 64 + g[1] == (v * 256 + a) * 16)
  {
  }

  /** Three more bytes are four more six-bit groups; fewer bytes are fewer groups and zero bits. */
  lemma BlockSextets(data: seq<Byte>, groups: seq<nat>, a: Byte, b: Byte, c: Byte)
    requires Sextets(data, groups, 0)
    ensures Sextets(data + [a, b, c], groups + Block(a, b, c), 0)
    ensures Sextets(data + [a, b], groups + Block(a, b, 0)[..3], 2)
    ensures Sextets(data + [a], groups + Block(a, 0, 0)[..2], 4)
  {
    BlockNum(data, groups, a, b, c);
    BlockNum(data, groups, a, b, 0);
    BlockNum(data, groups, a, 0, 0);
    NumSnoc(256, data, a);
  }

  lemma BlockNum(data: seq<Byte>, groups: seq<nat>, a: Byte, b: Byte, c: Byte)
    requires Num(64, groups) == Num(256, data)
    ensures Num(64, groups + Block(a, b, c)) == Num(256, data + [a, b, c])
    ensures c == 0 ==> Num(64, groups + Block(a, b, c)[..3]) == Num(256, data + [a, b]) * 4
    ensures b == c == 0 ==> Num(64, groups + Block(a, b, c)[..2]) == (Num(256, data) * 256 + a) * 16
  {
    var g := Block(a, b, c);
    assert g[..3] == [g[0], g[1], g[2]] && g[..2] == [g[0], g[1]];
    NumFour(64, groups, g[0], g[1], g[2], g[3]);
    NumFour(256, data, a, b, c, 0);
    SameBits(Num(256, data), a, b, c);
  }

  /** One turn of the encoding loop. */
  lemma BlockTurn(data: seq<Byte>, i: nat, groups: seq<nat>, n: nat) returns (more: seq<nat>)
    requires i + 3 <= |data| && Sextets(data[..i], groups, 0)
    requires n == Pack(data[i], data[i + 1], data[i + 2])
    ensures Sextets(data[..i + 3], more, 0) && Below(64, more)
    ensures Chars(more) ==
      Chars(groups) + [Letter(n / 0x4_0000 % 64), Letter(n / 0x1000 % 64), Letter(n / 0x40 % 64), Letter(n % 64)]
  {
    var a, b, c := data[i], data[i + 1], data[i + 2];
    BlockSextets(data[..i], groups, a, b, c);
    UnpackBlock(a, b, c, n);
    assert data[..i + 3] == data[..i] + [a, b, c];
    CharsAppend(groups, Block(a, b, c));
    more := groups + Block(a, b, c);
  }

  lemma SpellsEnd(groups: seq<nat>, block: seq<nat>)
    requires Below(64, groups) && Below(64, block) && |groups| % 4 == 0 && 2 <= |block| <= 3
    ensures Spells(Chars(groups) + Chars(block) + Padding(4 - |block|), groups + block)
  {
    CharsAppend(groups, block);
    var text := Chars(groups) + Chars(block) + Padding(4 - |block|);
    assert |text| == |groups| + 4;
    assert |text| - |groups + block| == 4 - |block|;
  }

  lemma WholeBlocks(n: nat, m: nat)
    requires 6 * m == 8 * n
    ensures m % 4 == 0
  {
  }

  lemma LastBlock(data: seq<Byte>, groups: seq<nat>, a: Byte, b: Byte)
    requires Sextets(data, groups, 0)
    ensures Encodes(data + [a], Chars(groups) + Chars(Block(a, 0, 0)[..2]) + Padding(2))
    ensures Encodes(data + [a, b], Chars(groups) + Chars(Block(a, b, 0)[..3]) + Padding(1))
  {
    WholeBlocks(|data|, |groups|);
    BlockSextets(data, groups, a, b, 0);
    SpellsEnd(groups, Block(a, 0, 0)[..2]);
    SpellsEnd(groups, Block(a, b, 0)[..3]);
    assert Sextets(data + [a], groups + Block(a, 0, 0)[..2], 4);
    assert Sextets(data + [a, b], groups + Block(a, b, 0)[..3], 2);
  }

  /** Two letters and two `=` finish a text that has one byte left over. */
  lemma LastByte(data: seq<Byte>, groups: seq<nat>, a: Byte, n: nat)
    requires Sextets(data, groups, 0) && n == Pack(a, 0, 0)
    ensures Encodes(data + [a], Chars(groups) + [Letter(n / 0x4_0000 % 64), Letter(n / 0x1000 % 64), '=', '='])
  {
    LastBlock(data, groups, a, 0);
    UnpackBlock(a, 0, 0, n);
    var block := Block(a, 0, 0)[..2];
    var end := [Letter(n / 0x4_0000 % 64), Letter(n / 0x1000 % 64), '=', '='];
    assert Chars(block) + Padding(2) == end;
    assert Chars(groups) + Chars(block) + Padding(2) == Chars(groups) + end;
  }

  /** Three letters and one `=` finish a text that has two bytes left over. */
  lemma LastTwoBytes(data: seq<Byte>, groups: seq<nat>, a: Byte, b: Byte, n: nat)
    requires Sextets(data, groups, 0) && n == Pack(a, b, 0)
    ensures Encodes(data + [a, b],
      Chars(groups) + [Letter(n / 0x4_0000 % 64), Letter(n / 0x1000 % 64), Letter(n / 0x40 % 64), '='])
  {
    LastBlock(data, groups, a, b);
    UnpackBlock(a, b, 0, n);
    var block := Block(a, b, 0)[..3];
    var end := [Letter(n / 0x4_0000 % 64), Letter(n / 0x1000 % 64), Letter(n / 0x40 % 64), '='];
    assert Chars(block) + Padding(1) == end;
    assert Chars(groups) + Chars(block) + Padding(1) == Chars(groups) + end;
  }

  lemma NothingLeft(data: seq<Byte>, groups: seq<nat>)
    requires Sextets(data, groups, 0)
    ensures Encodes(data, Chars(groups))
  {
    WholeBlocks(|data|, |groups|);
    assert Chars(groups) == Chars(groups) + Padding(0);
    assert Spells(Chars(groups), groups);
  }

  lemma NothingWritten()
    ensures Sextets([], [], 0) && Chars([]) == []
  {
  }

  /** `base64Encode`: whole three-byte blocks, then the one or two bytes left over. */
  method Encode(data: seq<Byte>) returns (out: seq<Octet>)
    ensures Encodes(data, out)
  {
    hide Sextets, Encodes, Chars, Num, ALPHABET;
    out := [];
    var i := 0;
    ghost var groups: seq<nat> := [];
    NothingWritten();
    while i + 3 <= |data|
      invariant 0 <= i <= |data|
      invariant Sextets(data[..i], groups, 0) && Below(64, groups) && out == Chars(groups)
    {
      var n := Pack(data[i], data[i + 1], data[i + 2]);
      groups := BlockTurn(data, i, groups, n);
      out := out + [Letter(n / 0x4_0000 % 64), Letter(n / 0x1000 % 64), Letter(n / 0x40 % 64), Letter(n % 64)];
      i := i + 3;
    }
    if i < |data| {
      var n := Pack(data[i], 0, 0);
      var hasTwo := i + 1 < |data|;
      if hasTwo {
        n := n + Pack(0, data[i + 1], 0);
        LastTwoBytes(data[..i], groups, data[i], data[i + 1], n);
        assert data == data[..i] + [data[i], data[i + 1]];
      } else {
        LastByte(data[..i], groups, data[i], n);
        assert data == data[..i] + [data[i]];
      }
      out := out + [Letter(n / 0x4_0000 % 64), Letter(n / 0x1000 % 64),
                    if hasTwo then Letter(n / 0x40 % 64) else '=', '='];
    } else {
      assert data[..i] == data;
      NothingLeft(data, groups);
    }
  }

  // ------------------------------------------------------------------ decoder

  /** `r` is what an inverse of the encoder answers on `text`. */
  ghost predicate Inverse(text: seq<Octet>, r: Result) {
    forall d: seq<Byte> :: r == Decoded(d) <==> Encodes(d, text)
  }

  lemma EncodesSpells(d: seq<Byte>, text: seq<Octet>) returns (g: seq<nat>, p: Bits)
    requires Encodes(d, text)
    ensures Sextets(d, g, p) && Spells(text, g)
    ensures forall k :: 0 <= k < |g| ==> text[k] != '=' && IndexOf(text[k]) == g[k]
    ensures forall k :: |g| <= k < |text| ==> text[k] == '='
  {
    g, p :| Sextets(d, g, p) && Spells(text, g);
    SpellsShape(text, g);
  }

  /** No text has a length that four does not divide. */
  lemma OddLengthIsNoText(text: seq<Octet>, e: Error)
    requires |text| % 4 != 0
    ensures Inverse(text, Rejected(e))
  {
    forall d: seq<Byte> ensures !Encodes(d, text) {
      if Encodes(d, text) {
        var g, p := EncodesSpells(d, text);
        assert false;
      }
    }
  }

  /** No text has `=` before its last two characters. */
  lemma EarlyPaddingIsNoText(text: seq<Octet>, i: nat, e: Error)
    requires i + 2 < |text| && text[i] == '='
    ensures Inverse(text, Rejected(e))
  {
    forall d: seq<Byte> ensures !Encodes(d, text) {
      if Encodes(d, text) {
        var g, p := EncodesSpells(d, text);
        assert false;
      }
    }
  }

  /** No text has another character after `=`. */
  lemma DataAfterPaddingIsNoText(text: seq<Octet>, i: nat, j: nat, e: Error)
    requires i < j < |text| && text[i] == '=' && text[j] != '='
    ensures Inverse(text, Rejected(e))
  {
    forall d: seq<Byte> ensures !Encodes(d, text) {
      if Encodes(d, text) {
        var g, p := EncodesSpells(d, text);
        assert false;
      }
    }
  }

  /** No text has a character outside the alphabet other than `=`. */
  lemma ForeignCharIsNoText(text: seq<Octet>, i: nat, e: Error)
    requires i < |text| && text[i] != '=' && IndexOf(text[i]) < 0
    ensures Inverse(text, Rejected(e))
  {
    forall d: seq<Byte> ensures !Encodes(d, text) {
      if Encodes(d, text) {
        var g, p := EncodesSpells(d, text);
        assert false;
      }
    }
  }

  /** The whole bytes among the bits of `vals`, `bits` of them left over. */
  ghost predicate Drained(vals: seq<nat>, bytes: seq<Byte>, bits: Bits) {
    && 6 * |vals| == 8 * |bytes| + bits
    && Num(256, bytes) == ShiftRight(Num(64, vals), bits)
  }

  lemma FreedByte(n: nat, v: nat, bits: Bits)
    requires v < 64 && bits > 0
    ensures
      var w := ShiftRight(n * 64 + v, bits - 2);
      w == ShiftRight(n, bits) * 256 + w % 256
  {
    if bits == 2 {
      SplitLast(256, n / 4, n % 4 * 64 + v);
    } else if bits == 4 {
      SplitLast(4, n * 16 + v / 4, v % 4);
      SplitLast(256, n / 16, n % 16 * 16 + v / 4);
    } else {
      SplitLast(16, n * 4 + v / 16, v % 16);
      SplitLast(256, n / 64, n % 64 * 4 + v / 16);
    }
  }

  /** One more group frees no byte when nothing was left over, and one byte otherwise. */
  lemma DrainStep(vals: seq<nat>, v: nat, bytes: seq<Byte>, bits: Bits)
    requires v < 64 && Drained(vals, bytes, bits)
    ensures bits == 0 ==> Drained(vals + [v], bytes, 6)
    ensures bits > 0 ==>
      Drained(vals + [v], bytes + [ShiftRight(Num(64, vals + [v]), bits - 2) % 256], bits - 2)
  {
    NumSnoc(64, vals, v);
    if bits > 0 {
      FreedByte(Num(64, vals), v, bits);
      NumSnoc(256, bytes, ShiftRight(Num(64, vals) * 64 + v, bits - 2) % 256);
    } else {
      SplitLast(64, Num(64, vals), v);
    }
  }

  lemma Regroup(t: nat, q: nat, b: nat, s: nat)
    ensures (t * q + s) * b == t * (b * q) + s * b
  {
    assert (t * q + s) * b == t * q * b + s * b;
  }

  lemma WrapAway(t: nat, r: nat, b: nat, q: nat)
    requires b > 0 && b * q == 0x1_0000_0000
    ensures (t * 0x1_0000_0000 + r) % b == r % b
    ensures (t * 0x1_0000_0000 + r) / b == t * q + r / b
  {
    Regroup(t, q, b, r / b);
    SplitLast(b, t * q + r / b, r % b);
  }

  /** Bits that wrap out of 32 do not reach a byte that starts at bit 6 or below. */
  lemma WrapKeepsByte(t: nat, r: nat, bits: Bits)
    ensures ShiftRight(t * 0x1_0000_0000 + r, bits) % 256 == ShiftRight(r, bits) % 256
    ensures LowBits(t * 0x1_0000_0000 + r, bits) == LowBits(r, bits)
  {
    if bits == 0 {
      WrapAway(t, r, 256, 0x100_0000);
    } else if bits == 2 {
      WrapAway(t, r, 4, 0x4000_0000);
      SplitLast(256, t * 0x40_0000 + r / 4 / 256, r / 4 % 256);
    } else if bits == 4 {
      WrapAway(t, r, 16, 0x1000_0000);
      SplitLast(256, t * 0x10_0000 + r / 16 / 256, r / 16 % 256);
    } else {
      WrapAway(t, r, 64, 0x400_0000);
      SplitLast(256, t * 0x4_0000 + r / 64 / 256, r / 64 % 256);
    }
  }

  /** What wraps out of the 32-bit accumulator is never looked at again. */
  lemma WrapKeepsLowBits(n: nat, buf: nat, v: nat, bits: Bits)
    requires buf == n % 0x1_0000_0000
    ensures
      var wrapped := (buf * 64 + v) % 0x1_0000_0000;
      && wrapped == (n * 64 + v) % 0x1_0000_0000
      && ShiftRight(wrapped, bits) % 256 == ShiftRight(n * 64 + v, bits) % 256
      && LowBits(wrapped, bits) == LowBits(n * 64 + v, bits)
  {
    var t := n / 0x1_0000_0000 * 64 + (buf * 64 + v) / 0x1_0000_0000;
    var wrapped := (buf * 64 + v) % 0x1_0000_0000;
    assert n * 64 + v == t * 0x1_0000_0000 + wrapped;
    SplitLast(0x1_0000_0000, t, wrapped);
    WrapKeepsByte(t, wrapped, bits);
  }

  /** One turn of the decoding loop on a letter. */
  lemma ReadSextet(vals: seq<nat>, v: nat, bytes: seq<Byte>, bits: Bits, buf: nat)
    requires v < 64 && Drained(vals, bytes, bits) && buf == Num(64, vals) % 0x1_0000_0000
    ensures
      var buf' := (buf * 64 + v) % 0x1_0000_0000;
      && buf' == Num(64, vals + [v]) % 0x1_0000_0000
      && (bits == 0 ==> Drained(vals + [v], bytes, 6))
      && (bits > 0 ==> Drained(vals + [v], bytes + [ShiftRight(buf', bits - 2) % 256], bits - 2))
  {
    DrainStep(vals, v, bytes, bits);
    NumSnoc(64, vals, v);
    WrapKeepsLowBits(Num(64, vals), buf, v, if bits == 0 then 0 else bits - 2);
  }

  /** What has been read: the characters of `vals`, then `pad` times `=`. */
  ghost predicate Consumed(text: seq<Octet>, i: nat, vals: seq<nat>, pad: nat) {
    && i <= |text| && |text| % 4 == 0 && i == |vals| + pad && pad <= 2
    && Below(64, vals) && text[..i] == Chars(vals) + Padding(pad)
  }

  lemma NothingRead(text: seq<Octet>)
    requires |text| % 4 == 0
    ensures Consumed(text, 0, [], 0) && Drained([], [], 0) && Num(64, []) == 0
  {
  }

  lemma ReadPadding(text: seq<Octet>, i: nat, vals: seq<nat>, pad: nat)
    requires Consumed(text, i, vals, pad) && i < |text| && text[i] == '='
    ensures pad < 2 ==> Consumed(text, i + 1, vals, pad + 1)
    ensures pad == 2 ==> i >= 2 && text[i - 2] == '='
  {
    assert text[..i + 1] == text[..i] + [text[i]];
    assert Padding(pad + 1) == Padding(pad) + ['='];
    if pad == 2 {
      assert text[..i][i - 2] == '=';
    }
  }

  lemma LastPadding(text: seq<Octet>, i: nat, vals: seq<nat>, pad: nat)
    requires Consumed(text, i, vals, pad) && pad > 0
    ensures i > 0 && text[i - 1] == '='
  {
    assert text[..i][i - 1] == '=';
  }

  lemma ReadLetter(text: seq<Octet>, i: nat, vals: seq<nat>)
    requires Consumed(text, i, vals, 0) && i < |text| && IndexOf(text[i]) >= 0
    ensures Consumed(text, i + 1, vals + [IndexOf(text[i])], 0)
  {
    assert text[..i + 1] == text[..i] + [text[i]];
    LetterOfIndex(text[i]);
    CharsAppend(vals, [IndexOf(text[i])]);
  }

  lemma BitsLeft(m: nat, pad: nat, n: nat, bits: Bits)
    requires (m + pad) % 4 == 0 && pad <= 2 && 6 * m == 8 * n + bits
    ensures bits < 6
  {
  }

  lemma ShiftBack(n: nat, v: nat, bits: Bits)
    ensures v == ShiftRight(n, bits) && LowBits(n, bits) == 0 ==> n == ShiftLeft(v, bits)
    ensures n == ShiftLeft(v, bits) ==> LowBits(n, bits) == 0
  {
    if bits == 2 {
      SplitLast(4, v, 0);
    } else if bits == 4 {
      SplitLast(16, v, 0);
    } else if bits == 6 {
      SplitLast(64, v, 0);
    }
  }

  /** Left-over bits that are zero: the bytes read are the meaning of the text. */
  lemma CanonicalEnd(text: seq<Octet>, vals: seq<nat>, pad: nat, bytes: seq<Byte>, bits: Bits)
    requires Consumed(text, |text|, vals, pad) && Drained(vals, bytes, bits)
    requires LowBits(Num(64, vals), bits) == 0
    ensures Inverse(text, Decoded(bytes))
  {
    assert text[..|text|] == text;
    BitsLeft(|vals|, pad, |bytes|, bits);
    ShiftBack(Num(64, vals), Num(256, bytes), bits);
    assert Spells(text, vals);
    assert Sextets(bytes, vals, bits);
    assert Encodes(bytes, text);
    forall d: seq<Byte> | Encodes(d, text) ensures d == bytes {
      OneMeaning(text, d, bytes);
    }
  }

  /** Left-over bits that are not zero: no bytes have this text. */
  lemma NonCanonicalEnd(text: seq<Octet>, vals: seq<nat>, pad: nat, bytes: seq<Byte>, bits: Bits)
    requires Consumed(text, |text|, vals, pad) && Drained(vals, bytes, bits)
    requires LowBits(Num(64, vals), bits) != 0
    ensures Inverse(text, Rejected(NonCanonicalBits))
  {
    assert text[..|text|] == text;
    assert Spells(text, vals);
    forall d: seq<Byte> ensures !Encodes(d, text) {
      if Encodes(d, text) {
        var g, p := EncodesSpells(d, text);
        SpellsOnce(text, g, vals);
        SameBytes(|vals|, |d|, p, |bytes|, bits);
        ShiftBack(Num(64, vals), Num(256, d), bits);
        assert false;
      }
    }
  }

  /** The decoder's table: the position of each octet in the alphabet, -1 for the others. */
  method BuildLookup() returns (t: array<int>)
    ensures fresh(t) && t.Length == 256
    ensures forall c: Octet :: t[c as int] == IndexOf(c)
  {
    t := new int[256](_ => -1);
    var i := 0;
    while i < 64
      invariant 0 <= i <= 64
      invariant forall c: Octet :: t[c as int] == if IndexOf(c) < i then IndexOf(c) else -1
    {
      LetterAt(i);
      forall c: Octet | IndexOf(c) == i ensures c == ALPHABET[i] {
        LetterOfIndex(c);
      }
      t[ALPHABET[i] as int] := i;
      i := i + 1;
    }
  }

  // ------------------------------------------------------- which fault is reported

  /** The fault, if any, of the character at `i`, by itself and the one before it. */
  predicate IsFault(text: seq<Octet>, i: nat, e: Error)
    requires i < |text|
  {
    match e
    case MisplacedPadding => text[i] == '=' && i + 2 < |text|
    case DataAfterPadding => text[i] != '=' && i > 0 && text[i - 1] == '='
    case InvalidCharacter => text[i] != '=' && !(i > 0 && text[i - 1] == '=') && IndexOf(text[i]) < 0
    case _ => false
  }

  ghost predicate FaultFree(text: seq<Octet>, n: nat)
    requires n <= |text|
  {
    forall j: nat, e :: j < n ==> !IsFault(text, j, e)
  }

  /** A text of whole blocks is refused for its first fault, or for its last bits when no character is at fault. */
  ghost predicate Reported(text: seq<Octet>, r: Result) {
    |text| % 4 == 0 ==>
      match r
      case Decoded(_) => FaultFree(text, |text|)
      case Rejected(BadLength) => false
      case Rejected(NonCanonicalBits) => FaultFree(text, |text|)
      case Rejected(e) => exists i: nat :: i < |text| && IsFault(text, i, e) && FaultFree(text, i)
  }

  /** What is reported at `i`, when nothing before is at fault. */
  lemma FaultHere(text: seq<Octet>, i: nat)
    requires i < |text| && FaultFree(text, i)
    ensures text[i] == '=' && i + 2 < |text| ==> Reported(text, Rejected(MisplacedPadding))
    ensures text[i] != '=' && i > 0 && text[i - 1] == '=' ==> Reported(text, Rejected(DataAfterPadding))
    ensures text[i] != '=' && !(i > 0 && text[i - 1] == '=') && IndexOf(text[i]) < 0 ==>
              Reported(text, Rejected(InvalidCharacter))
    ensures text[i] == '=' && i + 2 >= |text| ==> FaultFree(text, i + 1)
    ensures text[i] != '=' && !(i > 0 && text[i - 1] == '=') && IndexOf(text[i]) >= 0 ==> FaultFree(text, i + 1)
  {
    hide IndexOf;
    if text[i] == '=' && i + 2 < |text| {
      assert IsFault(text, i, MisplacedPadding);
    } else if text[i] != '=' && i > 0 && text[i - 1] == '=' {
      assert IsFault(text, i, DataAfterPadding);
    } else if text[i] != '=' && IndexOf(text[i]) < 0 {
      assert IsFault(text, i, InvalidCharacter);
    }
  }

  /** Two characters of padding at the end are never exceeded: the one before them would be at fault. */
  lemma NoThirdPadding(text: seq<Octet>, i: nat)
    requires 2 <= i < |text| <= i + 2 && FaultFree(text, i)
    ensures text[i - 2] != '='
  {
    assert !IsFault(text, i - 2, MisplacedPadding);
  }

  lemma NoFault(text: seq<Octet>, r: Result)
    requires FaultFree(text, |text|) && (r.Decoded? || r == Rejected(NonCanonicalBits))
    ensures Reported(text, r)
  {
  }

  lemma NoFaultYet(text: seq<Octet>)
    ensures FaultFree(text, 0)
    ensures |text| % 4 != 0 ==> Reported(text, Rejected(BadLength))
  {
  }

  /**
   `base64Decode`: six bits a character into a 32-bit accumulator that wraps.
   It accepts exactly the encoder's texts, and returns the bytes they stand for.
   */
  method Decode(text: seq<Octet>) returns (r: Result)
    ensures Inverse(text, r) && Reported(text, r)
    ensures r == Rejected(BadLength) <==> |text| % 4 != 0
  {
    hide *;
    var lookup := BuildLookup();
    NoFaultYet(text);
    if |text| % 4 != 0 {
      OddLengthIsNoText(text, BadLength);
      return Rejected(BadLength);
    }
    var out: seq<Byte> := [];
    var buf: nat, bits, pad := 0, 0, 0;
    ghost var vals: seq<nat> := [];
    var i := 0;
    NothingRead(text);
    while i < |text|
      invariant i <= |text| && pad <= 2 && Consumed(text, i, vals, pad)
      invariant (bits == 0 || bits == 2 || bits == 4 || bits == 6) && Drained(vals, out, bits)
      invariant buf == Num(64, vals) % 0x1_0000_0000
      invariant forall o: Octet :: lookup[o as int] == IndexOf(o)
      invariant FaultFree(text, i) && (pad > 0 <==> i > 0 && text[i - 1] == '=')
    {
      var c := text[i];
      FaultHere(text, i);
      if c == '=' {
        if i < |text| - 2 {
          EarlyPaddingIsNoText(text, i, MisplacedPadding);
          return Rejected(MisplacedPadding);
        }
        ReadPadding(text, i, vals, pad);
        pad := pad + 1;
        if pad > 2 {
          NoThirdPadding(text, i);
          assert false;
          return Rejected(MisplacedPadding);
        }
        i := i + 1;
        continue;
      }
      if pad > 0 {
        LastPadding(text, i, vals, pad);
        DataAfterPaddingIsNoText(text, i - 1, i, DataAfterPadding);
        return Rejected(DataAfterPadding);
      }
      var val := lookup[c as int];
      if val < 0 {
        ForeignCharIsNoText(text, i, InvalidCharacter);
        return Rejected(InvalidCharacter);
      }
      ReadLetter(text, i, vals);
      ReadSextet(vals, val, out, bits, buf);
      vals := vals + [val];
      buf := (buf * 64 + val) % 0x1_0000_0000;
      bits := bits + 6;
      if bits >= 8 {
        bits := bits - 8;
        out := out + [ShiftRight(buf, bits) % 256];
      }
      i := i + 1;
    }
    NoFault(text, Decoded(out));
    NoFault(text, Rejected(NonCanonicalBits));
    WrapKeepsByte(Num(64, vals) / 0x1_0000_0000, buf, bits);
    if LowBits(buf, bits) != 0 {
      NonCanonicalEnd(text, vals, pad, out, bits);
      return Rejected(NonCanonicalBits);
    }
    CanonicalEnd(text, vals, pad, out, bits);
    return Decoded(out);
  }
}
