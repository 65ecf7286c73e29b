/** The texts of section 10 of RFC 4648, and the name of each fault (src/utils.cpp:6-76). */
module Base64Texts {
  import opened Base64

  // ----------------------------------------------------------------- texts to compare with

  lemma LettersOf(d: seq<nat>, t: seq<Octet>)
    requires |d| == |t| && forall k :: 0 <= k < |d| ==> d[k] < 64 && IndexOf(t[k]) == d[k]
    ensures Digits.Below(64, d) && Chars(d) == t
  {
    hide IndexOf;
    forall k | 0 <= k < |d|
      ensures Letter(d[k]) == t[k]
    {
      LetterOfIndex(t[k]);
    }
  }

  /** Three more bytes, by the positions of the four letters. */
  lemma FourLetters(data: seq<Byte>, groups: seq<nat>, a: Byte, b: Byte, c: Byte, t: seq<Octet>)
    requires Sextets(data, groups, 0) && |t| == 4
    requires IndexOf(t[0]) == a / 4 && IndexOf(t[1]) == a % 4 * 16 + b / 16
    requires IndexOf(t[2]) == b % 16 * 4 + c / 64 && IndexOf(t[3]) == c % 64
    ensures Encodes(data + [a, b, c], Chars(groups) + t)
    ensures Sextets(data + [a, b, c], groups + Block(a, b, c), 0) && Chars(groups + Block(a, b, c)) == Chars(groups) + t
  {
    hide Encodes, Sextets, Chars, IndexOf;
    BlockSextets(data, groups, a, b, c);
    LettersOf(Block(a, b, c), t);
    GroupsBelow(data, groups);
    CharsAppend(groups, Block(a, b, c));
    NothingLeft(data + [a, b, c], groups + Block(a, b, c));
  }

  lemma GroupsBelow(data: seq<Byte>, groups: seq<nat>)
    requires Sextets(data, groups, 0)
    ensures Digits.Below(64, groups)
  {
  }

  /** Two more bytes: three letters and `=`. */
  lemma ThreeLetters(data: seq<Byte>, groups: seq<nat>, a: Byte, b: Byte, t: seq<Octet>)
    requires Sextets(data, groups, 0) && |t| == 3
    requires IndexOf(t[0]) == a / 4 && IndexOf(t[1]) == a % 4 * 16 + b / 16 && IndexOf(t[2]) == b % 16 * 4
    ensures Encodes(data + [a, b], Chars(groups) + t + "=")
  {
    hide Encodes, Sextets, Chars, IndexOf;
    LastBlock(data, groups, a, b);
    LettersOf(Block(a, b, 0)[..3], t);
    assert Padding(1) == "=";
  }

  /** One more byte: two letters and `==`. */
  lemma TwoLetters(data: seq<Byte>, groups: seq<nat>, a: Byte, t: seq<Octet>)
    requires Sextets(data, groups, 0) && |t| == 2
    requires IndexOf(t[0]) == a / 4 && IndexOf(t[1]) == a % 4 * 16
    ensures Encodes(data + [a], Chars(groups) + t + "==")
  {
    hide Encodes, Sextets, Chars, IndexOf;
    LastBlock(data, groups, a, 0);
    LettersOf(Block(a, 0, 0)[..2], t);
    assert Padding(2) == "==";
  }

  /** Nothing, "f", "fo" and "foo". */
  lemma FirstVectors()
    ensures Encodes([], "")
    ensures Encodes([102], "Zg==") && Encodes([102, 111], "Zm8=") && Encodes([102, 111, 111], "Zm9v")
  {
    hide Encodes, Sextets, Chars;
    NothingWritten();
    NothingLeft([], []);
    TwoLetters([], [], 102, "Zg");
    ThreeLetters([], [], 102, 111, "Zm8");
    FourLetters([], [], 102, 111, 111, "Zm9v");
    assert [] + [102] == [102] && [] + [102, 111] == [102, 111] && [] + [102, 111, 111] == [102, 111, 111];
    assert [] + "Zg" + "==" == "Zg==" && [] + "Zm8" + "=" == "Zm8=" && [] + "Zm9v" == "Zm9v";
  }

  /** "foob", "fooba" and "foobar". */
  lemma MoreVectors()
    ensures Encodes([102, 111, 111, 98], "Zm9vYg==") && Encodes([102, 111, 111, 98, 97], "Zm9vYmE=")
    ensures Encodes([102, 111, 111, 98, 97, 114], "Zm9vYmFy")
  {
    hide Encodes, Sextets, Chars;
    var foo: seq<Byte> := [102, 111, 111];
    var g := Block(102, 111, 111);
    NothingWritten();
    FourLetters([], [], 102, 111, 111, "Zm9v");
    assert [] + foo == foo && [] + g == g && [] + "Zm9v" == "Zm9v";
    TwoLetters(foo, g, 98, "Yg");
    ThreeLetters(foo, g, 98, 97, "YmE");
    FourLetters(foo, g, 98, 97, 114, "YmFy");
    assert foo + [98] == [102, 111, 111, 98] && foo + [98, 97] == [102, 111, 111, 98, 97];
    assert foo + [98, 97, 114] == [102, 111, 111, 98, 97, 114];
    assert "Zm9v" + "Yg" + "==" == "Zm9vYg==" && "Zm9v" + "YmE" + "=" == "Zm9vYmE=";
    assert "Zm9v" + "YmFy" == "Zm9vYmFy";
  }

  // ------------------------------------------------------------------------ the faults

  lemma InAlphabet(c: Octet)
    ensures c in ALPHABET <==> IndexOf(c) >= 0
    ensures '=' !in ALPHABET
  {
    hide IndexOf;
    if IndexOf(c) >= 0 {
      LetterOfIndex(c);
      assert c == ALPHABET[IndexOf(c)];
    }
    forall k | 0 <= k < |ALPHABET|
      ensures IndexOf(ALPHABET[k]) >= 0 && ALPHABET[k] != '='
    {
      AlphabetAt(0);
      LetterAt(k);
      AlphabetAt(k);
    }
  }

  lemma NoFaultInLetters(text: seq<Octet>, i: nat)
    requires i <= |text| && forall j :: 0 <= j < i ==> text[j] in ALPHABET
    ensures FaultFree(text, i)
  {
    hide IndexOf;
    forall j: nat, e | j < i
      ensures !IsFault(text, j, e)
    {
      InAlphabet(text[j]);
      if j > 0 {
        InAlphabet(text[j - 1]);
      }
    }
  }

  /** What is reported is the first fault, so a fault with none before it is what is reported. */
  lemma FirstIsReported(text: seq<Octet>, i: nat, e: Error, r: Result)
    requires |text| % 4 == 0 && i < |text| && FaultFree(text, i) && IsFault(text, i, e) && Reported(text, r)
    ensures r == Rejected(e)
  {
    hide IndexOf;
    NotFree(text, i, e);
    if r.Rejected? && r.error != BadLength && r.error != NonCanonicalBits {
      var j: nat :| j < |text| && IsFault(text, j, r.error) && FaultFree(text, j);
      OneFirst(text, i, e, j, r.error);
    }
  }

  lemma NotFree(text: seq<Octet>, i: nat, e: Error)
    requires i < |text| && IsFault(text, i, e)
    ensures !FaultFree(text, |text|)
  {
  }

  lemma OneFirst(text: seq<Octet>, i: nat, e: Error, j: nat, f: Error)
    requires i < |text| && j < |text|
    requires FaultFree(text, i) && IsFault(text, i, e) && FaultFree(text, j) && IsFault(text, j, f)
    ensures e == f
  {
  }

  /**
   The name of each fault of a text of whole blocks, where only letters of the alphabet stand before it: `=` too early;
   a character that is neither a letter nor `=`; a character other than `=` after `=`. Without any of these what is
   refused is refused for its last bits.
   */
  lemma FaultsAreNamed(text: seq<Octet>, i: nat, r: Result)
    requires |text| % 4 == 0 && i < |text| && (forall j :: 0 <= j < i ==> text[j] in ALPHABET)
    requires Reported(text, r)
    ensures text[i] == '=' && i < |text| - 2 ==> r == Rejected(MisplacedPadding)
    ensures text[i] != '=' && text[i] !in ALPHABET ==> r == Rejected(InvalidCharacter)
    ensures text[i] == '=' && i == |text| - 2 && text[i + 1] != '=' ==> r == Rejected(DataAfterPadding)
    ensures text[i] == '=' && i == |text| - 2 && text[i + 1] == '=' && r.Rejected? ==> r == Rejected(NonCanonicalBits)
    ensures i == |text| - 1 && (text[i] == '=' || text[i] in ALPHABET) && r.Rejected? ==>
              r == Rejected(NonCanonicalBits)
  {
    hide IndexOf, Reported, FaultFree;
    NoFaultInLetters(text, i);
    InAlphabet(text[i]);
    if i > 0 {
      InAlphabet(text[i - 1]);
    }
    if text[i] == '=' && i < |text| - 2 {
      FirstIsReported(text, i, MisplacedPadding, r);
    } else if text[i] != '=' && text[i] !in ALPHABET {
      FirstIsReported(text, i, InvalidCharacter, r);
    } else if text[i] == '=' && i == |text| - 2 {
      FaultHere(text, i);
      FaultHere(text, i + 1);
      if text[i + 1] != '=' {
        FirstIsReported(text, i + 1, DataAfterPadding, r);
      } else if r.Rejected? {
        OnlyBits(text, r);
      }
    } else if i == |text| - 1 && r.Rejected? {
      FaultHere(text, i);
      OnlyBits(text, r);
    }
  }

  lemma OnlyBits(text: seq<Octet>, r: Result)
    requires |text| % 4 == 0 && FaultFree(text, |text|) && Reported(text, r) && r.Rejected?
    ensures r == Rejected(NonCanonicalBits)
  {
  }
}
