/** Which words, values and ports are at fault, and which are not, by the verdicts (src/addr_filter.cpp:130-204). */
module AddressFaults {
  import opened Digits
  import opened Fields
  import opened Segments
  import opened Ip4
  import opened Ip6
  import opened Multiaddr

  // -------------------------------------------------------------------------- ports

  lemma {:induction false} NumZero(b: nat, d: seq<nat>)
    requires b > 0
    ensures Num(b, d) == 0 <==> forall k :: 0 <= k < |d| ==> d[k] == 0
  {
    if d != [] {
      var front, last := d[..|d| - 1], d[|d| - 1];
      NumZero(b, front);
      assert forall k :: 0 <= k < |front| ==> front[k] == d[k];
      Positive(Num(b, front), b);
    }
  }

  lemma Positive(n: nat, b: nat)
    requires b > 0
    ensures n * b == 0 <==> n == 0
  {
    MultipleBeyond(b, n);
  }

  /** A zero port is a non-empty run of digits whose value is zero. */
  lemma ZeroDigitsAreZero(s: string)
    ensures AllZeroDigits(s) <==> s != "" && AllDigits(s) && Decimal(s) == 0
  {
    if AllDigits(s) {
      NumZero(10, DigitValues(s));
      assert forall k :: 0 <= k < |s| ==> (s[k] == '0' <==> DigitValues(s)[k] == 0);
    } else {
      var k :| 0 <= k < |s| && !IsDigit(s[k]);
      assert s[k] != '0';
    }
  }

  // ------------------------------------------------------------------ one component

  /** A protocol that takes a value, with that value, alone. */
  lemma PairAlone(proto: string, value: string, allow: bool)
    requires TakesValue(proto) && '/' !in value && value != ""
    ensures Components(Segs(proto + "/" + value)) == [Valued(proto, value)]
    ensures
      var c := Valued(proto, value);
      VerdictOf(proto + "/" + value, allow) ==
        if WildcardHost(c) then Wildcard
        else if PortZero(c) then ZeroPort
        else if LoopbackHost(c) && !allow then Loopback else Ok
  {
    var c := Valued(proto, value);
    assert Segs(proto + "/" + value) == [proto, value] by {
      assert proto != "" && '/' !in proto;
      SegsAppend(proto, value);
      SegsAtom(proto);
      SegsAtom(value);
      assert [proto] + [value] == [proto, value];
    }
    ComponentsOfTwo([proto, value]);
    hide Components, Segs, Judge, WildcardHost, LoopbackHost, TakesValue, PortZero;
    JudgeAny(c, allow);
  }

  lemma JudgeAny(c: Component, allow: bool)
    ensures Judge([c], allow) ==
      if WildcardHost(c) then Wildcard
      else if PortZero(c) then ZeroPort
      else if LoopbackHost(c) && !allow then Loopback else Ok
  {
    hide WildcardHost, PortZero, LoopbackHost, Judge;
    var cs := [c];
    if Hard(c) {
      assert FirstHard(cs, 0);
      JudgedHard(cs, 0, allow);
      JudgedIs(cs, allow, HardVerdict(c));
    } else {
      JudgedSoft(cs, allow);
      assert SomeLoopback(cs) <==> LoopbackHost(c) by {
        assert LoopbackHost(c) ==> LoopbackHost(cs[0]);
      }
      JudgedIs(cs, allow, if !allow && SomeLoopback(cs) then Loopback else Ok);
    }
  }

  /** A port of one of the three transports is at fault iff it is a run of digits worth zero. */
  lemma PortsByValue(transport: string, port: string, allow: bool)
    requires transport == "tcp" || transport == "udp" || transport == "sctp"
    requires '/' !in port && port != ""
    ensures VerdictOf(transport + "/" + port, allow) ==
      if AllDigits(port) && Decimal(port) == 0 then ZeroPort else Ok
  {
    ZeroDigitsAreZero(port);
    hide Decimal, AllZeroDigits, VerdictOf;
    PairAlone(transport, port, allow);
  }

  /** A host that cannot be read is left alone. */
  lemma UnreadableHostIsLeft(host: string, allow: bool)
    requires '/' !in host && host != ""
    ensures !IsQuad(host) ==> VerdictOf("ip4" + "/" + host, allow) == Ok
    ensures Parse(host).None? ==> VerdictOf("ip6" + "/" + host, allow) == Ok
  {
    hide IsQuad, Parse, VerdictOf;
    PairAlone("ip4", host, allow);
    PairAlone("ip6", host, allow);
  }

  /** No other word is ever at fault, whatever stands after it. */
  lemma OnlyHostsAndPorts(word: string, next: string, allow: bool)
    requires word != "" && '/' !in word && next != "" && '/' !in next
    requires word != "ip4" && word != "ip6" && word != "tcp" && word != "udp" && word != "sctp"
    ensures VerdictOf(word + "/" + next, allow) == Ok
  {
    hide VerdictOf;
    if TakesValue(word) {
      PairAlone(word, next, allow);
    } else {
      FlagFirst(word, next, allow);
    }
  }

  lemma FlagFirst(word: string, next: string, allow: bool)
    requires word != "" && '/' !in word && next != "" && '/' !in next && !TakesValue(word)
    ensures VerdictOf(word + "/" + next, allow) == Ok
  {
    assert Segs(word + "/" + next) == [word, next] by {
      SegsAppend(word, next);
      SegsAtom(word);
      SegsAtom(next);
      assert [word] + [next] == [word, next];
    }
    var cs := Components([word, next]);
    assert forall k :: 0 <= k < |cs| ==> !cs[k].Valued? by {
      TwoWords(word, next);
    }
    hide Components, Segs, Judge, WildcardHost, LoopbackHost, TakesValue, PortZero;
    AllHarmless(cs, allow);
  }

  lemma TwoWords(word: string, next: string)
    requires !TakesValue(word)
    ensures Components([word, next]) == [Flag(word), if TakesValue(next) then Dangling(next) else Flag(next)]
  {
    hide TakesValue, Components;
    ComponentsStep([word, next], 0);
    ComponentsStep([word, next], 1);
    ComponentsNil([word, next]);
    assert [word, next][0..] == [word, next];
  }

  lemma AllHarmless(cs: seq<Component>, allow: bool)
    requires forall k :: 0 <= k < |cs| ==> !cs[k].Valued?
    ensures Judge(cs, allow) == Ok
  {
    hide WildcardHost, PortZero, LoopbackHost, Judge, Hard;
    forall k | 0 <= k < |cs|
      ensures !Hard(cs[k]) && !LoopbackHost(cs[k])
    {
      FlagHarmless(cs[k]);
    }
    JudgedSoft(cs, allow);
    JudgedIs(cs, allow, Ok);
  }

  // ------------------------------------------------------------------ who takes a value

  /** The words whose next segment is their value are just these fifteen: after any other one a port 0 shows. */
  lemma ValueIsSkipped(word: string, allow: bool)
    requires word != "" && '/' !in word
    ensures VerdictOf(word + "/" + "tcp/0", allow) ==
      if word in {"ip4", "ip6", "tcp", "udp", "sctp", "dns", "dns4", "dns6", "dnsaddr", "p2p", "ipfs", "unix", "onion",
                  "onion3", "memory"} then Ok else ZeroPort
  {
    hide Components, Segs, Judge, WildcardHost, LoopbackHost, PortZero, TakesValue;
    SegsOfThree(word);
    ThreeWords(word);
    Fifteen(word);
    if TakesValue(word) {
      TcpIsNoValue(word);
      Harmless2(Components([word, "tcp", "0"]), allow);
    } else {
      ZeroShows(word, allow);
    }
  }

  lemma Fifteen(word: string)
    ensures TakesValue(word) <==>
      word in {"ip4", "ip6", "tcp", "udp", "sctp", "dns", "dns4", "dns6", "dnsaddr", "p2p", "ipfs", "unix", "onion",
               "onion3", "memory"}
  {
  }

  lemma SegsOfThree(word: string)
    requires word != "" && '/' !in word
    ensures Segs(word + "/" + "tcp/0") == [word, "tcp", "0"]
  {
    hide Segs;
    SegsAppend("tcp", "0");
    SegsAtom("tcp");
    SegsAtom("0");
    assert "tcp" + "/" + "0" == "tcp/0" && ["tcp"] + ["0"] == ["tcp", "0"];
    SegsAppend(word, "tcp/0");
    SegsAtom(word);
    assert [word] + ["tcp", "0"] == [word, "tcp", "0"];
  }

  lemma ZeroShows(word: string, allow: bool)
    ensures Judge([Flag(word), Valued("tcp", "0")], allow) == ZeroPort
  {
    hide Judge;
    var cs := [Flag(word), Valued("tcp", "0")];
    assert !Hard(cs[0]) && PortZero(cs[1]) && !WildcardHost(cs[1]);
    assert FirstHard(cs, 1);
    JudgedHard(cs, 1, allow);
    JudgedIs(cs, allow, ZeroPort);
  }

  lemma ThreeWords(word: string)
    ensures Components([word, "tcp", "0"]) ==
      if TakesValue(word) then [Valued(word, "tcp"), Flag("0")] else [Flag(word), Valued("tcp", "0")]
  {
    hide Components;
    var parts := [word, "tcp", "0"];
    assert parts[0..] == parts && !TakesValue("0") && TakesValue("tcp");
    ComponentsStep(parts, 0);
    ComponentsStep(parts, 1);
    ComponentsStep(parts, 2);
    ComponentsNil(parts);
    assert [Valued(word, "tcp")] + [Flag("0")] == [Valued(word, "tcp"), Flag("0")];
    assert [Flag(word)] + [Valued("tcp", "0")] == [Flag(word), Valued("tcp", "0")];
  }

  lemma TcpIsNoValue(word: string)
    ensures
      var c := Valued(word, "tcp");
      !WildcardHost(c) && !PortZero(c) && !LoopbackHost(c)
  {
    assert !IsDigit("tcp"[0]);
    assert !IsGroup("tcp") by {
      assert HexValue("tcp"[0]) < 0;
    }
    WordIsHarmless(word, "tcp");
    assert Harmless([Valued(word, "tcp")]);
    assert [Valued(word, "tcp")][0] == Valued(word, "tcp");
  }

  lemma Harmless2(cs: seq<Component>, allow: bool)
    requires |cs| == 2 && cs[0].Valued? && !cs[1].Valued?
    requires !WildcardHost(cs[0]) && !PortZero(cs[0]) && !LoopbackHost(cs[0])
    ensures Judge(cs, allow) == Ok
  {
    hide WildcardHost, PortZero, LoopbackHost, Judge;
    FlagHarmless(cs[1]);
    JudgedSoft(cs, allow);
    JudgedIs(cs, allow, Ok);
  }
}
