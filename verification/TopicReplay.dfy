/**
 When a topic that is drained meanwhile still takes a prefix of what it is offered (src/topic_queues.h:12-16). The
 promise is stated by the places of the offers, since equal payloads may stand at several.
 */
module TopicReplay {
  import opened TopicQueues
  import opened TopicRuns
  import opened TopicPrefix

  /** Pops of the topic and anything on other topics, but nothing that frees it or moves the bounds. */
  predicate Draining(ops: seq<Op>, t: string) {
    forall k :: 0 <= k < |ops| ==> !ops[k].SetBounds? && !Releases(ops[k], t)
  }

  predicate Offers(op: Op, t: string) {
    op.Push? && op.topic == t
  }

  /** For each offer in turn, whether it was accepted. */
  function Admissions(start: seq<Op>, ops: seq<Op>, t: string): seq<bool> {
    if ops == [] then []
    else
      var front, op := ops[..|ops| - 1], ops[|ops| - 1];
      Admissions(start, front, t) + if Offers(op, t) then [Result(After(start + front), op) == Accepted] else []
  }

  /** No offer is accepted after a refused one. */
  predicate FirstsOnly(adm: seq<bool>) {
    forall i, j :: 0 <= i < j < |adm| && adm[j] ==> adm[i]
  }

  /** Just the first `n` are accepted, as far as there are any. */
  predicate JustFirst(adm: seq<bool>, n: nat) {
    forall i :: 0 <= i < |adm| ==> (adm[i] <==> i < n)
  }

  /** The backlog that the schedule leaves from `q` when just the first `n` offers are let in, whatever their sizes. */
  function Replay(q: seq<Payload>, ops: seq<Op>, t: string, n: nat): seq<Payload> {
    if ops == [] then q
    else
      var front, op := ops[..|ops| - 1], ops[|ops| - 1];
      var r := Replay(q, front, t, n);
      if Offers(op, t) then if |Offered(front, t)| < n then r + [op.payload] else r
      else if op == Pop(t) && r != [] then r[1..]
      else r
  }

  predicate Admits(q: seq<Payload>, m: Size, b: Size, p: Payload) {
    m > 0 && b > 0 && |q| < m && Total(q) + |p| <= b
  }

  /**
   A condition on the backlog, the bounds and the schedule alone: in the replay that lets in just the first `n` offers,
   each offer fits the backlog it meets exactly when it is one of them.
   */
  predicate Steady(q: seq<Payload>, m: Size, b: Size, ops: seq<Op>, t: string, n: nat) {
    ops != [] ==>
      var front, op := ops[..|ops| - 1], ops[|ops| - 1];
      && Steady(q, m, b, front, t, n)
      && (Offers(op, t) ==> (Admits(Replay(q, front, t, n), m, b, op.payload) <==> |Offered(front, t)| < n))
  }

  // ---------------------------------------------------------------------- one operation

  /** What one operation does to a topic and to the bounds. */
  lemma DrainStep(run: seq<Op>, op: Op, t: string)
    requires Draining([op], t)
    ensures
      var st, n, q := After(run), After(run + [op]), Queue(run, t);
      && n.maxMessages == st.maxMessages && n.maxBytes == st.maxBytes
      && (Offers(op, t) ==> (Result(st, op) == Accepted <==> Admits(q, st.maxMessages, st.maxBytes, op.payload)))
      && Queue(run + [op], t) ==
         if Offers(op, t) then if Result(st, op) == Accepted then q + [op.payload] else q
         else if op == Pop(t) && q != [] then q[1..]
         else q
  {
    hide After, Total;
    assert [op][0] == op;
    AfterSnoc(run, op);
    EntryNext(After(run), op, t);
  }

  lemma AdmissionsSnoc(start: seq<Op>, front: seq<Op>, op: Op, t: string)
    ensures Admissions(start, front + [op], t) ==
            Admissions(start, front, t) + if Offers(op, t) then [Result(After(start + front), op) == Accepted] else []
  {
    hide After, Result;
    assert (front + [op])[..|front|] == front;
  }

  lemma ReplaySnoc(q: seq<Payload>, front: seq<Op>, op: Op, t: string, n: nat)
    ensures
      var r := Replay(q, front, t, n);
      Replay(q, front + [op], t, n) ==
        if Offers(op, t) then if |Offered(front, t)| < n then r + [op.payload] else r
        else if op == Pop(t) && r != [] then r[1..]
        else r
    ensures Replay(q, [], t, n) == q
  {
    assert (front + [op])[..|front|] == front;
  }

  lemma SteadySnoc(q: seq<Payload>, m: Size, b: Size, front: seq<Op>, op: Op, t: string, n: nat)
    ensures Steady(q, m, b, front + [op], t, n) <==>
            Steady(q, m, b, front, t, n) &&
            (Offers(op, t) ==> (Admits(Replay(q, front, t, n), m, b, op.payload) <==> |Offered(front, t)| < n))
    ensures Steady(q, m, b, [], t, n)
  {
    hide Admits, Replay, Offered;
    assert (front + [op])[..|front|] == front;
  }

  lemma {:induction false} OneEach(start: seq<Op>, ops: seq<Op>, t: string)
    ensures |Admissions(start, ops, t)| == |Offered(ops, t)|
  {
    hide After, Result;
    if ops != [] {
      OneEach(start, ops[..|ops| - 1], t);
    }
  }

  // ---------------------------------------------------------------------- the whole run

  /** The first `n`, or all when there are fewer. */
  function AtMost(ps: seq<Payload>, n: nat): seq<Payload> {
    if n <= |ps| then ps[..n] else ps
  }

  lemma AtMostSnoc(ps: seq<Payload>, p: Payload, n: nat)
    ensures AtMost(ps + [p], n) == if |ps| < n then AtMost(ps, n) + [p] else AtMost(ps, n)
  {
  }

  /** If just the first `n` offers were accepted, the run is its replay, and what came out and waits is what went in. */
  lemma {:induction false} RunIsReplay(start: seq<Op>, ops: seq<Op>, t: string, n: nat)
    requires Draining(ops, t) && JustFirst(Admissions(start, ops, t), n)
    ensures
      var st, now := After(start), After(start + ops);
      && now.maxMessages == st.maxMessages && now.maxBytes == st.maxBytes
      && Queue(start + ops, t) == Replay(Queue(start, t), ops, t, n)
      && Handed(start + ops, t) + Queue(start + ops, t) ==
         Handed(start, t) + Queue(start, t) + AtMost(Offered(ops, t), n)
  {
    hide After, Replay, Offered, Handed, Queue, Admissions, Result;
    if ops == [] {
      assert start + ops == start;
      ReplaySnoc(Queue(start, t), [], ReleaseAll, t, n);
      NothingOffered(start, t);
    } else {
      var front, op := ops[..|ops| - 1], ops[|ops| - 1];
      assert ops == front + [op] && start + ops == start + front + [op];
      AdmissionsSnoc(start, front, op, t);
      OneEach(start, front, t);
      FrontFirst(Admissions(start, front, t), Admissions(start, ops, t), n);
      RunIsReplay(start, front, t, n);
      OneDraining(ops, t);
      DrainStep(start + front, op, t);
      ReplaySnoc(Queue(start, t), front, op, t, n);
      FlowStep(start + front, op, t);
      OfferedSnoc(front, op, t);
      if Offers(op, t) {
        assert Admissions(start, ops, t)[|Offered(front, t)|] == (Result(After(start + front), op) == Accepted);
        AtMostSnoc(Offered(front, t), op.payload, n);
      }
      Flows(Handed(start + front, t), Queue(start + front, t), Handed(start, t) + Queue(start, t),
            AtMost(Offered(front, t), n));
    }
  }

  lemma OfferedSnoc(front: seq<Op>, op: Op, t: string)
    ensures Offered(front + [op], t) == if Offers(op, t) then Offered(front, t) + [op.payload] else Offered(front, t)
  {
    assert (front + [op])[..|front|] == front;
  }

  lemma NothingOffered(start: seq<Op>, t: string)
    ensures Offered([], t) == [] && AtMost([], 0) == []
    ensures forall h: seq<Payload> :: h + [] == h
  {
  }

  lemma OneDraining(ops: seq<Op>, t: string)
    requires Draining(ops, t) && ops != []
    ensures Draining([ops[|ops| - 1]], t) && Draining(ops[..|ops| - 1], t)
  {
  }

  lemma FrontFirst(front: seq<bool>, adm: seq<bool>, n: nat)
    requires front <= adm && JustFirst(adm, n)
    ensures JustFirst(front, n)
  {
    assert forall i :: 0 <= i < |front| ==> front[i] == adm[i];
  }

  /** Moving the first element across, and adding one at the end. */
  lemma Flows(h: seq<Payload>, q: seq<Payload>, o: seq<Payload>, a: seq<Payload>)
    requires h + q == o + a
    ensures q != [] ==> h + [q[0]] + q[1..] == o + a
    ensures forall p :: h + (q + [p]) == o + (a + [p])
  {
    forall p
      ensures h + (q + [p]) == o + (a + [p])
    {
      assert h + (q + [p]) == h + q + [p] && o + (a + [p]) == o + a + [p];
    }
  }

  /** If the condition holds of `n`, just the first `n` offers are accepted. */
  lemma {:induction false} SteadyAdmits(start: seq<Op>, ops: seq<Op>, t: string, n: nat)
    requires Draining(ops, t) && Steady(Queue(start, t), After(start).maxMessages, After(start).maxBytes, ops, t, n)
    ensures JustFirst(Admissions(start, ops, t), n)
  {
    hide After, Replay, Offered, Queue, Admissions, Result, Admits, Steady;
    if ops == [] {
      NoAdmissions(start, t);
    } else {
      var front, op := ops[..|ops| - 1], ops[|ops| - 1];
      assert ops == front + [op];
      SteadySnoc(Queue(start, t), After(start).maxMessages, After(start).maxBytes, front, op, t, n);
      OneDraining(ops, t);
      SteadyAdmits(start, front, t, n);
      RunIsReplay(start, front, t, n);
      DrainStep(start + front, op, t);
      AdmissionsSnoc(start, front, op, t);
      OneEach(start, front, t);
    }
  }

  lemma NoAdmissions(start: seq<Op>, t: string)
    ensures Admissions(start, [], t) == []
  {
  }

  /** If just the first `n` offers are accepted, the condition holds of `n`. */
  lemma {:induction false} AdmitsSteady(start: seq<Op>, ops: seq<Op>, t: string, n: nat)
    requires Draining(ops, t) && JustFirst(Admissions(start, ops, t), n)
    ensures Steady(Queue(start, t), After(start).maxMessages, After(start).maxBytes, ops, t, n)
  {
    hide After, Replay, Offered, Queue, Admissions, Result, Admits, Steady;
    var q, m, b := Queue(start, t), After(start).maxMessages, After(start).maxBytes;
    if ops == [] {
      SteadySnoc(q, m, b, [], ReleaseAll, t, n);
    } else {
      var front, op := ops[..|ops| - 1], ops[|ops| - 1];
      assert ops == front + [op];
      AdmissionsSnoc(start, front, op, t);
      OneEach(start, front, t);
      FrontFirst(Admissions(start, front, t), Admissions(start, ops, t), n);
      OneDraining(ops, t);
      AdmitsSteady(start, front, t, n);
      RunIsReplay(start, front, t, n);
      DrainStep(start + front, op, t);
      SteadySnoc(q, m, b, front, op, t, n);
      if Offers(op, t) {
        assert Admissions(start, ops, t)[|Offered(front, t)|] == (Result(After(start + front), op) == Accepted);
      }
    }
  }

  /** Where the first refusal is, when nothing is accepted after it. */
  lemma {:induction false} CountFirst(adm: seq<bool>) returns (n: nat)
    requires FirstsOnly(adm)
    ensures n <= |adm| && JustFirst(adm, n)
  {
    if adm == [] {
      n := 0;
    } else {
      var front := adm[..|adm| - 1];
      assert forall i :: 0 <= i < |front| ==> front[i] == adm[i];
      n := CountFirst(front);
      if adm[|adm| - 1] {
        n := |adm|;
      }
    }
  }

  /**
   The coherent prefix of a topic that is drained meanwhile: from any history, no offer is accepted after a refused one
   iff the condition holds of some `n`.
   */
  lemma NoneAfterRefusal(start: seq<Op>, ops: seq<Op>, t: string)
    requires Draining(ops, t)
    ensures
      var st := After(start);
      FirstsOnly(Admissions(start, ops, t)) <==>
      exists n: nat :: n <= |Offered(ops, t)| && Steady(Queue(start, t), st.maxMessages, st.maxBytes, ops, t, n)
  {
    hide After, Offered, Queue, Admissions, Steady, Draining;
    OneEach(start, ops, t);
    var adm, st := Admissions(start, ops, t), After(start);
    if FirstsOnly(adm) {
      var n := CountFirst(adm);
      AdmitsSteady(start, ops, t, n);
    }
    if n: nat :| n <= |Offered(ops, t)| && Steady(Queue(start, t), st.maxMessages, st.maxBytes, ops, t, n) {
      SteadyAdmits(start, ops, t, n);
    }
  }

  /** And then what came out and what waits is what was there before, followed by the first `n` offers. */
  lemma SteadyIsPrefix(start: seq<Op>, ops: seq<Op>, t: string, n: nat)
    requires Draining(ops, t) && n <= |Offered(ops, t)|
    requires Steady(Queue(start, t), After(start).maxMessages, After(start).maxBytes, ops, t, n)
    ensures Handed(start + ops, t) + Queue(start + ops, t) ==
            Handed(start, t) + Queue(start, t) + Offered(ops, t)[..n]
  {
    hide After, Offered, Queue, Admissions, Steady, Draining, Handed, Replay;
    SteadyAdmits(start, ops, t, n);
    RunIsReplay(start, ops, t, n);
  }

  /**
   The second kind of failing run: a pop reopens a full queue. Sizes may be equal and the byte bound far away, and the
   third payload is accepted after the second was refused; by value this shows only if the two differ.
   */
  lemma PopReopens(t: string, bytes: Size, x: Payload, y: Payload, z: Payload)
    requires bytes > 0 && |x| <= bytes && |y| <= bytes && |z| <= bytes
    ensures
      var start, ops := [SetBounds(1, bytes)], [Push(t, x), Push(t, y), Pop(t), Push(t, z)];
      && Admissions(start, ops, t) == [true, false, true] && !FirstsOnly(Admissions(start, ops, t))
      && Offered(ops, t) == [x, y, z] && Coherent([], 1, bytes, Offered(ops, t))
      && Handed(start + ops, t) + Queue(start + ops, t) == [x, z]
      && ([x, z] <= Offered(ops, t) <==> y == z)
  {
    hide After, Admits, Handed, Offered, Queue, Coherent, Admissions, Result, FirstsOnly;
    var s: seq<Op> := [SetBounds(1, bytes)];
    var o2: seq<Op> := [Push(t, x), Push(t, y)];
    var o3 := o2 + [Pop(t)];
    var o4 := o3 + [Push(t, z)];
    assert o4 == [Push(t, x), Push(t, y), Pop(t), Push(t, z)];
    assert s + o3 == s + o2 + [Pop(t)] && s + o4 == s + o3 + [Push(t, z)];
    FillsUp(t, bytes, x, y);
    Reopened(s, t, o2, Pop(t), bytes);
    Reopened(s, t, o3, Push(t, z), bytes);
    NothingOffered(s, t);
    OneLeads(bytes, [x, y, z]);
    assert Admissions(s, o4, t) == [true, false] + [] + [true] == [true, false, true];
    AfterGap(Admissions(s, o4, t));
    ByValue(x, y, z);
  }

  /** The first half of that run: the queue is full, and has refused once. */
  lemma FillsUp(t: string, bytes: Size, x: Payload, y: Payload)
    requires bytes > 0 && |x| <= bytes && |y| <= bytes
    ensures
      var s, ops := [SetBounds(1, bytes)], [Push(t, x), Push(t, y)];
      && After(s + ops).maxMessages == 1 && After(s + ops).maxBytes == bytes
      && Admissions(s, ops, t) == [true, false] && Offered(ops, t) == [x, y]
      && Queue(s + ops, t) == [x] && Handed(s + ops, t) == []
  {
    hide After, Handed, Offered, Queue, Admissions;
    var s: seq<Op> := [SetBounds(1, bytes)];
    var o1: seq<Op> := [Push(t, x)];
    assert [] + [Push(t, x)] == o1 && o1 + [Push(t, y)] == [Push(t, x), Push(t, y)];
    assert s + [] == s && s + (o1 + [Push(t, y)]) == s + o1 + [Push(t, y)];
    Started(bytes, t);
    NoAdmissions(s, t);
    NothingOffered(s, t);
    Reopened(s, t, [], Push(t, x), bytes);
    Reopened(s, t, o1, Push(t, y), bytes);
  }

  lemma AfterGap(adm: seq<bool>)
    requires adm == [true, false, true]
    ensures !FirstsOnly(adm)
  {
    assert !adm[1] && adm[2];
  }

  lemma ByValue(x: Payload, y: Payload, z: Payload)
    ensures [x, z] <= [x, y, z] <==> y == z
  {
    assert [x, y, z][1] == y && [x, z][1] == z;
    assert y == z ==> [x, y, z][..2] == [x, z];
  }

  lemma Started(bytes: Size, t: string)
    ensures
      var s := [SetBounds(1, bytes)];
      After(s).maxMessages == 1 && After(s).maxBytes == bytes && Queue(s, t) == [] && Handed(s, t) == []
  {
    AfterSnoc([], SetBounds(1, bytes));
    assert [] + [SetBounds(1, bytes)] == [SetBounds(1, bytes)];
    assert [SetBounds(1, bytes)][..0] == [];
  }

  /** One step of that run: what it adds to the record of offers, and what is left. */
  lemma Reopened(s: seq<Op>, t: string, front: seq<Op>, op: Op, bytes: Size)
    requires Offers(op, t) || op == Pop(t)
    requires After(s + front).maxMessages == 1 && After(s + front).maxBytes == bytes && bytes > 0
    requires |Queue(s + front, t)| <= 1 && (Offers(op, t) ==> |op.payload| <= bytes)
    ensures
      var q := Queue(s + front, t);
      && After(s + front + [op]).maxMessages == 1 && After(s + front + [op]).maxBytes == bytes
      && Queue(s + front + [op], t) == (if Offers(op, t) then if q == [] then [op.payload] else q else [])
      && Admissions(s, front + [op], t) == Admissions(s, front, t) + (if Offers(op, t) then [q == []] else [])
      && Handed(s + front + [op], t) == Handed(s + front, t) + (if Offers(op, t) then [] else q)
      && Offered(front + [op], t) == Offered(front, t) + if Offers(op, t) then [op.payload] else []
  {
    hide After, Handed, Offered, Admissions, Result, Queue;
    var q := Queue(s + front, t);
    assert [op][0] == op;
    DrainStep(s + front, op, t);
    AdmissionsSnoc(s, front, op, t);
    FlowStep(s + front, op, t);
    OfferedSnoc(front, op, t);
    EmptyTotal();
    NothingOffered(s, t);
    assert op == Pop(t) && q != [] ==> q[1..] == [] && [q[0]] == q;
  }

  lemma EmptyTotal()
    ensures Total([]) == 0
  {
  }

  lemma OneLeads(bytes: Size, ps: seq<Payload>)
    requires |ps| > 0 && |ps[0]| <= bytes
    ensures Coherent([], 1, bytes, ps)
  {
    hide Total;
    EmptyTotal();
    TotalSnoc([], ps[0]);
    assert ps[..1] == [] + [ps[0]];
    assert Leads([], 1, bytes, ps, 1);
  }
}
