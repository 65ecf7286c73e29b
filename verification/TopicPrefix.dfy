/** When the backlog of a topic is a prefix of what was offered, as src/topic_queues.h:14-16 promises. */
module TopicPrefix {
  import opened TopicQueues
  import opened TopicRuns

  /** The payloads of `ps` that a topic takes, one push after the other, with `q` waiting before the first. */
  function Took(q: seq<Payload>, m: Size, b: Size, ps: seq<Payload>): seq<Payload> {
    if ps == [] then []
    else
      var a, p := Took(q, m, b, ps[..|ps| - 1]), ps[|ps| - 1];
      if m > 0 && b > 0 && |q| + |a| < m && Total(q) + Total(a) + |p| <= b then a + [p] else a
  }

  /**
   A condition on the backlog, the bounds and the sizes alone: the first `n` payloads fit together, and none of the
   others fits with them.
   */
  ghost predicate Leads(q: seq<Payload>, m: Size, b: Size, ps: seq<Payload>, n: nat) {
    && n <= |ps|
    && (n > 0 ==> |q| + n <= m && Total(q) + Total(ps[..n]) <= b)
    && forall k :: n <= k < |ps| ==> |q| + n >= m || Total(q) + Total(ps[..n]) + |ps[k]| > b
  }

  ghost predicate Coherent(q: seq<Payload>, m: Size, b: Size, ps: seq<Payload>) {
    m == 0 || b == 0 || exists n: nat :: Leads(q, m, b, ps, n)
  }

  // ------------------------------------------------------------------ the sizes alone

  lemma TookSnoc(q: seq<Payload>, m: Size, b: Size, ps: seq<Payload>, p: Payload)
    ensures
      var a := Took(q, m, b, ps);
      Took(q, m, b, ps + [p]) ==
        if m > 0 && b > 0 && |q| + |a| < m && Total(q) + Total(a) + |p| <= b then a + [p] else a
    ensures Took(q, m, b, []) == []
  {
    assert (ps + [p])[..|ps|] == ps;
  }

  lemma {:induction false} TookFew(q: seq<Payload>, m: Size, b: Size, ps: seq<Payload>)
    ensures |Took(q, m, b, ps)| <= |ps|
  {
    if ps != [] {
      TookFew(q, m, b, ps[..|ps| - 1]);
    }
  }

  /** A payload more at the end: what the condition says of the front. */
  lemma LeadsSnoc(q: seq<Payload>, m: Size, b: Size, front: seq<Payload>, p: Payload, n: nat)
    ensures n <= |front| ==>
      (Leads(q, m, b, front + [p], n) <==>
       Leads(q, m, b, front, n) && (|q| + n >= m || Total(q) + Total(front[..n]) + |p| > b))
    ensures Leads(q, m, b, front + [p], |front| + 1) <==>
            |q| + |front| + 1 <= m && Total(q) + Total(front) + |p| <= b
  {
    hide Total;
    var ps := front + [p];
    if n <= |front| {
      assert ps[..n] == front[..n];
      assert forall k :: 0 <= k < |front| ==> ps[k] == front[k];
      assert ps[|front|] == p;
    }
    assert ps[..|front| + 1] == ps;
    TotalSnoc(front, p);
  }

  /** What fits together also fits without the last. */
  lemma LeadsAll(q: seq<Payload>, m: Size, b: Size, front: seq<Payload>, p: Payload)
    requires |q| + |front| + 1 <= m && Total(q) + Total(front) + |p| <= b
    ensures Leads(q, m, b, front, |front|)
  {
    assert front[..|front|] == front;
  }

  /** Under the condition, the first `n` are what is taken. */
  lemma {:induction false} LeadsTook(q: seq<Payload>, m: Size, b: Size, ps: seq<Payload>, n: nat)
    requires m > 0 && b > 0 && Leads(q, m, b, ps, n)
    ensures Took(q, m, b, ps) == ps[..n]
  {
    hide Leads, Took, Total;
    LeadsBound(q, m, b, ps, n);
    if ps == [] {
      TookSnoc(q, m, b, [], "");
    } else {
      var front, p := ps[..|ps| - 1], ps[|ps| - 1];
      assert ps == front + [p];
      TookSnoc(q, m, b, front, p);
      LeadsSnoc(q, m, b, front, p, n);
      if n == |ps| {
        LeadsAll(q, m, b, front, p);
        LeadsTook(q, m, b, front, |front|);
        assert front[..|front|] == front && ps[..n] == ps;
      } else {
        LeadsTook(q, m, b, front, n);
        assert front[..n] == ps[..n];
      }
    }
  }

  lemma LeadsBound(q: seq<Payload>, m: Size, b: Size, ps: seq<Payload>, n: nat)
    requires Leads(q, m, b, ps, n)
    ensures n <= |ps|
  {
  }

  /** If what is taken is a prefix, the condition holds of its length. */
  lemma {:induction false} PrefixLeads(q: seq<Payload>, m: Size, b: Size, ps: seq<Payload>)
    requires m > 0 && b > 0 && Took(q, m, b, ps) <= ps
    ensures Leads(q, m, b, ps, |Took(q, m, b, ps)|)
  {
    hide Leads, Took, Total;
    if ps == [] {
      TookSnoc(q, m, b, [], "");
      NothingLeads(q, m, b);
    } else {
      var front, p := ps[..|ps| - 1], ps[|ps| - 1];
      var a := Took(q, m, b, front);
      assert ps == front + [p];
      TookSnoc(q, m, b, front, p);
      TookFew(q, m, b, front);
      assert a <= front by {
        assert a == Took(q, m, b, ps)[..|a|] == ps[..|a|] == front[..|a|];
      }
      PrefixLeads(q, m, b, front);
      LeadsSnoc(q, m, b, front, p, |a|);
      assert front[..|a|] == a;
      if |a| < |front| {
        Refused(q, m, b, front, |a|);
        assert ps[|a|] == front[|a|];
      } else {
        assert a == front;
      }
    }
  }

  lemma NothingLeads(q: seq<Payload>, m: Size, b: Size)
    ensures Leads(q, m, b, [], 0)
  {
  }

  lemma Refused(q: seq<Payload>, m: Size, b: Size, ps: seq<Payload>, n: nat)
    requires Leads(q, m, b, ps, n) && n < |ps|
    ensures |q| + n >= m || Total(q) + Total(ps[..n]) + |ps[n]| > b
  {
  }

  /** What is taken of a batch is a prefix of it iff a bound is zero or the condition holds of some length. */
  lemma TookIsPrefix(q: seq<Payload>, m: Size, b: Size, ps: seq<Payload>)
    ensures Took(q, m, b, ps) <= ps <==> Coherent(q, m, b, ps)
  {
    hide Leads, Took;
    if m == 0 || b == 0 {
      TookNothing(q, m, b, ps);
    } else {
      if Took(q, m, b, ps) <= ps {
        PrefixLeads(q, m, b, ps);
      }
      if n: nat :| Leads(q, m, b, ps, n) {
        LeadsBound(q, m, b, ps, n);
        LeadsTook(q, m, b, ps, n);
      }
    }
  }

  lemma {:induction false} TookNothing(q: seq<Payload>, m: Size, b: Size, ps: seq<Payload>)
    requires m == 0 || b == 0
    ensures Took(q, m, b, ps) == []
  {
    if ps != [] {
      TookNothing(q, m, b, ps[..|ps| - 1]);
    }
  }

  // ------------------------------------------------------------------------ the runs

  /** Nothing takes from a topic or moves the bounds: pushes to it, and whatever else on other topics. */
  predicate Undisturbed(ops: seq<Op>, t: string) {
    forall k :: 0 <= k < |ops| ==> !ops[k].SetBounds? && !Releases(ops[k], t) && ops[k] != Pop(t)
  }

  /** One undisturbing operation, on what a topic has taken so far. */
  lemma TookStep(st: State, op: Op, t: string, q: seq<Payload>, ps: seq<Payload>)
    requires Undisturbed([op], t)
    requires EntryOf(st, t).messages == q + Took(q, st.maxMessages, st.maxBytes, ps)
    ensures
      var n := Next(st, op);
      && n.maxMessages == st.maxMessages && n.maxBytes == st.maxBytes
      && EntryOf(n, t).messages ==
         q + Took(q, st.maxMessages, st.maxBytes, ps + if op.Push? && op.topic == t then [op.payload] else [])
  {
    hide Took, Total;
    assert [op][0] == op;
    EntryNext(st, op, t);
    var a := Took(q, st.maxMessages, st.maxBytes, ps);
    if op.Push? && op.topic == t {
      TookSnoc(q, st.maxMessages, st.maxBytes, ps, op.payload);
      TotalAdd(q, a);
      assert q + (a + [op.payload]) == q + a + [op.payload];
    } else {
      assert ps + [] == ps;
    }
  }

  lemma {:induction false} TotalAdd(a: seq<Payload>, b: seq<Payload>)
    ensures Total(a + b) == Total(a) + Total(b)
  {
    if b == [] {
      assert a + b == a;
    } else {
      TotalAdd(a, b[..|b| - 1]);
      assert (a + b)[..|a| + |b| - 1] == a + b[..|b| - 1];
    }
  }

  /** While a topic is undisturbed its backlog grows by what it takes of what it is offered. */
  lemma {:induction false} BacklogGrows(start: seq<Op>, ops: seq<Op>, t: string)
    requires Undisturbed(ops, t)
    ensures
      var st, n := After(start), After(start + ops);
      && n.maxMessages == st.maxMessages && n.maxBytes == st.maxBytes
      && Queue(start + ops, t) == Queue(start, t) + Took(Queue(start, t), st.maxMessages, st.maxBytes, Offered(ops, t))
  {
    hide After, Took, Next;
    var st, q := After(start), Queue(start, t);
    if ops == [] {
      assert start + ops == start;
      TookSnoc(q, st.maxMessages, st.maxBytes, [], "");
      assert q + [] == q;
    } else {
      var front, op := ops[..|ops| - 1], ops[|ops| - 1];
      BacklogGrows(start, front, t);
      assert start + ops == start + front + [op];
      AfterSnoc(start + front, op);
      TookStep(After(start + front), op, t, q, Offered(front, t));
    }
  }

  /**
   The coherent prefix: from any backlog, whatever happens to other topics meanwhile, the payloads that a topic accepted
   are a prefix of those it was offered iff the condition on backlog, bounds and sizes holds.
   */
  lemma AcceptedIsPrefix(start: seq<Op>, ops: seq<Op>, t: string)
    requires Undisturbed(ops, t)
    ensures
      var st, q, r := After(start), Queue(start, t), Queue(start + ops, t);
      q <= r && (r[|q|..] <= Offered(ops, t) <==> Coherent(q, st.maxMessages, st.maxBytes, Offered(ops, t)))
  {
    hide After, Took, Coherent, Undisturbed, Offered;
    BacklogGrows(start, ops, t);
    var st, q := After(start), Queue(start, t);
    TookIsPrefix(q, st.maxMessages, st.maxBytes, Offered(ops, t));
    assert (q + Took(q, st.maxMessages, st.maxBytes, Offered(ops, t)))[|q|..] ==
           Took(q, st.maxMessages, st.maxBytes, Offered(ops, t));
  }

  /** The pushes of a batch. */
  function Pushes(t: string, ps: seq<Payload>): seq<Op> {
    if ps == [] then [] else Pushes(t, ps[..|ps| - 1]) + [Push(t, ps[|ps| - 1])]
  }

  lemma {:induction false} PushesOffer(t: string, ps: seq<Payload>)
    ensures Undisturbed(Pushes(t, ps), t) && Offered(Pushes(t, ps), t) == ps
  {
    hide Undisturbed, Offered, Pushes;
    if ps == [] {
      NoPushes(t);
    } else {
      var front, p := ps[..|ps| - 1], ps[|ps| - 1];
      PushesOffer(t, front);
      PushesSnoc(t, front, p);
      OnePush(Pushes(t, front), t, p);
      assert ps == front + [p];
    }
  }

  lemma NoPushes(t: string)
    ensures Pushes(t, []) == [] && Undisturbed([], t) && Offered([], t) == []
  {
  }

  lemma PushesSnoc(t: string, ps: seq<Payload>, p: Payload)
    ensures Pushes(t, ps + [p]) == Pushes(t, ps) + [Push(t, p)]
  {
    assert (ps + [p])[..|ps|] == ps;
  }

  lemma OnePush(ops: seq<Op>, t: string, p: Payload)
    requires Undisturbed(ops, t)
    ensures Undisturbed(ops + [Push(t, p)], t) && Offered(ops + [Push(t, p)], t) == Offered(ops, t) + [p]
  {
    PushSnoc(ops, t, p);
  }

  /** A batch pushed with nothing in between: what a sender can tell beforehand. */
  lemma BatchIsPrefix(start: seq<Op>, t: string, ps: seq<Payload>)
    ensures
      var st, q, r := After(start), Queue(start, t), Queue(start + Pushes(t, ps), t);
      q <= r && (r[|q|..] <= ps <==> Coherent(q, st.maxMessages, st.maxBytes, ps))
  {
    hide *;
    PushesOffer(t, ps);
    AcceptedIsPrefix(start, Pushes(t, ps), t);
  }

  /** With the bounds set once at the start, the whole backlog is a prefix of all that was offered iff it holds. */
  lemma BacklogIsPrefix(m: Size, b: Size, ops: seq<Op>, t: string)
    requires Undisturbed(ops, t)
    ensures
      var run := [SetBounds(m, b)] + ops;
      Offered(run, t) == Offered(ops, t) && (Queue(run, t) <= Offered(run, t) <==> Coherent([], m, b, Offered(run, t)))
  {
    hide Coherent, Undisturbed;
    var start := [SetBounds(m, b)];
    AfterSnoc([], SetBounds(m, b));
    assert [] + start == start;
    OfferedAfter(start[0], ops, t);
    AcceptedIsPrefix(start, ops, t);
    assert Queue(start, t) == [];
    assert Queue(start + ops, t)[0..] == Queue(start + ops, t);
  }

  lemma {:induction false} OfferedAfter(op: Op, ops: seq<Op>, t: string)
    requires !op.Push?
    ensures Offered([op] + ops, t) == Offered(ops, t)
  {
    if ops != [] {
      OfferedAfter(op, ops[..|ops| - 1], t);
      assert ([op] + ops)[..|ops|] == [op] + ops[..|ops| - 1];
    }
  }

  // ------------------------------------------------------------- when it always holds

  lemma {:induction false} TotalAtMost(ps: seq<Payload>, size: nat)
    requires forall k :: 0 <= k < |ps| ==> |ps[k]| <= size
    ensures Total(ps) <= |ps| * size
  {
    if ps != [] {
      TotalAtMost(ps[..|ps| - 1], size);
      assert |ps| * size == (|ps| - 1) * size + size;
    }
  }

  lemma Product(n: nat, r: nat, size: nat)
    requires n <= r
    ensures n * size <= r * size
  {
  }

  /** The promise holds whenever the byte bound cannot bind: it has room for all that the other bound lets in. */
  lemma RoomForTheLargest(q: seq<Payload>, m: Size, b: Size, ps: seq<Payload>, size: nat)
    requires forall k :: 0 <= k < |ps| ==> |ps[k]| <= size
    requires |q| < m ==> Total(q) + (m - |q|) * size <= b
    ensures Coherent(q, m, b, ps)
  {
    hide Total;
    if |q| >= m {
      assert Leads(q, m, b, ps, 0);
    } else {
      var room: nat := m - |q|;
      var n: nat := if |ps| < room then |ps| else room;
      TotalAtMost(ps[..n], size);
      Product(n, room, size);
      assert Leads(q, m, b, ps, n);
    }
  }

  /** It holds too while sizes never shrink: what was refused once keeps out all that follows. */
  lemma {:induction false} GrowingSizes(q: seq<Payload>, m: Size, b: Size, ps: seq<Payload>) returns (n: nat)
    requires forall j, k :: 0 <= j < k < |ps| ==> |ps[j]| <= |ps[k]|
    ensures Leads(q, m, b, ps, n) && Coherent(q, m, b, ps)
  {
    hide Leads, Total;
    if ps == [] {
      n := 0;
      NothingLeads(q, m, b);
    } else {
      var front, p := ps[..|ps| - 1], ps[|ps| - 1];
      n := GrowingSizes(q, m, b, front);
      assert ps == front + [p];
      LeadsBound(q, m, b, front, n);
      LeadsSnoc(q, m, b, front, p, n);
      if n < |front| {
        Refused(q, m, b, front, n);
        assert ps[n] == front[n];
      } else if |q| + n < m && Total(q) + Total(front[..n]) + |p| <= b {
        assert front[..n] == front;
        n := |ps|;
      }
    }
  }
}
