/** What whole runs of the topic queues keep, read off the history of operations. */
module TopicRuns {
  import opened Order
  import opened TopicQueues

  /** The outcome of the last operation of a history. */
  function LastResult(ops: seq<Op>): Outcome
    requires ops != []
  {
    Result(After(ops[..|ops| - 1]), ops[|ops| - 1])
  }

  /** Payloads pushed to a topic, whatever became of them. */
  function Offered(ops: seq<Op>, t: string): seq<Payload> {
    if ops == [] then []
    else
      var last := ops[|ops| - 1];
      Offered(ops[..|ops| - 1], t) + if last.Push? && last.topic == t then [last.payload] else []
  }

  /** Payloads a topic handed out. */
  function Handed(ops: seq<Op>, t: string): seq<Payload> {
    if ops == [] then []
    else
      var last := ops[|ops| - 1];
      Handed(ops[..|ops| - 1], t) +
        if last.Pop? && last.topic == t && LastResult(ops).Delivered? then [LastResult(ops).payload] else []
  }

  predicate Releases(op: Op, t: string) {
    op.ReleaseAll? || (op.Release? && op.topic == t)
  }

  /** Payloads a topic accepted since it was last released. */
  function AcceptedSince(ops: seq<Op>, t: string): seq<Payload> {
    if ops == [] || Releases(ops[|ops| - 1], t) then []
    else
      var last := ops[|ops| - 1];
      AcceptedSince(ops[..|ops| - 1], t) +
        if last.Push? && last.topic == t && LastResult(ops) == Accepted then [last.payload] else []
  }

  /** Payloads a topic handed out since it was last released. */
  function HandedSince(ops: seq<Op>, t: string): seq<Payload> {
    if ops == [] || Releases(ops[|ops| - 1], t) then []
    else
      var last := ops[|ops| - 1];
      HandedSince(ops[..|ops| - 1], t) +
        if last.Pop? && last.topic == t && LastResult(ops).Delivered? then [LastResult(ops).payload] else []
  }

  /** Pushes to a topic that ended in `outcome`. */
  function Count(ops: seq<Op>, t: string, outcome: Outcome): nat {
    if ops == [] then 0
    else
      var last := ops[|ops| - 1];
      Count(ops[..|ops| - 1], t, outcome) +
        if last.Push? && last.topic == t && LastResult(ops) == outcome then 1 else 0
  }

  function Queue(ops: seq<Op>, t: string): seq<Payload> {
    EntryOf(After(ops), t).messages
  }

  /** What one operation does to one topic. */
  lemma EntryNext(st: State, op: Op, t: string)
    ensures
      var e, f := EntryOf(st, t), EntryOf(Next(st, op), t);
      match op
      case SetBounds(_, _) => f == e
      case Push(u, p) =>
        f == if u != t || Result(st, op) == Disabled then e
             else if Result(st, op) == Accepted then e.(messages := e.messages + [p])
             else e.(dropped := e.dropped + 1)
      case Pop(u) => f == if u != t || e.messages == [] then e else e.(messages := e.messages[1..])
      case Release(u) => f == if u != t then e else Entry([], e.dropped)
      case ReleaseAll => f == Entry([], e.dropped)
  {
  }

  /** First in, first out: what was accepted since the last release is what was handed out, then what waits. */
  lemma {:induction false} FirstInFirstOut(ops: seq<Op>, t: string)
    ensures AcceptedSince(ops, t) == HandedSince(ops, t) + Queue(ops, t)
  {
    hide Fits;
    if ops != [] {
      var front, last := ops[..|ops| - 1], ops[|ops| - 1];
      FirstInFirstOut(front, t);
      EntryNext(After(front), last, t);
      var q := Queue(front, t);
      if last == Pop(t) && q != [] {
        assert q == [q[0]] + q[1..];
      }
    }
  }

  /** What one operation adds to what was offered and to what was handed out. */
  lemma FlowStep(front: seq<Op>, op: Op, t: string)
    ensures Offered(front + [op], t) ==
      if op.Push? && op.topic == t then Offered(front, t) + [op.payload] else Offered(front, t)
    ensures Handed(front + [op], t) ==
      if op == Pop(t) && Queue(front, t) != [] then Handed(front, t) + [Queue(front, t)[0]] else Handed(front, t)
  {
    hide Fits, After;
    assert (front + [op])[..|front|] == front;
    assert (front + [op])[|front|] == op;
    assert Handed(front, t) + [] == Handed(front, t) && Offered(front, t) + [] == Offered(front, t);
  }

  /** What one operation does to the queue of a topic. */
  lemma QueueStep(front: seq<Op>, op: Op, t: string)
    ensures
      var q, r := Queue(front, t), Queue(front + [op], t);
      || r == q
      || (op.Push? && op.topic == t && r == q + [op.payload])
      || (op == Pop(t) && q != [] && r == q[1..])
      || (Releases(op, t) && r == [])
    ensures op == Pop(t) && Queue(front, t) != [] ==> Queue(front + [op], t) == Queue(front, t)[1..]
  {
    hide Fits, After;
    AfterSnoc(front, op);
    EntryNext(After(front), op, t);
  }

  /** One operation: handed out and waiting stay in the order of what was offered. */
  lemma InOrderStep(front: seq<Op>, op: Op, t: string)
    requires Subsequence(Handed(front, t) + Queue(front, t), Offered(front, t))
    ensures Subsequence(Handed(front + [op], t) + Queue(front + [op], t), Offered(front + [op], t))
  {
    hide *;
    FlowStep(front, op, t);
    QueueStep(front, op, t);
    var h, q, o := Handed(front, t), Queue(front, t), Offered(front, t);
    var r := Queue(front + [op], t);
    if op.Push? && op.topic == t {
      SubsequenceSnoc(h + q, o, op.payload);
      assert h + (q + [op.payload]) == h + q + [op.payload];
      SubsequencePrefix(h, q, o + [op.payload]);
      assert h + [] == h;
    } else if op == Pop(t) && q != [] {
      assert h + [q[0]] + q[1..] == h + q;
    } else if r == [] {
      SubsequencePrefix(h, q, o);
      assert h + [] == h;
    }
  }

  /** Over a whole run, what was handed out and then what waits come from what was offered, in order. */
  lemma {:induction false} HandedInOrder(ops: seq<Op>, t: string)
    ensures Subsequence(Handed(ops, t) + Queue(ops, t), Offered(ops, t))
  {
    if ops == [] {
      assert Handed(ops, t) + Queue(ops, t) == [];
    } else {
      hide After, Subsequence;
      var front, last := ops[..|ops| - 1], ops[|ops| - 1];
      HandedInOrder(front, t);
      InOrderStep(front, last, t);
      assert ops == front + [last];
    }
  }

  /** What was handed out stays handed out, in its place. */
  lemma {:induction false} HandedGrows(ops: seq<Op>, i: nat, t: string)
    requires i <= |ops|
    ensures Handed(ops[..i], t) <= Handed(ops, t)
  {
    hide After;
    if i < |ops| {
      var front := ops[..|ops| - 1];
      HandedGrows(front, i, t);
      assert front[..i] == ops[..i];
    } else {
      assert ops[..i] == ops;
    }
  }

  /** The payload that the operation at `i` delivers is the next one handed out. */
  lemma DeliveredNext(ops: seq<Op>, i: nat, t: string)
    requires i < |ops| && ops[i] == Pop(t) && Result(After(ops[..i]), Pop(t)).Delivered?
    ensures
      var n := |Handed(ops[..i], t)|;
      n < |Handed(ops, t)| && Handed(ops, t)[n] == Result(After(ops[..i]), Pop(t)).payload
  {
    hide After;
    assert ops[..i + 1][..i] == ops[..i];
    assert Handed(ops[..i + 1], t) == Handed(ops[..i], t) + [Result(After(ops[..i]), Pop(t)).payload];
    HandedGrows(ops, i + 1, t);
  }

  /** The drop count that is exported is the number of pushes refused by a bound since construction. */
  lemma {:induction false} DropsAreExact(ops: seq<Op>, t: string)
    ensures EntryOf(After(ops), t).dropped == Count(ops, t, Dropped)
    ensures |Offered(ops, t)| == Count(ops, t, Accepted) + Count(ops, t, Dropped) + Count(ops, t, Disabled)
  {
    hide Fits;
    if ops != [] {
      var front, last := ops[..|ops| - 1], ops[|ops| - 1];
      DropsAreExact(front, t);
      EntryNext(After(front), last, t);
    }
  }

  /** A drop count never decreases, through release, erasure and re-creation of the topic. */
  lemma {:induction false} DropsNeverDecrease(ops: seq<Op>, more: seq<Op>, t: string)
    ensures EntryOf(After(ops), t).dropped <= EntryOf(After(ops + more), t).dropped
  {
    hide Fits;
    if more == [] {
      assert ops + more == ops;
    } else {
      var front, last := more[..|more| - 1], more[|more| - 1];
      DropsNeverDecrease(ops, front, t);
      assert ops + more == ops + front + [last];
      AfterSnoc(ops + front, last);
      EntryNext(After(ops + front), last, t);
    }
  }

  /** A topic is held only while it has something waiting or a drop to report, once released. */
  lemma ReleaseForgets(ops: seq<Op>, t: string)
    ensures t in After(ops + [Release(t)]).topics <==> Count(ops, t, Dropped) > 0
    ensures t in After(ops + [ReleaseAll]).topics <==> Count(ops, t, Dropped) > 0
  {
    AfterSnoc(ops, Release(t));
    AfterSnoc(ops, ReleaseAll);
    DropsAreExact(ops, t);
  }

  /** A topic has an entry iff it ever dropped a message, or accepted one since it was last released. */
  lemma {:induction false} HeldExactly(ops: seq<Op>, t: string)
    ensures t in After(ops).topics <==> Count(ops, t, Dropped) > 0 || AcceptedSince(ops, t) != []
  {
    hide Fits, Next;
    if ops != [] {
      var front, op := ops[..|ops| - 1], ops[|ops| - 1];
      HeldExactly(front, t);
      DropsAreExact(front, t);
      HeldStep(After(front), op, t);
    }
  }

  lemma HeldStep(st: State, op: Op, t: string)
    ensures t in Next(st, op).topics <==>
      if op.Push? && op.topic == t && Result(st, op) != Disabled then true
      else if Releases(op, t) then EntryOf(st, t).dropped > 0
      else t in st.topics
  {
    hide Fits;
  }

  /** The bounds at construction. */
  lemma InitialBounds()
    ensures After([]).maxMessages == 1024 && After([]).maxBytes == 4_194_304 && After([]).topics == map[]
  {
  }

  /** With either bound zero, and only then, a push leaves everything as it was, the drop counts included. */
  lemma DisabledChangesNothing(st: State, t: string, p: Payload)
    ensures Result(st, Push(t, p)) == Disabled <==> st.maxMessages == 0 || st.maxBytes == 0
    ensures Next(st, Push(t, p)) == st <==> st.maxMessages == 0 || st.maxBytes == 0
  {
    var n := Next(st, Push(t, p));
    if st.maxMessages > 0 && st.maxBytes > 0 {
      assert EntryOf(n, t) != EntryOf(st, t) by {
        EntryNext(st, Push(t, p), t);
      }
    }
  }

  // --------------------------------------------------------------------- bounds

  predicate Within(st: State, t: string) {
    |EntryOf(st, t).messages| <= st.maxMessages && Total(EntryOf(st, t).messages) <= st.maxBytes
  }

  /** A push that succeeds leaves its topic within both current bounds, however full it was before. */
  lemma AcceptedPushFits(st: State, t: string, p: Payload)
    ensures Result(st, Push(t, p)) == Accepted <==>
      st.maxMessages > 0 && st.maxBytes > 0 && Within(Next(st, Push(t, p)), t) &&
      EntryOf(Next(st, Push(t, p)), t).messages == EntryOf(st, t).messages + [p]
  {
    EntryNext(st, Push(t, p), t);
    TotalSnoc(EntryOf(st, t).messages, p);
  }

  /** After any run, a push with bounds above zero is accepted iff one more message and its bytes are within them. */
  lemma PushFits(ops: seq<Op>, t: string, p: Payload)
    requires After(ops).maxMessages > 0 && After(ops).maxBytes > 0
    ensures
      var st := After(ops);
      var fits := |Queue(ops, t)| + 1 <= st.maxMessages && Total(Queue(ops, t) + [p]) <= st.maxBytes;
      && Result(st, Push(t, p)) == (if fits then Accepted else Dropped)
      && Queue(ops + [Push(t, p)], t) == if fits then Queue(ops, t) + [p] else Queue(ops, t)
  {
    hide After;
    AfterSnoc(ops, Push(t, p));
    TotalSnoc(Queue(ops, t), p);
    EntryNext(After(ops), Push(t, p), t);
  }

  /** Messages pushed to one topic of a fresh instance, one after the other. */
  function Pushes(t: string, ps: seq<Payload>): seq<Op> {
    if ps == [] then [] else Pushes(t, ps[..|ps| - 1]) + [Push(t, ps[|ps| - 1])]
  }

  /** How many messages of `size` bytes the bounds at construction have room for. */
  function Room(size: nat): nat {
    if size <= 4096 then 1024 else 4_194_304 / size
  }

  lemma RoomIsExact(size: nat, n: nat)
    ensures n + 1 <= 1024 && n * size + size <= 4_194_304 <==> n < Room(size)
  {
    if size > 4096 {
      Quotient(size);
      LargeRoom(size, n, 4_194_304 / size);
    } else if n < 1024 {
      SmallRoom(size, n);
    }
  }

  lemma SmallRoom(size: nat, n: nat)
    requires size <= 4096 && n < 1024
    ensures n * size + size <= 4_194_304
  {
    assert (n + 1) * size <= 1024 * size;
  }

  lemma QuotientBelow(size: nat, q: nat)
    requires size > 4096 && q * size <= 4_194_304
    ensures q < 1024
  {
    assert q * size == q * 4096 + q * (size - 4096);
    Times(q, size - 4096);
    assert q == 1024 ==> q * size == 1024 * size;
  }

  lemma Quotient(size: nat)
    requires size > 0
    ensures 4_194_304 / size * size <= 4_194_304 < 4_194_304 / size * size + size
  {
    assert 4_194_304 == 4_194_304 / size * size + 4_194_304 % size;
  }

  lemma LargeRoom(size: nat, n: nat, q: nat)
    requires size > 4096 && q * size <= 4_194_304 < q * size + size
    ensures n + 1 <= 1024 && n * size + size <= 4_194_304 <==> n < q
  {
    QuotientBelow(size, q);
    if n < q {
      Times(q - 1 - n, size);
      assert q * size - n * size - size == (q - 1 - n) * size;
    } else {
      Times(n - q, size);
      assert n * size - q * size == (n - q) * size;
    }
  }

  lemma Times(a: nat, b: nat)
    ensures a * b >= 0
  {
  }

  lemma {:induction false} TotalOfEqual(ps: seq<Payload>, size: nat)
    requires forall k :: 0 <= k < |ps| ==> |ps[k]| == size
    ensures Total(ps) == |ps| * size
  {
    if ps != [] {
      TotalOfEqual(ps[..|ps| - 1], size);
      assert |ps| * size == (|ps| - 1) * size + size;
    }
  }

  /**
   With nobody popping, a fresh instance keeps just the first messages of one size that 1024 places and 4 MiB have room
   for, in order, and counts the others as dropped.
   */
  lemma {:induction false} FillsToTheBounds(t: string, ps: seq<Payload>, size: nat)
    requires forall k :: 0 <= k < |ps| ==> |ps[k]| == size
    ensures After(Pushes(t, ps)).maxMessages == 1024 && After(Pushes(t, ps)).maxBytes == 4_194_304
    ensures Queue(Pushes(t, ps), t) == if |ps| <= Room(size) then ps else ps[..Room(size)]
    ensures EntryOf(After(Pushes(t, ps)), t).dropped == if |ps| <= Room(size) then 0 else |ps| - Room(size)
  {
    hide Room, Total, Next, Result;
    if ps == [] {
      InitialBounds();
    } else {
      var front, p := ps[..|ps| - 1], ps[|ps| - 1];
      FillsToTheBounds(t, front, size);
      var ops := Pushes(t, front);
      var q := Queue(ops, t);
      AfterSnoc(ops, Push(t, p));
      PushFits(ops, t, p);
      TotalOfEqual(q, size);
      TotalSnoc(q, p);
      RoomIsExact(size, |q|);
      EntryNext(After(ops), Push(t, p), t);
      BoundsStay(After(ops), t, p);
    }
  }

  lemma BoundsStay(st: State, t: string, p: Payload)
    ensures Next(st, Push(t, p)).maxMessages == st.maxMessages && Next(st, Push(t, p)).maxBytes == st.maxBytes
  {
  }

  /** While the bounds stay the same every topic that is within them stays within them. */
  lemma BoundsKept(st: State, op: Op, t: string)
    requires Within(st, t) && !op.SetBounds?
    ensures Within(Next(st, op), t)
  {
    EntryNext(st, op, t);
    var q := EntryOf(st, t).messages;
    match op
    case Push(u, p) => TotalSnoc(q, p);
    case Pop(_) =>
      if q != [] {
        TotalFirst(q);
      }
    case _ =>
  }

  /** With the bounds set once at the start, every reachable state is within them. */
  lemma {:induction false} ConstantBounds(m: Size, b: Size, ops: seq<Op>, t: string)
    requires forall k :: 0 <= k < |ops| ==> !ops[k].SetBounds?
    ensures
      var st := After([SetBounds(m, b)] + ops);
      st.maxMessages == m && st.maxBytes == b && Within(st, t)
  {
    if ops == [] {
      assert [SetBounds(m, b)] + ops == [] + [SetBounds(m, b)];
      AfterSnoc([], SetBounds(m, b));
    } else {
      var front, last := ops[..|ops| - 1], ops[|ops| - 1];
      ConstantBounds(m, b, front, t);
      assert [SetBounds(m, b)] + ops == [SetBounds(m, b)] + front + [last];
      AfterSnoc([SetBounds(m, b)] + front, last);
      BoundsKept(After([SetBounds(m, b)] + front), last, t);
    }
  }

  /** What one operation does to a topic that is over a bound: nothing comes in. */
  lemma OverfullStep(st: State, op: Op, t: string)
    requires !Within(st, t)
    ensures
      var q, r := EntryOf(st, t).messages, EntryOf(Next(st, op), t).messages;
      r == q || r == [] || (q != [] && r == q[1..])
  {
    hide Total;
    EntryNext(st, op, t);
    if op.Push? && op.topic == t {
      AcceptedPushFits(st, t, op.payload);
    }
  }

  /**
   Lowered bounds trim nothing: new bounds leave every entry as it was, and as long as a topic is over the bounds,
   however they are moved meanwhile, it takes nothing in and only loses messages from its front.
   */
  lemma {:induction false} LoweredBoundsTrimNothing(ops: seq<Op>, more: seq<Op>, t: string) returns (gone: nat)
    requires forall i :: 0 <= i < |more| ==> !Within(After(ops + more[..i]), t)
    ensures gone <= |Queue(ops, t)| && Queue(ops + more, t) == Queue(ops, t)[gone..]
    ensures (forall k :: 0 <= k < |more| ==> more[k].SetBounds?) ==>
              gone == 0 && After(ops + more).topics == After(ops).topics
  {
    hide After, Within, Next, EntryOf;
    if more == [] {
      assert ops + more == ops;
      gone := 0;
    } else {
      var front, op := more[..|more| - 1], more[|more| - 1];
      forall i | 0 <= i < |front|
        ensures !Within(After(ops + front[..i]), t)
      {
        assert front[..i] == more[..i];
      }
      var before := LoweredBoundsTrimNothing(ops, front, t);
      assert ops + more == ops + front + [op] && more[..|front|] == front;
      AfterSnoc(ops + front, op);
      OverfullStep(After(ops + front), op, t);
      if op.SetBounds? {
        BoundsOnly(After(ops + front), op, t);
      }
      var q, r := Queue(ops + front, t), Queue(ops + more, t);
      gone := if r == q then before else if r == [] then |Queue(ops, t)| else before + 1;
    }
  }

  lemma BoundsOnly(st: State, op: Op, t: string)
    requires op.SetBounds?
    ensures Next(st, op).topics == st.topics && EntryOf(Next(st, op), t) == EntryOf(st, t)
  {
  }

  /** The backlog need not be a prefix of what was offered: after a refusal a smaller payload still fits. */
  lemma SmallerPayloadOvertakes()
    ensures
      var ops := [SetBounds(1024, 8), Push("t", "aaaaa"), Push("t", "bbbb"), Push("t", "ccc")];
      Queue(ops, "t") == ["aaaaa", "ccc"] && Offered(ops, "t") == ["aaaaa", "bbbb", "ccc"]
  {
    var o0: seq<Op> := [SetBounds(1024, 8)];
    var o1 := o0 + [Push("t", "aaaaa")];
    var o2 := o1 + [Push("t", "bbbb")];
    var o3 := o2 + [Push("t", "ccc")];
    assert o0 == [] + [SetBounds(1024, 8)];
    AfterSnoc([], SetBounds(1024, 8));
    PushSnoc(o0, "t", "aaaaa");
    PushSnoc(o1, "t", "bbbb");
    PushSnoc(o2, "t", "ccc");
    TotalSnoc([], "aaaaa");
    assert [] + ["aaaaa"] == ["aaaaa"] && Offered(o0, "t") == [];
    assert o3 == [SetBounds(1024, 8), Push("t", "aaaaa"), Push("t", "bbbb"), Push("t", "ccc")];
  }

  lemma PushSnoc(ops: seq<Op>, t: string, p: Payload)
    ensures After(ops + [Push(t, p)]) == Next(After(ops), Push(t, p))
    ensures Offered(ops + [Push(t, p)], t) == Offered(ops, t) + [p]
  {
    AfterSnoc(ops, Push(t, p));
    assert (ops + [Push(t, p)])[..|ops|] == ops;
  }

  /** An operation keyed on one topic. */
  predicate KeyedOn(op: Op, t: string) {
    (op.Push? || op.Pop? || op.Release?) && op.topic == t
  }

  lemma OtherTopicStep(st: State, op: Op, t: string, u: string)
    requires KeyedOn(op, t) && t != u
    ensures u in st.topics <==> u in Next(st, op).topics
    ensures EntryOf(Next(st, op), u) == EntryOf(st, u)
  {
    EntryNext(st, op, u);
  }

  lemma KeyedKeepsBounds(st: State, op: Op, t: string)
    requires KeyedOn(op, t)
    ensures Next(st, op).maxMessages == st.maxMessages && Next(st, op).maxBytes == st.maxBytes
  {
  }

  /** A whole run of operations on one topic leaves the bounds and every other topic, held or not, as they were. */
  lemma {:induction false} OtherTopicsUntouched(ops: seq<Op>, more: seq<Op>, t: string)
    requires forall k :: 0 <= k < |more| ==> KeyedOn(more[k], t)
    ensures
      var st, n := After(ops), After(ops + more);
      && n.maxMessages == st.maxMessages && n.maxBytes == st.maxBytes
      && n.topics - {t} == st.topics - {t}
  {
    hide After, Next;
    if more == [] {
      assert ops + more == ops;
    } else {
      var front, op := more[..|more| - 1], more[|more| - 1];
      OtherTopicsUntouched(ops, front, t);
      assert ops + more == ops + front + [op];
      AfterSnoc(ops + front, op);
      var st, n := After(ops + front), After(ops + more);
      forall u | u != t
        ensures (u in st.topics <==> u in n.topics) && EntryOf(n, u) == EntryOf(st, u)
      {
        OtherTopicStep(st, op, t, u);
      }
      KeyedKeepsBounds(st, op, t);
      SameElsewhere(st, n, t);
    }
  }

  lemma SameElsewhere(st: State, n: State, t: string)
    requires forall u :: u != t ==> (u in st.topics <==> u in n.topics) && EntryOf(n, u) == EntryOf(st, u)
    ensures n.topics - {t} == st.topics - {t}
  {
    forall u | u in n.topics && u != t
      ensures u in st.topics && n.topics[u] == st.topics[u]
    {
      assert EntryOf(n, u) == EntryOf(st, u);
    }
    forall u | u in st.topics && u != t
      ensures u in n.topics
    {
      assert EntryOf(n, u) == EntryOf(st, u);
    }
  }
}
