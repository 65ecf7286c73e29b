/** What whole runs of the inbound stream queues keep. */
module StreamRuns {
  import opened Order
  import opened StreamQueues

  function Before(ops: seq<Op>): State
    requires ops != []
  {
    After(ops[..|ops| - 1])
  }

  function Queue(ops: seq<Op>, p: string): seq<Stream> {
    At(After(ops), p).streams
  }

  /** Handles that a push of this operation added to the queue of `p`. */
  function Taken(st: State, op: Op, p: string): seq<Stream> {
    if op.Push? && op.proto == p && |At(st, p).streams| < 1024 then [op.stream] else []
  }

  /** Handles that a pop of this operation handed out from the queue of `p`. */
  function Given(st: State, op: Op, p: string): seq<Stream> {
    if op == Pop(p) && At(st, p).streams != [] then [At(st, p).streams[0]] else []
  }

  /** Handles that this operation took out of the queue of `p` without handing them to anyone. */
  function Lost(st: State, op: Op, p: string): seq<Stream> {
    var q := At(st, p).streams;
    match op
    case Remove(id, Some(r)) => if r == p && Holds(st, p, id) then [q[First(q, id)]] else []
    case ReleaseAll => q
    case _ => []
  }

  function Accepted(ops: seq<Op>, p: string): seq<Stream> {
    if ops == [] then [] else Accepted(ops[..|ops| - 1], p) + Taken(Before(ops), ops[|ops| - 1], p)
  }

  function Popped(ops: seq<Op>, p: string): seq<Stream> {
    if ops == [] then [] else Popped(ops[..|ops| - 1], p) + Given(Before(ops), ops[|ops| - 1], p)
  }

  /** Handles of `p` that a removal took out. */
  function Removed(ops: seq<Op>, p: string): seq<Stream> {
    if ops == [] then []
    else
      Removed(ops[..|ops| - 1], p) +
        if ops[|ops| - 1].Remove? then Lost(Before(ops), ops[|ops| - 1], p) else []
  }

  /** Handles of `p` that a release of everything dropped. */
  function Cleared(ops: seq<Op>, p: string): seq<Stream> {
    if ops == [] then []
    else
      Cleared(ops[..|ops| - 1], p) +
        if ops[|ops| - 1].ReleaseAll? then Lost(Before(ops), ops[|ops| - 1], p) else []
  }

  /** Pushes to `p` since construction, and those that met 1024 handles. */
  function Offers(ops: seq<Op>, p: string): nat {
    if ops == [] then 0
    else Offers(ops[..|ops| - 1], p) + if ops[|ops| - 1].Push? && ops[|ops| - 1].proto == p then 1 else 0
  }

  function Refusals(ops: seq<Op>, p: string): nat {
    if ops == [] then 0
    else
      var op := ops[|ops| - 1];
      Refusals(ops[..|ops| - 1], p) + if op.Push? && op.proto == p && |Queue(ops[..|ops| - 1], p)| >= 1024 then 1 else 0
  }

  /** How often a handle occurs. */
  function Times(s: seq<Stream>, x: Stream): nat {
    multiset(s)[x]
  }

  lemma TimesAdd(a: seq<Stream>, b: seq<Stream>, x: Stream)
    ensures Times(a + b, x) == Times(a, x) + Times(b, x)
    ensures Times([], x) == 0
  {
    assert multiset(a + b) == multiset(a) + multiset(b);
  }

  /** Taking one element out of a list. */
  lemma TimesErased(s: seq<Stream>, k: nat, x: Stream)
    requires k < |s|
    ensures Times(s, x) == Times(Erased(s, k), x) + Times([s[k]], x)
  {
    hide Times;
    assert s == s[..k] + ([s[k]] + s[k + 1..]);
    TimesAdd(s[..k], [s[k]] + s[k + 1..], x);
    TimesAdd([s[k]], s[k + 1..], x);
    TimesAdd(s[..k], s[k + 1..], x);
  }

  /** One operation moves handles, it neither makes nor loses any. */
  lemma Balance(st: State, op: Op, p: string, x: Stream)
    ensures
      Times(At(st, p).streams, x) + Times(Taken(st, op, p), x) ==
      Times(At(Next(st, op), p).streams, x) + Times(Given(st, op, p), x) + Times(Lost(st, op, p), x)
    ensures !op.Remove? && !op.ReleaseAll? ==> Lost(st, op, p) == []
  {
    hide First, Times;
    var q := At(st, p).streams;
    TimesAdd([], [], x);
    match op
    case Push(u, s) => TimesAdd(q, [s], x);
    case Pop(u) =>
      if u == p && q != [] {
        TimesErased(q, 0, x);
        assert Erased(q, 0) == q[1..];
      }
    case Remove(id, Some(u)) =>
      if u == p && Holds(st, p, id) {
        TimesErased(q, First(q, id), x);
      }
    case Remove(id, None) =>
    case ReleaseAll =>
  }

  lemma {:induction false} ConservedEach(ops: seq<Op>, p: string, x: Stream)
    ensures Times(Accepted(ops, p), x) ==
            Times(Popped(ops, p), x) + Times(Removed(ops, p), x) + Times(Cleared(ops, p), x) + Times(Queue(ops, p), x)
  {
    hide Taken, Given, Lost, Next, At, Times;
    TimesAdd([], [], x);
    if ops == [] {
      InitiallyEmpty(p);
    } else {
      var front, op := ops[..|ops| - 1], ops[|ops| - 1];
      ConservedEach(front, p, x);
      var st := After(front);
      Balance(st, op, p, x);
      TimesAdd(Accepted(front, p), Taken(st, op, p), x);
      TimesAdd(Popped(front, p), Given(st, op, p), x);
      TimesAdd(Removed(front, p), if op.Remove? then Lost(st, op, p) else [], x);
      TimesAdd(Cleared(front, p), if op.ReleaseAll? then Lost(st, op, p) else [], x);
    }
  }

  lemma InitiallyEmpty(p: string)
    ensures Queue([], p) == [] && At(After([]), p).dropped == 0
  {
  }

  /** Conservation: the handles accepted are those popped, removed, cleared and still queued, each counted once. */
  lemma Conserved(ops: seq<Op>, p: string)
    ensures multiset(Accepted(ops, p)) ==
            multiset(Popped(ops, p)) + multiset(Removed(ops, p)) + multiset(Cleared(ops, p)) + multiset(Queue(ops, p))
  {
    hide Accepted, Popped, Removed, Cleared, Queue;
    forall x: Stream
      ensures multiset(Accepted(ops, p))[x] ==
              multiset(Popped(ops, p))[x] + multiset(Removed(ops, p))[x] + multiset(Cleared(ops, p))[x] +
              multiset(Queue(ops, p))[x]
    {
      ConservedEach(ops, p, x);
    }
  }

  // ----------------------------------------------------------------------- order

  /** What one operation does to the queue of a protocol. */
  lemma QueueStep(st: State, op: Op, p: string)
    ensures
      var q, r, t, g := At(st, p).streams, At(Next(st, op), p).streams, Taken(st, op, p), Given(st, op, p);
      || (r == q && t == g == [])
      || (exists s :: t == [s] && g == [] && r == q + [s])
      || (q != [] && t == [] && g == [q[0]] && r == q[1..])
      || (exists k: nat :: k < |q| && t == g == [] && r == Erased(q, k))
      || (r == t == g == [])
  {
    hide First;
    match op
    case Remove(id, Some(u)) =>
      if u == p && Holds(st, p, id) {
        assert At(Next(st, op), p).streams == Erased(At(st, p).streams, First(At(st, p).streams, id));
      }
    case Push(u, s) =>
      if u == p && !Full(st, p) {
        assert At(Next(st, op), p).streams == At(st, p).streams + [s];
      }
    case _ =>
  }

  /** One operation: popped and waiting stay in the order of what was accepted. */
  lemma InOrderStep(h: seq<Stream>, st: State, op: Op, p: string, a: seq<Stream>)
    requires Subsequence(h + At(st, p).streams, a)
    ensures Subsequence(h + Given(st, op, p) + At(Next(st, op), p).streams, a + Taken(st, op, p))
  {
    hide *;
    var q, r, t, g := At(st, p).streams, At(Next(st, op), p).streams, Taken(st, op, p), Given(st, op, p);
    QueueStep(st, op, p);
    NothingAdded(h);
    NothingAdded(a);
    if r == q && t == g == [] {
    } else if q != [] && t == [] && g == [q[0]] && r == q[1..] {
      FirstMoves(h, q);
    } else if s :| t == [s] && g == [] && r == q + [s] {
      SubsequenceSnoc(h + q, a, s);
      Regrouped(h, q, s);
    } else if k: nat :| k < |q| && t == g == [] && r == Erased(q, k) {
      SubsequenceErase(h + q, |h| + k, a);
      EraseBehind(h, q, k);
    } else {
      SubsequencePrefix(h, q, a);
    }
  }

  lemma NothingAdded(h: seq<Stream>)
    ensures h + [] == h
  {
  }

  lemma FirstMoves(h: seq<Stream>, q: seq<Stream>)
    requires q != []
    ensures h + [q[0]] + q[1..] == h + q
  {
  }

  lemma Regrouped(h: seq<Stream>, q: seq<Stream>, s: Stream)
    ensures h + (q + [s]) == h + q + [s]
  {
  }

  lemma EraseBehind(h: seq<Stream>, q: seq<Stream>, k: nat)
    requires k < |q|
    ensures h + Erased(q, k) == (h + q)[..|h| + k] + (h + q)[|h| + k + 1..]
  {
  }

  /** Over a whole run, what was popped and then what waits come from what was accepted, in order. */
  lemma {:induction false} PoppedInOrder(ops: seq<Op>, p: string)
    ensures Subsequence(Popped(ops, p) + Queue(ops, p), Accepted(ops, p))
  {
    hide Subsequence, Next, At, Given, Taken;
    if ops == [] {
      InitiallyEmpty(p);
      Nothing();
    } else {
      var front, op := ops[..|ops| - 1], ops[|ops| - 1];
      PoppedInOrder(front, p);
      InOrderStep(Popped(front, p), After(front), op, p, Accepted(front, p));
    }
  }

  lemma Nothing()
    ensures Subsequence<Stream>([] + [], [])
  {
  }

  /** What was popped stays popped, in its place. */
  lemma {:induction false} PoppedGrows(ops: seq<Op>, i: nat, p: string)
    requires i <= |ops|
    ensures Popped(ops[..i], p) <= Popped(ops, p)
  {
    hide After, Given;
    if i < |ops| {
      var front := ops[..|ops| - 1];
      PoppedGrows(front, i, p);
      assert front[..i] == ops[..i];
    } else {
      assert ops[..i] == ops;
    }
  }

  /** The handle that the operation at `i` delivers is the next one popped. */
  lemma DeliveredNext(ops: seq<Op>, i: nat, p: string)
    requires i < |ops| && ops[i] == Pop(p) && Result(After(ops[..i]), Pop(p)).Delivered?
    ensures
      var n := |Popped(ops[..i], p)|;
      n < |Popped(ops, p)| && Popped(ops, p)[n] == Result(After(ops[..i]), Pop(p)).stream
  {
    hide After;
    assert ops[..i + 1][..i] == ops[..i];
    assert Popped(ops[..i + 1], p) == Popped(ops[..i], p) + [Result(After(ops[..i]), Pop(p)).stream];
    PoppedGrows(ops, i + 1, p);
  }

  /** No queue is ever longer than the cap, and what the cap refused is what the counter says. */
  lemma {:induction false} CapAndDrops(ops: seq<Op>, p: string)
    ensures |Queue(ops, p)| <= 1024
    ensures At(After(ops), p).dropped == Refusals(ops, p)
    ensures Offers(ops, p) == |Accepted(ops, p)| + Refusals(ops, p)
  {
    hide Next, Full, At;
    if ops == [] {
      InitiallyEmpty(p);
    } else {
      var front, op := ops[..|ops| - 1], ops[|ops| - 1];
      CapAndDrops(front, p);
      CapStep(After(front), op, p);
    }
  }

  lemma CapStep(st: State, op: Op, p: string)
    requires |At(st, p).streams| <= 1024
    ensures |At(Next(st, op), p).streams| <= 1024
    ensures At(Next(st, op), p).dropped ==
            At(st, p).dropped + if op.Push? && op.proto == p && |At(st, p).streams| >= 1024 then 1 else 0
  {
    hide First;
  }

  /** After any run, a push is accepted iff fewer than 1024 handles wait, and then it waits behind them. */
  lemma PushBelowCap(ops: seq<Op>, p: string, s: Stream)
    ensures Result(After(ops), Push(p, s)) == Admitted <==> |Queue(ops, p)| < 1024
    ensures Result(After(ops), Push(p, s)) == Refused <==> |Queue(ops, p)| >= 1024
    ensures Queue(ops + [Push(p, s)], p) == if |Queue(ops, p)| < 1024 then Queue(ops, p) + [s] else Queue(ops, p)
  {
    hide After;
    Snoc(ops, Push(p, s));
  }

  /** Handles pushed to one protocol, one after the other. */
  function Pushes(p: string, ss: seq<Stream>): seq<Op> {
    if ss == [] then [] else Pushes(p, ss[..|ss| - 1]) + [Push(p, ss[|ss| - 1])]
  }

  /** With nobody accepting, the first 1024 handles wait in order, and just the others are refused and counted. */
  lemma {:induction false} FillsToTheCap(p: string, ss: seq<Stream>)
    ensures Queue(Pushes(p, ss), p) == if |ss| <= 1024 then ss else ss[..1024]
    ensures At(After(Pushes(p, ss)), p).dropped == if |ss| <= 1024 then 0 else |ss| - 1024
  {
    hide After;
    if ss == [] {
      InitiallyEmpty(p);
    } else {
      var front, s := ss[..|ss| - 1], ss[|ss| - 1];
      FillsToTheCap(p, front);
      Snoc(Pushes(p, front), Push(p, s));
      PushBelowCap(Pushes(p, front), p, s);
      assert ss == front + [s];
    }
  }

  /** Handles that `p` accepted since everything was last released. */
  function SinceRelease(ops: seq<Op>, p: string): nat {
    if ops == [] || ops[|ops| - 1].ReleaseAll? then 0
    else SinceRelease(ops[..|ops| - 1], p) + |Taken(Before(ops), ops[|ops| - 1], p)|
  }

  /** A protocol has an entry iff it ever refused a handle, or accepted one since the last release. */
  lemma {:induction false} HeldExactly(ops: seq<Op>, p: string)
    ensures p in After(ops) <==> Refusals(ops, p) > 0 || SinceRelease(ops, p) > 0
    ensures Queue(ops + [ReleaseAll], p) == []
  {
    hide Next;
    Snoc(ops, ReleaseAll);
    HeldStep(After(ops), ReleaseAll, p);
    if ops != [] {
      var front, op := ops[..|ops| - 1], ops[|ops| - 1];
      HeldExactly(front, p);
      HeldStep(After(front), op, p);
      CapAndDrops(front, p);
    }
  }

  lemma HeldStep(st: State, op: Op, p: string)
    ensures p in Next(st, op) <==>
      match op
      case Push(u, _) => u == p || p in st
      case ReleaseAll => At(st, p).dropped > 0
      case _ => p in st
    ensures op.ReleaseAll? ==> At(Next(st, op), p).streams == []
  {
    hide First;
  }

  // --------------------------------------------------------------------- removal

  /** The handles whose id is another one. */
  function Others(s: seq<Stream>, id: Id): seq<Stream> {
    if s == [] then []
    else (if s[0].id == id then [] else [s[0]]) + Others(s[1..], id)
  }

  function WithoutId(st: State, id: Id): State {
    map p | p in st :: st[p].(streams := Others(st[p].streams, id))
  }

  ghost predicate IsAt(st: State, id: Id, p: string, i: int) {
    p in st && 0 <= i < |st[p].streams| && st[p].streams[i].id == id
  }

  ghost predicate Queued(st: State, id: Id) {
    exists p, i :: IsAt(st, id, p, i)
  }

  /** At most one queued handle has this id. */
  ghost predicate AtMostOnce(st: State, id: Id) {
    forall p, q, i, j :: IsAt(st, id, p, i) && IsAt(st, id, q, j) ==> p == q && i == j
  }

  lemma {:induction false} OthersNone(s: seq<Stream>, id: Id)
    requires forall k :: 0 <= k < |s| ==> s[k].id != id
    ensures Others(s, id) == s
  {
    if s != [] {
      OthersNone(s[1..], id);
      assert s == [s[0]] + s[1..];
    }
  }

  lemma {:induction false} OthersOne(s: seq<Stream>, id: Id, k: nat)
    requires k < |s| && s[k].id == id
    requires forall j :: 0 <= j < |s| && j != k ==> s[j].id != id
    ensures Others(s, id) == Erased(s, k)
  {
    if k == 0 {
      OthersNone(s[1..], id);
      assert Erased(s, 0) == s[1..];
    } else {
      OthersOne(s[1..], id, k - 1);
      assert Erased(s, k) == [s[0]] + Erased(s[1..], k - 1);
    }
  }

  lemma {:induction false} OthersLack(s: seq<Stream>, id: Id)
    ensures forall k :: 0 <= k < |Others(s, id)| ==> Others(s, id)[k].id != id
  {
    if s != [] {
      OthersLack(s[1..], id);
    }
  }

  /** When the id is queued at most once, a removal leaves exactly the other handles, in their order. */
  lemma RemovesOne(st: State, id: Id, found: Option<string>)
    requires AtMostOnce(st, id) && Legal(st, Remove(id, found))
    ensures Next(st, Remove(id, found)) == WithoutId(st, id)
  {
    hide Others;
    var after := Next(st, Remove(id, found));
    forall p | p in st
      ensures p in after && after[p] == st[p].(streams := Others(st[p].streams, id))
    {
      var s := st[p].streams;
      var k := First(s, id);
      if k < |s| {
        forall j | 0 <= j < |s| && j != k
          ensures s[j].id != id
        {
          assert IsAt(st, id, p, k) && !IsAt(st, id, p, j);
        }
        OthersOne(s, id, k);
        assert Holds(st, p, id) && found.Some?;
        assert IsAt(st, id, p, k) && IsAt(st, id, found.value, First(st[found.value].streams, id));
      } else {
        OthersNone(s, id);
      }
    }
    assert after.Keys == st.Keys == WithoutId(st, id).Keys;
  }

  /** When the id is queued twice, some removal leaves one of the two behind. */
  lemma LeavesOne(st: State, id: Id)
    requires !AtMostOnce(st, id)
    ensures exists found :: Legal(st, Remove(id, found)) && Next(st, Remove(id, found)) != WithoutId(st, id)
  {
    hide Others;
    var p, q, i, j :| IsAt(st, id, p, i) && IsAt(st, id, q, j) && !(p == q && i == j);
    var k := First(st[p].streams, id);
    var after := Next(st, Remove(id, Some(p)));
    assert Legal(st, Remove(id, Some(p)));
    var left := after[q].streams;
    if q != p {
      assert left[j].id == id;
    } else {
      var later := if i == k then j else i;
      assert st[p].streams[later].id == id && later != k;
      assert left[if later < k then later else later - 1].id == id;
    }
    OthersLack(st[q].streams, id);
    assert after[q] != WithoutId(st, id)[q];
  }

  /** `remove` deletes exactly the handles with the id, whatever the iteration order, iff at most one is queued. */
  lemma RemovalIsExact(st: State, id: Id)
    ensures AtMostOnce(st, id) <==>
            (forall found :: Legal(st, Remove(id, found)) ==> Next(st, Remove(id, found)) == WithoutId(st, id))
  {
    hide Next, WithoutId, AtMostOnce, Legal;
    if AtMostOnce(st, id) {
      forall found | Legal(st, Remove(id, found))
        ensures Next(st, Remove(id, found)) == WithoutId(st, id)
      {
        RemovesOne(st, id, found);
      }
    } else {
      LeavesOne(st, id);
    }
  }

  /** A removal reports success exactly when some queued handle has the id. */
  lemma RemovalReports(st: State, id: Id, found: Option<string>)
    requires Legal(st, Remove(id, found))
    ensures found.Some? <==> Queued(st, id)
  {
    if found.Some? {
      assert IsAt(st, id, found.value, First(st[found.value].streams, id));
    } else {
      forall p, i
        ensures !IsAt(st, id, p, i)
      {
        assert p in st ==> !Holds(st, p, id);
      }
    }
  }

  /** Where a handle that is queued after an operation came from. */
  lemma CameFrom(st: State, op: Op, id: Id, p: string, i: int) returns (was: int)
    requires IsAt(Next(st, op), id, p, i)
    ensures IsAt(st, id, p, was) || (op.Push? && op.proto == p && op.stream.id == id && i == |At(st, p).streams|)
    ensures was == match op
      case Pop(u) => if u == p then i + 1 else i
      case Remove(r, Some(u)) => if u == p && Holds(st, p, r) && First(At(st, p).streams, r) <= i then i + 1 else i
      case _ => i
  {
    hide First;
    was := match op
      case Pop(u) => if u == p then i + 1 else i
      case Remove(r, Some(u)) => if u == p && Holds(st, p, r) && First(At(st, p).streams, r) <= i then i + 1 else i
      case _ => i;
  }

  /** Queued ids stay distinct under every operation that does not push an id that is queued. */
  lemma DistinctKept(st: State, op: Op, id: Id)
    requires AtMostOnce(st, id)
    requires op.Push? && op.stream.id == id ==> !Queued(st, id)
    ensures AtMostOnce(Next(st, op), id)
  {
    hide Next, IsAt;
    forall p, q, i, j | IsAt(Next(st, op), id, p, i) && IsAt(Next(st, op), id, q, j)
      ensures p == q && i == j
    {
      var a := CameFrom(st, op, id, p, i);
      var b := CameFrom(st, op, id, q, j);
    }
  }

  /** The id was pushed at some point of the run. */
  ghost predicate Pushed(ops: seq<Op>, id: Id) {
    exists k :: 0 <= k < |ops| && ops[k].Push? && ops[k].stream.id == id
  }

  /** No id is pushed twice in the run. */
  ghost predicate FreshIds(ops: seq<Op>) {
    forall j, k :: 0 <= j < k < |ops| && ops[j].Push? && ops[k].Push? ==> ops[j].stream.id != ops[k].stream.id
  }

  /** While every pushed handle has an id of its own, no id is queued twice, in any protocols. */
  lemma {:induction false} IdsStayDistinct(ops: seq<Op>, id: Id)
    requires FreshIds(ops)
    ensures AtMostOnce(After(ops), id)
    ensures Queued(After(ops), id) ==> Pushed(ops, id)
  {
    hide Next, AtMostOnce;
    if ops == [] {
      assert AtMostOnce(map[], id) by {
        NothingTwice(id);
      }
    } else {
      var front, op := ops[..|ops| - 1], ops[|ops| - 1];
      IdsStayDistinct(front, id);
      if op.Push? && op.stream.id == id {
        forall k | 0 <= k < |front|
          ensures !(front[k].Push? && front[k].stream.id == id)
        {
          assert ops[k] == front[k];
        }
      }
      DistinctKept(After(front), op, id);
      if p, i :| IsAt(After(ops), id, p, i) {
        var was := CameFrom(After(front), op, id, p, i);
        if IsAt(After(front), id, p, was) {
          var k :| 0 <= k < |front| && front[k].Push? && front[k].stream.id == id;
          assert ops[k] == front[k];
        }
      }
    }
  }

  lemma NothingTwice(id: Id)
    ensures AtMostOnce(map[], id)
  {
  }

  /** After any run that pushes no id twice, a removal of any id is exact, whatever order the table is walked in. */
  lemma RemovalOverRuns(ops: seq<Op>, id: Id, found: Option<string>)
    requires FreshIds(ops) && Run(ops + [Remove(id, found)])
    ensures After(ops + [Remove(id, found)]) == WithoutId(After(ops), id)
    ensures found.Some? <==> Queued(After(ops), id)
  {
    hide *;
    IdsStayDistinct(ops, id);
    Snoc(ops, Remove(id, found));
    RemovesOne(After(ops), id, found);
    RemovalReports(After(ops), id, found);
  }

  /** Two pushes are enough to queue one id twice; which one a removal takes depends on the table's order. */
  lemma RepeatedIdDependsOnOrder(p: string, q: string, s: Stream)
    requires p != q
    ensures
      var ops := [Push(p, s), Push(q, s)];
      && Run(ops) && !AtMostOnce(After(ops), s.id)
      && Run(ops + [Remove(s.id, Some(p))]) && Run(ops + [Remove(s.id, Some(q))])
      && Queue(ops + [Remove(s.id, Some(p))], p) == [] && Queue(ops + [Remove(s.id, Some(p))], q) == [s]
      && Queue(ops + [Remove(s.id, Some(q))], p) == [s] && Queue(ops + [Remove(s.id, Some(q))], q) == []
  {
    var ops: seq<Op> := [Push(p, s), Push(q, s)];
    assert ops == [] + [Push(p, s)] + [Push(q, s)];
    Snoc([], Push(p, s));
    Snoc([] + [Push(p, s)], Push(q, s));
    Snoc(ops, Remove(s.id, Some(p)));
    Snoc(ops, Remove(s.id, Some(q)));
    var st := After(ops);
    assert st == map[p := Protocol([s], 0), q := Protocol([s], 0)];
    assert IsAt(st, s.id, p, 0) && IsAt(st, s.id, q, 0);
    FirstIs([s], s.id, 0);
  }
}
