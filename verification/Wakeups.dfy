/**
 The mutex and the condition variable around both queues, one step at a time
 (src/topic_queues.cpp:13-46, src/stream_queues.cpp:7-47). The topic queues notify
 before they release the mutex, the stream queues after.
 */
module Wakeups {
  import TQ = TopicQueues
  import TR = TopicRuns
  import SQ = StreamQueues
  import SR = StreamRuns

  // ----------------------------------------------------------- the shared queues

  datatype Op = OnTopics(t: TQ.Op) | OnStreams(s: SQ.Op)

  /** What the mutex guards, as the operations performed under it so far. */
  datatype Shared = Topics(topicOps: seq<TQ.Op>) | Streams(streamOps: seq<SQ.Op>)

  function Count(q: Shared): nat {
    match q
    case Topics(ops) => |ops|
    case Streams(ops) => |ops|
  }

  function OpAt(q: Shared, i: nat): Op
    requires i < Count(q)
  {
    match q
    case Topics(ops) => OnTopics(ops[i])
    case Streams(ops) => OnStreams(ops[i])
  }

  /** The queues as they were after `i` operations. */
  function Upto(q: Shared, i: nat): (u: Shared)
    requires i <= Count(q)
    ensures u.Topics? <==> q.Topics?
  {
    match q
    case Topics(ops) => Topics(ops[..i])
    case Streams(ops) => Streams(ops[..i])
  }

  ghost predicate Fits(q: Shared, op: Op) {
    match op
    case OnTopics(_) => q.Topics?
    case OnStreams(o) => q.Streams? && SQ.Legal(SQ.After(q.streamOps), o)
  }

  function Do(q: Shared, op: Op): Shared
    requires op.OnTopics? <==> q.Topics?
  {
    match op
    case OnTopics(o) => Topics(q.topicOps + [o])
    case OnStreams(o) => Streams(q.streamOps + [o])
  }

  function Depth(q: Shared, k: string): nat {
    match q
    case Topics(ops) => |TR.Queue(ops, k)|
    case Streams(ops) => |SR.Queue(ops, k)|
  }

  predicate IsPush(op: Op, k: string) {
    match op
    case OnTopics(o) => o.Push? && o.topic == k
    case OnStreams(o) => o.Push? && o.proto == k
  }

  predicate Pushes(op: Op) {
    match op
    case OnTopics(o) => o.Push?
    case OnStreams(o) => o.Push?
  }

  predicate Pops(op: Op) {
    match op
    case OnTopics(o) => o.Pop?
    case OnStreams(o) => o.Pop?
  }

  predicate IsPop(op: Op, k: string) {
    op == OnTopics(TQ.Pop(k)) || op == OnStreams(SQ.Pop(k))
  }

  /** What an operation returns to its caller: with a pop, what it hands out. */
  datatype Answer = OfTopics(t: TQ.Outcome) | OfStreams(s: SQ.Outcome)

  /** What the queue as it stands returns to an operation. */
  function Result(q: Shared, op: Op): (r: Answer)
    requires op.OnTopics? <==> q.Topics?
    ensures r.OfTopics? <==> q.Topics?
  {
    match op
    case OnTopics(o) => OfTopics(TQ.Result(TQ.After(q.topicOps), o))
    case OnStreams(o) => OfStreams(SQ.Result(SQ.After(q.streamOps), o))
  }

  /** A push that stored its element. */
  predicate Stores(r: Answer) {
    r == OfTopics(TQ.Accepted) || r == OfStreams(SQ.Admitted)
  }

  function Nothing(topics: bool): Answer {
    if topics then OfTopics(TQ.Empty) else OfStreams(SQ.Empty)
  }

  /** Performing one more operation keeps the record of those before. */
  lemma DoRecords(q: Shared, op: Op)
    requires op.OnTopics? <==> q.Topics?
    ensures
      var r := Do(q, op);
      && (r.Topics? <==> q.Topics?) && Count(r) == Count(q) + 1
      && OpAt(r, Count(q)) == op && Upto(r, Count(q)) == q
      && (forall i: nat :: i < Count(q) ==> OpAt(r, i) == OpAt(q, i) && Upto(r, i) == Upto(q, i))
  {
    match op
    case OnTopics(o) =>
      assert forall i: nat :: i <= |q.topicOps| ==> (q.topicOps + [o])[..i] == q.topicOps[..i];
    case OnStreams(o) =>
      assert forall i: nat :: i <= |q.streamOps| ==> (q.streamOps + [o])[..i] == q.streamOps[..i];
  }

  /** Nothing but a push that succeeds makes an empty queue hold something. */
  lemma OnlyPushFills(q: Shared, op: Op, k: string)
    requires op.OnTopics? <==> q.Topics?
    requires Depth(q, k) == 0 && Depth(Do(q, op), k) > 0
    ensures IsPush(op, k) && Stores(Result(q, op))
  {
    hide TQ.After, SQ.After;
    match op
    case OnTopics(o) =>
      TQ.AfterSnoc(q.topicOps, o);
      TR.EntryNext(TQ.After(q.topicOps), o, k);
    case OnStreams(o) =>
      SQ.Snoc(q.streamOps, o);
  }

  /** A pop fails exactly when its queue is empty. */
  lemma PopFails(q: Shared, k: string, op: Op)
    requires (op.OnTopics? <==> q.Topics?) && IsPop(op, k)
    ensures Result(q, op) == Nothing(q.Topics?) <==> Depth(q, k) == 0
  {
  }

  // ------------------------------------------------------------------ the threads

  type Tid = nat

  /**
   `Want`: wants the mutex; `In`: holds it, before its operation; `Looked`: holds it, has read the queues and decided
   what its operation does and returns, and has changed nothing yet; `Waiting`: blocked on the condition variable;
   `Woken`: off it, and wants the mutex again; `Stored`: holds it after a push that succeeded; `Told`: has notified and
   holds it; `Pending`: has released it and not notified yet; `Finished`: has returned. `at` is the position of its
   operation among those performed.
   */
  datatype Pc =
    | Want
    | In(expired: bool)
    | Looked(expired: bool, op: Op, seen: Answer)
    | Waiting
    | Woken(expired: bool)
    | Stored(at: nat)
    | Told(at: nat)
    | Pending(at: nat)
    | Finished(at: nat, ret: Answer)

  /** One call: what was asked for, and how many operations had been performed when it began. */
  datatype Thread = Thread(call: Op, since: nat, pc: Pc)

  datatype State = State(threads: map<Tid, Thread>, queues: Shared)

  datatype Action =
    | Begin(t: Tid, call: Op)
    | Lock(t: Tid)
    | Look(t: Tid, op: Op)
    | Perform(t: Tid)
    | Block(t: Tid)
    | Expire(t: Tid)
    | Spurious(t: Tid)
    | Notify(t: Tid)
    | Unlock(t: Tid)

  /** The protocol that a removal finds is settled only when it looks. */
  predicate Asked(call: Op, op: Op) {
    || call == op
    || (call.OnStreams? && op.OnStreams? && call.s.Remove? && op.s.Remove? && call.s.id == op.s.id)
  }

  predicate Holding(pc: Pc) {
    pc.In? || pc.Looked? || pc.Stored? || pc.Told?
  }

  predicate Performed(pc: Pc) {
    pc.Stored? || pc.Told? || pc.Pending? || pc.Finished?
  }

  ghost predicate Free(s: State) {
    forall t :: t in s.threads ==> !Holding(s.threads[t].pc)
  }

  /** A pop that has looked and found nothing. */
  predicate FoundNothing(q: Shared, pc: Pc) {
    pc.Looked? && Pops(pc.op) && pc.seen == Nothing(q.Topics?)
  }

  /** Looking reads the queues; what follows goes by what was seen, and reads them no more. */
  ghost predicate Enabled(s: State, a: Action) {
    match a
    case Begin(t, call) => t !in s.threads && (call.OnTopics? <==> s.queues.Topics?)
    case Lock(t) => t in s.threads && (s.threads[t].pc.Want? || s.threads[t].pc.Woken?) && Free(s)
    case Look(t, op) =>
      && t in s.threads && s.threads[t].pc.In?
      && Asked(s.threads[t].call, op) && Fits(s.queues, op)
    case Perform(t) =>
      && t in s.threads && s.threads[t].pc.Looked?
      && (s.threads[t].pc.op.OnTopics? <==> s.queues.Topics?)
      && (FoundNothing(s.queues, s.threads[t].pc) ==> s.threads[t].pc.expired)
    case Block(t) =>
      t in s.threads && FoundNothing(s.queues, s.threads[t].pc) && !s.threads[t].pc.expired
    case Expire(t) => t in s.threads && (s.threads[t].pc.Waiting? || s.threads[t].pc.Woken?)
    case Spurious(t) => t in s.threads && s.threads[t].pc.Waiting?
    case Notify(t) => t in s.threads && if s.queues.Topics? then s.threads[t].pc.Stored? else s.threads[t].pc.Pending?
    case Unlock(t) => t in s.threads && if s.queues.Topics? then s.threads[t].pc.Told? else s.threads[t].pc.Stored?
  }

  function Move(s: State, t: Tid, pc: Pc): State
    requires t in s.threads
  {
    s.(threads := s.threads[t := s.threads[t].(pc := pc)])
  }

  /** `notify_all`: every waiter wakes and wants the mutex again. */
  function NotifyAll(threads: map<Tid, Thread>): map<Tid, Thread> {
    map t | t in threads :: if threads[t].pc.Waiting? then threads[t].(pc := Woken(false)) else threads[t]
  }

  ghost function Apply(s: State, a: Action): State
    requires Enabled(s, a)
  {
    match a
    case Begin(t, call) => s.(threads := s.threads[t := Thread(call, Count(s.queues), Want)])
    case Lock(t) => Move(s, t, In(s.threads[t].pc == Woken(true)))
    case Look(t, op) => Move(s, t, Looked(s.threads[t].pc.expired, op, Result(s.queues, op)))
    case Perform(t) =>
      var at := Count(s.queues);
      var seen := s.threads[t].pc.seen;
      Move(s, t, if Stores(seen) then Stored(at) else Finished(at, seen)).(queues := Do(s.queues, s.threads[t].pc.op))
    case Block(t) => Move(s, t, Waiting)
    case Expire(t) => Move(s, t, Woken(true))
    case Spurious(t) => Move(s, t, Woken(false))
    case Notify(t) =>
      var at := s.threads[t].pc.at;
      Move(s.(threads := NotifyAll(s.threads)), t,
           if s.queues.Topics? then Told(at) else Finished(at, OfStreams(SQ.Admitted)))
    case Unlock(t) =>
      var at := s.threads[t].pc.at;
      Move(s, t, if s.queues.Topics? then Finished(at, OfTopics(TQ.Accepted)) else Pending(at))
  }

  /** The state a run leads to; an action that is not possible where it stands changes nothing. */
  ghost function After(start: Shared, run: seq<Action>): State {
    if run == [] then State(map[], start)
    else
      var s := After(start, run[..|run| - 1]);
      var a := run[|run| - 1];
      if Enabled(s, a) then Apply(s, a) else s
  }

  // --------------------------------------------------------------- the invariants

  /** The mutex has one holder at most. */
  ghost predicate Exclusive(s: State) {
    forall t, u :: t in s.threads && u in s.threads && Holding(s.threads[t].pc) && Holding(s.threads[u].pc) ==> t == u
  }

  /** What a thread saw when it looked is still so: its operation is possible, and would return just that. */
  ghost predicate StillSo(q: Shared, th: Thread) {
    th.pc.Looked? ==> Asked(th.call, th.pc.op) && Fits(q, th.pc.op) && th.pc.seen == Result(q, th.pc.op)
  }

  ghost predicate Faithful(s: State) {
    forall t :: t in s.threads ==> StillSo(s.queues, s.threads[t])
  }

  /** A push to `k` that succeeded and has not notified yet. */
  predicate Owes(s: State, u: Tid, k: string) {
    u in s.threads && (s.threads[u].pc.Stored? || s.threads[u].pc.Pending?) && IsPush(s.threads[u].call, k)
  }

  predicate Waits(s: State, t: Tid, k: string) {
    t in s.threads && s.threads[t].pc.Waiting? && IsPop(s.threads[t].call, k)
  }

  /** Whoever waits unsignalled has an empty queue, or somebody still owes it a wakeup. */
  ghost predicate NoneLost(s: State) {
    forall t, k :: Waits(s, t, k) && Depth(s.queues, k) > 0 ==> exists u :: Owes(s, u, k)
  }

  predicate PerformedAt(s: State, t: Tid, i: nat) {
    t in s.threads && Performed(s.threads[t].pc) && s.threads[t].pc.at == i
  }

  predicate AsRecorded(q: Shared, th: Thread)
    requires Performed(th.pc)
  {
    var at := th.pc.at;
    && th.since <= at < Count(q)
    && Asked(th.call, OpAt(q, at))
    && (OpAt(q, at).OnTopics? <==> q.Topics?)
    && var ret := Result(Upto(q, at), OpAt(q, at));
       if th.pc.Finished? then th.pc.ret == ret else Stores(ret)
  }

  predicate Sound(q: Shared, th: Thread) {
    && (th.call.OnTopics? <==> q.Topics?)
    && th.since <= Count(q)
    && (th.pc.Pending? ==> q.Streams?) && (th.pc.Told? ==> q.Topics?)
    && (th.pc.Waiting? || th.pc.Woken? || th.pc == In(true) || (th.pc.Looked? && th.pc.expired) ==> Pops(th.call))
    && (Performed(th.pc) ==> AsRecorded(q, th))
  }

  /** No two threads claim the same position. */
  ghost predicate Apart(s: State) {
    forall t, u, i: nat :: PerformedAt(s, t, i) && PerformedAt(s, u, i) ==> t == u
  }

  /** The operations performed are ones that the queue code allows in this order. */
  ghost predicate Sequential(q: Shared) {
    q.Streams? ==> SQ.Run(q.streamOps)
  }

  /** Each thread's operation is the one recorded at its position, performed during its call. */
  ghost predicate Recorded(s: State) {
    (forall t :: t in s.threads ==> Sound(s.queues, s.threads[t])) && Apart(s) && Sequential(s.queues)
  }

  predicate Known(q: Shared, i: int) {
    0 <= i < Count(q)
  }

  /** Each operation recorded is some thread's. */
  ghost predicate Claimed(s: State) {
    forall i: nat :: Known(s.queues, i) ==> exists t :: PerformedAt(s, t, i)
  }

  ghost predicate Inv(s: State) {
    Exclusive(s) && Faithful(s) && NoneLost(s) && Recorded(s) && Claimed(s)
  }

  lemma ExclusiveStep(s: State, a: Action)
    requires Enabled(s, a) && Exclusive(s)
    ensures Exclusive(Apply(s, a))
  {
    hide Fits, Result, Depth, Do, Asked, IsPush, IsPop;
  }

  /** Here the mutex matters: nobody changes the queues between another thread's look and its act. */
  lemma FaithfulStep(s: State, a: Action)
    requires Enabled(s, a) && Exclusive(s) && Faithful(s)
    ensures Faithful(Apply(s, a))
  {
    hide Fits, Result, Depth, Do, Asked, IsPush, IsPop, FoundNothing, Stores;
    var n := Apply(s, a);
    forall t | t in n.threads
      ensures StillSo(n.queues, n.threads[t])
    {
      if t in s.threads {
        assert StillSo(s.queues, s.threads[t]);
      }
    }
  }

  /** What a pop that looked and found nothing has seen is an empty queue. */
  lemma NothingSeen(s: State, t: Tid, k: string)
    requires Faithful(s) && t in s.threads && FoundNothing(s.queues, s.threads[t].pc) && IsPop(s.threads[t].call, k)
    ensures Depth(s.queues, k) == 0
  {
    hide Depth, Result, SQ.Legal;
    assert StillSo(s.queues, s.threads[t]);
    PopFails(s.queues, k, s.threads[t].pc.op);
  }

  /** Whoever waits after an action waited before it, or has just found its queue empty; nobody waits past a notify. */
  lemma WaitedBefore(s: State, a: Action, t: Tid, k: string)
    requires Enabled(s, a) && Faithful(s) && Waits(Apply(s, a), t, k)
    ensures !a.Notify?
    ensures Waits(s, t, k) || (a.Block? && Depth(s.queues, k) == 0)
  {
    hide Fits, Result, Depth, Do, Asked, IsPush, Faithful, FoundNothing;
    if a.Block? && a.t == t {
      NothingSeen(s, t, k);
    }
  }

  /** A wakeup stays owed until somebody notifies. */
  lemma StillOwed(s: State, a: Action, u: Tid, k: string)
    requires Enabled(s, a) && Owes(s, u, k) && !a.Notify? && Recorded(s)
    ensures Owes(Apply(s, a), u, k)
  {
    hide Fits, Result, Depth, Do, Asked, IsPush, IsPop, AsRecorded, SQ.Run;
  }

  lemma NoneLostStep(s: State, a: Action)
    requires Enabled(s, a) && NoneLost(s) && Recorded(s) && Faithful(s)
    ensures NoneLost(Apply(s, a))
  {
    hide Faithful, Depth, Recorded, Owes, Waits, Do, Result, Enabled, Apply, IsPush;
    var n := Apply(s, a);
    forall t, k | Waits(n, t, k) && Depth(n.queues, k) > 0
      ensures exists u :: Owes(n, u, k)
    {
      WaitedBefore(s, a, t, k);
      if a.Perform? && Depth(s.queues, k) == 0 {
        PerformOwes(s, a, k);
      } else {
        if !a.Perform? {
          Unperformed(s, a);
        }
        var u :| Owes(s, u, k);
        StillOwed(s, a, u, k);
      }
    }
  }

  lemma Unperformed(s: State, a: Action)
    requires Enabled(s, a) && !a.Perform?
    ensures Apply(s, a).queues == s.queues
  {
  }

  lemma PerformOwes(s: State, a: Action, k: string)
    requires Enabled(s, a) && a.Perform? && Faithful(s)
    requires Depth(s.queues, k) == 0 && Depth(Apply(s, a).queues, k) > 0
    ensures Owes(Apply(s, a), a.t, k)
  {
    hide Depth, Result, SQ.Legal;
    assert StillSo(s.queues, s.threads[a.t]);
    OnlyPushFills(s.queues, s.threads[a.t].pc.op, k);
  }

  /** How one action changes a thread: `AsRecorded` holds of it afterwards too. */
  lemma SoundStep(s: State, a: Action, t: Tid)
    requires Enabled(s, a) && Recorded(s) && Faithful(s) && t in Apply(s, a).threads
    ensures Sound(Apply(s, a).queues, Apply(s, a).threads[t])
  {
    hide Do, Depth, Result, OpAt, Upto, Count, SQ.Run, SQ.Legal;
    assert !a.Begin? ==> StillSo(s.queues, s.threads[a.t]);
    if a.Perform? {
      DoRecords(s.queues, s.threads[a.t].pc.op);
    }
  }

  lemma ApartStep(s: State, a: Action)
    requires Enabled(s, a) && Recorded(s)
    ensures Apart(Apply(s, a))
  {
    hide Do, Depth, Result, OpAt, Upto, Count, SQ.Run, SQ.Legal, Asked, IsPush, IsPop;
    var n := Apply(s, a);
    forall t, u, i: nat | PerformedAt(n, t, i) && PerformedAt(n, u, i)
      ensures t == u
    {
      assert t != a.t ==> PerformedAt(s, t, i);
      assert u != a.t ==> PerformedAt(s, u, i);
      if !a.Perform? {
        assert PerformedAt(s, t, i) && PerformedAt(s, u, i);
      }
    }
  }

  lemma SequentialStep(s: State, a: Action)
    requires Enabled(s, a) && Sequential(s.queues) && Faithful(s)
    ensures Sequential(Apply(s, a).queues)
  {
    hide SQ.Run, SQ.Legal, Result;
    if a.Perform? && s.threads[a.t].pc.op.OnStreams? {
      assert StillSo(s.queues, s.threads[a.t]);
      SQ.Snoc(s.queues.streamOps, s.threads[a.t].pc.op.s);
    }
  }

  lemma RecordedStep(s: State, a: Action)
    requires Enabled(s, a) && Recorded(s) && Faithful(s)
    ensures Recorded(Apply(s, a))
  {
    hide Faithful, Sound, Apart, Sequential, Enabled, Apply;
    var n := Apply(s, a);
    forall t | t in n.threads
      ensures Sound(n.queues, n.threads[t])
    {
      SoundStep(s, a, t);
    }
    ApartStep(s, a);
    SequentialStep(s, a);
  }

  lemma ClaimedStep(s: State, a: Action)
    requires Enabled(s, a) && Claimed(s)
    ensures Claimed(Apply(s, a))
  {
    hide SQ.Legal, Result, Depth, Asked, IsPush, IsPop, Do;
    var n := Apply(s, a);
    if a.Perform? {
      DoRecords(s.queues, s.threads[a.t].pc.op);
    }
    forall i: nat | Known(n.queues, i)
      ensures exists t :: PerformedAt(n, t, i)
    {
      if Known(s.queues, i) {
        var t :| PerformedAt(s, t, i);
        assert PerformedAt(n, t, i);
      } else {
        assert PerformedAt(n, a.t, i);
      }
    }
  }

  /** The empty queues that a run starts from: those of topics, or those of streams. */
  predicate Empty(start: Shared) {
    Count(start) == 0
  }

  lemma {:induction false} InvAlways(start: Shared, run: seq<Action>)
    requires Empty(start)
    ensures Inv(After(start, run))
  {
    hide Enabled, Apply, Recorded, Claimed, NoneLost, Exclusive, Faithful;
    if run == [] {
      assert Inv(State(map[], start)) by {
        InvInitially(start);
      }
    } else {
      var s, a := After(start, run[..|run| - 1]), run[|run| - 1];
      InvAlways(start, run[..|run| - 1]);
      if Enabled(s, a) {
        ExclusiveStep(s, a);
        FaithfulStep(s, a);
        NoneLostStep(s, a);
        RecordedStep(s, a);
        ClaimedStep(s, a);
      }
    }
  }

  lemma InvInitially(start: Shared)
    requires Empty(start)
    ensures Inv(State(map[], start))
  {
  }

  // ------------------------------------------------------------------- the theorems

  /** No lost wakeup: if the queue of an unsignalled waiter holds anything, a push to it is about to notify. */
  lemma NoLostWakeup(start: Shared, run: seq<Action>, t: Tid, k: string)
    requires Empty(start) && Waits(After(start, run), t, k) && Depth(After(start, run).queues, k) > 0
    ensures exists u :: Owes(After(start, run), u, k)
  {
    hide After, Waits, Depth, Owes;
    InvAlways(start, run);
  }

  /** That push is never blocked: one step of it, or two, and the waiter is off the condition variable. */
  lemma WakeupComes(start: Shared, run: seq<Action>, t: Tid, u: Tid, k: string)
    requires Empty(start) && Waits(After(start, run), t, k) && Owes(After(start, run), u, k)
    ensures
      var before := After(start, run).threads[u].pc.Stored? && start.Streams?;
      var rest := if before then [Unlock(u), Notify(u)] else [Notify(u)];
      t in After(start, run + rest).threads && After(start, run + rest).threads[t].pc == Woken(false)
  {
    hide After, Fits, Depth, Result, IsPush, IsPop, Do;
    var s := After(start, run);
    InvAlways(start, run);
    SameQueues(start, run);
    if s.threads[u].pc.Stored? && start.Streams? {
      AfterSnoc(start, run, Unlock(u));
      AfterSnoc(start, run + [Unlock(u)], Notify(u));
      assert run + [Unlock(u), Notify(u)] == run + [Unlock(u)] + [Notify(u)];
    } else {
      AfterSnoc(start, run, Notify(u));
    }
  }

  lemma AfterSnoc(start: Shared, run: seq<Action>, a: Action)
    ensures
      var s := After(start, run);
      After(start, run + [a]) == if Enabled(s, a) then Apply(s, a) else s
  {
    assert (run + [a])[..|run|] == run;
  }

  /** Topic queues stay topic queues. */
  lemma {:induction false} SameQueues(start: Shared, run: seq<Action>)
    ensures After(start, run).queues.Topics? <==> start.Topics?
  {
    if run != [] {
      SameQueues(start, run[..|run| - 1]);
    }
  }

  /** When no push is under way, every waiter's queue is empty. */
  lemma QuietMeansEmpty(start: Shared, run: seq<Action>, t: Tid, k: string)
    requires Empty(start) && Waits(After(start, run), t, k)
    requires forall u :: u in After(start, run).threads && Pushes(After(start, run).threads[u].call) ==>
               After(start, run).threads[u].pc.Want? || After(start, run).threads[u].pc.Finished?
    ensures Depth(After(start, run).queues, k) == 0
  {
    hide After, Depth;
    if Depth(After(start, run).queues, k) > 0 {
      NoLostWakeup(start, run, t, k);
      assert false;
    }
  }

  /** One holder at most, and a holder always has a step to take: the mutex is never held for good. */
  lemma HolderMoves(start: Shared, run: seq<Action>, t: Tid)
    requires Empty(start) && t in After(start, run).threads && Holding(After(start, run).threads[t].pc)
    ensures forall u :: u in After(start, run).threads && Holding(After(start, run).threads[u].pc) ==> u == t
    ensures exists a :: Enabled(After(start, run), a) && !a.Begin? && a.t == t
  {
    hide After, Depth, Result, Do, SQ.Legal, TR.Queue, SR.Queue;
    InvAlways(start, run);
    var s := After(start, run);
    var th := s.threads[t];
    match th.pc
    case Stored(_) => assert Enabled(s, if s.queues.Topics? then Notify(t) else Unlock(t));
    case Told(_) => assert Enabled(s, Unlock(t));
    case In(_) => InMoves(s, t);
    case Looked(_, _, _) =>
      assert Enabled(s, if FoundNothing(s.queues, th.pc) && !th.pc.expired then Block(t) else Perform(t)) by {
        LookedMoves(s, t);
      }
  }

  /** A thread that holds the mutex can look, whatever it was asked for. */
  lemma InMoves(s: State, t: Tid)
    requires t in s.threads && s.threads[t].pc.In? && Recorded(s)
    ensures exists a :: Enabled(s, a) && !a.Begin? && a.t == t
  {
    hide Depth, Result, Do, Apart, Sequential, AsRecorded, SQ.Holds;
    var th := s.threads[t];
    match th.call
    case OnStreams(Remove(id, _)) =>
      var st := SQ.After(s.queues.streamOps);
      if p :| p in st && SQ.Holds(st, p, id) {
        assert Enabled(s, Look(t, OnStreams(SQ.Remove(id, SQ.Order.Some(p)))));
      } else {
        assert Enabled(s, Look(t, OnStreams(SQ.Remove(id, SQ.Order.None))));
      }
    case _ => assert Enabled(s, Look(t, th.call));
  }

  /** Having looked, it can act on what it saw. */
  lemma LookedMoves(s: State, t: Tid)
    requires t in s.threads && s.threads[t].pc.Looked? && Faithful(s)
    ensures
      var pc := s.threads[t].pc;
      Enabled(s, if FoundNothing(s.queues, pc) && !pc.expired then Block(t) else Perform(t))
  {
    hide Result, SQ.Legal;
    assert StillSo(s.queues, s.threads[t]);
  }

  /** A pop that is about to take its front finds its queue non-empty, and the front it saw still in front. */
  lemma TopicPopTakesItsFront(start: Shared, run: seq<Action>, t: Tid, k: string)
    requires Empty(start) && start.Topics? && t in After(start, run).threads
    requires After(start, run).threads[t].pc.Looked? && After(start, run).threads[t].pc.op == OnTopics(TQ.Pop(k))
    requires After(start, run).threads[t].pc.seen != Nothing(true)
    ensures After(start, run).queues.Topics?
    ensures
      var q := TR.Queue(After(start, run).queues.topicOps, k);
      q != [] && After(start, run).threads[t].pc.seen == OfTopics(TQ.Delivered(q[0]))
  {
    hide After, TQ.After, Exclusive, NoneLost, Recorded, Claimed;
    InvAlways(start, run);
    SameQueues(start, run);
    assert StillSo(After(start, run).queues, After(start, run).threads[t]);
  }

  /** The same of a caller that is about to take a handle. */
  lemma StreamPopTakesItsFront(start: Shared, run: seq<Action>, t: Tid, k: string)
    requires Empty(start) && start.Streams? && t in After(start, run).threads
    requires After(start, run).threads[t].pc.Looked? && After(start, run).threads[t].pc.op == OnStreams(SQ.Pop(k))
    requires After(start, run).threads[t].pc.seen != Nothing(false)
    ensures After(start, run).queues.Streams?
    ensures
      var q := SR.Queue(After(start, run).queues.streamOps, k);
      q != [] && After(start, run).threads[t].pc.seen == OfStreams(SQ.Delivered(q[0]))
  {
    hide After, SQ.After, Exclusive, NoneLost, Recorded, Claimed;
    InvAlways(start, run);
    SameQueues(start, run);
    assert StillSo(After(start, run).queues, After(start, run).threads[t]);
  }

  /**
   Linearizability: the operations recorded are those of the calls that got that far, each at a position of its own
   between its call's beginning and now; each call returns what the queue returns to its operation at that position.
   */
  lemma Linearizable(start: Shared, run: seq<Action>)
    requires Empty(start)
    ensures
      var s := After(start, run);
      && Sequential(s.queues)
      && (forall t :: t in s.threads && s.threads[t].pc.Finished? ==>
            var at := s.threads[t].pc.at;
            && s.threads[t].since <= at < Count(s.queues)
            && Asked(s.threads[t].call, OpAt(s.queues, at))
            && (OpAt(s.queues, at).OnTopics? <==> Upto(s.queues, at).Topics?)
            && s.threads[t].pc.ret == Result(Upto(s.queues, at), OpAt(s.queues, at)))
      && (forall i: nat :: Known(s.queues, i) ==> exists t :: PerformedAt(s, t, i))
      && (forall t, u, i: nat :: PerformedAt(s, t, i) && PerformedAt(s, u, i) ==> t == u)
  {
    hide After, Result, NoneLost, Exclusive, Asked, Sequential;
    InvAlways(start, run);
  }

  /** Calls keep their real-time order: one that has not begun yet performs its operation after all those performed. */
  lemma {:induction false} LaterCallsComeLater(start: Shared, run: seq<Action>, more: seq<Action>, u: Tid)
    requires Empty(start) && u !in After(start, run).threads
    ensures Count(After(start, run).queues) <= Count(After(start, run + more).queues)
    ensures u in After(start, run + more).threads ==>
              Count(After(start, run).queues) <= After(start, run + more).threads[u].since
    ensures forall i: nat :: PerformedAt(After(start, run + more), u, i) ==> Count(After(start, run).queues) <= i
  {
    hide After, Enabled, Apply, AsRecorded, Sequential, Apart, Claimed, NoneLost, Exclusive;
    if more == [] {
      assert run + more == run;
    } else {
      var front, a := more[..|more| - 1], more[|more| - 1];
      LaterCallsComeLater(start, run, front, u);
      assert run + more == run + front + [a];
      AfterSnoc(start, run + front, a);
      if Enabled(After(start, run + front), a) {
        Grows(After(start, run + front), a, u);
      }
    }
    InvAlways(start, run + more);
    SoundPosition(After(start, run + more), u);
  }

  lemma SoundPosition(s: State, u: Tid)
    requires Recorded(s)
    ensures forall i: nat :: PerformedAt(s, u, i) ==> s.threads[u].since <= i
  {
  }

  lemma Grows(s: State, a: Action, u: Tid)
    requires Enabled(s, a)
    ensures Count(s.queues) <= Count(Apply(s, a).queues)
    ensures u in Apply(s, a).threads ==>
              Apply(s, a).threads[u].since == if u in s.threads then s.threads[u].since else Count(s.queues)
  {
  }

  /** A pop that returns false found its queue empty while it held the mutex. */
  lemma FailedPopFoundNothing(start: Shared, run: seq<Action>, t: Tid, k: string)
    requires Empty(start) && t in After(start, run).threads
    requires After(start, run).threads[t].pc.Finished?
    requires After(start, run).threads[t].pc.ret == Nothing(start.Topics?)
    requires IsPop(After(start, run).threads[t].call, k)
    ensures
      var s := After(start, run);
      var at := s.threads[t].pc.at;
      s.threads[t].since <= at < Count(s.queues) && Depth(Upto(s.queues, at), k) == 0
  {
    hide After, Result, Depth, Sequential;
    InvAlways(start, run);
    SameQueues(start, run);
    var s := After(start, run);
    var at := s.threads[t].pc.at;
    PopFails(Upto(s.queues, at), k, OpAt(s.queues, at));
  }

  /**
   What concurrent callers get from a topic is what the topic hands out, each its own: the pop at position `at` gets the
   payload that comes after those handed out before `at`. So their order is that of the sequential history.
   */
  lemma TopicPopReceives(start: Shared, run: seq<Action>, t: Tid, k: string)
    requires Empty(start) && start.Topics? && t in After(start, run).threads
    requires After(start, run).threads[t].pc.Finished? && After(start, run).threads[t].call == OnTopics(TQ.Pop(k))
    requires After(start, run).threads[t].pc.ret != Nothing(true)
    ensures After(start, run).queues.Topics?
    ensures
      var ops, at := After(start, run).queues.topicOps, After(start, run).threads[t].pc.at;
      && at < |ops| && |TR.Handed(ops[..at], k)| < |TR.Handed(ops, k)|
      && After(start, run).threads[t].pc.ret == OfTopics(TQ.Delivered(TR.Handed(ops, k)[|TR.Handed(ops[..at], k)|]))
  {
    hide After, TQ.After, TR.Handed, Exclusive, Faithful, NoneLost, Claimed, Apart, Sequential;
    InvAlways(start, run);
    SameQueues(start, run);
    var s := After(start, run);
    assert Sound(s.queues, s.threads[t]);
    TR.DeliveredNext(s.queues.topicOps, s.threads[t].pc.at, k);
  }

  /** The same of the handles that concurrent callers get from a protocol. */
  lemma StreamPopReceives(start: Shared, run: seq<Action>, t: Tid, k: string)
    requires Empty(start) && start.Streams? && t in After(start, run).threads
    requires After(start, run).threads[t].pc.Finished? && After(start, run).threads[t].call == OnStreams(SQ.Pop(k))
    requires After(start, run).threads[t].pc.ret != Nothing(false)
    ensures After(start, run).queues.Streams?
    ensures
      var ops, at := After(start, run).queues.streamOps, After(start, run).threads[t].pc.at;
      && at < |ops| && |SR.Popped(ops[..at], k)| < |SR.Popped(ops, k)|
      && After(start, run).threads[t].pc.ret == OfStreams(SQ.Delivered(SR.Popped(ops, k)[|SR.Popped(ops[..at], k)|]))
  {
    hide After, SQ.After, SR.Popped, Exclusive, Faithful, NoneLost, Claimed, Apart, Sequential;
    InvAlways(start, run);
    SameQueues(start, run);
    var s := After(start, run);
    assert Sound(s.queues, s.threads[t]);
    SR.DeliveredNext(s.queues.streamOps, s.threads[t].pc.at, k);
  }

  // ------------------------------------------------------------------ calls do return

  /** With the mutex free, a call that wants it takes it and looks. */
  lemma Looks(start: Shared, run: seq<Action>, t: Tid, op: Op)
    requires t in After(start, run).threads && Free(After(start, run))
    requires After(start, run).threads[t].pc.Want? || After(start, run).threads[t].pc.Woken?
    requires Asked(After(start, run).threads[t].call, op) && Fits(After(start, run).queues, op)
    ensures
      var s, n := After(start, run), After(start, run + [Lock(t), Look(t, op)]);
      n == Move(s, t, Looked(s.threads[t].pc == Woken(true), op, Result(s.queues, op)))
  {
    hide After, Fits, Result, Asked;
    var s := After(start, run);
    FitsKind(s.queues, op);
    AfterSnoc(start, run, Lock(t));
    AfterSnoc(start, run + [Lock(t)], Look(t, op));
    assert run + [Lock(t), Look(t, op)] == run + [Lock(t)] + [Look(t, op)];
    Twice(s, t, In(s.threads[t].pc == Woken(true)), Looked(s.threads[t].pc == Woken(true), op, Result(s.queues, op)));
  }

  lemma Twice(s: State, t: Tid, a: Pc, b: Pc)
    requires t in s.threads
    ensures Move(Move(s, t, a), t, b) == Move(s, t, b)
  {
  }

  /**
   With the mutex free, every call returns by steps of its own: it performs its operation on the queues as they are and
   returns what they return to it. A pop needs something in its queue for this, or its deadline passed.
   */
  lemma CallReturns(start: Shared, run: seq<Action>, t: Tid, op: Op) returns (more: seq<Action>)
    requires Empty(start) && t in After(start, run).threads && Free(After(start, run))
    requires After(start, run).threads[t].pc.Want? || After(start, run).threads[t].pc.Woken?
    requires Asked(After(start, run).threads[t].call, op) && Fits(After(start, run).queues, op)
    requires
      var s := After(start, run);
      Pops(op) && Result(s.queues, op) == Nothing(s.queues.Topics?) ==> s.threads[t].pc == Woken(true)
    ensures forall k :: 0 <= k < |more| ==> !more[k].Begin? && more[k].t == t
    ensures
      var s, n := After(start, run), After(start, run + more);
      && t in n.threads && n.threads[t].pc == Finished(Count(s.queues), Result(s.queues, op))
      && n.queues == Do(s.queues, op)
  {
    hide After, Fits, Asked, Result, Do, SQ.Legal;
    var s := After(start, run);
    SameQueues(start, run);
    Looks(start, run, t, op);
    FitsKind(s.queues, op);
    var looked := run + [Lock(t), Look(t, op)];
    AfterSnoc(start, looked, Perform(t));
    more := [Lock(t), Look(t, op), Perform(t)];
    assert run + more == looked + [Perform(t)];
    if Stores(Result(s.queues, op)) {
      var next := if s.queues.Topics? then Notify(t) else Unlock(t);
      var last := if s.queues.Topics? then Unlock(t) else Notify(t);
      AfterSnoc(start, run + more, next);
      AfterSnoc(start, run + more + [next], last);
      DoKind(s.queues, op);
      assert run + (more + [next, last]) == run + more + [next] + [last];
      more := more + [next, last];
    }
  }

  lemma FitsKind(q: Shared, op: Op)
    requires Fits(q, op)
    ensures op.OnTopics? <==> q.Topics?
  {
  }

  lemma DoKind(q: Shared, op: Op)
    requires op.OnTopics? <==> q.Topics?
    ensures Do(q, op).Topics? <==> q.Topics?
  {
  }

  /** With the mutex free, a pop whose queue is empty waits, before its deadline, and leaves the queues as they are. */
  lemma EmptyPopWaits(start: Shared, run: seq<Action>, t: Tid)
    requires Empty(start) && t in After(start, run).threads && Free(After(start, run))
    requires After(start, run).threads[t].pc == Want || After(start, run).threads[t].pc == Woken(false)
    requires Pops(After(start, run).threads[t].call)
    requires Fits(After(start, run).queues, After(start, run).threads[t].call)
    requires
      var s := After(start, run);
      Result(s.queues, s.threads[t].call) == Nothing(s.queues.Topics?)
    ensures
      var s := After(start, run);
      After(start, run + [Lock(t), Look(t, s.threads[t].call), Block(t)]) == Move(s, t, Waiting)
  {
    hide After, Fits, Result, Pops;
    var s := After(start, run);
    var op := s.threads[t].call;
    FitsKind(s.queues, op);
    Looks(start, run, t, op);
    AfterSnoc(start, run + [Lock(t), Look(t, op)], Block(t));
    assert run + [Lock(t), Look(t, op), Block(t)] == run + [Lock(t), Look(t, op)] + [Block(t)];
    Twice(s, t, Looked(false, op, Result(s.queues, op)), Waiting);
  }
}
