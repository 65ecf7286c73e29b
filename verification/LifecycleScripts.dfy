/** Calls, events and the teardown, from any reachable state to their end: what each sequence of steps comes to. */
module LifecycleScripts {
  import opened Order
  import opened Lifecycle
  import opened LifecycleLocks
  import opened LifecyclePromises
  import opened LifecycleContexts
  import opened LifecycleGates
  import opened LifecycleEvents
  import opened LifecycleRuns
  import opened LifecycleCreates

  lemma ThreeSteps(s: State, a: Action, b: Action, c: Action)
    ensures Steps(s, [a, b, c]) == Do(Do(Do(s, a), b), c)
  {
    hide Do;
    FirstStep(s, a, [b, c]);
    TwoSteps(Do(s, a), b, c);
    assert [a] + [b, c] == [a, b, c];
  }

  // --------------------------------------------------------------------------- calls

  /** A thread that is about to make a promise, and not for a context: a caller with a context, or a static call. */
  predicate AboutToCall(s: State, t: Tid) {
    t in s.threads && ((s.threads[t] == CallIn && s.core.ctx.Some?) || s.threads[t] == StaticStart)
  }

  /** A call whose submit is taken returns with its reply, and leaves nothing behind but one deleted promise. */
  lemma CallReturns(run: seq<Action>, t: Tid, p: Pid)
    requires AboutToCall(After(run), t) && p !in After(run).core.promises
    ensures
      var n := After(run + [Alloc(t, p), Submit(t, Taken), Fire(p, None), Retire(p), Take(t)]);
      && n.threads == After(run).threads[t := Done]
      && n.core == After(run).core.(
           promises := After(run).core.promises[p := Promise(false, Fulfilled, Some(None), true, 1, t)])
  {
    hide After, Steps;
    var s := After(run);
    var reply := [Submit(t, Taken), Fire(p, None), Retire(p), Take(t)];
    AfterMore(run, [Alloc(t, p)] + reply);
    assert [Alloc(t, p)] + reply == [Alloc(t, p), Submit(t, Taken), Fire(p, None), Retire(p), Take(t)];
    FirstStep(s, Alloc(t, p), reply);
    var s1 := Do(s, Alloc(t, p));
    assert s1 == DoAlloc(s, t, p);
    Replied(s1, t, p, None);
    var n := Steps(s1, reply);
    assert n.threads == s.threads[t := Done];
    assert n.core.promises == s.core.promises[p := Promise(false, Fulfilled, Some(None), true, 1, t)];
  }

  /** A refused submit ends the call with its promise deleted once, whether or not the reply has fired. */
  lemma RefusedCallReclaims(run: seq<Action>, t: Tid, p: Pid, answer: Answer)
    requires AboutToCall(After(run), t) || (t in After(run).threads && After(run).threads[t] == Make(Spawn))
    requires p !in After(run).core.promises && !answer.Taken?
    ensures
      var n := After(run + [Alloc(t, p), Submit(t, answer), Settle(t)]);
      var create := After(run).threads[t] == Make(Spawn);
      var value := if answer.RefusedFired? then Some(None) else None;
      && n.threads == After(run).threads[t := Done]
      && n.core == After(run).core.(
           promises := After(run).core.promises[p := Promise(create, Refused, value, false, 1, t)])
  {
    hide After, Steps;
    var s := After(run);
    AfterMore(run, [Alloc(t, p), Submit(t, answer), Settle(t)]);
    ThreeSteps(s, Alloc(t, p), Submit(t, answer), Settle(t));
    RefusedAndSettled(s, t, p, answer);
  }

  lemma RefusedAndSettled(s: State, t: Tid, p: Pid, answer: Answer)
    requires AboutToCall(s, t) || (t in s.threads && s.threads[t] == Make(Spawn))
    requires p !in s.core.promises && !answer.Taken?
    ensures
      var n := Do(Do(Do(s, Alloc(t, p)), Submit(t, answer)), Settle(t));
      var create := s.threads[t] == Make(Spawn);
      var value := if answer.RefusedFired? then Some(None) else None;
      && n.threads == s.threads[t := Done]
      && n.core == s.core.(promises := s.core.promises[p := Promise(create, Refused, value, false, 1, t)])
  {
    hide DoSubmit, DoSettle;
    var s1 := Do(s, Alloc(t, p));
    assert s1 == DoAlloc(s, t, p);
    SubmitAndSettle(s1, t, p, answer);
    var n := Do(Do(s1, Submit(t, answer)), Settle(t));
    assert n.threads == s.threads[t := Done];
    assert n.core.promises == s.core.promises[p := n.core.promises[p]];
  }

  lemma SubmitAndSettle(s: State, t: Tid, p: Pid, answer: Answer)
    requires AtFresh(s, t, p, None) && !answer.Taken?
    ensures
      var n := Do(Do(s, Submit(t, answer)), Settle(t));
      var value := if answer.RefusedFired? then Some(None) else None;
      && n.threads == s.threads[t := Done]
      && n.core == s.core.(
           promises := s.core.promises[p := Promise(s.threads[t].who.Creator?, Refused, value, false, 1, t)])
  {
    var s1 := Do(s, Submit(t, answer));
    assert s1 == DoSubmit(s, t, answer);
  }

  // ------------------------------------------------------------------------ timeouts

  /** The thread awaits a reply that has not come. */
  predicate AwaitsFirst(s: State, t: Tid, who: Who, p: Pid) {
    && t in s.threads && s.threads[t] == Op(who, Awaiting, p)
    && p in s.core.promises && s.core.promises[p] == Promise(who.Creator?, Pending, None, false, 0, t)
  }

  lemma FiveSteps(s: State, a: Action, b: Action, c: Action, d: Action, e: Action)
    ensures Steps(s, [a, b, c, d, e]) == Do(Do(Do(Do(Do(s, a), b), c), d), e)
  {
    hide Do;
    FirstStep(s, a, [b, c, d, e]);
    FourSteps(Do(s, a), b, c, d, e);
    assert [a] + [b, c, d, e] == [a, b, c, d, e];
  }

  lemma AwaitsPending(s: State, t: Tid, who: Who, p: Pid)
    requires Promised(s) && t in s.threads && s.threads[t] == Op(who, Awaiting, p) && !who.Reaper?
    requires p in s.core.promises && s.core.promises[p].phase.Pending?
    ensures AwaitsFirst(s, t, who, p)
  {
    var pr := s.core.promises[p];
    assert Orderly(pr) && Relies(s.core, t, who, Awaiting, p);
  }

  lemma TimesOut(s: State, t: Tid, p: Pid, r: Tid, c: Ctx)
    requires AwaitsFirst(s, t, Creator, p) && r !in s.threads && c !in s.core.ledger
    ensures
      var n := Do(Do(Do(s, Timeout(t, r)), Fire(p, Some(c))), Retire(p));
      && n.threads == s.threads[t := Done][r := Op(Reaper, Awaiting, p)]
      && n.core == s.core.(
           promises := s.core.promises[p := Promise(true, Fulfilled, Some(Some(c)), false, 1, r)],
           ledger := s.core.ledger[c := InPromise(p)])
  {
    var s1 := Do(s, Timeout(t, r));
    assert s1 == DoTimeout(s, t, r);
    var s2 := Do(s1, Fire(p, Some(c)));
    assert s2 == DoFire(s1, p, Some(c));
    var n := Do(s2, Retire(p));
    assert n.core.promises == s.core.promises[p := Promise(true, Fulfilled, Some(Some(c)), false, 1, r)];
  }

  lemma Reaps(s: State, p: Pid, r: Tid, c: Ctx)
    requires r in s.threads && s.threads[r] == Op(Reaper, Awaiting, p) && p in s.core.promises
    requires s.core.promises[p] == Promise(true, Fulfilled, Some(Some(c)), false, 1, r)
    ensures
      var n := Do(Do(s, Take(r)), Destroy(r));
      && n.threads == s.threads[r := Reap(c, true)]
      && n.core == s.core.(promises := s.core.promises[p := Promise(true, Fulfilled, Some(Some(c)), true, 1, r)],
                           ledger := s.core.ledger[c := Gone], passed := s.core.passed + multiset{c})
  {
    var s1 := Do(s, Take(r));
    assert s1 == DoTake(s, r);
    var n := Do(s1, Destroy(r));
    assert n.threads == s.threads[r := Reap(c, true)];
    assert n.core.ledger == s.core.ledger[c := Gone];
  }

  /**
   A create whose reply is late: the creator returns, the thread left behind takes the reply once it has come and passes
   the context to its destructor; the promise is deleted once, and the member stays what it was.
   */
  lemma LateCreateIsReaped(run: seq<Action>, t: Tid, p: Pid, r: Tid, c: Ctx)
    requires t in After(run).threads && After(run).threads[t] == Op(Creator, Awaiting, p)
    requires p in After(run).core.promises && After(run).core.promises[p].phase.Pending?
    requires r !in After(run).threads && c !in After(run).core.ledger
    ensures
      var n := After(run + [Timeout(t, r), Fire(p, Some(c)), Retire(p), Take(r), Destroy(r)]);
      && n.threads == After(run).threads[t := Done][r := Reap(c, true)]
      && n.core == After(run).core.(
           promises := After(run).core.promises[p := Promise(true, Fulfilled, Some(Some(c)), true, 1, r)],
           ledger := After(run).core.ledger[c := Gone], passed := After(run).core.passed + multiset{c})
  {
    hide After, Steps, Do, Exclusive, Promised, Ledgered, Doomed, Guarded, Listed, Accounted;
    InvAlways(run);
    var s := After(run);
    AfterMore(run, [Timeout(t, r), Fire(p, Some(c)), Retire(p), Take(r), Destroy(r)]);
    FiveSteps(s, Timeout(t, r), Fire(p, Some(c)), Retire(p), Take(r), Destroy(r));
    AwaitsPending(s, t, Creator, p);
    TimesOut(s, t, p, r, c);
    var s3 := Do(Do(Do(s, Timeout(t, r)), Fire(p, Some(c))), Retire(p));
    Reaps(s3, p, r, c);
    var n := Do(Do(s3, Take(r)), Destroy(r));
    assert n.threads == s.threads[t := Done][r := Reap(c, true)];
    assert n.core.ledger == s.core.ledger[c := Gone];
    assert n.core.promises == s.core.promises[p := Promise(true, Fulfilled, Some(Some(c)), true, 1, r)];
  }

  /** A call that gives up waiting returns, and the late reply still deletes the promise, once. */
  lemma LateReplyIsDropped(run: seq<Action>, t: Tid, who: Who, p: Pid, r: Tid)
    requires t in After(run).threads && After(run).threads[t] == Op(who, Awaiting, p) && (who.Caller? || who.Static?)
    requires p in After(run).core.promises && After(run).core.promises[p].phase.Pending?
    ensures
      var n := After(run + [Timeout(t, r), Fire(p, None), Retire(p)]);
      && n.threads == After(run).threads[t := Done]
      && n.core == After(run).core.(
           promises := After(run).core.promises[p := Promise(false, Fulfilled, Some(None), false, 1, t)])
  {
    hide After, Steps, Exclusive, Promised, Ledgered, Doomed, Guarded, Listed, Accounted;
    InvAlways(run);
    var s := After(run);
    AfterMore(run, [Timeout(t, r), Fire(p, None), Retire(p)]);
    ThreeSteps(s, Timeout(t, r), Fire(p, None), Retire(p));
    AwaitsPending(s, t, who, p);
    GivesUp(s, t, who, p, r);
  }

  lemma GivesUp(s: State, t: Tid, who: Who, p: Pid, r: Tid)
    requires AwaitsFirst(s, t, who, p) && (who.Caller? || who.Static?)
    ensures
      var n := Do(Do(Do(s, Timeout(t, r)), Fire(p, None)), Retire(p));
      && n.threads == s.threads[t := Done]
      && n.core == s.core.(promises := s.core.promises[p := Promise(false, Fulfilled, Some(None), false, 1, t)])
  {
    var s1 := Do(s, Timeout(t, r));
    assert s1 == Put(s, t, Done, s.core);
    var s2 := Do(s1, Fire(p, None));
    assert s2 == DoFire(s1, p, None);
    var n := Do(s2, Retire(p));
    assert n.core.promises == s.core.promises[p := Promise(false, Fulfilled, Some(None), false, 1, t)];
  }

  // -------------------------------------------------------------------------- events

  /** No other thread is inside the mutex of these queues. */
  predicate QueueFree(s: State, t: Tid, stream: bool) {
    forall u :: u in s.threads && u != t ==> !HoldsQueue(s.threads[u], stream)
  }

  lemma MayEnterBeside(e: Event, other: Pc)
    requires !HoldsQueue(other, e.stream)
    requires !Conflict(Handle(e, InGate), other) && !Conflict(other, Handle(e, InGate))
    ensures !Conflict(Handle(e, InQueue), other) && !Conflict(other, Handle(e, InQueue))
  {
  }

  lemma EntersQueue(s: State, t: Tid, e: Event)
    requires QueueFree(s, t, e.stream) && t in s.threads && s.threads[t] == Handle(e, InGate) && Exclusive(s)
    requires OwnerSet(s.core, e.gate)
    ensures Do(Do(s, Go(t)), Acquire(t)) == Put(s, t, Handle(e, InQueue), s.core)
  {
    hide Conflict, HoldsQueue, OwnerSet;
    var s1 := Do(s, Go(t));
    assert s1 == Put(s, t, Handle(e, Seen), s.core);
    forall u | u in s1.threads && u != t
      ensures !Conflict(Handle(e, InQueue), s1.threads[u]) && !Conflict(s1.threads[u], Handle(e, InQueue))
    {
      MayEnterBeside(e, s.threads[u]);
    }
    assert Room(s1, t, Handle(e, InQueue));
    assert Do(s1, Acquire(t)).threads == s.threads[t := Handle(e, InQueue)];
  }

  lemma PushAndLeave(s: State, t: Tid, e: Event)
    requires t in s.threads && s.threads[t] == Handle(e, InQueue)
    ensures
      var n := Do(Do(s, Push(t, true)), Go(t));
      && n.threads == s.threads[t := Handle(e, Over(true))]
      && n.core == s.core.(queued := s.core.queued + multiset{t})
  {
    var s1 := Do(s, Push(t, true));
    assert s1 == Put(s, t, Handle(e, Leave(true)), s.core.(queued := s.core.queued + multiset{t}));
    assert Do(s1, Go(t)).threads == s.threads[t := Handle(e, Over(true))];
  }

  /** An event that finds the owner and room in the queue is queued, and changes nothing else. */
  lemma EventIsQueued(run: seq<Action>, t: Tid, e: Event)
    requires t in After(run).threads && After(run).threads[t] == Handle(e, InGate)
    requires OwnerSet(After(run).core, e.gate) && QueueFree(After(run), t, e.stream)
    ensures
      var n := After(run + [Go(t), Acquire(t), Push(t, true), Go(t)]);
      && n.threads == After(run).threads[t := Handle(e, Over(true))]
      && n.core == After(run).core.(queued := After(run).core.queued + multiset{t})
  {
    hide After, Steps, Do, Exclusive, Promised, Ledgered, Doomed, Guarded, Listed, Accounted, QueueFree, OwnerSet;
    InvAlways(run);
    var s := After(run);
    AfterMore(run, [Go(t), Acquire(t), Push(t, true), Go(t)]);
    FourSteps(s, Go(t), Acquire(t), Push(t, true), Go(t));
    EntersQueue(s, t, e);
    var s2 := Put(s, t, Handle(e, InQueue), s.core);
    PushAndLeave(s2, t, e);
    assert Do(Do(s2, Push(t, true)), Go(t)).threads == s.threads[t := Handle(e, Over(true))];
  }

  /** An event whose gate has no owner any more ends at once, and changes nothing. */
  lemma LateEventIsIgnored(run: seq<Action>, t: Tid, e: Event)
    requires t in After(run).threads && After(run).threads[t] == Handle(e, InGate)
    requires !OwnerSet(After(run).core, e.gate)
    ensures
      var n := After(run + [Go(t), Go(t)]);
      n.threads == After(run).threads[t := Handle(e, Over(false))] && n.core == After(run).core
  {
    hide After, Steps;
    var s := After(run);
    AfterMore(run, [Go(t), Go(t)]);
    TwoSteps(s, Go(t), Go(t));
    var s1 := Do(s, Go(t));
    assert s1 == Put(s, t, Handle(e, Leave(false)), s.core);
    assert Do(s1, Go(t)).threads == s.threads[t := Handle(e, Over(false))];
  }

  lemma MayReleaseBeside(e: Event, other: Pc)
    requires !OwnsCtx(other)
    requires !Conflict(Handle(e, InQueue), other) && !Conflict(other, Handle(e, InQueue))
    ensures !Conflict(Handle(e, InCtx), other) && !Conflict(other, Handle(e, InCtx))
  {
  }

  predicate CtxUnowned(s: State) {
    forall u :: u in s.threads ==> !OwnsCtx(s.threads[u])
  }

  lemma OverflowsToCtx(s: State, t: Tid, e: Event)
    requires t in s.threads && s.threads[t] == Handle(e, InQueue) && e.stream && Exclusive(s) && CtxUnowned(s)
    ensures Do(Do(s, Push(t, false)), Acquire(t)) == Put(s, t, Handle(e, InCtx), s.core)
  {
    hide Conflict, OwnsCtx;
    var s1 := Do(s, Push(t, false));
    assert s1 == Put(s, t, Handle(e, Overflown), s.core);
    forall u | u in s1.threads && u != t
      ensures !Conflict(Handle(e, InCtx), s1.threads[u]) && !Conflict(s1.threads[u], Handle(e, InCtx))
    {
      MayReleaseBeside(e, s.threads[u]);
    }
    assert Room(s1, t, Handle(e, InCtx));
    assert Do(s1, Acquire(t)).threads == s.threads[t := Handle(e, InCtx)];
  }

  lemma Releases(s: State, t: Tid, e: Event, p: Pid)
    requires t in s.threads && s.threads[t] == Handle(e, InCtx) && s.core.ctx.Some? && p !in s.core.promises
    ensures
      var n := Do(Do(s, Alloc(t, p)), Submit(t, Taken));
      && n.threads == s.threads[t := Handle(e, Leave(true))]
      && n.core == s.core.(promises := s.core.promises[p := Promise(false, Pending, None, false, 0, t)],
                           released := s.core.released + multiset{t})
  {
    var s1 := Do(s, Alloc(t, p));
    assert s1 == Put(s, t, Op(Listener(e), Ready, p),
                     PutPromise(s.core, p, Promise(false, Unsubmitted, None, false, 0, t)));
    var n := Do(s1, Submit(t, Taken));
    assert n == DoSubmit(s1, t, Taken);
    assert n.core.promises == s.core.promises[p := Promise(false, Pending, None, false, 0, t)];
    assert n.threads == s.threads[t := Handle(e, Leave(true))];
  }

  lemma ReleaseAndLeave(s: State, t: Tid, e: Event, p: Pid)
    requires t in s.threads && s.threads[t] == Handle(e, InCtx) && s.core.ctx.Some? && p !in s.core.promises
    ensures
      var n := Do(Do(Do(s, Alloc(t, p)), Submit(t, Taken)), Go(t));
      && n.threads == s.threads[t := Handle(e, Over(true))]
      && n.core == s.core.(promises := s.core.promises[p := Promise(false, Pending, None, false, 0, t)],
                           released := s.core.released + multiset{t})
  {
    hide DoSubmit, DoAlloc;
    Releases(s, t, e, p);
    var s2 := Do(Do(s, Alloc(t, p)), Submit(t, Taken));
    assert Do(s2, Go(t)) == Put(s2, t, Handle(e, Over(true)), s2.core) by {
      Leaves(s2, t, e);
    }
    assert Put(s2, t, Handle(e, Over(true)), s2.core).threads == s.threads[t := Handle(e, Over(true))];
  }

  lemma Leaves(s: State, t: Tid, e: Event)
    requires t in s.threads && s.threads[t] == Handle(e, Leave(true))
    ensures Do(s, Go(t)) == Put(s, t, Handle(e, Over(true)), s.core)
  {
  }

  lemma OwnerHasCtx(s: State, g: Gid)
    requires Inv(s) && OwnerSet(s.core, g)
    ensures s.core.ctx.Some?
  {
  }

  /** A stream that does not fit has its release submitted on the context, and is not queued. */
  lemma StreamIsReleased(run: seq<Action>, t: Tid, e: Event, p: Pid)
    requires t in After(run).threads && After(run).threads[t] == Handle(e, InGate) && e.stream
    requires OwnerSet(After(run).core, e.gate) && QueueFree(After(run), t, true) && CtxUnowned(After(run))
    requires p !in After(run).core.promises
    ensures
      var n := After(run + [Go(t), Acquire(t), Push(t, false), Acquire(t), Alloc(t, p), Submit(t, Taken), Go(t)]);
      && n.threads == After(run).threads[t := Handle(e, Over(true))]
      && n.core == After(run).core.(
           promises := After(run).core.promises[p := Promise(false, Pending, None, false, 0, t)],
           released := After(run).core.released + multiset{t})
  {
    hide After, Steps, Do, Exclusive, Promised, Ledgered, Doomed, Guarded, Listed, Accounted, QueueFree, OwnerSet;
    InvAlways(run);
    var s := After(run);
    OwnerHasCtx(s, e.gate);
    var push := [Go(t), Acquire(t), Push(t, false), Acquire(t)];
    var release := [Alloc(t, p), Submit(t, Taken), Go(t)];
    assert push + release ==
           [Go(t), Acquire(t), Push(t, false), Acquire(t), Alloc(t, p), Submit(t, Taken), Go(t)];
    AfterMore(run, push + release);
    StepsAppend(s, push, release);
    FourSteps(s, Go(t), Acquire(t), Push(t, false), Acquire(t));
    EntersQueue(s, t, e);
    var s2 := Put(s, t, Handle(e, InQueue), s.core);
    InQueueExcludes(s, t, e);
    OverflowsToCtx(s2, t, e);
    var s4 := Put(s2, t, Handle(e, InCtx), s.core);
    ThreeSteps(s4, Alloc(t, p), Submit(t, Taken), Go(t));
    ReleaseAndLeave(s4, t, e, p);
    assert s4.threads[t := Handle(e, Over(true))] == s.threads[t := Handle(e, Over(true))];
  }

  lemma InQueueExcludes(s: State, t: Tid, e: Event)
    requires QueueFree(s, t, e.stream) && t in s.threads && s.threads[t] == Handle(e, InGate) && Exclusive(s)
    ensures Exclusive(Put(s, t, Handle(e, InQueue), s.core))
    ensures CtxUnowned(s) ==> CtxUnowned(Put(s, t, Handle(e, InQueue), s.core))
  {
    hide Conflict, HoldsQueue;
    forall u | u in s.threads && u != t
      ensures !Conflict(Handle(e, InQueue), s.threads[u]) && !Conflict(s.threads[u], Handle(e, InQueue))
    {
      MayEnterBeside(e, s.threads[u]);
    }
  }

  // ------------------------------------------------------------------------ teardown

  /** Every other thread has returned. */
  predicate OthersOver(s: State, t: Tid) {
    forall u :: u in s.threads && u != t ==>
      s.threads[u].Done? || (s.threads[u].Handle? && s.threads[u].handling.Over?)
  }

  lemma LockIsFree(s: State, t: Tid, pc: Pc)
    requires OthersOver(s, t) && t in s.threads && s.threads[t].Close? && Acquired(s.threads[t]) == Some(pc)
    ensures Do(s, Acquire(t)) == Put(s, t, pc, s.core)
  {
    forall u | u in s.threads && u != t
      ensures !Conflict(pc, s.threads[u]) && !Conflict(s.threads[u], pc)
    {
    }
    assert Room(s, t, pc);
  }

  lemma GetsGate(s: State, t: Tid, g: Gid)
    requires OthersOver(s, t) && t in s.threads && s.threads[t] == Close(Start) && s.core.gate == Some(g)
    ensures Do(Do(s, Go(t)), Acquire(t)) == Put(s, t, Close(OnGate(g)), s.core)
  {
    hide Conflict, Room;
    var s1 := Do(s, Go(t));
    assert s1 == Put(s, t, Close(AtGate(g)), s.core);
    LockIsFree(s1, t, Close(OnGate(g)));
    assert Put(s1, t, Close(OnGate(g)), s.core).threads == s.threads[t := Close(OnGate(g))];
  }

  lemma Detaches(s: State, t: Tid, g: Gid)
    requires OthersOver(s, t) && t in s.threads && s.threads[t] == Close(Start)
    requires s.core.gate == Some(g) && g in s.core.gates
    ensures
      var n := Do(Do(Do(Do(s, Go(t)), Acquire(t)), ClearOwner(t)), Acquire(t));
      && n.threads == s.threads[t := Close(OnCtx)]
      && n.core == s.core.(gates := s.core.gates[g := s.core.gates[g].(owner := false)])
  {
    hide Conflict, Room;
    GetsGate(s, t, g);
    var s2 := Put(s, t, Close(OnGate(g)), s.core);
    var s3 := Do(s2, ClearOwner(t));
    assert s3 == Put(s2, t, Close(AtCtx), s.core.(gates := s.core.gates[g := s.core.gates[g].(owner := false)]));
    LockIsFree(s3, t, Close(OnCtx));
    assert Put(s3, t, Close(OnCtx), s3.core).threads == s.threads[t := Close(OnCtx)];
  }

  lemma SwapsAndDestroys(s: State, t: Tid, c: Ctx)
    requires t in s.threads && s.threads[t] == Close(OnCtx) && s.core.ctx == Some(c)
    ensures
      var n := Do(Do(s, Swap(t)), Destroy(t));
      && n.threads == s.threads[t := Close(Destroying(c))]
      && n.core == s.core.(ctx := None, swapped := true,
                           passed := s.core.passed + multiset{c}, ledger := s.core.ledger[c := Gone])
  {
    var s1 := Do(s, Swap(t));
    assert s1 == Put(s, t, Close(Swapped(Some(c))),
                     s.core.(ctx := None, swapped := true, ledger := s.core.ledger[c := Held(t)]));
    var n := Do(s1, Destroy(t));
    assert n.threads == s.threads[t := Close(Destroying(c))];
    assert n.core.ledger == s.core.ledger[c := Gone];
  }

  lemma ReturnsAndDrops(s: State, t: Tid, c: Ctx, g: Gid, ok: bool)
    requires OthersOver(s, t) && t in s.threads && s.threads[t] == Close(Destroying(c))
    requires s.core.gate == Some(g) && g in s.core.gates
    ensures
      var n := Do(Do(s, DestroyReturns(t, ok)), DropGate(t));
      && n.threads == s.threads[t := Close(Forget)]
      && n.core == s.core.(
           quiet := if ok then s.core.quiet + {c} else s.core.quiet,
           gates := if ok then s.core.gates[g := s.core.gates[g].(alive := false)] else s.core.gates)
  {
    assert CanDestroyReturn(s, t, ok);
    var s1 := Do(s, DestroyReturns(t, ok));
    assert s1 == Put(s, t, Close(Destroyed(c, ok)),
                     s.core.(quiet := if ok then s.core.quiet + {c} else s.core.quiet));
    assert Do(s1, DropGate(t)).threads == s.threads[t := Close(Forget)];
  }

  lemma ForgetsGate(s: State, t: Tid)
    requires OthersOver(s, t) && t in s.threads && s.threads[t] == Close(Forget)
    ensures
      var n := Do(Do(s, ForgetGate(t)), Acquire(t));
      n.threads == s.threads[t := Close(OnQueue)] && n.core == s.core.(gate := None)
  {
    hide Conflict, Room;
    var s1 := Do(s, ForgetGate(t));
    assert s1 == Put(s, t, Close(AtQueue), s.core.(gate := None));
    LockIsFree(s1, t, Close(OnQueue));
    assert Do(s1, Acquire(t)).threads == s.threads[t := Close(OnQueue)];
  }

  lemma Frees(s: State, t: Tid)
    requires OthersOver(s, t) && t in s.threads && s.threads[t] == Close(OnQueue)
    ensures
      var n := Do(Do(s, Go(t)), Free(t));
      n.threads == s.threads[t := Close(Freed)] && n.core == s.core.(alive := false)
  {
    var s1 := Do(s, Go(t));
    assert s1 == Put(s, t, Close(Closed), s.core);
    assert CanFree(s1, t);
    assert Do(s1, Free(t)).threads == s.threads[t := Close(Freed)];
  }

  /** The destructor from its first step to the end of the module. */
  function TeardownScript(t: Tid, ok: bool): seq<Action> {
    [Go(t), Acquire(t), ClearOwner(t), Acquire(t)] + [Swap(t), Destroy(t), DestroyReturns(t, ok), DropGate(t)] +
    [ForgetGate(t), Acquire(t), Go(t), Free(t)]
  }

  lemma TearsDown(s: State, t: Tid, c: Ctx, g: Gid, ok: bool)
    requires OthersOver(s, t) && t in s.threads && s.threads[t] == Close(Start)
    requires s.core.ctx == Some(c) && s.core.gate == Some(g) && g in s.core.gates
    ensures
      var n := Steps(s, TeardownScript(t, ok));
      && n.threads == s.threads[t := Close(Freed)]
      && n.core == s.core.(
           ctx := None, gate := None, alive := false, swapped := true,
           passed := s.core.passed + multiset{c}, ledger := s.core.ledger[c := Gone],
           quiet := if ok then s.core.quiet + {c} else s.core.quiet,
           gates := s.core.gates[g := Gate(false, s.core.gates[g].alive && !ok)])
  {
    hide Steps, Do;
    var detach := [Go(t), Acquire(t), ClearOwner(t), Acquire(t)];
    var destroy := [Swap(t), Destroy(t), DestroyReturns(t, ok), DropGate(t)];
    var free := [ForgetGate(t), Acquire(t), Go(t), Free(t)];
    StepsAppend(s, detach + destroy, free);
    StepsAppend(s, detach, destroy);
    FourSteps(s, Go(t), Acquire(t), ClearOwner(t), Acquire(t));
    Detaches(s, t, g);
    var s1 := Steps(s, detach);
    FourSteps(s1, Swap(t), Destroy(t), DestroyReturns(t, ok), DropGate(t));
    SwapsAndDestroys(s1, t, c);
    ReturnsAndDrops(Do(Do(s1, Swap(t)), Destroy(t)), t, c, g, ok);
    var s2 := Steps(s1, destroy);
    FourSteps(s2, ForgetGate(t), Acquire(t), Go(t), Free(t));
    ForgetsGate(s2, t);
    Frees(Do(Do(s2, ForgetGate(t)), Acquire(t)), t);
    var n := Steps(s2, free);
    assert n.threads == s.threads[t := Close(Freed)];
    assert n.core.gates == s.core.gates[g := Gate(false, s.core.gates[g].alive && !ok)];
  }

  lemma CtxHasGate(s: State, t: Tid)
    requires Guarded(s) && OthersOver(s, t) && t in s.threads && s.threads[t] == Close(Start) && s.core.ctx.Some?
    ensures s.core.gate.Some? ==> s.core.gates.Keys == {s.core.gate.value} && s.core.gates[s.core.gate.value].alive
  {
    Each(s, t);
  }

  /**
   From every reachable state in which the other threads have returned, a destructor about to start with a context and a
   gate has them both gone at the end of its steps: the context was passed to its destructor, no gate has an owner, and
   the gate is freed if and only if the destruction reported success.
   */
  lemma TeardownCompletes(run: seq<Action>, t: Tid, c: Ctx, g: Gid, ok: bool)
    requires OthersOver(After(run), t) && t in After(run).threads && After(run).threads[t] == Close(Start)
    requires After(run).core.ctx == Some(c) && After(run).core.gate == Some(g)
    ensures
      var n := After(run + TeardownScript(t, ok));
      && n.threads == After(run).threads[t := Close(Freed)]
      && n.core.ctx.None? && n.core.gate.None? && !n.core.alive && n.core.gates == map[g := Gate(false, !ok)]
      && n.core.passed == After(run).core.passed + multiset{c}
      && n.core.quiet == After(run).core.quiet + (if ok then {c} else {})
      && n.core.promises == After(run).core.promises && n.core.boxes == After(run).core.boxes
  {
    hide After, Steps, Exclusive, Promised, Ledgered, Doomed, Guarded, Listed, Accounted, OthersOver, TeardownScript;
    InvAlways(run);
    var s := After(run);
    AfterMore(run, TeardownScript(t, ok));
    CtxHasGate(s, t);
    TearsDown(s, t, c, g, ok);
  }
}
