/** Who waits for whom: locks, replies and destructions never wait in a circle, and somebody can always move. */
module LifecycleWaits {
  import opened Lifecycle
  import opened LifecycleLocks
  import opened LifecyclePromises
  import opened LifecycleContexts
  import opened LifecycleGates
  import opened LifecycleEvents
  import opened LifecycleRuns

  // ---------------------------------------------------------------------- the wait graph

  /** The reply that a thread awaits has not come. */
  predicate AwaitsReply(k: Core, pc: Pc) {
    pc.Op? && pc.stage.Awaiting? && pc.p in k.promises && k.promises[pc.p].value.None?
  }

  /**
   A thread at `a` may have to wait for one at `b`. A shared lock may be kept from a reader by a writer that waits for
   it. Replies and destructions wait for the binding's event thread, and so for any listener it may be running.
   */
  predicate Blocks(k: Core, a: Pc, b: Pc) {
    match a
    case Make(Want) => HoldsCreate(b)
    case Handle(e, WantGate) => OwnsGate(b, e.gate) || b == Close(AtGate(e.gate))
    case Close(AtGate(g)) => SharesGate(b, g) || OwnsGate(b, g)
    case CallWant => OwnsCtx(b) || WantsCtxAlone(b)
    case Make(WantLook) => OwnsCtx(b) || WantsCtxAlone(b)
    case Handle(_, Overflown) => OwnsCtx(b) || WantsCtxAlone(b)
    case Adopts(WantAdopt, _) => OwnsCtx(b) || SharesCtx(b)
    case Close(AtCtx) => OwnsCtx(b) || SharesCtx(b)
    case Handle(e, Seen) => HoldsQueue(b, e.stream)
    case Close(AtQueue) => HoldsQueue(b, true)
    case Queue(stream, false) => HoldsQueue(b, stream)
    case Op(_, Awaiting, _) => AwaitsReply(k, a) && EventOf(b).Some?
    case _ => Dying(a).Some? && EventOf(b).Some? && EventOf(b).value.ctx == Dying(a).value
  }

  predicate WantsCtxAlone(pc: Pc) {
    pc == Close(AtCtx) || (pc.Adopts? && pc.adopting.WantAdopt?)
  }

  predicate WaitsFor(s: State, t: Tid, u: Tid) {
    t in s.threads && u in s.threads && t != u && Blocks(s.core, s.threads[t], s.threads[u])
  }

  /** The order of what threads wait for: create, the binding, gate, context, the queues. */
  function Level(pc: Pc): nat {
    match pc
    case Make(Want) => 0
    case Op(_, Awaiting, _) => 1
    case Reap(_, true) => 1
    case Close(Destroying(_)) => 1
    case Handle(_, WantGate) => 2
    case Close(AtGate(_)) => 3
    case CallWant => 4
    case Make(WantLook) => 4
    case Handle(_, Overflown) => 4
    case Adopts(WantAdopt, _) => 5
    case Close(AtCtx) => 5
    case Handle(_, Seen) => 6
    case Close(AtQueue) => 6
    case Queue(_, false) => 6
    case _ => 7
  }

  /** Whoever waits, waits for a thread that waits for something later in the order, or for nothing. */
  lemma LevelsRise(s: State, t: Tid, u: Tid)
    requires Promised(s) && WaitsFor(s, t, u)
    ensures Level(s.threads[t]) < Level(s.threads[u])
  {
    hide Promised;
    if s.threads[u].Op? {
      Standing(s, u);
    }
  }

  /** Each thread of the path waits for the next. */
  predicate Path(s: State, path: seq<Tid>) {
    forall i :: 0 <= i < |path| - 1 ==> WaitsFor(s, path[i], path[i + 1])
  }

  lemma {:induction false} PathRises(s: State, path: seq<Tid>)
    requires Promised(s) && |path| > 1 && Path(s, path)
    ensures path[0] in s.threads && path[|path| - 1] in s.threads
    ensures Level(s.threads[path[0]]) < Level(s.threads[path[|path| - 1]])
  {
    hide Promised, Level;
    assert WaitsFor(s, path[0], path[1]);
    LevelsRise(s, path[0], path[1]);
    if |path| > 2 {
      assert forall i :: 0 <= i < |path[1..]| - 1 ==> WaitsFor(s, path[1..][i], path[1..][i + 1]);
      PathRises(s, path[1..]);
    }
  }

  /** No deadlock: in no state of any run do threads wait for each other in a circle, of any length. */
  lemma NoWaitCycle(run: seq<Action>, path: seq<Tid>)
    requires |path| > 1 && Path(After(run), path)
    ensures path[0] != path[|path| - 1]
  {
    hide After, Path, Level, Exclusive, Ledgered, Doomed, Guarded, Accounted, Promised;
    InvAlways(run);
    PathRises(After(run), path);
  }

  // ----------------------------------------------------------------------- progress

  /** A thread that has something left to do. */
  predicate Active(pc: Pc) {
    !pc.Done? && !(pc.Handle? && pc.handling.Over?) && !(pc.Close? && (pc.step.Closed? || pc.step.Freed?))
  }

  /** A step of the thread itself that is no timeout and no failed destruction. */
  predicate Own(a: Action, t: Tid) {
    !a.Begin? && !a.Fire? && !a.Retire? && !a.Timeout? && a.t == t && (a.DestroyReturns? ==> a.ok)
  }

  ghost predicate CanStep(s: State, t: Tid) {
    exists a :: Enabled(s, a) && Own(a, t)
  }

  lemma {:induction false} Fresh(used: set<nat>) returns (n: nat)
    ensures forall x :: x in used ==> x < n
  {
    if used == {} {
      n := 0;
    } else {
      var x :| x in used;
      var m := Fresh(used - {x});
      n := if x < m then m else x + 1;
      assert forall y :: y in used ==> y == x || y in used - {x};
    }
  }

  /** A lock that cannot be taken is kept by a thread that the wanting thread waits for. */
  lemma KeptOut(k: Core, a: Pc, b: Pc)
    requires Acquired(a).Some? && !Conflict(a, b) && !Conflict(b, a)
    requires Conflict(Acquired(a).value, b) || Conflict(b, Acquired(a).value)
    ensures Blocks(k, a, b)
  {
    hide Blocks, Conflict;
    match a
    case Handle(_, _) => ListenerKeptOut(k, a, b);
    case Close(_) => DestructorKeptOut(k, a, b);
    case _ => CallerKeptOut(k, a, b);
  }

  lemma ListenerKeptOut(k: Core, a: Pc, b: Pc)
    requires a.Handle? && Acquired(a).Some? && !Conflict(a, b) && !Conflict(b, a)
    requires Conflict(Acquired(a).value, b) || Conflict(b, Acquired(a).value)
    ensures Blocks(k, a, b)
  {
  }

  lemma DestructorKeptOut(k: Core, a: Pc, b: Pc)
    requires a.Close? && Acquired(a).Some? && !Conflict(a, b) && !Conflict(b, a)
    requires Conflict(Acquired(a).value, b) || Conflict(b, Acquired(a).value)
    ensures Blocks(k, a, b)
  {
  }

  lemma CallerKeptOut(k: Core, a: Pc, b: Pc)
    requires !a.Handle? && !a.Close? && Acquired(a).Some? && !Conflict(a, b) && !Conflict(b, a)
    requires Conflict(Acquired(a).value, b) || Conflict(b, Acquired(a).value)
    ensures Blocks(k, a, b)
  {
  }

  lemma AcquiresOrWaits(s: State, t: Tid)
    requires Exclusive(s) && t in s.threads && Acquired(s.threads[t]).Some?
    ensures CanStep(s, t) || exists u :: WaitsFor(s, t, u)
  {
    hide Conflict, Acquired, Blocks;
    if CanAcquire(s, t) {
      assert Enabled(s, Acquire(t)) && Own(Acquire(t), t);
    } else {
      var pc := Acquired(s.threads[t]).value;
      var u :| u in s.threads && u != t && (Conflict(pc, s.threads[u]) || Conflict(s.threads[u], pc));
      KeptOut(s.core, s.threads[t], s.threads[u]);
      assert WaitsFor(s, t, u);
    }
  }

  lemma OpMoves(s: State, t: Tid)
    requires Inv(s) && t in s.threads && s.threads[t].Op?
    ensures AwaitsReply(s.core, s.threads[t]) || CanStep(s, t)
  {
    hide Exclusive, Promised, Ledgered, Doomed, Guarded, Accounted;
    Standing(s, t);
    match s.threads[t].stage
    case Ready => assert Enabled(s, Submit(t, Taken)) && Own(Submit(t, Taken), t);
    case Sent => assert Enabled(s, Settle(t)) && Own(Settle(t), t);
    case Awaiting =>
      if !AwaitsReply(s.core, s.threads[t]) {
        assert Enabled(s, Take(t)) && Own(Take(t), t);
      }
  }

  lemma AllocMoves(s: State, t: Tid)
    requires t in s.threads && forall p :: Allocated(s.core, s.threads[t], p).Some?
    ensures CanStep(s, t)
  {
    var p := Fresh(s.core.promises.Keys);
    assert Enabled(s, Alloc(t, p)) && Own(Alloc(t, p), t);
  }

  lemma GoMoves(s: State, t: Tid)
    requires CanGo(s, t)
    ensures CanStep(s, t)
  {
    assert Enabled(s, Go(t)) && Own(Go(t), t);
  }

  lemma AdoptMoves(s: State, t: Tid)
    requires Guarded(s) && t in s.threads && s.threads[t].Adopts? && !s.threads[t].adopting.WantAdopt?
    ensures CanStep(s, t)
  {
    Each(s, t);
    match s.threads[t].adopting
    case Adopt => assert Enabled(s, Assign(t)) && Own(Assign(t), t);
    case Assigned =>
      var g := Fresh(s.core.gates.Keys);
      assert Enabled(s, NewGate(t, g)) && Own(NewGate(t, g), t);
    case Gated => assert Enabled(s, SetOwner(t)) && Own(SetOwner(t), t);
    case Owned => assert Enabled(s, Register(t)) && Own(Register(t), t);
    case Half => assert Enabled(s, Register(t)) && Own(Register(t), t);
    case WantAdopt =>
  }

  lemma DyingMovesOrWaits(s: State, t: Tid)
    requires t in s.threads && Dying(s.threads[t]).Some?
    ensures CanStep(s, t) || exists u :: WaitsFor(s, t, u)
  {
    if CanDestroyReturn(s, t, true) {
      assert Enabled(s, DestroyReturns(t, true)) && Own(DestroyReturns(t, true), t);
    } else {
      var u :| u in s.threads && EventOf(s.threads[u]).Some? &&
               EventOf(s.threads[u]).value.ctx == Dying(s.threads[t]).value;
      assert WaitsFor(s, t, u);
    }
  }

  lemma CloseMoves(s: State, t: Tid)
    requires Inv(s) && t in s.threads && s.threads[t].Close? && Active(s.threads[t])
    requires Acquired(s.threads[t]).None? && Dying(s.threads[t]).None?
    ensures CanStep(s, t)
  {
    hide Exclusive, Promised, Ledgered, Doomed, Guarded, Accounted;
    Each(s, t);
    match s.threads[t].step
    case OnGate(_) => assert Enabled(s, ClearOwner(t)) && Own(ClearOwner(t), t);
    case OnCtx => assert Enabled(s, Swap(t)) && Own(Swap(t), t);
    case Swapped(Some(_)) => assert Enabled(s, Destroy(t)) && Own(Destroy(t), t);
    case Destroyed(_, _) => assert Enabled(s, DropGate(t)) && Own(DropGate(t), t);
    case Forget => assert Enabled(s, ForgetGate(t)) && Own(ForgetGate(t), t);
    case _ => GoMoves(s, t);
  }

  /** Every thread with something to do can step, or waits for a reply, or for another thread. */
  lemma MovesOrWaits(s: State, t: Tid)
    requires Inv(s) && t in s.threads && Active(s.threads[t])
    ensures CanStep(s, t) || AwaitsReply(s.core, s.threads[t]) || exists u :: WaitsFor(s, t, u)
  {
    hide Exclusive, Promised, Ledgered, Doomed, Guarded, Accounted, Enabled, Blocks, WaitsFor, AwaitsReply, Own;
    var pc := s.threads[t];
    if Acquired(pc).Some? {
      AcquiresOrWaits(s, t);
    } else if Dying(pc).Some? {
      DyingMovesOrWaits(s, t);
    } else if CanGo(s, t) {
      GoMoves(s, t);
    } else {
      match pc
      case Op(_, _, _) => OpMoves(s, t);
      case Adopts(_, _) => AdoptMoves(s, t);
      case Close(_) => CloseMoves(s, t);
      case Reap(_, _) => assert Enabled(s, Destroy(t)) && Own(Destroy(t), t) by { ReapMoves(s, t); }
      case Handle(_, InQueue) => assert Enabled(s, Push(t, true)) && Own(Push(t, true), t) by { PushMoves(s, t); }
      case _ => AllocMoves(s, t);
    }
  }

  lemma ReapMoves(s: State, t: Tid)
    requires CanDestroy(s, t)
    ensures Enabled(s, Destroy(t)) && Own(Destroy(t), t)
  {
  }

  lemma PushMoves(s: State, t: Tid)
    requires CanPush(s, t)
    ensures Enabled(s, Push(t, true)) && Own(Push(t, true), t)
  {
  }

  lemma BlockerIsActive(k: Core, a: Pc, b: Pc)
    requires Blocks(k, a, b)
    ensures Active(b)
  {
  }

  /** At the end of every chain of waits is a thread that can step, or one that awaits a reply. */
  lemma {:induction false} ChainEnds(s: State, t: Tid) returns (path: seq<Tid>)
    requires Inv(s) && t in s.threads && Active(s.threads[t])
    ensures |path| > 0 && path[0] == t && Path(s, path)
    ensures
      var u := path[|path| - 1];
      u in s.threads && (CanStep(s, u) || AwaitsReply(s.core, s.threads[u]))
    decreases 7 - Level(s.threads[t])
  {
    hide Exclusive, Promised, Ledgered, Doomed, Guarded, Accounted, CanStep, AwaitsReply, Blocks, Active, Level;
    MovesOrWaits(s, t);
    if CanStep(s, t) || AwaitsReply(s.core, s.threads[t]) {
      path := [t];
    } else {
      var u :| WaitsFor(s, t, u);
      LevelsRise(s, t, u);
      AtMostSeven(s.threads[u]);
      BlockerIsActive(s.core, s.threads[t], s.threads[u]);
      var rest := ChainEnds(s, u);
      path := [t] + rest;
    }
  }

  lemma AtMostSeven(pc: Pc)
    ensures Level(pc) <= 7
  {
  }

  /**
   Progress: from every thread with something to do a chain of waits leads to a thread that can take a step of its own,
   with no timeout and no failed destruction, or to one whose reply the binding has yet to give. The latter only for a
   thread that awaits a reply itself or wants the create lock: nobody waits for a reply, through any chain, to get the
   gate, the context lock, a queue, or the end of a destruction.
   */
  lemma SomebodyMoves(run: seq<Action>, t: Tid)
    requires t in After(run).threads && Active(After(run).threads[t])
    ensures exists path: seq<Tid> ::
      && |path| > 0 && path[0] == t && Path(After(run), path)
      && path[|path| - 1] in After(run).threads
      && (CanStep(After(run), path[|path| - 1]) ||
          (AwaitsReply(After(run).core, After(run).threads[path[|path| - 1]]) &&
           (path[|path| - 1] == t || After(run).threads[t] == Make(Want))))
  {
    hide After, Exclusive, Promised, Ledgered, Doomed, Guarded, Accounted, CanStep, AwaitsReply, Path, Active, Level;
    InvAlways(run);
    var s := After(run);
    var path := ChainEnds(s, t);
    var u := path[|path| - 1];
    if |path| > 1 {
      PathRises(s, path);
      if AwaitsReply(s.core, s.threads[u]) {
        LevelOfAwaiting(s.core, s.threads[u]);
        LevelZero(s.threads[t]);
      }
    }
  }

  lemma LevelOfAwaiting(k: Core, pc: Pc)
    requires AwaitsReply(k, pc)
    ensures Level(pc) == 1
  {
  }

  lemma LevelZero(pc: Pc)
    ensures Level(pc) == 0 <==> pc == Make(Want)
  {
  }

  /** A thread that awaits a reply or a destruction holds neither a gate nor the context lock. */
  lemma WaitersHoldNoLock(run: seq<Action>, t: Tid, g: Gid)
    requires t in After(run).threads
    requires
      var pc := After(run).threads[t];
      (pc.Op? && pc.stage.Awaiting?) || Dying(pc).Some?
    ensures
      var pc := After(run).threads[t];
      !SharesCtx(pc) && !OwnsCtx(pc) && !SharesGate(pc, g) && !OwnsGate(pc, g) &&
      !HoldsQueue(pc, true) && !HoldsQueue(pc, false)
  {
    hide After, Exclusive, Ledgered, Doomed, Guarded, Accounted, Promised;
    InvAlways(run);
    if After(run).threads[t].Op? {
      Standing(After(run), t);
    }
  }
}
