/** Every context that the binding hands out is in exactly one place, and is passed to its destructor at most once. */
module LifecycleContexts {
  import opened Order
  import opened Lifecycle
  import opened LifecyclePromises

  /** The context is there: an unread reply, a local variable, the member, or passed to the destructor. */
  predicate IsAt(s: State, c: Ctx, place: Place) {
    match place
    case InPromise(p) => p in s.core.promises && s.core.promises[p].value == Some(Some(c)) && !s.core.promises[p].taken
    case Held(t) => t in s.threads && Local(s.threads[t]) == Some(c)
    case Member => s.core.ctx == Some(c)
    case Gone => c in s.core.passed
  }

  /** The ledger says where each context is, and nowhere else is it. */
  ghost predicate Ledgered(s: State) {
    && (forall c, place :: IsAt(s, c, place) <==> c in s.core.ledger && s.core.ledger[c] == place)
    && (forall c :: s.core.passed[c] <= 1)
  }

  /** Contexts are where they were: the same member, locals, unread replies and destructions. */
  ghost predicate Unmoved(s: State, n: State) {
    && n.core.ledger == s.core.ledger && n.core.passed == s.core.passed
    && (forall c, place :: IsAt(n, c, place) <==> IsAt(s, c, place))
  }

  lemma UnmovedKeeps(s: State, n: State)
    requires Ledgered(s) && Unmoved(s, n)
    ensures Ledgered(n)
  {
    hide IsAt;
  }

  /** One context goes to another place, and is nowhere else. */
  ghost predicate Moved(s: State, n: State, c: Ctx, to: Place) {
    && n.core.ledger == s.core.ledger[c := to]
    && (forall d, place :: d != c ==> (IsAt(n, d, place) <==> IsAt(s, d, place)))
    && (forall place :: IsAt(n, c, place) <==> place == to)
    && (forall d :: n.core.passed[d] <= 1)
  }

  lemma MovedKeeps(s: State, n: State, c: Ctx, to: Place)
    requires Ledgered(s) && Moved(s, n, c, to)
    ensures Ledgered(n)
  {
    hide IsAt;
  }

  lemma TakeMoves(s: State, t: Tid)
    requires Ledgered(s) && Promised(s) && CanTake(s, t) && PromiseOf(s, t).value.value.Some?
    ensures Moved(s, DoTake(s, t), PromiseOf(s, t).value.value.value, Held(t))
  {
    var c := PromiseOf(s, t).value.value.value;
    assert IsAt(s, c, InPromise(s.threads[t].p));
    assert Relies(s.core, t, s.threads[t].who, Awaiting, s.threads[t].p);
    assert Orderly(PromiseOf(s, t));
    forall place
      ensures IsAt(DoTake(s, t), c, place) <==> place == Held(t)
    {
      assert IsAt(s, c, place) <==> place == InPromise(s.threads[t].p);
    }
  }

  lemma EmptyReplyUnmoved(s: State, t: Tid)
    requires CanTake(s, t) && PromiseOf(s, t).value.value.None?
    ensures Unmoved(s, DoTake(s, t))
  {
  }

  lemma FireMoves(s: State, p: Pid, reply: Ctx)
    requires Ledgered(s) && Promised(s) && CanFire(s, p, Some(reply))
    ensures Moved(s, DoFire(s, p, Some(reply)), reply, InPromise(p))
  {
    hide Local;
    assert Orderly(s.core.promises[p]);
    forall place
      ensures IsAt(DoFire(s, p, Some(reply)), reply, place) <==> place == InPromise(p)
    {
      assert !IsAt(s, reply, place);
    }
  }

  lemma EmptyFireUnmoved(s: State, p: Pid)
    requires Promised(s) && CanFire(s, p, None)
    ensures Unmoved(s, DoFire(s, p, None))
  {
    assert Orderly(s.core.promises[p]);
  }

  lemma AssignMoves(s: State, t: Tid)
    requires Ledgered(s) && CanAssign(s, t) && s.core.ctx.None?
    ensures Moved(s, DoAssign(s, t), s.threads[t].c, Member)
  {
    var c := s.threads[t].c;
    assert IsAt(s, c, Held(t));
    forall place
      ensures IsAt(DoAssign(s, t), c, place) <==> place == Member
    {
      assert IsAt(s, c, place) <==> place == Held(t);
    }
  }

  lemma SwapMoves(s: State, t: Tid)
    requires Ledgered(s) && CanSwap(s, t) && s.core.ctx.Some?
    ensures Moved(s, DoSwap(s, t), s.core.ctx.value, Held(t))
  {
    var c := s.core.ctx.value;
    assert IsAt(s, c, Member);
    forall place
      ensures IsAt(DoSwap(s, t), c, place) <==> place == Held(t)
    {
      assert IsAt(s, c, place) <==> place == Member;
    }
  }

  lemma EmptySwapUnmoved(s: State, t: Tid)
    requires CanSwap(s, t) && s.core.ctx.None?
    ensures Unmoved(s, DoSwap(s, t))
  {
  }

  lemma DestroyMoves(s: State, t: Tid)
    requires Ledgered(s) && CanDestroy(s, t)
    ensures Moved(s, DoDestroy(s, t), Local(s.threads[t]).value, Gone)
  {
    var c := Local(s.threads[t]).value;
    assert IsAt(s, c, Held(t));
    assert !IsAt(s, c, Gone);
    forall place
      ensures IsAt(DoDestroy(s, t), c, place) <==> place == Gone
    {
      assert IsAt(s, c, place) <==> place == Held(t);
    }
  }

  lemma TakeLedgered(s: State, t: Tid)
    requires Ledgered(s) && Promised(s) && CanTake(s, t)
    ensures Ledgered(DoTake(s, t))
  {
    hide Ledgered, Promised, DoTake, Moved, Unmoved;
    var reply := PromiseOf(s, t).value.value;
    if reply.Some? {
      TakeMoves(s, t);
      MovedKeeps(s, DoTake(s, t), reply.value, Held(t));
    } else {
      EmptyReplyUnmoved(s, t);
      UnmovedKeeps(s, DoTake(s, t));
    }
  }

  lemma FireLedgered(s: State, p: Pid, reply: Option<Ctx>)
    requires Ledgered(s) && Promised(s) && CanFire(s, p, reply)
    ensures Ledgered(DoFire(s, p, reply))
  {
    hide Ledgered, Promised, DoFire, Moved, Unmoved;
    if reply.Some? {
      FireMoves(s, p, reply.value);
      MovedKeeps(s, DoFire(s, p, reply), reply.value, InPromise(p));
    } else {
      EmptyFireUnmoved(s, p);
      UnmovedKeeps(s, DoFire(s, p, reply));
    }
  }

  lemma AssignLedgered(s: State, t: Tid)
    requires Ledgered(s) && CanAssign(s, t) && s.core.ctx.None?
    ensures Ledgered(DoAssign(s, t))
  {
    hide Ledgered, DoAssign, Moved;
    AssignMoves(s, t);
    MovedKeeps(s, DoAssign(s, t), s.threads[t].c, Member);
  }

  lemma DestroyLedgered(s: State, t: Tid)
    requires Ledgered(s) && CanDestroy(s, t)
    ensures Ledgered(DoDestroy(s, t))
  {
    hide Ledgered, DoDestroy, Moved;
    DestroyMoves(s, t);
    MovedKeeps(s, DoDestroy(s, t), Local(s.threads[t]).value, Gone);
  }

  lemma SwapLedgered(s: State, t: Tid)
    requires Ledgered(s) && CanSwap(s, t)
    ensures Ledgered(DoSwap(s, t))
  {
    hide Ledgered, DoSwap, Moved, Unmoved;
    if s.core.ctx.Some? {
      SwapMoves(s, t);
      MovedKeeps(s, DoSwap(s, t), s.core.ctx.value, Held(t));
    } else {
      EmptySwapUnmoved(s, t);
      UnmovedKeeps(s, DoSwap(s, t));
    }
  }

  predicate MovesContexts(a: Action) {
    a.Take? || a.Fire? || a.Assign? || a.Swap? || a.Destroy?
  }

  /** The steps on a promise other than a reply and its reading move no context. */
  lemma AllocUnmoved(s: State, t: Tid, p: Pid)
    requires CanAlloc(s, t, p)
    ensures Unmoved(s, DoAlloc(s, t, p))
  {
  }

  lemma SubmitUnmoved(s: State, t: Tid, answer: Answer)
    requires Promised(s) && Stands(s, t, Ready)
    ensures Unmoved(s, DoSubmit(s, t, answer))
  {
    hide Promised;
    Standing(s, t);
  }

  lemma SettleUnmoved(s: State, t: Tid)
    requires Stands(s, t, Sent)
    ensures Unmoved(s, DoSettle(s, t))
  {
  }

  lemma TimeoutUnmoved(s: State, t: Tid, r: Tid)
    requires CanTimeout(s, t, r)
    ensures Unmoved(s, DoTimeout(s, t, r))
  {
  }

  lemma RetireUnmoved(s: State, p: Pid)
    requires CanRetire(s, p)
    ensures Unmoved(s, DoRetire(s, p))
  {
  }

  /** One thread moves, with the same local context, and the ledger, the member and the promises stay. */
  ghost predicate Elsewhere(s: State, t: Tid, n: State) {
    && t in n.threads && n == Put(s, t, n.threads[t], n.core)
    && n.core.ledger == s.core.ledger && n.core.passed == s.core.passed && n.core.ctx == s.core.ctx
    && n.core.promises == s.core.promises
    && Local(n.threads[t]) == if t in s.threads then Local(s.threads[t]) else None
  }

  lemma GateStepsElsewhere(s: State, a: Action)
    requires Enabled(s, a) && (a.NewGate? || a.SetOwner? || a.Register? || a.ClearOwner?)
    ensures Elsewhere(s, a.t, Apply(s, a))
  {
    hide DoBegin, DoAcquire, DoGo, DoPush, Goes, Acquired, DoDestroyReturn, DoDropGate, DoForgetGate, DoFree;
  }

  lemma EndingElsewhere(s: State, a: Action)
    requires Enabled(s, a) && (a.DestroyReturns? || a.DropGate? || a.ForgetGate? || a.Free?)
    ensures Elsewhere(s, a.t, Apply(s, a))
  {
    hide DoBegin, DoAcquire, DoGo, DoPush, Goes, Acquired, DoNewGate, DoSetOwner, DoRegister, DoClearOwner;
  }

  lemma OthersElsewhere(s: State, a: Action)
    requires Enabled(s, a) && (a.Begin? || a.Acquire? || a.Go? || a.Push?)
    ensures Elsewhere(s, a.t, Apply(s, a))
  {
    hide Room, DoNewGate, DoSetOwner, DoRegister, DoClearOwner, DoDestroyReturn, DoDropGate, DoForgetGate, DoFree;
  }

  lemma StepElsewhere(s: State, a: Action)
    requires Enabled(s, a) && !TouchesPromises(a) && !MovesContexts(a)
    ensures Elsewhere(s, a.t, Apply(s, a))
  {
    hide Enabled, Apply, Elsewhere;
    if a.NewGate? || a.SetOwner? || a.Register? || a.ClearOwner? {
      GateStepsElsewhere(s, a);
    } else if a.DestroyReturns? || a.DropGate? || a.ForgetGate? || a.Free? {
      EndingElsewhere(s, a);
    } else {
      OthersElsewhere(s, a);
    }
  }

  lemma ElsewhereUnmoved(s: State, t: Tid, n: State)
    requires Elsewhere(s, t, n)
    ensures Unmoved(s, n)
  {
  }

  lemma StepUnmoved(s: State, a: Action)
    requires Promised(s) && Enabled(s, a) && !MovesContexts(a)
    ensures Unmoved(s, Apply(s, a))
  {
    hide Unmoved, Promised, CanAlloc, CanTimeout, CanRetire, Stands, Local;
    hide DoAlloc, DoSubmit, DoSettle, DoTimeout, DoRetire;
    if TouchesPromises(a) {
      match a
      case Alloc(t, p) => AllocUnmoved(s, t, p);
      case Submit(t, answer) => SubmitUnmoved(s, t, answer);
      case Settle(t) => SettleUnmoved(s, t);
      case Timeout(t, r) => TimeoutUnmoved(s, t, r);
      case Retire(p) => RetireUnmoved(s, p);
      case _ =>
    } else {
      StepElsewhere(s, a);
      ElsewhereUnmoved(s, a.t, Apply(s, a));
    }
  }

  lemma LedgeredStep(s: State, a: Action)
    requires Ledgered(s) && Promised(s) && Enabled(s, a)
    requires a.Assign? ==> s.core.ctx.None?
    ensures Ledgered(Apply(s, a))
  {
    hide Ledgered, Promised, Unmoved, CanTake, CanFire, CanAssign, CanSwap, CanDestroy;
    hide DoTake, DoFire, DoAssign, DoSwap, DoDestroy;
    match a
    case Take(t) => TakeLedgered(s, t);
    case Fire(p, reply) => FireLedgered(s, p, reply);
    case Assign(t) => AssignLedgered(s, t);
    case Swap(t) => SwapLedgered(s, t);
    case Destroy(t) => DestroyLedgered(s, t);
    case _ =>
      StepUnmoved(s, a);
      UnmovedKeeps(s, Apply(s, a));
  }

  // -------------------------------------------------------------- destructions under way

  /** A thread that is inside a destruction has passed that context to it. */
  ghost predicate Doomed(s: State) {
    forall t :: t in s.threads && Dying(s.threads[t]).Some? ==> Dying(s.threads[t]).value in s.core.passed
  }

  /** One thread moves to where it is inside of no destruction, as in every step but a call of the destructor. */
  ghost predicate NotDying(s: State, t: Tid, n: State) {
    && t in n.threads && n == Put(s, t, n.threads[t], n.core)
    && n.core.passed == s.core.passed && Dying(n.threads[t]).None?
  }

  lemma RebuildingNotDying(s: State, a: Action)
    requires Enabled(s, a) && Rebuilds(a) && !a.Destroy?
    ensures NotDying(s, a.t, Apply(s, a))
  {
    hide DoBegin, DoGo, DoAlloc, DoSubmit, DoSettle, DoTake, DoPush, Goes, Allocated;
  }

  lemma OthersNotDying(s: State, a: Action)
    requires Enabled(s, a) && !Rebuilds(a) && !a.Fire? && !a.Retire? && !a.Timeout?
    ensures NotDying(s, a.t, Apply(s, a))
  {
    hide Room, DoAssign, DoNewGate, DoSetOwner, DoRegister, DoClearOwner, DoSwap, DoDestroy, DoDestroyReturn,
      DoDropGate, DoForgetGate, DoFree;
  }

  lemma DoomedStep(s: State, a: Action)
    requires Doomed(s) && Enabled(s, a)
    ensures Doomed(Apply(s, a))
  {
    hide CanDestroyReturn, DoDestroyReturn, CanAcquire;
    match a
    case Destroy(t) => assert Doomed(DoDestroy(s, t));
    case Fire(p, reply) =>
    case Retire(p) =>
    case Timeout(t, r) =>
    case _ =>
      if Rebuilds(a) {
        RebuildingNotDying(s, a);
      } else {
        OthersNotDying(s, a);
      }
      DoomedMove(s, Apply(s, a), a.t);
  }

  lemma DoomedMove(s: State, n: State, t: Tid)
    requires Doomed(s) && t in n.threads && n == Put(s, t, n.threads[t], n.core)
    requires n.core.passed == s.core.passed && Dying(n.threads[t]).None?
    ensures Doomed(n)
  {
  }
}
