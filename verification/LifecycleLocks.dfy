/** Mutual exclusion: no two threads are where the locks do not let them be at the same time. */
module LifecycleLocks {
  import opened Lifecycle

  ghost predicate Exclusive(s: State) {
    forall t, u :: t in s.threads && u in s.threads && t != u ==> !Conflict(s.threads[t], s.threads[u])
  }

  /** `b` holds no lock that `a` does not. */
  ghost predicate NoMore(a: Pc, b: Pc) {
    && (HoldsCreate(b) ==> HoldsCreate(a))
    && (SharesCtx(b) ==> SharesCtx(a)) && (OwnsCtx(b) ==> OwnsCtx(a))
    && (forall g :: (SharesGate(b, g) ==> SharesGate(a, g)) && (OwnsGate(b, g) ==> OwnsGate(a, g)))
    && (forall stream :: HoldsQueue(b, stream) ==> HoldsQueue(a, stream))
  }

  lemma Lighter(s: State, t: Tid, pc: Pc, k: Core)
    requires Exclusive(s)
    requires NoMore(if t in s.threads then s.threads[t] else Done, pc)
    ensures Exclusive(Put(s, t, pc, k))
  {
    hide HoldsCreate, SharesCtx, OwnsCtx, SharesGate, OwnsGate, HoldsQueue;
    forall u | u in s.threads && u != t
      ensures !Conflict(pc, s.threads[u]) && !Conflict(s.threads[u], pc)
    {
      LighterPair(if t in s.threads then s.threads[t] else Done, pc, s.threads[u]);
    }
  }

  lemma LighterPair(a: Pc, b: Pc, c: Pc)
    requires NoMore(a, b) && (a == Done || !Conflict(a, c)) && (a == Done || !Conflict(c, a))
    ensures !Conflict(b, c) && !Conflict(c, b)
  {
  }

  lemma AcquireExcludes(s: State, t: Tid)
    requires Exclusive(s) && CanAcquire(s, t)
    ensures Exclusive(DoAcquire(s, t))
  {
    hide Conflict, Acquired;
  }

  lemma TimeoutExcludes(s: State, t: Tid, r: Tid)
    requires Exclusive(s) && CanTimeout(s, t, r)
    ensures Exclusive(DoTimeout(s, t, r))
  {
    hide Exclusive;
    Lighter(s, t, Done, s.core);
    if s.threads[t].who.Creator? {
      var k := DoTimeout(s, t, r).core;
      var s' := Put(s, t, Done, s.core);
      Lighter(s', r, Op(Reaper, Awaiting, s.threads[t].p), k);
    }
  }

  /** One thread moves to where it holds no lock that it did not hold. */
  ghost predicate TakesNoLock(s: State, t: Tid, n: State) {
    && t in n.threads && n == Put(s, t, n.threads[t], n.core)
    && NoMore(if t in s.threads then s.threads[t] else Done, n.threads[t])
  }

  lemma AdoptionTakesNoLock(s: State, a: Action)
    requires Enabled(s, a) && (a.Assign? || a.NewGate? || a.SetOwner? || a.Register?)
    ensures TakesNoLock(s, a.t, Apply(s, a))
  {
    hide DoBegin, DoGo, DoAlloc, DoSubmit, DoSettle, DoTake, DoPush, Goes, Allocated, DoClearOwner, DoSwap, DoDestroy,
      DoDestroyReturn, DoDropGate, DoForgetGate, DoFree;
  }

  lemma DetachTakesNoLock(s: State, a: Action)
    requires Enabled(s, a) && (a.ClearOwner? || a.Swap? || a.Destroy? || a.DestroyReturns?)
    ensures TakesNoLock(s, a.t, Apply(s, a))
  {
    hide DoBegin, DoGo, DoAlloc, DoSubmit, DoSettle, DoTake, DoPush, Goes, Allocated, DoAssign, DoNewGate, DoSetOwner,
      DoRegister, DoDropGate, DoForgetGate, DoFree;
  }

  lemma EndingTakesNoLock(s: State, a: Action)
    requires Enabled(s, a) && (a.DropGate? || a.ForgetGate? || a.Free?)
    ensures TakesNoLock(s, a.t, Apply(s, a))
  {
    hide DoBegin, DoGo, DoAlloc, DoSubmit, DoSettle, DoTake, DoPush, Goes, Allocated, DoAssign, DoNewGate, DoSetOwner,
      DoRegister, DoClearOwner, DoSwap, DoDestroy, DoDestroyReturn;
  }

  lemma PromisesTakeNoLock(s: State, a: Action)
    requires Enabled(s, a) && TouchesPromises(a) && !a.Timeout? && !a.Fire? && !a.Retire?
    ensures TakesNoLock(s, a.t, Apply(s, a))
  {
    hide DoBegin, DoGo, DoPush, Goes, DoAssign, DoNewGate, DoSetOwner, DoRegister, DoClearOwner, DoSwap, DoDestroy,
      DoDestroyReturn, DoDropGate, DoForgetGate, DoFree;
  }

  lemma OthersTakeNoLock(s: State, a: Action)
    requires Enabled(s, a) && (a.Begin? || a.Go? || a.Push?)
    ensures TakesNoLock(s, a.t, Apply(s, a))
  {
    hide DoAlloc, DoSubmit, DoSettle, DoTake, DoAssign, DoNewGate, DoSetOwner, DoRegister, DoClearOwner, DoSwap,
      DoDestroy, DoDestroyReturn, DoDropGate, DoForgetGate, DoFree;
  }

  lemma StepTakesNoLock(s: State, a: Action)
    requires Enabled(s, a) && !a.Acquire? && !a.Timeout? && !a.Fire? && !a.Retire?
    ensures TakesNoLock(s, a.t, Apply(s, a))
  {
    hide Enabled, Apply, TakesNoLock;
    if a.Assign? || a.NewGate? || a.SetOwner? || a.Register? {
      AdoptionTakesNoLock(s, a);
    } else if a.ClearOwner? || a.Swap? || a.Destroy? || a.DestroyReturns? {
      DetachTakesNoLock(s, a);
    } else if Rebuilds(a) {
      EndingTakesNoLock(s, a);
    } else if TouchesPromises(a) {
      PromisesTakeNoLock(s, a);
    } else {
      OthersTakeNoLock(s, a);
    }
  }

  lemma ExclusiveStep(s: State, a: Action)
    requires Exclusive(s) && Enabled(s, a)
    ensures Exclusive(Apply(s, a))
  {
    hide Exclusive, CanAcquire, CanTimeout, DoAcquire, DoTimeout, NoMore;
    match a
    case Acquire(t) => AcquireExcludes(s, t);
    case Timeout(t, r) => TimeoutExcludes(s, t, r);
    case Fire(p, reply) => SameThreads(s, Apply(s, a));
    case Retire(p) => SameThreads(s, Apply(s, a));
    case _ =>
      var n := Apply(s, a);
      StepTakesNoLock(s, a);
      Lighter(s, a.t, n.threads[a.t], n.core);
  }

  lemma SameThreads(s: State, n: State)
    requires Exclusive(s) && n.threads == s.threads
    ensures Exclusive(n)
  {
  }
}
