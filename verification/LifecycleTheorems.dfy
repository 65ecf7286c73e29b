/** The promises of the lifecycle, over every run. */
module LifecycleTheorems {
  import opened Order
  import opened Lifecycle
  import opened LifecycleLocks
  import opened LifecyclePromises
  import opened LifecycleContexts
  import opened LifecycleGates
  import opened LifecycleEvents
  import opened LifecycleRuns

  // ------------------------------------------------------------------------ memory

  /** No thread, wherever it stands, is about to touch the module, a gate, a context or a promise that is gone. */
  lemma NothingFreedIsTouched(run: seq<Action>, t: Tid)
    requires t in After(run).threads
    ensures Safe(After(run).core, After(run).threads[t])
  {
    hide After, Inv, Safe;
    InvAlways(run);
    SafeState(After(run), t);
  }

  /** Nor is the binding: a promise it still has to resolve is there and unresolved, one it has resolved is there. */
  lemma BindingTouchesNothingFreed(run: seq<Action>, p: Pid)
    requires p in After(run).core.promises
    ensures
      var pr := After(run).core.promises[p];
      && (pr.phase.Pending? ==> pr.deletes == 0 && pr.value.None?)
      && (pr.phase.Resolving? ==> pr.deletes == 0 && pr.value.Some?)
  {
    hide After, Exclusive, Ledgered, Guarded, Accounted;
    InvAlways(run);
  }

  /** A thread that may still delete a promise, or submit it. */
  predicate StandsAt(s: State, t: Tid, p: Pid) {
    t in s.threads && s.threads[t].Op? && !s.threads[t].stage.Awaiting? && s.threads[t].p == p
  }

  /**
   A promise is deleted once at most. It has been deleted unless its reply is still to come, the binding is about to
   delete it, or a thread is about to submit or to reclaim it; in particular once its reply has fired and the callback
   has returned, and once a refused submit is over.
   */
  lemma PromisesAreDeletedOnce(run: seq<Action>, p: Pid)
    requires p in After(run).core.promises
    ensures
      var pr := After(run).core.promises[p];
      && pr.deletes <= 1
      && (pr.phase.Fulfilled? ==> pr.deletes == 1)
      && (pr.deletes == 0 ==> pr.phase.Pending? || pr.phase.Resolving? || exists t :: StandsAt(After(run), t, p))
      && (pr.deletes == 1 ==> pr.phase.Fulfilled? || pr.phase.Refused?)
  {
    hide After, Exclusive, Ledgered, Guarded, Accounted;
    InvAlways(run);
    var s := After(run);
    var pr := s.core.promises[p];
    assert Orderly(pr) && Attended(s, p);
    if pr.deletes == 0 && !pr.phase.Pending? && !pr.phase.Resolving? {
      assert StandsAt(s, pr.reader, p);
    }
  }

  // ----------------------------------------------------------------------- contexts

  /** The contexts that the binding has handed out in a run. */
  ghost function Issued(run: seq<Action>): set<Ctx> {
    if run == [] then {}
    else
      var a := run[|run| - 1];
      Issued(run[..|run| - 1]) +
        if a.Fire? && a.reply.Some? && Enabled(After(run[..|run| - 1]), a) then {a.reply.value} else {}
  }

  lemma LedgerGrows(s: State, a: Action)
    requires Ledgered(s) && Promised(s) && Guarded(s) && Exclusive(s) && Enabled(s, a)
    ensures Apply(s, a).core.ledger.Keys ==
            s.core.ledger.Keys + if a.Fire? && a.reply.Some? then {a.reply.value} else {}
  {
    hide Ledgered, Promised, Guarded, Exclusive, Moved, Unmoved;
    hide CanTake, CanAssign, CanSwap, CanDestroy, DoTake, DoAssign, DoSwap, DoDestroy;
    match a
    case Take(t) => TakeLedger(s, t);
    case Assign(t) => AssignLedger(s, t);
    case Swap(t) => SwapLedger(s, t);
    case Destroy(t) => DestroyLedger(s, t);
    case Fire(p, reply) =>
    case _ =>
      StepUnmoved(s, a);
      SameLedger(s, Apply(s, a));
  }

  lemma SameLedger(s: State, n: State)
    requires Unmoved(s, n)
    ensures n.core.ledger == s.core.ledger
  {
  }

  lemma TakeLedger(s: State, t: Tid)
    requires Ledgered(s) && Promised(s) && CanTake(s, t)
    ensures DoTake(s, t).core.ledger.Keys == s.core.ledger.Keys
  {
    var pr := PromiseOf(s, t);
    assert Relies(s.core, t, s.threads[t].who, Awaiting, s.threads[t].p);
    if pr.value.value.Some? {
      assert IsAt(s, pr.value.value.value, InPromise(s.threads[t].p));
    }
  }

  lemma AssignLedger(s: State, t: Tid)
    requires Ledgered(s) && CanAssign(s, t)
    ensures DoAssign(s, t).core.ledger.Keys == s.core.ledger.Keys
  {
    assert IsAt(s, s.threads[t].c, Held(t));
  }

  lemma SwapLedger(s: State, t: Tid)
    requires Ledgered(s) && CanSwap(s, t)
    ensures DoSwap(s, t).core.ledger.Keys == s.core.ledger.Keys
  {
    if s.core.ctx.Some? {
      assert IsAt(s, s.core.ctx.value, Member);
    }
  }

  lemma DestroyLedger(s: State, t: Tid)
    requires Ledgered(s) && CanDestroy(s, t)
    ensures DoDestroy(s, t).core.ledger.Keys == s.core.ledger.Keys
  {
    assert IsAt(s, Local(s.threads[t]).value, Held(t));
  }

  lemma {:induction false} LedgerIsIssued(run: seq<Action>)
    ensures After(run).core.ledger.Keys == Issued(run)
  {
    hide Enabled, Apply, Ledgered, Promised, Guarded, Exclusive, Accounted;
    if run != [] {
      var front, a := run[..|run| - 1], run[|run| - 1];
      LedgerIsIssued(front);
      InvAlways(front);
      if Enabled(After(front), a) {
        LedgerGrows(After(front), a);
      }
    }
  }

  /**
   Each context that the binding handed out is in exactly one place: an unread reply, a thread's local variable, the
   member, or passed to its destructor; and it was passed there once at most. No other context is anywhere.
   */
  lemma EveryContextIsInOnePlace(run: seq<Action>, c: Ctx)
    ensures c in Issued(run) <==> exists place :: IsAt(After(run), c, place)
    ensures forall p, q :: IsAt(After(run), c, p) && IsAt(After(run), c, q) ==> p == q
    ensures After(run).core.passed[c] <= 1
  {
    hide After, Issued, IsAt, Exclusive, Promised, Guarded, Accounted;
    InvAlways(run);
    LedgerIsIssued(run);
    if c in Issued(run) {
      assert IsAt(After(run), c, After(run).core.ledger[c]);
    }
  }

  /** A context in an unread reply has a reader: the creator that awaits it, or the thread left behind to reap it. */
  lemma UnreadContextHasReader(run: seq<Action>, c: Ctx, p: Pid)
    requires IsAt(After(run), c, InPromise(p))
    ensures exists t :: t in After(run).threads &&
              (After(run).threads[t] == Op(Creator, Awaiting, p) || After(run).threads[t] == Op(Reaper, Awaiting, p))
  {
    hide After, Exclusive, Ledgered, Guarded, Accounted;
    InvAlways(run);
    var s := After(run);
    var pr := s.core.promises[p];
    assert Orderly(pr) && Attended(s, p);
    assert Relies(s.core, pr.reader, s.threads[pr.reader].who, Awaiting, p);
  }

  /** A context that arrives after its create timed out is destroyed by the next two steps of the thread left behind. */
  lemma LateContextIsReaped(run: seq<Action>, t: Tid, c: Ctx, p: Pid)
    requires t in After(run).threads && After(run).threads[t] == Op(Reaper, Awaiting, p)
    requires p in After(run).core.promises && After(run).core.promises[p].value == Some(Some(c))
    ensures IsAt(After(run + [Take(t), Destroy(t)]), c, Gone)
    ensures After(run + [Take(t), Destroy(t)]).core.ctx == After(run).core.ctx
  {
    hide After;
    AfterSnoc(run, Take(t));
    AfterSnoc(run + [Take(t)], Destroy(t));
    assert run + [Take(t), Destroy(t)] == run + [Take(t)] + [Destroy(t)];
    var s := After(run);
    assert Enabled(s, Take(t));
    var n := DoTake(s, t);
    assert n.threads[t] == Reap(c, false);
    assert Enabled(n, Destroy(t));
  }

  /** A context is adopted only while there is none: concurrent creates never overwrite one. */
  lemma AdoptionOverwritesNothing(run: seq<Action>, t: Tid)
    requires Enabled(After(run), Assign(t))
    ensures After(run).core.ctx.None? && After(run).core.gate.None?
  {
    hide After, Promised, Ledgered, Accounted, Exclusive;
    InvAlways(run);
    AssignGuarded(After(run), t);
  }

  // ------------------------------------------------------------------------ teardown

  /** No submit runs on a context that is being destroyed, or was: the one it runs on is the member, not passed on. */
  lemma DoomedContextIsInNoSubmit(run: seq<Action>, t: Tid, u: Tid)
    requires t in After(run).threads && Dying(After(run).threads[t]).Some?
    requires u in After(run).threads && After(run).threads[u].Op? && After(run).threads[u].stage.Ready?
    requires After(run).threads[u].who.Caller? || After(run).threads[u].who.Listener?
    ensures After(run).core.ctx.Some? && After(run).core.ctx != Dying(After(run).threads[t])
    ensures After(run).core.passed[After(run).core.ctx.value] == 0
    ensures !After(run).threads[t].Close?
  {
    hide After, Promised, Accounted, Exclusive, Ledgered;
    InvAlways(run);
    SubmitHasCtx(After(run), u);
    Each(After(run), t);
  }

  /** Past the clearing of the owner no listener is past its check, and none will find the module. */
  lemma DetachWaitsOutListeners(run: seq<Action>, t: Tid, u: Tid)
    requires t in After(run).threads && After(run).threads[t].Close?
    requires
      var step := After(run).threads[t].step;
      !step.Start? && !step.AtGate? && !step.OnGate?
    requires u in After(run).threads
    ensures !UsesModule(After(run).threads[u])
    ensures forall g :: !OwnerSet(After(run).core, g)
  {
    hide After, Promised, Accounted, Exclusive, Ledgered, CoreGuarded;
    InvAlways(run);
    Each(After(run), t);
    Each(After(run), u);
  }

  /**
   A gate goes only after a teardown that reported success: some context with a listener on it was destroyed with
   success, and so was every other one that has listeners on it; no running listener holds it.
   */
  lemma GateGoesAfterSuccess(run: seq<Action>, g: Gid)
    requires g in After(run).core.gates && !After(run).core.gates[g].alive
    ensures exists b :: b in After(run).core.boxes && After(run).core.boxes[b] == g && b.ctx in After(run).core.quiet
    ensures forall b :: b in After(run).core.boxes && After(run).core.boxes[b] == g ==> b.ctx in After(run).core.quiet
    ensures forall t :: t in After(run).threads && EventOf(After(run).threads[t]).Some? ==>
              EventOf(After(run).threads[t]).value.gate != g
  {
    hide After, Promised, Accounted, Exclusive, Ledgered, Listed;
    InvAlways(run);
    var s := After(run);
    forall t | t in s.threads && EventOf(s.threads[t]).Some?
      ensures EventOf(s.threads[t]).value.gate != g
    {
      LiveModuleAndGate(s, t);
    }
    GoneGateHasBox(s, g);
    var b :| b in s.core.boxes && s.core.boxes[b] == g;
  }

  /** A gate that is gone had its listeners: its creator finished before the teardown began. */
  lemma GoneGateHasBox(s: State, g: Gid)
    requires Guarded(s) && Listed(s) && g in s.core.gates && !s.core.gates[g].alive
    ensures HasBox(s.core, g)
  {
    hide HasBox;
    forall t | t in s.threads
      ensures !Unlisted(s.threads[t])
    {
      Each(s, t);
    }
  }

  /** A destruction that reports success frees the one gate there is; after a failure every gate stays as it was. */
  lemma SuccessFreesTheGate(run: seq<Action>, t: Tid, c: Ctx, ok: bool)
    requires t in After(run).threads && After(run).threads[t] == Close(Destroyed(c, ok))
    ensures ok ==> forall g :: g in After(run + [DropGate(t)]).core.gates ==>
                     !After(run + [DropGate(t)]).core.gates[g].alive
    ensures !ok ==> After(run + [DropGate(t)]).core.gates == After(run).core.gates
    ensures forall g :: g in After(run).core.gates ==> After(run).core.gates[g].alive
  {
    hide After, Promised, Accounted, Exclusive, Ledgered;
    InvAlways(run);
    Each(After(run), t);
    AfterSnoc(run, DropGate(t));
  }

  /** A thread left behind by a create that timed out, still to take the context out of this place and destroy it. */
  predicate LeftToReap(s: State, u: Tid, c: Ctx, place: Place) {
    && u in s.threads
    && ((place == Held(u) && s.threads[u] == Reap(c, false)) ||
        (place.InPromise? && s.threads[u] == Op(Reaper, Awaiting, place.p)))
  }

  /** Once the destruction has returned, each context handed out is passed to its destructor or left to be reaped. */
  lemma TeardownLeavesNoContext(run: seq<Action>, t: Tid, c: Ctx, place: Place)
    requires t in After(run).threads && After(run).threads[t].Close?
    requires
      var step := After(run).threads[t].step;
      step.Destroyed? || step.Forget? || step.AtQueue? || step.OnQueue? || step.Closed? || step.Freed?
    requires IsAt(After(run), c, place)
    ensures place == Gone || exists u :: LeftToReap(After(run), u, c, place)
  {
    hide After, Exclusive, Ledgered, Accounted, CoreGuarded, LeftToReap;
    InvAlways(run);
    var s := After(run);
    Each(s, t);
    match place
    case InPromise(p) =>
      UnreadContextHasReader(run, c, p);
      var u :| u in s.threads && (s.threads[u] == Op(Creator, Awaiting, p) || s.threads[u] == Op(Reaper, Awaiting, p));
      Each(s, u);
      ReaperIsLeft(s, u, c, place);
    case Held(u) =>
      Each(s, u);
      ReaperIsLeft(s, u, c, place);
    case _ =>
  }

  lemma ReaperIsLeft(s: State, u: Tid, c: Ctx, place: Place)
    requires u in s.threads
    ensures place == Held(u) && s.threads[u] == Reap(c, false) ==> LeftToReap(s, u, c, place)
    ensures place.InPromise? && s.threads[u] == Op(Reaper, Awaiting, place.p) ==> LeftToReap(s, u, c, place)
  {
  }

  // -------------------------------------------------------------------------- events

  /**
   An event that found its module ends in one way: a stream is queued once, or its release is submitted once; a message
   is queued or dropped. One that came too late touches nothing.
   */
  lemma EventsEndInOneWay(run: seq<Action>, t: Tid, e: Event, saw: bool)
    requires t in After(run).threads && After(run).threads[t] == Handle(e, Over(saw))
    ensures
      var q, r := After(run).core.queued[t], After(run).core.released[t];
      if !saw then q == 0 && r == 0
      else if e.stream then q + r == 1
      else q <= 1 && r == 0
  {
    hide After, Promised, Guarded, Exclusive, Ledgered;
    InvAlways(run);
    One(After(run), t);
  }

  /** A listener past the owner check has the module, its own gate and a context that is not destroyed. */
  lemma ListenerHasContext(run: seq<Action>, t: Tid)
    requires t in After(run).threads && UsesModule(After(run).threads[t])
    ensures
      var k := After(run).core;
      k.alive && k.ctx.Some? && CtxThere(k, k.ctx.value) && GateThere(k, EventOf(After(run).threads[t]).value.gate)
  {
    hide After, Promised, Exclusive, Accounted, IsAt;
    InvAlways(run);
    var s := After(run);
    LiveModuleAndGate(s, t);
    Each(s, t);
    assert s.core.ctx.Some?;
    IsMember(s);
  }

  /** So the early return of the release, for want of a context, is never taken. */
  lemma ReleaseIsNeverSkipped(run: seq<Action>, t: Tid, e: Event)
    requires t in After(run).threads && After(run).threads[t] == Handle(e, InCtx)
    ensures !Enabled(After(run), Go(t))
    ensures forall p :: p !in After(run).core.promises ==> Enabled(After(run), Alloc(t, p))
  {
    hide After;
    ListenerHasContext(run, t);
  }
}
