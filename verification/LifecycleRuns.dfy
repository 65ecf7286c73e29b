/** What holds in every state of every run of the module, its callers, its teardown and the binding. */
module LifecycleRuns {
  import opened Order
  import opened Lifecycle
  import opened LifecycleLocks
  import opened LifecyclePromises
  import opened LifecycleContexts
  import opened LifecycleGates
  import opened LifecycleEvents

  ghost predicate Inv(s: State) {
    Exclusive(s) && Promised(s) && Ledgered(s) && Doomed(s) && Guarded(s) && Listed(s) && Accounted(s)
  }

  lemma InvInitially()
    ensures Inv(INITIAL)
  {
  }

  lemma InvStep(s: State, a: Action)
    requires Inv(s) && Enabled(s, a)
    ensures Inv(Apply(s, a))
  {
    hide Exclusive, Promised, Ledgered, Doomed, Guarded, Listed, Accounted, Apply;
    hide CanBegin, CanAcquire, CanGo, CanTimeout, CanAlloc, CanTake, CanFire, CanRetire, CanAssign,
      CanNewGate, CanSetOwner, CanRegister, CanPush, CanClearOwner, CanSwap, CanDestroy, CanDestroyReturn, CanDropGate,
      CanForgetGate, CanFree, Stands;
    ExclusiveStep(s, a);
    PromisedStep(s, a);
    if a.Assign? {
      AssignGuarded(s, a.t);
    }
    LedgeredStep(s, a);
    DoomedStep(s, a);
    GuardedStep(s, a);
    ListedStep(s, a);
    AccountedStep(s, a);
  }

  lemma {:induction false} InvAlways(run: seq<Action>)
    ensures Inv(After(run))
  {
    hide Inv, Enabled, Apply;
    if run == [] {
      InvInitially();
    } else {
      var s, a := After(run[..|run| - 1]), run[|run| - 1];
      InvAlways(run[..|run| - 1]);
      if Enabled(s, a) {
        InvStep(s, a);
      }
    }
  }

  lemma AfterSnoc(run: seq<Action>, a: Action)
    ensures
      var s := After(run);
      After(run + [a]) == if Enabled(s, a) then Apply(s, a) else s
  {
    assert (run + [a])[..|run|] == run;
  }

  // --------------------------------------------------------------- nothing freed is touched

  predicate GateThere(k: Core, g: Gid) {
    g in k.gates && k.gates[g].alive
  }

  predicate PromiseThere(k: Core, p: Pid) {
    p in k.promises && k.promises[p].deletes == 0
  }

  /** A context that was handed out and not passed to its destructor. */
  predicate CtxThere(k: Core, c: Ctx) {
    c in k.ledger && k.passed[c] == 0
  }

  /** A listener that found its module and uses it, to the end: after the push it emits the event. */
  predicate UsesModule(pc: Pc) {
    match pc
    case Op(who, _, _) => who.Listener?
    case Handle(_, h) => h.Seen? || h.InQueue? || h.Overflown? || h.InCtx? || (h.Leave? && h.saw)
    case _ => false
  }

  /** What the next step of a thread dereferences, frees or overwrites is fit for it. */
  ghost predicate Safe(k: Core, pc: Pc) {
    && (IsInside(pc) || UsesModule(pc) ==> k.alive)
    && (EventOf(pc).Some? ==> GateThere(k, EventOf(pc).value.gate))
    && match pc
       case Op(who, Ready, p) =>
         && PromiseThere(k, p) && k.promises[p].value.None?
         && (who.Caller? || who.Listener? ==> k.ctx.Some? && CtxThere(k, k.ctx.value))
       case Op(_, Sent, p) => p in k.promises && (k.promises[p].value.None? ==> PromiseThere(k, p))
       case Op(_, Awaiting, p) => p in k.promises && !k.promises[p].taken
       case Adopts(a, c) =>
         && CtxThere(k, c)
         && (if a.WantAdopt? || a.Adopt? then k.ctx.None? && k.gate.None? else k.ctx == Some(c))
         && (a.Assigned? ==> k.gate.None?)
         && (a.Gated? || a.Owned? || a.Half? ==> k.gate.Some? && GateThere(k, k.gate.value))
         && (a.Owned? || a.Half? ==> BoxOf(pc) !in k.boxes)
       case Reap(c, called) => !called ==> CtxThere(k, c)
       case Close(step) =>
         && (!step.Freed? ==> k.alive)
         && (step.AtGate? || step.OnGate? ==> GateThere(k, step.g))
         && (step.Swapped? && step.doomed.Some? ==> CtxThere(k, step.doomed.value))
         && (step.Destroyed? && step.ok && k.gate.Some? ==> GateThere(k, k.gate.value))
         && (step.Closed? ==> k.ctx.None? && k.gate.None?)
       case _ => true
  }

  /** A context that is somewhere has not been passed to its destructor. */
  lemma StillThere(s: State, c: Ctx, place: Place)
    requires Ledgered(s) && IsAt(s, c, place) && !place.Gone?
    ensures CtxThere(s.core, c)
  {
    assert !IsAt(s, c, Gone);
  }

  lemma LiveModuleAndGate(s: State, t: Tid)
    requires Guarded(s) && t in s.threads
    ensures IsInside(s.threads[t]) || UsesModule(s.threads[t]) ==> s.core.alive
    ensures EventOf(s.threads[t]).Some? ==> GateThere(s.core, EventOf(s.threads[t]).value.gate)
  {
    Each(s, t);
  }

  lemma SafePromise(s: State, t: Tid)
    requires Inv(s) && t in s.threads && s.threads[t].Op?
    ensures Safe(s.core, s.threads[t])
  {
    hide Exclusive, Accounted, IsAt, CoreGuarded;
    LiveModuleAndGate(s, t);
    Each(s, t);
    var pc := s.threads[t];
    assert Relies(s.core, t, pc.who, pc.stage, pc.p) && Orderly(s.core.promises[pc.p]);
    if pc.stage.Ready? && (pc.who.Caller? || pc.who.Listener?) {
      SubmitHasCtx(s, t);
    }
  }

  /** A submit on the context is under the shared lock, so the context is there. */
  lemma SubmitHasCtx(s: State, t: Tid)
    requires Guarded(s) && Ledgered(s) && t in s.threads && s.threads[t].Op? && s.threads[t].stage.Ready?
    requires s.threads[t].who.Caller? || s.threads[t].who.Listener?
    ensures s.core.ctx.Some? && CtxThere(s.core, s.core.ctx.value)
  {
    hide Ledgered;
    Each(s, t);
    StillThere(s, s.core.ctx.value, Member);
  }

  lemma SafeCreator(s: State, t: Tid)
    requires Inv(s) && t in s.threads && s.threads[t].Adopts?
    ensures Safe(s.core, s.threads[t])
  {
    hide Exclusive, Accounted, Promised, Ledgered, IsAt;
    LiveModuleAndGate(s, t);
    Each(s, t);
    var pc := s.threads[t];
    if pc.adopting.WantAdopt? || pc.adopting.Adopt? {
      HasLocal(s, t);
    } else {
      IsMember(s);
    }
  }

  lemma HasLocal(s: State, t: Tid)
    requires Ledgered(s) && t in s.threads && Local(s.threads[t]).Some?
    ensures CtxThere(s.core, Local(s.threads[t]).value)
  {
    hide Ledgered;
    StillThere(s, Local(s.threads[t]).value, Held(t));
  }

  lemma IsMember(s: State)
    requires Ledgered(s) && s.core.ctx.Some?
    ensures CtxThere(s.core, s.core.ctx.value)
  {
    hide Ledgered;
    StillThere(s, s.core.ctx.value, Member);
  }

  lemma SafeTeardown(s: State, t: Tid)
    requires Inv(s) && t in s.threads && s.threads[t].Close?
    ensures Safe(s.core, s.threads[t])
  {
    hide Exclusive, Accounted, Promised, Ledgered, IsAt;
    Each(s, t);
    if Local(s.threads[t]).Some? {
      HasLocal(s, t);
    }
  }

  lemma SafeState(s: State, t: Tid)
    requires Inv(s) && t in s.threads
    ensures Safe(s.core, s.threads[t])
  {
    hide Exclusive, Promised, Ledgered, Accounted, Guarded;
    match s.threads[t]
    case Op(_, _, _) => SafePromise(s, t);
    case Adopts(_, _) => SafeCreator(s, t);
    case Close(_) => SafeTeardown(s, t);
    case Reap(c, called) =>
      LiveModuleAndGate(s, t);
      if !called {
        HasLocal(s, t);
      }
    case _ => LiveModuleAndGate(s, t);
  }
}
