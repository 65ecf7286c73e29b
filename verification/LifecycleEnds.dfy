/** How each thread comes to its end, over every run: no call, create or listener stops short. */
module LifecycleEnds {
  import opened Order
  import opened Lifecycle
  import opened LifecycleLocks
  import opened LifecyclePromises
  import opened LifecycleContexts
  import opened LifecycleGates
  import opened LifecycleEvents
  import opened LifecycleRuns

  // --------------------------------------------------------------------------- the roles

  datatype Role = Calls | CallsStatic | Creates | Reaps | Listens | Closes | UsesQueue | Nobody

  function RoleOf(pc: Pc): Role {
    match pc
    case CallWant => Calls
    case CallIn => Calls
    case StaticStart => CallsStatic
    case Op(who, _, _) =>
      (match who
       case Caller => Calls
       case Static => CallsStatic
       case Creator => Creates
       case Listener(_) => Listens
       case Reaper => Reaps)
    case Make(_) => Creates
    case Adopts(_, _) => Creates
    case Reap(_, _) => Reaps
    case Handle(_, _) => Listens
    case Close(_) => Closes
    case Queue(_, _) => UsesQueue
    case Done => Nobody
  }

  /** Both listeners of the context are registered on a gate whose owner is set. */
  predicate Adopted(k: Core, c: Ctx) {
    && k.ctx == Some(c) && k.gate.Some? && OwnerSet(k, k.gate.value)
    && Box(c, true) in k.boxes && k.boxes[Box(c, true)] == k.gate.value
    && Box(c, false) in k.boxes && k.boxes[Box(c, false)] == k.gate.value
  }

  /** The last step of a thread that returns from `pc`, and why it was the last. */
  ghost predicate EndsWell(s: State, a: Action, pc: Pc, n: State) {
    match pc
    case CallIn => a.Go? && s.core.ctx.None?
    case Make(m) => m.Look? && a.Go? && s.core.ctx.Some?
    case Op(who, stage, p) =>
      && p in s.core.promises && !who.Listener?
      && ((stage.Sent? && a.Settle?) ||
          (stage.Awaiting? && a.Timeout? && !who.Reaper?) ||
          (stage.Awaiting? && a.Take? && s.core.promises[p].value.Some? &&
           (who.Creator? || who.Reaper? ==> s.core.promises[p].value == Some(None))))
    case Adopts(adopting, c) => adopting.Half? && a.Register? && Adopted(n.core, c)
    case Reap(_, called) => called && a.DestroyReturns?
    case Queue(_, inside) => inside && a.Go?
    case _ => false
  }

  // ------------------------------------------------------------------ what listeners saw

  function TheEvent(pc: Pc): Option<Event> {
    match pc
    case Handle(e, _) => Some(e)
    case Op(Listener(e), _, _) => Some(e)
    case _ => None
  }

  /** Whether a listener past its check found the owner. */
  function Saw(pc: Pc): Option<bool> {
    match pc
    case Op(Listener(_), _, _) => Some(true)
    case Handle(_, h) =>
      (match h
       case WantGate => None
       case InGate => None
       case Leave(saw) => Some(saw)
       case Over(saw) => Some(saw)
       case _ => Some(true))
    case _ => None
  }

  predicate AfterPush(pc: Pc) {
    match pc
    case Op(who, _, _) => who.Listener?
    case Handle(_, h) => h.Overflown? || h.InCtx? || h == Leave(true) || h == Over(true)
    case _ => false
  }

  // ------------------------------------------------------------------------- one step

  /** What a step of a thread makes of its role, of what it saw, and of whether it has pushed. */
  ghost predicate Follows(s: State, a: Action, pc: Pc, n: State, next: Pc) {
    && (next == Done ==> EndsWell(s, a, pc, n))
    && (next != Done ==> RoleOf(next) == RoleOf(pc))
    && (Saw(next).Some? ==>
          || (Saw(pc) == Saw(next) && TheEvent(pc) == TheEvent(next))
          || (TheEvent(next).Some? && pc == Handle(TheEvent(next).value, InGate) && a.Go? &&
              Saw(next).value == OwnerSet(s.core, TheEvent(next).value.gate)))
    && (AfterPush(next) <==> AfterPush(pc) || a.Push?) && (a.Push? ==> !AfterPush(pc))
  }

  ghost predicate Moves(s: State, a: Action, t: Tid, n: State) {
    && t in s.threads && t in n.threads && n.threads == s.threads[t := n.threads[t]]
    && Follows(s, a, s.threads[t], n, n.threads[t])
  }

  lemma RegisterMoves(s: State, t: Tid)
    requires Guarded(s) && CanRegister(s, t)
    ensures Moves(s, Register(t), t, DoRegister(s, t))
  {
    hide Guarded;
    Each(s, t);
  }

  lemma AdoptionMoves(s: State, a: Action)
    requires Enabled(s, a) && (a.Assign? || a.NewGate? || a.SetOwner?)
    ensures Moves(s, a, a.t, Apply(s, a))
  {
    hide DoGo, DoAlloc, DoSubmit, DoSettle, DoTake, DoPush, Goes, Allocated, DoClearOwner, DoSwap, DoDestroy,
      DoDestroyReturn, DoDropGate, DoForgetGate, DoFree, DoRegister, EndsWell;
  }

  lemma TeardownMoves(s: State, a: Action)
    requires Enabled(s, a) && Rebuilds(a) && !a.Assign? && !a.NewGate? && !a.SetOwner? && !a.Register?
    ensures Moves(s, a, a.t, Apply(s, a))
  {
    hide DoGo, DoAlloc, DoSubmit, DoSettle, DoTake, DoPush, Goes, Allocated;
    hide DoAssign, DoNewGate, DoSetOwner, DoRegister;
  }

  lemma AllocMoves(s: State, t: Tid, p: Pid)
    requires CanAlloc(s, t, p)
    ensures Moves(s, Alloc(t, p), t, DoAlloc(s, t, p))
  {
    hide EndsWell;
  }

  lemma SubmitMoves(s: State, t: Tid, answer: Answer)
    requires Stands(s, t, Ready)
    ensures Moves(s, Submit(t, answer), t, DoSubmit(s, t, answer))
  {
    hide EndsWell;
  }

  lemma SettleMoves(s: State, t: Tid)
    requires Stands(s, t, Sent)
    ensures Moves(s, Settle(t), t, DoSettle(s, t))
  {
  }

  lemma TakeMoves(s: State, t: Tid)
    requires Promised(s) && CanTake(s, t)
    ensures Moves(s, Take(t), t, DoTake(s, t))
  {
    hide Promised;
    Standing(s, t);
  }

  lemma GoMoves(s: State, t: Tid)
    requires CanGo(s, t)
    ensures Moves(s, Go(t), t, DoGo(s, t))
  {
  }

  lemma AcquireMoves(s: State, t: Tid)
    requires CanAcquire(s, t)
    ensures Moves(s, Acquire(t), t, DoAcquire(s, t))
  {
    hide Room, EndsWell;
  }

  lemma PushMoves(s: State, t: Tid, fits: bool)
    requires CanPush(s, t)
    ensures Moves(s, Push(t, fits), t, DoPush(s, t, fits))
  {
    hide EndsWell;
  }

  /** A step that is neither a beginning, nor a timeout, nor the binding's own, moves just the thread that takes it. */
  lemma StepMoves(s: State, a: Action)
    requires Guarded(s) && Promised(s) && Enabled(s, a) && !a.Begin? && !a.Timeout? && !a.Fire? && !a.Retire?
    ensures Moves(s, a, a.t, Apply(s, a))
  {
    hide Guarded, Promised, Moves, CanAcquire, CanGo, CanAlloc, CanTake, CanRegister, CanPush, Stands;
    hide DoAcquire, DoGo, DoAlloc, DoSubmit, DoSettle, DoTake, DoRegister, DoPush;
    match a
    case Acquire(t) => AcquireMoves(s, t);
    case Go(t) => GoMoves(s, t);
    case Alloc(t, p) => AllocMoves(s, t, p);
    case Submit(t, answer) => SubmitMoves(s, t, answer);
    case Settle(t) => SettleMoves(s, t);
    case Take(t) => TakeMoves(s, t);
    case Register(t) => RegisterMoves(s, t);
    case Push(t, fits) => PushMoves(s, t, fits);
    case _ =>
      if a.Assign? || a.NewGate? || a.SetOwner? {
        AdoptionMoves(s, a);
      } else {
        TeardownMoves(s, a);
      }
  }

  predicate IsOf(a: Action, t: Tid) {
    !a.Fire? && !a.Retire? && a.t == t
  }

  lemma TimeoutMoves(s: State, t: Tid, r: Tid, u: Tid)
    requires Promised(s) && CanTimeout(s, t, r)
    ensures
      var n := DoTimeout(s, t, r);
      && (u in s.threads ==>
            (u in n.threads &&
             if u == t then Follows(s, Timeout(t, r), s.threads[u], n, n.threads[u])
             else n.threads[u] == s.threads[u]))
      && (u !in s.threads && u in n.threads ==>
            (u == r && s.threads[t].who.Creator? && n.threads[u] == Op(Reaper, Awaiting, s.threads[t].p)))
  {
    hide Promised;
    Standing(s, t);
  }

  /** What a step makes of one thread: nothing, or it is that thread's own step. */
  lemma ThreadStep(s: State, a: Action, u: Tid)
    requires Inv(s) && Enabled(s, a) && u in s.threads
    ensures
      var n := Apply(s, a);
      && u in n.threads
      && if IsOf(a, u) then Follows(s, a, s.threads[u], n, n.threads[u]) else n.threads[u] == s.threads[u]
  {
    hide Exclusive, Promised, Ledgered, Doomed, Guarded, Listed, Accounted, Follows, CanTimeout, DoTimeout;
    match a
    case Begin(t, pc) =>
    case Fire(p, reply) =>
    case Retire(p) =>
    case Timeout(t, r) => TimeoutMoves(s, t, r, u);
    case _ => StepMoves(s, a);
  }

  /** A thread that was not there has begun, or was left behind by a create that timed out. */
  lemma NewThread(s: State, a: Action, u: Tid)
    requires Inv(s) && Enabled(s, a) && u !in s.threads && u in Apply(s, a).threads
    ensures
      || (a.Begin? && a.t == u && Apply(s, a).threads[u] == a.pc)
      || (a.Timeout? && a.reaper == u && a.t in s.threads && s.threads[a.t].Op? && s.threads[a.t].who.Creator? &&
          Apply(s, a).threads[u] == Op(Reaper, Awaiting, s.threads[a.t].p))
  {
    hide Exclusive, Promised, Ledgered, Doomed, Guarded, Listed, Accounted, DoTimeout;
    match a
    case Begin(t, pc) =>
    case Fire(p, reply) =>
    case Retire(p) =>
    case Timeout(t, r) => TimeoutMoves(s, t, r, u);
    case _ => StepMoves(s, a);
  }

  // -------------------------------------------------------------------------- whole runs

  /** What a thread of the run was begun as. */
  ghost function RoleIn(run: seq<Action>, t: Tid): Option<Role> {
    if run == [] then None
    else
      var s, a := After(run[..|run| - 1]), run[|run| - 1];
      var before := RoleIn(run[..|run| - 1], t);
      if before.Some? || !Enabled(s, a) then before
      else if a.Begin? && a.t == t then Some(RoleOf(a.pc))
      else if a.Timeout? && a.reaper == t && s.threads[a.t].who.Creator? then Some(Reaps)
      else None
  }

  /** A thread keeps its role until it is done. */
  lemma {:induction false} RolesKept(run: seq<Action>, t: Tid)
    ensures t in After(run).threads <==> RoleIn(run, t).Some?
    ensures t in After(run).threads && After(run).threads[t] != Done ==>
              RoleIn(run, t) == Some(RoleOf(After(run).threads[t]))
  {
    hide Enabled, Apply, Inv, Follows, RoleOf;
    if run == [] {
    } else {
      var front, a := run[..|run| - 1], run[|run| - 1];
      var s := After(front);
      RolesKept(front, t);
      InvAlways(front);
      if Enabled(s, a) {
        if t in s.threads {
          ThreadStep(s, a, t);
          RoleFollows(s, a, s.threads[t], Apply(s, a), Apply(s, a).threads[t]);
        } else if t in Apply(s, a).threads {
          NewThread(s, a, t);
          ReaperRole();
        } else {
          NotNew(s, a, t);
        }
      }
    }
  }

  lemma RoleFollows(s: State, a: Action, pc: Pc, n: State, next: Pc)
    ensures Follows(s, a, pc, n, next) && next != Done ==> RoleOf(next) == RoleOf(pc)
    ensures Follows(s, a, pc, n, next) && pc == Done ==> next == Done
  {
  }

  lemma ReaperRole()
    ensures forall p :: RoleOf(Op(Reaper, Awaiting, p)) == Reaps
  {
  }

  lemma NotNew(s: State, a: Action, t: Tid)
    requires Inv(s) && Enabled(s, a) && t !in s.threads && t !in Apply(s, a).threads
    ensures !(a.Begin? && a.t == t)
    ensures a.Timeout? && s.threads[a.t].who.Creator? ==> a.reaper != t
  {
    hide Inv;
    match a
    case Begin(_, _) =>
    case Timeout(_, _) =>
    case _ =>
  }

  /** The thread begins at `pc` with the `j`-th action of the run. */
  ghost predicate Begins(run: seq<Action>, j: nat, t: Tid, pc: Pc) {
    j < |run| && run[j] == Begin(t, pc) && Enabled(After(run[..j]), run[j])
  }

  lemma {:induction false} BeganInRole(run: seq<Action>, j: nat, t: Tid, pc: Pc)
    requires Begins(run, j, t, pc)
    ensures RoleIn(run, t) == Some(RoleOf(pc))
  {
    hide Enabled, After, RoleOf;
    var front := run[..|run| - 1];
    if j == |run| - 1 {
      RolesKept(front, t);
      assert t !in After(front).threads by {
        BeginIsNew(After(front), t, pc);
      }
    } else {
      assert front[..j] == run[..j];
      BeganInRole(front, j, t, pc);
    }
  }

  lemma BeginIsNew(s: State, t: Tid, pc: Pc)
    requires Enabled(s, Begin(t, pc))
    ensures t !in s.threads
  {
  }

  /** The `i`-th action of the run is the last step of the thread, and its reason is a good one. */
  ghost predicate EndsAt(run: seq<Action>, i: nat, t: Tid) {
    && i < |run| && Enabled(After(run[..i]), run[i]) && IsOf(run[i], t)
    && t in After(run[..i]).threads && RoleIn(run, t) == Some(RoleOf(After(run[..i]).threads[t]))
    && EndsWell(After(run[..i]), run[i], After(run[..i]).threads[t], Apply(After(run[..i]), run[i]))
  }

  lemma EndsHere(s: State, a: Action, pc: Pc, n: State)
    ensures Follows(s, a, pc, n, Done) ==> EndsWell(s, a, pc, n)
  {
  }

  /** A thread that was done was ended by some step of its own, from where threads of its role may end. */
  lemma {:induction false} HowThreadsEnd(run: seq<Action>, t: Tid) returns (i: nat)
    requires t in After(run).threads && After(run).threads[t] == Done
    ensures EndsAt(run, i, t)
  {
    hide Enabled, Apply, Inv, Follows, RoleOf, EndsWell, RoleIn;
    var front, a := run[..|run| - 1], run[|run| - 1];
    var s := After(front);
    InvAlways(front);
    RolesKept(front, t);
    RolesKept(run, t);
    RoleStays(run, t);
    if t in s.threads && s.threads[t] == Done {
      i := HowThreadsEnd(front, t);
      assert front[..i] == run[..i];
    } else if t in s.threads {
      i := |run| - 1;
      ThreadStep(s, a, t);
      EndsHere(s, a, s.threads[t], Apply(s, a));
    } else {
      i := 0;
      NewThread(s, a, t);
      if a.Begin? {
        BeginsAfresh(s, a);
      }
    }
  }

  /** A thread that begins has not returned, has checked no gate and has pushed nothing. */
  lemma BeginsAfresh(s: State, a: Action)
    requires Enabled(s, a) && a.Begin?
    ensures a.pc != Done && Saw(a.pc) == None && !AfterPush(a.pc)
  {
  }

  lemma RoleStays(run: seq<Action>, t: Tid)
    requires run != []
    ensures RoleIn(run[..|run| - 1], t).Some? ==> RoleIn(run, t) == RoleIn(run[..|run| - 1], t)
  {
  }

  /** What the last step of a thread was, for the theorems: where it stood, what it did, and what came of it. */
  ghost predicate LastStep(run: seq<Action>, i: nat, t: Tid, pc: Pc, s: State, n: State) {
    && i < |run| && s == After(run[..i]) && t in s.threads && s.threads[t] == pc
    && Enabled(s, run[i]) && n == Apply(s, run[i])
  }

  /**
   A creator returns for one of five reasons: it found a context; its submit was refused and settled; it gave up
   waiting; the reply carried no context; or it has adopted one, its gate owned and both listeners registered on it.
   */
  lemma HowCreatorsEnd(run: seq<Action>, j: nat, t: Tid)
    requires Begins(run, j, t, Make(Want)) && t in After(run).threads && After(run).threads[t] == Done
    ensures exists i, pc, s, n :: LastStep(run, i, t, pc, s, n) &&
              match pc {
                case Make(Look) => run[i] == Go(t) && s.core.ctx.Some?
                case Op(Creator, Sent, _) => run[i] == Settle(t)
                case Op(Creator, Awaiting, p) =>
                  || (run[i].Timeout? && run[i].t == t)
                  || (run[i] == Take(t) && p in s.core.promises && s.core.promises[p].value == Some(None))
                case Adopts(Half, c) => run[i] == Register(t) && Adopted(n.core, c)
                case _ => false
              }
  {
    hide After, Enabled, Apply, Adopted, RoleIn;
    BeganInRole(run, j, t, Make(Want));
    var i := HowThreadsEnd(run, t);
    var s := After(run[..i]);
    assert LastStep(run, i, t, s.threads[t], s, Apply(s, run[i]));
  }

  /** A caller returns for want of a context, after settling a refused submit, on giving up, or with its reply. */
  lemma HowCallersEnd(run: seq<Action>, j: nat, t: Tid)
    requires Begins(run, j, t, CallWant) && t in After(run).threads && After(run).threads[t] == Done
    ensures exists i, pc, s, n :: LastStep(run, i, t, pc, s, n) &&
              match pc {
                case CallIn => run[i] == Go(t) && s.core.ctx.None?
                case Op(Caller, Sent, _) => run[i] == Settle(t)
                case Op(Caller, Awaiting, p) =>
                  || (run[i].Timeout? && run[i].t == t)
                  || (run[i] == Take(t) && p in s.core.promises && s.core.promises[p].value.Some?)
                case _ => false
              }
  {
    hide After, Enabled, Apply, Adopted, RoleIn;
    BeganInRole(run, j, t, CallWant);
    var i := HowThreadsEnd(run, t);
    var s := After(run[..i]);
    assert LastStep(run, i, t, s.threads[t], s, Apply(s, run[i]));
  }

  // --------------------------------------------------------------------- the listeners

  /** The `i`-th action was the listener's check under the gate lock, and found the owner or not. */
  ghost predicate ChecksOwner(run: seq<Action>, i: nat, t: Tid, e: Event, saw: bool) {
    && i < |run| && run[i] == Go(t) && t in After(run[..i]).threads && After(run[..i]).threads[t] == Handle(e, InGate)
    && saw == OwnerSet(After(run[..i]).core, e.gate)
  }

  lemma SawBySteps(s: State, a: Action, t: Tid, n: State)
    requires t in s.threads && t in n.threads && Saw(n.threads[t]).Some?
    requires Follows(s, a, s.threads[t], n, n.threads[t]) && IsOf(a, t)
    ensures TheEvent(n.threads[t]).Some?
    ensures
      || (Saw(s.threads[t]) == Saw(n.threads[t]) && TheEvent(s.threads[t]) == TheEvent(n.threads[t]))
      || (s.threads[t] == Handle(TheEvent(n.threads[t]).value, InGate) && a == Go(t) &&
          Saw(n.threads[t]).value == OwnerSet(s.core, TheEvent(n.threads[t]).value.gate))
  {
  }

  /** What a listener knows of the owner it read once, under the gate lock, of its own gate. */
  lemma {:induction false} HowListenersSaw(run: seq<Action>, t: Tid) returns (i: nat)
    requires t in After(run).threads && Saw(After(run).threads[t]).Some?
    ensures TheEvent(After(run).threads[t]).Some?
    ensures ChecksOwner(run, i, t, TheEvent(After(run).threads[t]).value, Saw(After(run).threads[t]).value)
  {
    hide Enabled, Apply, Inv, Follows, Saw, TheEvent, OwnerSet;
    var front, a := run[..|run| - 1], run[|run| - 1];
    var s := After(front);
    InvAlways(front);
    if t !in s.threads {
      i := 0;
      NewThread(s, a, t);
      if a.Begin? {
        BeginsAfresh(s, a);
      } else {
        ReaperSawNothing(s.threads[a.t].p);
      }
    } else if Enabled(s, a) && Apply(s, a).threads[t] != s.threads[t] {
      ThreadStep(s, a, t);
      SawBySteps(s, a, t, Apply(s, a));
      var n := Apply(s, a);
      if Saw(s.threads[t]) == Saw(n.threads[t]) && TheEvent(s.threads[t]) == TheEvent(n.threads[t]) {
        i := HowListenersSaw(front, t);
        assert front[..i] == run[..i];
      } else {
        i := |run| - 1;
        assert run[..i] == front;
      }
    } else {
      i := HowListenersSaw(front, t);
      assert front[..i] == run[..i];
    }
  }

  lemma ReaperSawNothing(p: Pid)
    ensures Saw(Op(Reaper, Awaiting, p)) == None && !AfterPush(Op(Reaper, Awaiting, p))
  {
  }

  // ------------------------------------------------------------------------ the push

  /** Whether the push of a listener fitted, once it has pushed. */
  ghost function Pushed(run: seq<Action>, t: Tid): Option<bool> {
    if run == [] then None
    else
      var a := run[|run| - 1];
      if a.Push? && a.t == t && Enabled(After(run[..|run| - 1]), a) then Some(a.fits)
      else Pushed(run[..|run| - 1], t)
  }

  /** Only a push that fits queues an event. */
  lemma QueuedStep(s: State, a: Action)
    requires Enabled(s, a)
    ensures Apply(s, a).core.queued == s.core.queued + if a.Push? && a.fits then multiset{a.t} else multiset{}
  {
    hide Room, Goes, Allocated, Acquired, Submitted, Reads, Local, Dying;
    hide DoTimeout, DoAlloc, DoSubmit, DoSettle, DoTake, DoFire, DoRetire;
    hide DoAssign, DoNewGate, DoSetOwner, DoRegister, DoClearOwner, DoSwap, DoDestroy, DoDestroyReturn, DoDropGate,
      DoForgetGate, DoFree;
    if Rebuilds(a) || TouchesPromises(a) {
      OtherQueued(s, a);
    }
  }

  lemma OtherQueued(s: State, a: Action)
    requires Enabled(s, a) && (Rebuilds(a) || TouchesPromises(a))
    ensures Apply(s, a).core.queued == s.core.queued
  {
    hide Room, Goes, Allocated, Acquired, Submitted, Reads, Local, Dying, CanDestroyReturn, CanFree;
  }

  lemma AfterPushFollows(s: State, a: Action, t: Tid, n: State)
    requires t in s.threads && t in n.threads && IsOf(a, t) && Follows(s, a, s.threads[t], n, n.threads[t])
    ensures AfterPush(n.threads[t]) <==> AfterPush(s.threads[t]) || a.Push?
    ensures a.Push? ==> !AfterPush(s.threads[t])
  {
  }

  /** The counts follow the pushes: a listener is past its push exactly when the run holds one, counted if it fitted. */
  lemma {:induction false} PushesCounted(run: seq<Action>, t: Tid)
    ensures After(run).core.queued[t] == if Pushed(run, t) == Some(true) then 1 else 0
    ensures t in After(run).threads ==> (Pushed(run, t).Some? <==> AfterPush(After(run).threads[t]))
    ensures t !in After(run).threads ==> Pushed(run, t) == None
  {
    hide Enabled, Apply, Inv, Follows, AfterPush;
    if run == [] {
    } else {
      var front, a := run[..|run| - 1], run[|run| - 1];
      var s := After(front);
      PushesCounted(front, t);
      InvAlways(front);
      if Enabled(s, a) {
        QueuedStep(s, a);
        PushFollows(s, a, t);
      }
    }
  }

  /** What a step does to whether a thread is past its push. */
  lemma PushFollows(s: State, a: Action, t: Tid)
    requires Inv(s) && Enabled(s, a)
    ensures t in s.threads ==> t in Apply(s, a).threads
    ensures t in Apply(s, a).threads ==>
              (AfterPush(Apply(s, a).threads[t]) <==>
               (t in s.threads && AfterPush(s.threads[t])) || (a.Push? && a.t == t))
    ensures a.Push? && a.t == t ==> t in s.threads && t in Apply(s, a).threads && !AfterPush(s.threads[t])
  {
    hide Apply, Inv, Follows, AfterPush;
    if t in s.threads {
      ThreadStep(s, a, t);
      if IsOf(a, t) {
        AfterPushFollows(s, a, t, Apply(s, a));
      }
    } else if t in Apply(s, a).threads {
      NewThread(s, a, t);
      if a.Begin? {
        BeginsAfresh(s, a);
      } else {
        ReaperSawNothing(s.threads[a.t].p);
      }
    }
  }

  /**
   A listener that found its module has pushed once, and the answer decides: what fitted is queued; of what did not, a
   stream has its release submitted, and a message is gone.
   */
  lemma PushDecides(run: seq<Action>, t: Tid, e: Event)
    requires t in After(run).threads && After(run).threads[t] == Handle(e, Over(true))
    ensures Pushed(run, t).Some?
    ensures
      var fits := Pushed(run, t).value;
      && After(run).core.queued[t] == (if fits then 1 else 0)
      && After(run).core.released[t] == (if fits || !e.stream then 0 else 1)
  {
    hide After, Exclusive, Promised, Ledgered, Doomed, Guarded, Listed, Accounted, Pushed;
    PushesCounted(run, t);
    InvAlways(run);
    One(After(run), t);
  }
}
