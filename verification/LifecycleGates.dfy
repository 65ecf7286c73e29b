/** What the locks and the order of the teardown guarantee of the context, the gate and the module's memory. */
module LifecycleGates {
  import opened Order
  import opened Lifecycle
  import opened LifecycleLocks

  ghost predicate NoOwner(k: Core) {
    forall g :: !OwnerSet(k, g)
  }

  /** The listener that an event came to is registered, and its context is not destroyed with success. */
  predicate Registered(k: Core, e: Event) {
    Box(e.ctx, e.stream) in k.boxes && k.boxes[Box(e.ctx, e.stream)] == e.gate && e.ctx !in k.quiet
  }

  /** Every listener is of this context, and every gate is the member and there. */
  ghost predicate Belongs(k: Core, c: Ctx) {
    && (forall b :: b in k.boxes ==> b.ctx == c)
    && (forall g :: g in k.gates ==> k.gates[g].alive && k.gate == Some(g))
  }

  ghost predicate CoreGuarded(k: Core) {
    && (k.gate.Some? ==> k.gate.value in k.gates)
    && (forall g :: OwnerSet(k, g) ==> k.alive && k.ctx.Some? && k.gates[g].alive)
    && (forall b :: b in k.boxes ==> k.boxes[b] in k.gates && (b.ctx !in k.quiet ==> k.gates[k.boxes[b]].alive))
    && (k.ctx.None? && !k.swapped ==> k.gate.None? && k.gates == map[] && k.boxes == map[])
    && (k.ctx.Some? ==> Belongs(k, k.ctx.value))
    && (k.swapped ==> k.ctx.None? && k.closing.Some?)
  }

  /** What a creator that has the context to adopt in hand, or has adopted it, may rely on. */
  ghost predicate Adoptable(k: Core, a: Adopting, c: Ctx) {
    match a
    case WantAdopt => k.ctx.None?
    case Adopt => k.ctx.None?
    case Assigned => k.ctx == Some(c) && k.gate.None?
    case Gated => k.ctx == Some(c) && k.gate.Some? && k.boxes == map[]
    case Owned => k.ctx == Some(c) && k.gate.Some? && OwnerSet(k, k.gate.value) && k.boxes == map[]
    case Half =>
      && k.ctx == Some(c) && k.gate.Some? && OwnerSet(k, k.gate.value) && Box(c, false) !in k.boxes
      && Box(c, true) in k.boxes && k.boxes[Box(c, true)] == k.gate.value
  }

  /** What the destructor may rely on. */
  ghost predicate Closable(k: Core, step: Closing) {
    match step
    case Start => k.alive && !k.swapped
    case AtGate(g) => k.alive && !k.swapped && k.gate == Some(g)
    case OnGate(g) => k.alive && !k.swapped && k.gate == Some(g)
    case AtCtx => k.alive && !k.swapped && NoOwner(k)
    case OnCtx => k.alive && !k.swapped && NoOwner(k)
    case Swapped(None) => k.alive && k.swapped && k.ctx.None? && k.gate.None? && NoOwner(k) && k.boxes == map[]
    case Swapped(Some(d)) => k.alive && k.swapped && k.ctx.None? && NoOwner(k) && Belongs(k, d)
    case Destroying(d) => k.alive && k.swapped && k.ctx.None? && NoOwner(k) && Belongs(k, d)
    case Destroyed(d, ok) => k.alive && k.swapped && k.ctx.None? && NoOwner(k) && Belongs(k, d) && (ok ==> d in k.quiet)
    case Freed => k.swapped && k.ctx.None? && k.gate.None? && NoOwner(k)
    case Forget => k.alive && k.swapped && k.ctx.None? && NoOwner(k)
    case _ => k.alive && k.swapped && k.ctx.None? && k.gate.None? && NoOwner(k)
  }

  /** What a thread may rely on, wherever it is. */
  ghost predicate RelyOn(k: Core, t: Tid, pc: Pc) {
    match pc
    case CallWant => k.alive
    case CallIn => k.alive
    case Queue(_, _) => k.alive
    case Make(m) => k.alive && k.closing.None? && (m.Spawn? ==> k.ctx.None?)
    case Adopts(a, c) => k.alive && k.closing.None? && Adoptable(k, a, c)
    case Op(Caller, stage, _) => k.alive && (stage.Ready? ==> k.ctx.Some?)
    case Op(Creator, _, _) => k.alive && k.closing.None? && k.ctx.None?
    case Op(Listener(e), _, _) => Registered(k, e) && OwnerSet(k, e.gate)
    case Handle(e, h) =>
      match h {
        case Over(_) => true
        case WantGate => Registered(k, e)
        case InGate => Registered(k, e)
        case Leave(saw) => Registered(k, e) && (saw ==> OwnerSet(k, e.gate))
        case _ => Registered(k, e) && OwnerSet(k, e.gate)
      }
    case Close(step) => k.closing == Some(t) && Closable(k, step)
    case _ => true
  }

  ghost predicate Guarded(s: State) {
    CoreGuarded(s.core) && forall t :: t in s.threads ==> RelyOn(s.core, t, s.threads[t])
  }

  // ------------------------------------------------------ steps that change no gate

  /** The part of what is shared that the gates' invariant speaks of is the same. */
  predicate SameGates(k: Core, n: Core) {
    && n.ctx == k.ctx && n.gate == k.gate && n.alive == k.alive && n.closing == k.closing && n.swapped == k.swapped
    && n.gates == k.gates && n.boxes == k.boxes && n.quiet == k.quiet
  }

  lemma SameGatesRelies(k: Core, n: Core, t: Tid, pc: Pc)
    requires SameGates(k, n) && RelyOn(k, t, pc)
    ensures RelyOn(n, t, pc)
  {
    assert forall g :: OwnerSet(n, g) <==> OwnerSet(k, g);
  }

  lemma SameGatesCore(k: Core, n: Core)
    requires SameGates(k, n) && CoreGuarded(k)
    ensures CoreGuarded(n)
  {
  }

  /** A thread moves, and nothing that the gates' invariant speaks of changes. */
  lemma MoveKeeps(s: State, t: Tid, pc: Pc, k: Core)
    requires Guarded(s) && SameGates(s.core, k) && RelyOn(s.core, t, pc)
    ensures Guarded(Put(s, t, pc, k))
  {
    hide CoreGuarded, RelyOn, SameGates;
    SameGatesCore(s.core, k);
    SameGatesRelies(s.core, k, t, pc);
    forall u | u in s.threads
      ensures RelyOn(k, u, s.threads[u])
    {
      SameGatesRelies(s.core, k, u, s.threads[u]);
    }
  }

  /** A step that changes what the invariant speaks of: the others must not be disturbed. */
  lemma ChangeKeeps(s: State, t: Tid, pc: Pc, k: Core)
    requires CoreGuarded(k) && RelyOn(k, t, pc)
    requires forall u :: u in s.threads && u != t ==> RelyOn(k, u, s.threads[u])
    ensures Guarded(Put(s, t, pc, k))
  {
    hide CoreGuarded, RelyOn;
  }

  lemma AcquireGuarded(s: State, t: Tid)
    requires Guarded(s) && CanAcquire(s, t)
    ensures Guarded(DoAcquire(s, t))
  {
    hide Guarded, Room, CoreGuarded;
    assert RelyOn(s.core, t, s.threads[t]) by {
      Each(s, t);
    }
    MoveKeeps(s, t, Acquired(s.threads[t]).value, s.core);
  }

  lemma Each(s: State, t: Tid)
    requires Guarded(s)
    ensures CoreGuarded(s.core)
    ensures t in s.threads ==> RelyOn(s.core, t, s.threads[t])
  {
    hide CoreGuarded, RelyOn;
  }

  lemma GoGuarded(s: State, t: Tid)
    requires Guarded(s) && CanGo(s, t)
    ensures Guarded(DoGo(s, t))
  {
    hide Guarded;
    Each(s, t);
    MoveKeeps(s, t, Goes(s.core, s.threads[t]).value, s.core);
  }

  lemma TimeoutGuarded(s: State, t: Tid, r: Tid)
    requires Guarded(s) && CanTimeout(s, t, r)
    ensures Guarded(DoTimeout(s, t, r))
  {
    hide Guarded;
    MoveKeeps(s, t, Done, s.core);
    if s.threads[t].who.Creator? {
      MoveKeeps(Put(s, t, Done, s.core), r, Op(Reaper, Awaiting, s.threads[t].p), DoTimeout(s, t, r).core);
    }
  }

  lemma AllocGuarded(s: State, t: Tid, p: Pid)
    requires Guarded(s) && CanAlloc(s, t, p)
    ensures Guarded(DoAlloc(s, t, p))
  {
    hide Guarded;
    Each(s, t);
    MoveKeeps(s, t, Allocated(s.core, s.threads[t], p).value, DoAlloc(s, t, p).core);
  }

  lemma SubmitGuarded(s: State, t: Tid, answer: Answer)
    requires Guarded(s) && Stands(s, t, Ready)
    ensures Guarded(DoSubmit(s, t, answer))
  {
    hide Guarded;
    Each(s, t);
    MoveKeeps(s, t, Submitted(s.threads[t].who, s.threads[t].p, answer), DoSubmit(s, t, answer).core);
  }

  lemma SettleGuarded(s: State, t: Tid)
    requires Guarded(s) && Stands(s, t, Sent)
    ensures Guarded(DoSettle(s, t))
  {
    hide Guarded;
    Each(s, t);
    MoveKeeps(s, t, DoSettle(s, t).threads[t], DoSettle(s, t).core);
  }

  lemma TakeGuarded(s: State, t: Tid)
    requires Guarded(s) && CanTake(s, t)
    ensures Guarded(DoTake(s, t))
  {
    hide Guarded;
    Each(s, t);
    MoveKeeps(s, t, Reads(s.threads[t].who, PromiseOf(s, t).value.value), DoTake(s, t).core);
  }

  lemma PushGuarded(s: State, t: Tid, fits: bool)
    requires Guarded(s) && CanPush(s, t)
    ensures Guarded(DoPush(s, t, fits))
  {
    hide Guarded;
    Each(s, t);
    MoveKeeps(s, t, DoPush(s, t, fits).threads[t], DoPush(s, t, fits).core);
  }

  /** The binding's own steps move no thread of the module. */
  lemma BindingGuarded(s: State, k: Core)
    requires Guarded(s) && SameGates(s.core, k)
    ensures Guarded(s.(core := k))
  {
    hide CoreGuarded, RelyOn, SameGates;
    SameGatesCore(s.core, k);
    forall u | u in s.threads
      ensures RelyOn(k, u, s.threads[u])
    {
      SameGatesRelies(s.core, k, u, s.threads[u]);
    }
  }

  // ------------------------------------------------------------ the creator's steps

  lemma AssignBeside(s: State, t: Tid, u: Tid)
    requires Guarded(s) && Exclusive(s) && CanAssign(s, t) && u in s.threads && u != t
    ensures RelyOn(DoAssign(s, t).core, u, s.threads[u])
  {
    hide CoreGuarded;
    Each(s, t);
    Each(s, u);
    assert !Conflict(s.threads[t], s.threads[u]);
    assert forall g :: OwnerSet(DoAssign(s, t).core, g) <==> OwnerSet(s.core, g);
  }

  lemma AssignGuarded(s: State, t: Tid)
    requires Guarded(s) && Exclusive(s) && CanAssign(s, t)
    ensures s.core.ctx.None? && s.core.gate.None? && Guarded(DoAssign(s, t))
  {
    hide Exclusive;
    Each(s, t);
    var n := DoAssign(s, t);
    forall u | u in s.threads && u != t
      ensures RelyOn(n.core, u, s.threads[u])
    {
      AssignBeside(s, t, u);
    }
    assert forall g :: OwnerSet(n.core, g) <==> OwnerSet(s.core, g);
    ChangeKeeps(s, t, n.threads[t], n.core);
  }

  lemma NewGateBeside(s: State, t: Tid, g: Gid, u: Tid)
    requires Guarded(s) && Exclusive(s) && CanNewGate(s, t, g) && u in s.threads && u != t
    ensures RelyOn(DoNewGate(s, t, g).core, u, s.threads[u])
  {
    hide CoreGuarded;
    Each(s, t);
    Each(s, u);
    assert !Conflict(s.threads[t], s.threads[u]);
    assert forall h :: OwnerSet(DoNewGate(s, t, g).core, h) <==> OwnerSet(s.core, h);
  }

  lemma NewGateGuarded(s: State, t: Tid, g: Gid)
    requires Guarded(s) && Exclusive(s) && CanNewGate(s, t, g)
    ensures Guarded(DoNewGate(s, t, g))
  {
    hide Exclusive;
    Each(s, t);
    var n := DoNewGate(s, t, g);
    forall u | u in s.threads && u != t
      ensures RelyOn(n.core, u, s.threads[u])
    {
      NewGateBeside(s, t, g, u);
    }
    assert forall h :: OwnerSet(n.core, h) <==> OwnerSet(s.core, h);
    ChangeKeeps(s, t, n.threads[t], n.core);
  }

  lemma SetOwnerBeside(s: State, t: Tid, u: Tid)
    requires Guarded(s) && Exclusive(s) && CanSetOwner(s, t) && u in s.threads && u != t
    ensures RelyOn(DoSetOwner(s, t).core, u, s.threads[u])
  {
    hide CoreGuarded;
    Each(s, t);
    Each(s, u);
    assert !Conflict(s.threads[t], s.threads[u]);
    assert forall h :: OwnerSet(s.core, h) ==> OwnerSet(DoSetOwner(s, t).core, h);
  }

  lemma SetOwnerGuarded(s: State, t: Tid)
    requires Guarded(s) && Exclusive(s) && CanSetOwner(s, t)
    ensures Guarded(DoSetOwner(s, t))
  {
    hide Exclusive;
    Each(s, t);
    var n := DoSetOwner(s, t);
    forall u | u in s.threads && u != t
      ensures RelyOn(n.core, u, s.threads[u])
    {
      SetOwnerBeside(s, t, u);
    }
    assert forall h :: OwnerSet(n.core, h) ==> OwnerSet(s.core, h) || h == s.core.gate.value;
    ChangeKeeps(s, t, n.threads[t], n.core);
  }

  lemma RegisterBeside(s: State, t: Tid, u: Tid)
    requires Guarded(s) && Exclusive(s) && CanRegister(s, t) && u in s.threads && u != t
    ensures RelyOn(DoRegister(s, t).core, u, s.threads[u])
  {
    hide CoreGuarded;
    Each(s, t);
    Each(s, u);
    assert !Conflict(s.threads[t], s.threads[u]);
    assert forall h :: OwnerSet(DoRegister(s, t).core, h) <==> OwnerSet(s.core, h);
    assert BoxOf(s.threads[t]) !in s.core.boxes;
  }

  lemma RegisterGuarded(s: State, t: Tid)
    requires Guarded(s) && Exclusive(s) && CanRegister(s, t)
    ensures Guarded(DoRegister(s, t))
  {
    hide Exclusive;
    Each(s, t);
    var n := DoRegister(s, t);
    forall u | u in s.threads && u != t
      ensures RelyOn(n.core, u, s.threads[u])
    {
      RegisterBeside(s, t, u);
    }
    assert forall h :: OwnerSet(n.core, h) <==> OwnerSet(s.core, h);
    ChangeKeeps(s, t, n.threads[t], n.core);
  }

  // ---------------------------------------------------------- the destructor's steps

  lemma BeginGuarded(s: State, t: Tid, pc: Pc)
    requires Guarded(s) && CanBegin(s, t, pc)
    ensures Guarded(DoBegin(s, t, pc))
  {
    var n := DoBegin(s, t, pc);
    assert forall h :: OwnerSet(n.core, h) <==> OwnerSet(s.core, h);
    if pc.Close? {
      forall u | u in s.threads
        ensures RelyOn(n.core, u, s.threads[u])
      {
        assert !IsCreator(s.threads[u]) && RelyOn(s.core, u, s.threads[u]);
      }
      ChangeKeeps(s, t, pc, n.core);
    } else {
      MoveKeeps(s, t, pc, s.core);
    }
  }

  lemma ClearOwnerBeside(s: State, t: Tid, u: Tid)
    requires Guarded(s) && Exclusive(s) && CanClearOwner(s, t) && u in s.threads && u != t
    ensures RelyOn(DoClearOwner(s, t).core, u, s.threads[u])
  {
    hide CoreGuarded;
    Each(s, t);
    Each(s, u);
    assert !Conflict(s.threads[t], s.threads[u]);
    var g := s.threads[t].step.g;
    assert OwnsGate(s.threads[t], g) && !SharesGate(s.threads[u], g);
    assert forall h :: h != g ==> (OwnerSet(DoClearOwner(s, t).core, h) <==> OwnerSet(s.core, h));
  }

  lemma ClearOwnerGuarded(s: State, t: Tid)
    requires Guarded(s) && Exclusive(s) && CanClearOwner(s, t)
    ensures Guarded(DoClearOwner(s, t))
  {
    hide Exclusive;
    Each(s, t);
    var n := DoClearOwner(s, t);
    forall u | u in s.threads && u != t
      ensures RelyOn(n.core, u, s.threads[u])
    {
      ClearOwnerBeside(s, t, u);
    }
    assert forall h :: OwnerSet(n.core, h) ==> OwnerSet(s.core, h) && h != s.threads[t].step.g;
    ChangeKeeps(s, t, n.threads[t], n.core);
  }

  lemma SwapBeside(s: State, t: Tid, u: Tid)
    requires Guarded(s) && Exclusive(s) && CanSwap(s, t) && u in s.threads && u != t
    ensures RelyOn(DoSwap(s, t).core, u, s.threads[u])
  {
    hide CoreGuarded;
    Each(s, t);
    Each(s, u);
    assert !Conflict(s.threads[t], s.threads[u]);
    assert forall h :: OwnerSet(DoSwap(s, t).core, h) <==> OwnerSet(s.core, h);
  }

  lemma SwapGuarded(s: State, t: Tid)
    requires Guarded(s) && Exclusive(s) && CanSwap(s, t)
    ensures Guarded(DoSwap(s, t))
  {
    hide Exclusive;
    Each(s, t);
    var n := DoSwap(s, t);
    forall u | u in s.threads && u != t
      ensures RelyOn(n.core, u, s.threads[u])
    {
      SwapBeside(s, t, u);
    }
    assert forall h :: OwnerSet(n.core, h) <==> OwnerSet(s.core, h);
    ChangeKeeps(s, t, n.threads[t], n.core);
  }

  lemma DestroyGuarded(s: State, t: Tid)
    requires Guarded(s) && CanDestroy(s, t)
    ensures Guarded(DoDestroy(s, t))
  {
    hide Guarded;
    Each(s, t);
    MoveKeeps(s, t, DoDestroy(s, t).threads[t], DoDestroy(s, t).core);
  }

  lemma DestroyReturnBeside(s: State, t: Tid, ok: bool, u: Tid)
    requires Guarded(s) && CanDestroyReturn(s, t, ok) && u in s.threads && u != t
    ensures RelyOn(DoDestroyReturn(s, t, ok).core, u, s.threads[u])
  {
    hide CoreGuarded;
    Each(s, u);
    assert forall h :: OwnerSet(DoDestroyReturn(s, t, ok).core, h) <==> OwnerSet(s.core, h);
  }

  lemma DestroyReturnGuarded(s: State, t: Tid, ok: bool)
    requires Guarded(s) && CanDestroyReturn(s, t, ok)
    ensures Guarded(DoDestroyReturn(s, t, ok))
  {
    Each(s, t);
    var n := DoDestroyReturn(s, t, ok);
    forall u | u in s.threads && u != t
      ensures RelyOn(n.core, u, s.threads[u])
    {
      DestroyReturnBeside(s, t, ok, u);
    }
    assert forall h :: OwnerSet(n.core, h) <==> OwnerSet(s.core, h);
    ChangeKeeps(s, t, n.threads[t], n.core);
  }

  lemma DropGateBeside(s: State, t: Tid, u: Tid)
    requires Guarded(s) && CanDropGate(s, t) && u in s.threads && u != t
    ensures RelyOn(DoDropGate(s, t).core, u, s.threads[u])
  {
    hide CoreGuarded;
    Each(s, t);
    Each(s, u);
    assert forall h :: OwnerSet(DoDropGate(s, t).core, h) <==> OwnerSet(s.core, h);
  }

  lemma DropGateGuarded(s: State, t: Tid)
    requires Guarded(s) && CanDropGate(s, t)
    ensures Guarded(DoDropGate(s, t))
  {
    Each(s, t);
    var n := DoDropGate(s, t);
    forall u | u in s.threads && u != t
      ensures RelyOn(n.core, u, s.threads[u])
    {
      DropGateBeside(s, t, u);
    }
    assert forall h :: OwnerSet(n.core, h) <==> OwnerSet(s.core, h);
    ChangeKeeps(s, t, n.threads[t], n.core);
  }

  lemma ForgetGateBeside(s: State, t: Tid, u: Tid)
    requires Guarded(s) && CanForgetGate(s, t) && u in s.threads && u != t
    ensures RelyOn(DoForgetGate(s, t).core, u, s.threads[u])
  {
    hide CoreGuarded;
    Each(s, t);
    Each(s, u);
    assert forall h :: OwnerSet(DoForgetGate(s, t).core, h) <==> OwnerSet(s.core, h);
  }

  lemma ForgetGateGuarded(s: State, t: Tid)
    requires Guarded(s) && CanForgetGate(s, t)
    ensures Guarded(DoForgetGate(s, t))
  {
    Each(s, t);
    var n := DoForgetGate(s, t);
    forall u | u in s.threads && u != t
      ensures RelyOn(n.core, u, s.threads[u])
    {
      ForgetGateBeside(s, t, u);
    }
    assert forall h :: OwnerSet(n.core, h) <==> OwnerSet(s.core, h);
    ChangeKeeps(s, t, n.threads[t], n.core);
  }

  lemma FreeBeside(s: State, t: Tid, u: Tid)
    requires Guarded(s) && CanFree(s, t) && u in s.threads && u != t
    ensures RelyOn(DoFree(s, t).core, u, s.threads[u])
  {
    hide CoreGuarded;
    Each(s, t);
    Each(s, u);
    assert !IsInside(s.threads[u]);
    assert forall h :: OwnerSet(DoFree(s, t).core, h) <==> OwnerSet(s.core, h);
  }

  lemma FreeGuarded(s: State, t: Tid)
    requires Guarded(s) && CanFree(s, t)
    ensures Guarded(DoFree(s, t))
  {
    Each(s, t);
    var n := DoFree(s, t);
    forall u | u in s.threads && u != t
      ensures RelyOn(n.core, u, s.threads[u])
    {
      FreeBeside(s, t, u);
    }
    assert forall h :: OwnerSet(n.core, h) <==> OwnerSet(s.core, h);
    ChangeKeeps(s, t, n.threads[t], n.core);
  }

  lemma GuardedStep(s: State, a: Action)
    requires Guarded(s) && Exclusive(s) && Enabled(s, a)
    ensures Guarded(Apply(s, a))
  {
    hide Guarded, Exclusive, CanBegin, CanAcquire, CanGo, CanTimeout, CanAlloc, CanTake, CanAssign,
      CanNewGate, CanSetOwner, CanRegister, CanPush, CanClearOwner, CanSwap, CanDestroy, CanDestroyReturn, CanDropGate,
      CanForgetGate, CanFree, Stands;
    hide DoBegin, DoAcquire, DoGo, DoTimeout, DoAlloc, DoSubmit, DoSettle, DoTake, DoAssign, DoNewGate,
      DoSetOwner, DoRegister, DoPush, DoClearOwner, DoSwap, DoDestroy, DoDestroyReturn, DoDropGate, DoForgetGate,
      DoFree;
    match a
    case Begin(t, pc) => BeginGuarded(s, t, pc);
    case Acquire(t) => AcquireGuarded(s, t);
    case Go(t) => GoGuarded(s, t);
    case Timeout(t, r) => TimeoutGuarded(s, t, r);
    case Alloc(t, p) => AllocGuarded(s, t, p);
    case Submit(t, answer) => SubmitGuarded(s, t, answer);
    case Settle(t) => SettleGuarded(s, t);
    case Take(t) => TakeGuarded(s, t);
    case Fire(p, reply) => BindingGuarded(s, DoFire(s, p, reply).core);
    case Retire(p) => BindingGuarded(s, DoRetire(s, p).core);
    case Assign(t) => AssignGuarded(s, t);
    case NewGate(t, g) => NewGateGuarded(s, t, g);
    case SetOwner(t) => SetOwnerGuarded(s, t);
    case Register(t) => RegisterGuarded(s, t);
    case Push(t, fits) => PushGuarded(s, t, fits);
    case ClearOwner(t) => ClearOwnerGuarded(s, t);
    case Swap(t) => SwapGuarded(s, t);
    case Destroy(t) => DestroyGuarded(s, t);
    case DestroyReturns(t, ok) => DestroyReturnGuarded(s, t, ok);
    case DropGate(t) => DropGateGuarded(s, t);
    case ForgetGate(t) => ForgetGateGuarded(s, t);
    case Free(t) => FreeGuarded(s, t);
  }

  // ------------------------------------------------------------- gates with listeners

  /** Some listener is registered on the gate. */
  ghost predicate HasBox(k: Core, g: Gid) {
    exists b :: b in k.boxes && k.boxes[b] == g
  }

  /** A creator that has made a gate and registered no listener on it yet. */
  predicate Unlisted(pc: Pc) {
    pc.Adopts? && (pc.adopting.Gated? || pc.adopting.Owned?)
  }

  /** Every gate has a listener, unless its creator is about to register the first. */
  ghost predicate Listed(s: State) {
    forall g :: g in s.core.gates ==> HasBox(s.core, g) || exists t :: t in s.threads && Unlisted(s.threads[t])
  }

  /** The gates and the listeners are the same, and whoever was about to register still is. */
  ghost predicate SameLists(s: State, n: State) {
    && n.core.gates.Keys == s.core.gates.Keys && n.core.boxes == s.core.boxes
    && forall t :: t in s.threads && Unlisted(s.threads[t]) ==> t in n.threads && Unlisted(n.threads[t])
  }

  lemma SameListed(s: State, n: State)
    requires Listed(s) && SameLists(s, n)
    ensures Listed(n)
  {
    hide Unlisted;
    forall g | g in n.core.gates
      ensures HasBox(n.core, g) || exists t :: t in n.threads && Unlisted(n.threads[t])
    {
      assert g in s.core.gates;
      if HasBox(s.core, g) {
        var b :| b in s.core.boxes && s.core.boxes[b] == g;
        assert b in n.core.boxes;
      } else {
        var t :| t in s.threads && Unlisted(s.threads[t]);
        assert Unlisted(n.threads[t]);
      }
    }
  }

  lemma NewGateListed(s: State, t: Tid, g: Gid)
    requires CanNewGate(s, t, g)
    ensures Listed(DoNewGate(s, t, g))
  {
    assert Unlisted(DoNewGate(s, t, g).threads[t]);
  }

  lemma SetOwnerListed(s: State, t: Tid)
    requires CanSetOwner(s, t)
    ensures Listed(DoSetOwner(s, t))
  {
    assert Unlisted(DoSetOwner(s, t).threads[t]);
  }

  lemma RegisterListed(s: State, t: Tid)
    requires Guarded(s) && CanRegister(s, t)
    ensures Listed(DoRegister(s, t))
  {
    hide Guarded;
    Each(s, t);
    var n := DoRegister(s, t);
    forall g | g in n.core.gates
      ensures HasBox(n.core, g)
    {
      assert s.core.gate == Some(g);
      assert BoxOf(s.threads[t]) in n.core.boxes && n.core.boxes[BoxOf(s.threads[t])] == g;
    }
  }

  /** One thread moves that was not about to register, and the gates and the listeners stay. */
  ghost predicate MovesBeside(s: State, t: Tid, n: State) {
    && t in n.threads && n == Put(s, t, n.threads[t], n.core)
    && n.core.gates.Keys == s.core.gates.Keys && n.core.boxes == s.core.boxes
    && (t in s.threads ==> !Unlisted(s.threads[t]))
  }

  lemma BesideSameLists(s: State, t: Tid, n: State)
    requires MovesBeside(s, t, n)
    ensures SameLists(s, n)
  {
    hide Unlisted;
  }

  lemma TeardownBeside(s: State, a: Action)
    requires Enabled(s, a) && Rebuilds(a) && !a.NewGate? && !a.SetOwner? && !a.Register?
    ensures MovesBeside(s, a.t, Apply(s, a))
  {
    hide DoBegin, DoGo, DoAlloc, DoSubmit, DoSettle, DoTake, DoPush, DoTimeout, DoFire, DoRetire, Goes, Allocated;
  }

  lemma PromisesBeside(s: State, a: Action)
    requires Enabled(s, a) && (a.Alloc? || a.Submit? || a.Settle? || a.Take?)
    ensures MovesBeside(s, a.t, Apply(s, a))
  {
    hide DoBegin, DoGo, DoPush, Goes, DoAcquire, DoTimeout, DoFire, DoRetire;
  }

  lemma OthersBeside(s: State, a: Action)
    requires Enabled(s, a) && (a.Begin? || a.Acquire? || a.Go? || a.Push?)
    ensures MovesBeside(s, a.t, Apply(s, a))
  {
    hide Room, DoAlloc, DoSubmit, DoSettle, DoTake, DoTimeout, DoFire, DoRetire;
  }

  lemma TimeoutSameLists(s: State, t: Tid, r: Tid)
    requires CanTimeout(s, t, r)
    ensures SameLists(s, DoTimeout(s, t, r))
  {
  }

  lemma ListedStep(s: State, a: Action)
    requires Listed(s) && Guarded(s) && Enabled(s, a)
    ensures Listed(Apply(s, a))
  {
    hide Listed, Guarded, SameLists, MovesBeside, CanNewGate, CanSetOwner, CanRegister, CanTimeout;
    hide DoNewGate, DoSetOwner, DoRegister, DoTimeout;
    match a
    case NewGate(t, g) => NewGateListed(s, t, g);
    case SetOwner(t) => SetOwnerListed(s, t);
    case Register(t) => RegisterListed(s, t);
    case Timeout(t, r) =>
      TimeoutSameLists(s, t, r);
      SameListed(s, DoTimeout(s, t, r));
    case Fire(p, reply) => BindingListed(s, DoFire(s, p, reply).core);
    case Retire(p) => BindingListed(s, DoRetire(s, p).core);
    case _ =>
      if TouchesPromises(a) {
        PromisesBeside(s, a);
      } else if Rebuilds(a) {
        TeardownBeside(s, a);
      } else {
        OthersBeside(s, a);
      }
      BesideSameLists(s, a.t, Apply(s, a));
      SameListed(s, Apply(s, a));
  }

  lemma BindingListed(s: State, k: Core)
    requires Listed(s) && k.gates == s.core.gates && k.boxes == s.core.boxes
    ensures Listed(s.(core := k))
  {
    hide Unlisted;
    SameListed(s, s.(core := k));
  }
}
