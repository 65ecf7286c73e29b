/**
 The life of the context, the listener gate and the reply promises: every thread of the module
 and of the binding, one lock operation, check, submit, reply or deletion at a time
 (src/plugin.cpp:173-329, src/plugin.h:107-134 and 387-461, src/callbacks.cpp:48-201, src/stream.cpp:81-85).
 */
module Lifecycle {
  import opened Order

  type Tid = nat
  type Ctx = nat
  type Gid = nat
  type Pid = nat

  // ------------------------------------------------------------------ the objects

  /** How far the binding is with a promise; `Refused` when the submit returned non-zero. */
  datatype Phase = Unsubmitted | Pending | Resolving | Fulfilled | Refused

  /** `value` is what the future yields: a reply, with the new context if it carries one. */
  datatype Promise = Promise(
    create: bool, phase: Phase, value: Option<Option<Ctx>>, taken: bool, deletes: nat, reader: Tid)

  /** A listener gate: whether its owner pointer is set, and whether its memory is still there. */
  datatype Gate = Gate(owner: bool, alive: bool)

  /** A listener registered on a context: for incoming streams, or for pubsub messages. */
  datatype Box = Box(ctx: Ctx, stream: bool)

  /** Where a context that the binding handed out is. */
  datatype Place = InPromise(p: Pid) | Held(t: Tid) | Member | Gone

  /**
   What the threads share. `ctx` and `gate` are the members of the module, `alive` says that its memory is there,
   `boxes` are the listeners registered, `quiet` the contexts whose destruction reported success. `ledger`, `passed`,
   `swapped`, `queued` and `released` record what happened; no step of the module depends on them.
   */
  datatype Core = Core(
    ctx: Option<Ctx>, gate: Option<Gid>, alive: bool, closing: Option<Tid>, swapped: bool,
    gates: map<Gid, Gate>, boxes: map<Box, Gid>, quiet: set<Ctx>,
    promises: map<Pid, Promise>,
    ledger: map<Ctx, Place>, passed: multiset<Ctx>,
    queued: multiset<Tid>, released: multiset<Tid>)

  /** One event: the context and the gate of the listener it came to, and whether it is a stream. */
  datatype Event = Event(ctx: Ctx, gate: Gid, stream: bool)

  // ------------------------------------------------------------------ the threads

  /** Who stands at a promise: callSyncWith, callStaticWith, spawnContext, callAsync in a listener, reapLateContext. */
  datatype Who = Caller | Static | Creator | Listener(e: Event) | Reaper

  /** A promise is made but not submitted, was refused, or is awaited. */
  datatype Stage = Ready | Sent | Awaiting

  /** ensureContext and createNode up to the submit, with the create lock from `WantLook` on. */
  datatype Making = Want | WantLook | Look | Spawn

  /** The end of createContext, with the context lock from `Adopt` on. */
  datatype Adopting = WantAdopt | Adopt | Assigned | Gated | Owned | Half

  /** onIncomingStream and onPubsubMessage, with the gate lock from `InGate` to `Leave`. */
  datatype Handling = WantGate | InGate | Seen | InQueue | Overflown | InCtx | Leave(saw: bool) | Over(saw: bool)

  /** The destructor: detachListeners and destroyContext. */
  datatype Closing =
    | Start | AtGate(g: Gid) | OnGate(g: Gid) | AtCtx | OnCtx | Swapped(doomed: Option<Ctx>)
    | Destroying(c: Ctx) | Destroyed(c: Ctx, ok: bool) | Forget | AtQueue | OnQueue | Closed | Freed

  /**
   Where a thread is. `CallWant` and `CallIn`: a caller at and under the shared context lock; `StaticStart`: a caller of
   a static operation; `Op`: at its promise; `Make` and `Adopts`: a creator; `Reap`: with a late context, before or
   inside its destruction; `Handle`: a listener; `Close`: the destructor; `Queue`: any other user of the stream or the
   topic queues, outside or inside their mutex; `Done`: returned.
   */
  datatype Pc =
    | CallWant
    | CallIn
    | StaticStart
    | Op(who: Who, stage: Stage, p: Pid)
    | Make(making: Making)
    | Adopts(adopting: Adopting, c: Ctx)
    | Reap(c: Ctx, called: bool)
    | Handle(e: Event, handling: Handling)
    | Close(step: Closing)
    | Queue(stream: bool, inside: bool)
    | Done

  datatype State = State(threads: map<Tid, Pc>, core: Core)

  /** What a submit returns: zero; or non-zero, after having fired the reply or without ever firing it. */
  datatype Answer = Taken | RefusedFired | RefusedSilent

  /**
   The steps. A thread begins, takes the lock it wants, goes on after reading what is shared, or stops waiting; it makes
   a promise, submits it, settles a refused submit, takes the reply. The binding fires a reply and deletes the promise.
   A creator assigns the context, makes the gate, sets its owner and registers the two listeners. A listener pushes. The
   destructor clears the owner and swaps the context out; it or a reaper calls the destruction and returns from it; then
   it deletes the gate after a success, forgets it, and at last the module is freed.
   */
  datatype Action =
    | Begin(t: Tid, pc: Pc)
    | Acquire(t: Tid)
    | Go(t: Tid)
    | Timeout(t: Tid, reaper: Tid)
    | Alloc(t: Tid, p: Pid)
    | Submit(t: Tid, answer: Answer)
    | Settle(t: Tid)
    | Take(t: Tid)
    | Fire(p: Pid, reply: Option<Ctx>)
    | Retire(p: Pid)
    | Assign(t: Tid)
    | NewGate(t: Tid, g: Gid)
    | SetOwner(t: Tid)
    | Register(t: Tid)
    | Push(t: Tid, fits: bool)
    | ClearOwner(t: Tid)
    | Swap(t: Tid)
    | Destroy(t: Tid)
    | DestroyReturns(t: Tid, ok: bool)
    | DropGate(t: Tid)
    | ForgetGate(t: Tid)
    | Free(t: Tid)

  /** The steps on a promise. */
  predicate TouchesPromises(a: Action) {
    a.Alloc? || a.Submit? || a.Settle? || a.Take? || a.Timeout? || a.Fire? || a.Retire?
  }

  /** The steps of the end of createContext and of the destructor. */
  predicate Rebuilds(a: Action) {
    a.Assign? || a.NewGate? || a.SetOwner? || a.Register? || a.ClearOwner? || a.Swap? || a.Destroy? ||
    a.DestroyReturns? || a.DropGate? || a.ForgetGate? || a.Free?
  }

  // -------------------------------------------------------------------- the locks

  predicate HoldsCreate(pc: Pc) {
    match pc
    case Make(m) => !m.Want?
    case Op(who, _, _) => who.Creator?
    case Adopts(_, _) => true
    case _ => false
  }

  predicate SharesCtx(pc: Pc) {
    match pc
    case CallIn => true
    case Make(m) => m.Look?
    case Op(who, stage, _) => (who.Caller? && stage.Ready?) || (who.Listener? && !stage.Awaiting?)
    case Handle(_, h) => h.InCtx?
    case _ => false
  }

  predicate OwnsCtx(pc: Pc) {
    match pc
    case Adopts(a, _) => !a.WantAdopt?
    case Close(c) => c.OnCtx?
    case _ => false
  }

  /** The event that a running listener handles. */
  function EventOf(pc: Pc): Option<Event> {
    match pc
    case Handle(e, h) => if h.Over? then None else Some(e)
    case Op(Listener(e), _, _) => Some(e)
    case _ => None
  }

  predicate SharesGate(pc: Pc, g: Gid) {
    EventOf(pc).Some? && EventOf(pc).value.gate == g && !(pc.Handle? && pc.handling.WantGate?)
  }

  predicate OwnsGate(pc: Pc, g: Gid) {
    pc == Close(OnGate(g))
  }

  /** The stream queues and the topic queues have a mutex each. */
  predicate HoldsQueue(pc: Pc, stream: bool) {
    match pc
    case Handle(e, h) => h.InQueue? && e.stream == stream
    case Close(c) => c.OnQueue? && stream
    case Queue(which, inside) => inside && which == stream
    case _ => false
  }

  /** Where two threads are that no lock lets be there at the same time. */
  ghost predicate Conflict(a: Pc, b: Pc) {
    || (HoldsCreate(a) && HoldsCreate(b))
    || (OwnsCtx(a) && (OwnsCtx(b) || SharesCtx(b)))
    || (exists g :: OwnsGate(a, g) && (OwnsGate(b, g) || SharesGate(b, g)))
    || (HoldsQueue(a, true) && HoldsQueue(b, true)) || (HoldsQueue(a, false) && HoldsQueue(b, false))
  }

  /** Where a thread is once it has the lock it wants. */
  function Acquired(pc: Pc): Option<Pc> {
    match pc
    case CallWant => Some(CallIn)
    case Make(Want) => Some(Make(WantLook))
    case Make(WantLook) => Some(Make(Look))
    case Adopts(WantAdopt, c) => Some(Adopts(Adopt, c))
    case Handle(e, WantGate) => Some(Handle(e, InGate))
    case Handle(e, Seen) => Some(Handle(e, InQueue))
    case Handle(e, Overflown) => Some(Handle(e, InCtx))
    case Close(AtGate(g)) => Some(Close(OnGate(g)))
    case Close(AtCtx) => Some(Close(OnCtx))
    case Close(AtQueue) => Some(Close(OnQueue))
    case Queue(stream, false) => Some(Queue(stream, true))
    case _ => None
  }

  /** No other thread is where it would exclude this one. */
  ghost predicate Room(s: State, t: Tid, pc: Pc) {
    forall u :: u in s.threads && u != t ==> !Conflict(pc, s.threads[u]) && !Conflict(s.threads[u], pc)
  }

  // -------------------------------------------------------------------- the steps

  predicate OwnerSet(k: Core, g: Gid) {
    g in k.gates && k.gates[g].owner
  }

  /** Steps that only read what is shared. */
  function Goes(k: Core, pc: Pc): Option<Pc> {
    match pc
    case CallIn => if k.ctx.None? then Some(Done) else None
    case Make(Look) => Some(if k.ctx.None? then Make(Spawn) else Done)
    case Handle(e, InGate) => Some(Handle(e, if OwnerSet(k, e.gate) then Seen else Leave(false)))
    case Handle(e, InCtx) => if k.ctx.None? then Some(Handle(e, Leave(true))) else None
    case Handle(e, Leave(saw)) => Some(Handle(e, Over(saw)))
    case Close(Start) => Some(Close(if k.gate.None? then AtCtx else AtGate(k.gate.value)))
    case Close(Swapped(None)) => Some(Close(Closed))
    case Close(OnQueue) => Some(Close(Closed))
    case Queue(_, true) => Some(Done)
    case _ => None
  }

  predicate IsCreator(pc: Pc) {
    HoldsCreate(pc) || pc == Make(Want)
  }

  /** A call into the module that has not returned. */
  predicate IsInside(pc: Pc) {
    IsCreator(pc) || pc.CallWant? || pc.CallIn? || pc.Queue? || (pc.Op? && pc.who.Caller?)
  }

  /**
   What the callers and the binding promise of a thread that begins: no call after the module is gone, one destructor
   and no creator beside it, no listener that is not registered or whose context was destroyed with success.
   */
  ghost predicate MayBegin(s: State, pc: Pc) {
    match pc
    case CallWant => s.core.alive
    case Queue(_, inside) => !inside && s.core.alive
    case StaticStart => true
    case Make(m) => m.Want? && s.core.alive && s.core.closing.None?
    case Close(c) =>
      c.Start? && s.core.alive && s.core.closing.None? && forall u :: u in s.threads ==> !IsCreator(s.threads[u])
    case Handle(e, h) =>
      && h.WantGate? && Box(e.ctx, e.stream) in s.core.boxes && s.core.boxes[Box(e.ctx, e.stream)] == e.gate
      && e.ctx !in s.core.quiet
    case _ => false
  }

  function Allocated(k: Core, pc: Pc, p: Pid): Option<Pc> {
    match pc
    case CallIn => if k.ctx.Some? then Some(Op(Caller, Ready, p)) else None
    case StaticStart => Some(Op(Static, Ready, p))
    case Make(Spawn) => Some(Op(Creator, Ready, p))
    case Handle(e, InCtx) => if k.ctx.Some? then Some(Op(Listener(e), Ready, p)) else None
    case _ => None
  }

  /** The context that a thread holds in a local variable. */
  function Local(pc: Pc): Option<Ctx> {
    match pc
    case Adopts(a, c) => if a.WantAdopt? || a.Adopt? then Some(c) else None
    case Reap(c, called) => if called then None else Some(c)
    case Close(Swapped(d)) => d
    case _ => None
  }

  /** The context whose destruction a thread is inside of. */
  function Dying(pc: Pc): Option<Ctx> {
    match pc
    case Reap(c, called) => if called then Some(c) else None
    case Close(Destroying(c)) => Some(c)
    case _ => None
  }

  predicate Stands(s: State, t: Tid, stage: Stage) {
    && t in s.threads && s.threads[t].Op? && s.threads[t].stage == stage
    && s.threads[t].p in s.core.promises
  }

  /** One thread moves to `pc`, and what is shared becomes `k`. */
  function Put(s: State, t: Tid, pc: Pc, k: Core): State {
    State(s.threads[t := pc], k)
  }

  function PromiseOf(s: State, t: Tid): Promise
    requires t in s.threads && s.threads[t].Op? && s.threads[t].p in s.core.promises
  {
    s.core.promises[s.threads[t].p]
  }

  function PutPromise(k: Core, p: Pid, pr: Promise): Core {
    k.(promises := k.promises[p := pr])
  }

  // For each action, when it is possible (the locks, the checks and the contract of the binding), and what it does.

  ghost predicate CanBegin(s: State, t: Tid, pc: Pc) {
    t !in s.threads && MayBegin(s, pc)
  }

  function DoBegin(s: State, t: Tid, pc: Pc): State {
    Put(s, t, pc, if pc.Close? then s.core.(closing := Some(t)) else s.core)
  }

  ghost predicate CanAcquire(s: State, t: Tid) {
    t in s.threads && Acquired(s.threads[t]).Some? && Room(s, t, Acquired(s.threads[t]).value)
  }

  function DoAcquire(s: State, t: Tid): State
    requires t in s.threads && Acquired(s.threads[t]).Some?
  {
    Put(s, t, Acquired(s.threads[t]).value, s.core)
  }

  predicate CanGo(s: State, t: Tid) {
    t in s.threads && Goes(s.core, s.threads[t]).Some?
  }

  function DoGo(s: State, t: Tid): State
    requires CanGo(s, t)
  {
    Put(s, t, Goes(s.core, s.threads[t]).value, s.core)
  }

  predicate CanTimeout(s: State, t: Tid, r: Tid) {
    Stands(s, t, Awaiting) && !s.threads[t].who.Reaper? && (s.threads[t].who.Creator? ==> r !in s.threads)
  }

  /** A create that times out leaves a thread behind that keeps waiting for the reply. */
  function DoTimeout(s: State, t: Tid, r: Tid): State
    requires CanTimeout(s, t, r)
  {
    var pc := s.threads[t];
    if pc.who.Creator? then
      State(s.threads[t := Done][r := Op(Reaper, Awaiting, pc.p)],
            PutPromise(s.core, pc.p, PromiseOf(s, t).(reader := r)))
    else
      Put(s, t, Done, s.core)
  }

  predicate CanAlloc(s: State, t: Tid, p: Pid) {
    t in s.threads && Allocated(s.core, s.threads[t], p).Some? && p !in s.core.promises
  }

  function DoAlloc(s: State, t: Tid, p: Pid): State
    requires CanAlloc(s, t, p)
  {
    Put(s, t, Allocated(s.core, s.threads[t], p).value,
        PutPromise(s.core, p, Promise(s.threads[t].Make?, Unsubmitted, None, false, 0, t)))
  }

  function Answered(pr: Promise, answer: Answer): Promise {
    match answer
    case Taken => pr.(phase := Pending)
    case RefusedFired => pr.(phase := Refused, value := Some(None), deletes := pr.deletes + 1)
    case RefusedSilent => pr.(phase := Refused)
  }

  /** After a submit that returned zero the context lock is released and the reply awaited, except by a listener. */
  function Submitted(who: Who, p: Pid, answer: Answer): Pc {
    if !answer.Taken? then Op(who, Sent, p)
    else if who.Listener? then Handle(who.e, Leave(true))
    else Op(who, Awaiting, p)
  }

  function DoSubmit(s: State, t: Tid, answer: Answer): State
    requires Stands(s, t, Ready)
  {
    var pc := s.threads[t];
    var k := PutPromise(s.core, pc.p, Answered(PromiseOf(s, t), answer));
    Put(s, t, Submitted(pc.who, pc.p, answer),
        if pc.who.Listener? then k.(released := k.released + multiset{t}) else k)
  }

  /** A refused submit: the promise is reclaimed unless its reply has fired. */
  function DoSettle(s: State, t: Tid): State
    requires Stands(s, t, Sent)
  {
    var pc := s.threads[t];
    var pr := PromiseOf(s, t);
    Put(s, t, if pc.who.Listener? then Handle(pc.who.e, Leave(true)) else Done,
        if pr.value.Some? then s.core else PutPromise(s.core, pc.p, pr.(deletes := pr.deletes + 1)))
  }

  predicate CanTake(s: State, t: Tid) {
    Stands(s, t, Awaiting) && PromiseOf(s, t).value.Some?
  }

  /** What the reader of a reply does next. */
  function Reads(who: Who, reply: Option<Ctx>): Pc {
    if reply.None? then Done
    else if who.Creator? then Adopts(WantAdopt, reply.value)
    else if who.Reaper? then Reap(reply.value, false)
    else Done
  }

  function DoTake(s: State, t: Tid): State
    requires CanTake(s, t)
  {
    var pc := s.threads[t];
    var pr := PromiseOf(s, t);
    var reply := pr.value.value;
    var k := PutPromise(s.core, pc.p, pr.(taken := true));
    Put(s, t, Reads(pc.who, reply), if reply.Some? then k.(ledger := k.ledger[reply.value := Held(t)]) else k)
  }

  predicate CanFire(s: State, p: Pid, reply: Option<Ctx>) {
    && p in s.core.promises && s.core.promises[p].phase.Pending?
    && (reply.Some? ==> s.core.promises[p].create && reply.value !in s.core.ledger)
  }

  /** The binding replies; only the reply to a create carries a context, one that nobody has seen before. */
  function DoFire(s: State, p: Pid, reply: Option<Ctx>): State
    requires p in s.core.promises
  {
    var k := PutPromise(s.core, p, s.core.promises[p].(phase := Resolving, value := Some(reply)));
    s.(core := if reply.Some? then k.(ledger := k.ledger[reply.value := InPromise(p)]) else k)
  }

  predicate CanRetire(s: State, p: Pid) {
    p in s.core.promises && s.core.promises[p].phase.Resolving?
  }

  function DoRetire(s: State, p: Pid): State
    requires p in s.core.promises
  {
    var pr := s.core.promises[p];
    s.(core := PutPromise(s.core, p, pr.(phase := Fulfilled, deletes := pr.deletes + 1)))
  }

  predicate CanAssign(s: State, t: Tid) {
    t in s.threads && s.threads[t].Adopts? && s.threads[t].adopting.Adopt?
  }

  function DoAssign(s: State, t: Tid): State
    requires CanAssign(s, t)
  {
    var c := s.threads[t].c;
    Put(s, t, Adopts(Assigned, c), s.core.(ctx := Some(c), ledger := s.core.ledger[c := Member]))
  }

  predicate CanNewGate(s: State, t: Tid, g: Gid) {
    t in s.threads && s.threads[t].Adopts? && s.threads[t].adopting.Assigned? && g !in s.core.gates
  }

  function DoNewGate(s: State, t: Tid, g: Gid): State
    requires CanNewGate(s, t, g)
  {
    Put(s, t, Adopts(Gated, s.threads[t].c),
        s.core.(gates := s.core.gates[g := Gate(false, true)], gate := Some(g)))
  }

  /** The member `m_gate` points at something. */
  predicate HasGate(k: Core) {
    k.gate.Some? && k.gate.value in k.gates
  }

  predicate CanSetOwner(s: State, t: Tid) {
    t in s.threads && s.threads[t].Adopts? && s.threads[t].adopting.Gated? && HasGate(s.core)
  }

  function DoSetOwner(s: State, t: Tid): State
    requires CanSetOwner(s, t)
  {
    var g := s.core.gate.value;
    Put(s, t, Adopts(Owned, s.threads[t].c), s.core.(gates := s.core.gates[g := s.core.gates[g].(owner := true)]))
  }

  predicate CanRegister(s: State, t: Tid) {
    && t in s.threads && s.threads[t].Adopts? && (s.threads[t].adopting.Owned? || s.threads[t].adopting.Half?)
    && s.core.gate.Some?
  }

  function BoxOf(pc: Pc): Box
    requires pc.Adopts?
  {
    Box(pc.c, pc.adopting.Owned?)
  }

  /** The stream listener first, then the pubsub listener. */
  function DoRegister(s: State, t: Tid): State
    requires CanRegister(s, t)
  {
    var pc := s.threads[t];
    Put(s, t, if pc.adopting.Owned? then Adopts(Half, pc.c) else Done,
        s.core.(boxes := s.core.boxes[BoxOf(pc) := s.core.gate.value]))
  }

  predicate CanPush(s: State, t: Tid) {
    t in s.threads && s.threads[t].Handle? && s.threads[t].handling.InQueue?
  }

  /** A stream that the full queue refuses is released; a message that it refuses is dropped. */
  function DoPush(s: State, t: Tid, fits: bool): State
    requires CanPush(s, t)
  {
    var e := s.threads[t].e;
    Put(s, t, Handle(e, if fits || !e.stream then Leave(true) else Overflown),
        if fits then s.core.(queued := s.core.queued + multiset{t}) else s.core)
  }

  predicate CanClearOwner(s: State, t: Tid) {
    t in s.threads && s.threads[t].Close? && s.threads[t].step.OnGate? && s.threads[t].step.g in s.core.gates
  }

  function DoClearOwner(s: State, t: Tid): State
    requires CanClearOwner(s, t)
  {
    var g := s.threads[t].step.g;
    Put(s, t, Close(AtCtx), s.core.(gates := s.core.gates[g := s.core.gates[g].(owner := false)]))
  }

  predicate CanSwap(s: State, t: Tid) {
    t in s.threads && s.threads[t] == Close(OnCtx)
  }

  function DoSwap(s: State, t: Tid): State {
    var k := s.core;
    Put(s, t, Close(Swapped(k.ctx)),
        k.(ctx := None, swapped := true, ledger := if k.ctx.None? then k.ledger else k.ledger[k.ctx.value := Held(t)]))
  }

  predicate CanDestroy(s: State, t: Tid) {
    t in s.threads && Local(s.threads[t]).Some? && !s.threads[t].Adopts?
  }

  function DoDestroy(s: State, t: Tid): State
    requires CanDestroy(s, t)
  {
    var c := Local(s.threads[t]).value;
    Put(s, t, if s.threads[t].Reap? then Reap(c, true) else Close(Destroying(c)),
        s.core.(passed := s.core.passed + multiset{c}, ledger := s.core.ledger[c := Gone]))
  }

  /** A destruction that reports success has waited out the listeners of its context; a failure promises nothing. */
  ghost predicate CanDestroyReturn(s: State, t: Tid, ok: bool) {
    && t in s.threads && Dying(s.threads[t]).Some?
    && (ok ==> forall u :: u in s.threads && EventOf(s.threads[u]).Some? ==>
                 EventOf(s.threads[u]).value.ctx != Dying(s.threads[t]).value)
  }

  function DoDestroyReturn(s: State, t: Tid, ok: bool): State
    requires t in s.threads && Dying(s.threads[t]).Some?
  {
    var c := Dying(s.threads[t]).value;
    Put(s, t, if s.threads[t].Reap? then Done else Close(Destroyed(c, ok)),
        if ok then s.core.(quiet := s.core.quiet + {c}) else s.core)
  }

  predicate CanDropGate(s: State, t: Tid) {
    t in s.threads && s.threads[t].Close? && s.threads[t].step.Destroyed?
  }

  function DoDropGate(s: State, t: Tid): State
    requires CanDropGate(s, t)
  {
    var k := s.core;
    Put(s, t, Close(Forget),
        if s.threads[t].step.ok && HasGate(k) then
          k.(gates := k.gates[k.gate.value := k.gates[k.gate.value].(alive := false)])
        else k)
  }

  predicate CanForgetGate(s: State, t: Tid) {
    t in s.threads && s.threads[t] == Close(Forget)
  }

  function DoForgetGate(s: State, t: Tid): State {
    Put(s, t, Close(AtQueue), s.core.(gate := None))
  }

  /** The destructor is over, and no call is inside the module. */
  ghost predicate CanFree(s: State, t: Tid) {
    t in s.threads && s.threads[t] == Close(Closed) && forall u :: u in s.threads ==> !IsInside(s.threads[u])
  }

  function DoFree(s: State, t: Tid): State {
    Put(s, t, Close(Freed), s.core.(alive := false))
  }

  ghost predicate Enabled(s: State, a: Action) {
    match a
    case Begin(t, pc) => CanBegin(s, t, pc)
    case Acquire(t) => CanAcquire(s, t)
    case Go(t) => CanGo(s, t)
    case Timeout(t, r) => CanTimeout(s, t, r)
    case Alloc(t, p) => CanAlloc(s, t, p)
    case Submit(t, _) => Stands(s, t, Ready)
    case Settle(t) => Stands(s, t, Sent)
    case Take(t) => CanTake(s, t)
    case Fire(p, reply) => CanFire(s, p, reply)
    case Retire(p) => CanRetire(s, p)
    case Assign(t) => CanAssign(s, t)
    case NewGate(t, g) => CanNewGate(s, t, g)
    case SetOwner(t) => CanSetOwner(s, t)
    case Register(t) => CanRegister(s, t)
    case Push(t, _) => CanPush(s, t)
    case ClearOwner(t) => CanClearOwner(s, t)
    case Swap(t) => CanSwap(s, t)
    case Destroy(t) => CanDestroy(s, t)
    case DestroyReturns(t, ok) => CanDestroyReturn(s, t, ok)
    case DropGate(t) => CanDropGate(s, t)
    case ForgetGate(t) => CanForgetGate(s, t)
    case Free(t) => CanFree(s, t)
  }

  ghost function Apply(s: State, a: Action): State
    requires Enabled(s, a)
  {
    match a
    case Begin(t, pc) => DoBegin(s, t, pc)
    case Acquire(t) => DoAcquire(s, t)
    case Go(t) => DoGo(s, t)
    case Timeout(t, r) => DoTimeout(s, t, r)
    case Alloc(t, p) => DoAlloc(s, t, p)
    case Submit(t, answer) => DoSubmit(s, t, answer)
    case Settle(t) => DoSettle(s, t)
    case Take(t) => DoTake(s, t)
    case Fire(p, reply) => DoFire(s, p, reply)
    case Retire(p) => DoRetire(s, p)
    case Assign(t) => DoAssign(s, t)
    case NewGate(t, g) => DoNewGate(s, t, g)
    case SetOwner(t) => DoSetOwner(s, t)
    case Register(t) => DoRegister(s, t)
    case Push(t, fits) => DoPush(s, t, fits)
    case ClearOwner(t) => DoClearOwner(s, t)
    case Swap(t) => DoSwap(s, t)
    case Destroy(t) => DoDestroy(s, t)
    case DestroyReturns(t, ok) => DoDestroyReturn(s, t, ok)
    case DropGate(t) => DoDropGate(s, t)
    case ForgetGate(t) => DoForgetGate(s, t)
    case Free(t) => DoFree(s, t)
  }

  const INITIAL: State :=
    State(map[], Core(None, None, true, None, false, map[], map[], {}, map[], map[],
                      multiset{}, multiset{}, multiset{}))

  /** The state a run leads to; an action that is not possible where it stands changes nothing. */
  ghost function After(run: seq<Action>): State {
    if run == [] then INITIAL
    else
      var s := After(run[..|run| - 1]);
      var a := run[|run| - 1];
      if Enabled(s, a) then Apply(s, a) else s
  }
}
