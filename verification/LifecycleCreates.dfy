/** What the module gets done when the binding plays along: creates adopt, calls return, events are queued. */
module LifecycleCreates {
  import opened Order
  import opened Lifecycle
  import opened LifecycleLocks
  import opened LifecyclePromises
  import opened LifecycleContexts
  import opened LifecycleGates
  import opened LifecycleEvents
  import opened LifecycleRuns
  import opened LifecycleEnds
  import W = LifecycleWaits

  // ------------------------------------------------------------------ runs that go on

  ghost function Do(s: State, a: Action): State {
    if Enabled(s, a) then Apply(s, a) else s
  }

  /** Where further actions lead from a state. */
  ghost function Steps(s: State, more: seq<Action>): State
    decreases |more|
  {
    if more == [] then s else Steps(Do(s, more[0]), more[1..])
  }

  lemma {:induction false} AfterMore(run: seq<Action>, more: seq<Action>)
    ensures After(run + more) == Steps(After(run), more)
    decreases |more|
  {
    hide After, Enabled, Apply;
    if more == [] {
      assert run + more == run;
    } else {
      assert run + more == run + [more[0]] + more[1..];
      AfterMore(run + [more[0]], more[1..]);
      AfterSnoc(run, more[0]);
    }
  }

  lemma {:induction false} StepsAppend(s: State, more: seq<Action>, rest: seq<Action>)
    ensures Steps(s, more + rest) == Steps(Steps(s, more), rest)
    decreases |more|
  {
    hide Do;
    if more == [] {
      assert more + rest == rest;
    } else {
      assert (more + rest)[1..] == more[1..] + rest;
      StepsAppend(Do(s, more[0]), more[1..], rest);
    }
  }

  lemma FirstStep(s: State, a: Action, rest: seq<Action>)
    ensures Steps(s, [a] + rest) == Steps(Do(s, a), rest)
  {
    hide Do;
    assert ([a] + rest)[1..] == rest;
  }

  lemma TwoSteps(s: State, a: Action, b: Action)
    ensures Steps(s, [a, b]) == Do(Do(s, a), b)
  {
    hide Do;
    FirstStep(s, a, [b]);
    FirstStep(Do(s, a), b, []);
    assert [a] + [b] == [a, b] && [b] + [] == [b];
  }

  lemma FourSteps(s: State, a: Action, b: Action, c: Action, d: Action)
    ensures Steps(s, [a, b, c, d]) == Do(Do(Do(Do(s, a), b), c), d)
  {
    hide Do;
    StepsAppend(s, [a, b], [c, d]);
    TwoSteps(s, a, b);
    TwoSteps(Do(Do(s, a), b), c, d);
    assert [a, b] + [c, d] == [a, b, c, d];
  }

  // ------------------------------------------------------------------- at a promise

  /** A thread's promise is fresh. */
  predicate AtFresh(s: State, t: Tid, p: Pid, reply: Option<Ctx>) {
    && Stands(s, t, Ready) && s.threads[t].p == p && !s.threads[t].who.Listener? && !s.threads[t].who.Reaper?
    && s.core.promises[p] == Promise(s.threads[t].who.Creator?, Unsubmitted, None, false, 0, t)
    && (reply.Some? ==> s.threads[t].who.Creator? && reply.value !in s.core.ledger)
  }

  lemma SubmitAndFire(s: State, t: Tid, p: Pid, reply: Option<Ctx>)
    requires AtFresh(s, t, p, reply)
    ensures
      var n := Do(Do(s, Submit(t, Taken)), Fire(p, reply));
      && n.threads == s.threads[t := Op(s.threads[t].who, Awaiting, p)]
      && n.core == s.core.(
           promises := s.core.promises[p := Promise(s.threads[t].who.Creator?, Resolving, Some(reply), false, 0, t)],
           ledger := if reply.Some? then s.core.ledger[reply.value := InPromise(p)] else s.core.ledger)
  {
  }

  /** The reply is there, and the binding has yet to delete the promise. */
  predicate AtReply(s: State, t: Tid, p: Pid, reply: Option<Ctx>) {
    && Stands(s, t, Awaiting) && s.threads[t].p == p && !s.threads[t].who.Listener? && !s.threads[t].who.Reaper?
    && s.core.promises[p] == Promise(s.threads[t].who.Creator?, Resolving, Some(reply), false, 0, t)
    && (reply.Some? ==> s.threads[t].who.Creator?)
  }

  lemma RetireAndTake(s: State, t: Tid, p: Pid, reply: Option<Ctx>)
    requires AtReply(s, t, p, reply)
    ensures
      var n := Do(Do(s, Retire(p)), Take(t));
      && n.threads == s.threads[t := if reply.Some? then Adopts(WantAdopt, reply.value) else Done]
      && n.core == s.core.(
           promises := s.core.promises[p := Promise(s.threads[t].who.Creator?, Fulfilled, Some(reply), true, 1, t)],
           ledger := if reply.Some? then s.core.ledger[reply.value := Held(t)] else s.core.ledger)
  {
  }

  /** Submit, reply, deletion by the binding, reading: what the four steps come to, whoever stands at the promise. */
  lemma Replied(s: State, t: Tid, p: Pid, reply: Option<Ctx>)
    requires AtFresh(s, t, p, reply)
    ensures
      var n := Steps(s, [Submit(t, Taken), Fire(p, reply), Retire(p), Take(t)]);
      && n.threads == s.threads[t := if reply.Some? then Adopts(WantAdopt, reply.value) else Done]
      && n.core == s.core.(
           promises := s.core.promises[p := Promise(s.threads[t].who.Creator?, Fulfilled, Some(reply), true, 1, t)],
           ledger := if reply.Some? then s.core.ledger[reply.value := Held(t)] else s.core.ledger)
  {
    hide Do, Steps;
    FourSteps(s, Submit(t, Taken), Fire(p, reply), Retire(p), Take(t));
    SubmitAndFire(s, t, p, reply);
    var m := Do(Do(s, Submit(t, Taken)), Fire(p, reply));
    RetireAndTake(m, t, p, reply);
    var n := Do(Do(m, Retire(p)), Take(t));
    assert n.threads == s.threads[t := n.threads[t]];
  }

  // -------------------------------------------------------------------------- a create

  lemma LookAndAlloc(s: State, t: Tid, p: Pid)
    requires t in s.threads && s.threads[t] == Make(Look) && s.core.ctx.None? && p !in s.core.promises
    ensures
      var n := Steps(s, [Go(t), Alloc(t, p)]);
      && n.threads == s.threads[t := Op(Creator, Ready, p)]
      && n.core == s.core.(promises := s.core.promises[p := Promise(true, Unsubmitted, None, false, 0, t)])
  {
    hide Steps;
    TwoSteps(s, Go(t), Alloc(t, p));
    assert Do(s, Go(t)) == Put(s, t, Make(Spawn), s.core);
  }

  /** No other thread holds the create lock or the context lock in any way. */
  predicate Alone(s: State, t: Tid) {
    forall u :: u in s.threads && u != t ==>
      !HoldsCreate(s.threads[u]) && !SharesCtx(s.threads[u]) && !OwnsCtx(s.threads[u])
  }

  lemma TakesCtxAlone(s: State, t: Tid, c: Ctx)
    requires Alone(s, t) && t in s.threads && s.threads[t] == Adopts(WantAdopt, c)
    ensures Do(s, Acquire(t)) == Put(s, t, Adopts(Adopt, c), s.core)
  {
    forall u | u in s.threads && u != t
      ensures !Conflict(Adopts(Adopt, c), s.threads[u]) && !Conflict(s.threads[u], Adopts(Adopt, c))
    {
    }
  }

  lemma AssignAndGate(s: State, t: Tid, c: Ctx, g: Gid)
    requires t in s.threads && s.threads[t] == Adopts(Adopt, c) && g !in s.core.gates
    ensures
      var n := Do(Do(s, Assign(t)), NewGate(t, g));
      && n.threads == s.threads[t := Adopts(Gated, c)]
      && n.core == s.core.(ctx := Some(c), gate := Some(g), gates := s.core.gates[g := Gate(false, true)],
                           ledger := s.core.ledger[c := Member])
  {
  }

  lemma OwnAndRegister(s: State, t: Tid, c: Ctx, g: Gid)
    requires t in s.threads && s.threads[t] == Adopts(Gated, c)
    requires s.core.gate == Some(g) && g in s.core.gates && s.core.gates[g] == Gate(false, true)
    ensures
      var n := Do(Do(Do(s, SetOwner(t)), Register(t)), Register(t));
      && n.threads == s.threads[t := Done]
      && n.core == s.core.(gates := s.core.gates[g := Gate(true, true)],
                           boxes := s.core.boxes[Box(c, true) := g][Box(c, false) := g])
  {
    var s1 := Do(s, SetOwner(t));
    assert s1 == Put(s, t, Adopts(Owned, c), s.core.(gates := s.core.gates[g := Gate(true, true)]));
    var s2 := Do(s1, Register(t));
    assert s2 == Put(s1, t, Adopts(Half, c), s1.core.(boxes := s.core.boxes[Box(c, true) := g]));
  }

  lemma SixSteps(s: State, a: Action, b: Action, c: Action, d: Action, e: Action, f: Action)
    ensures Steps(s, [a, b, c, d, e, f]) == Do(Do(Do(Do(Do(Do(s, a), b), c), d), e), f)
  {
    hide Do;
    StepsAppend(s, [a, b, c, d], [e, f]);
    FourSteps(s, a, b, c, d);
    TwoSteps(Do(Do(Do(Do(s, a), b), c), d), e, f);
    assert [a, b, c, d] + [e, f] == [a, b, c, d, e, f];
  }

  /** The end of createContext, from the reply on. */
  lemma Adopting(s: State, t: Tid, c: Ctx, g: Gid)
    requires t in s.threads && s.threads[t] == Adopts(WantAdopt, c) && Alone(s, t) && g !in s.core.gates
    ensures
      var n := Steps(s, [Acquire(t), Assign(t), NewGate(t, g), SetOwner(t), Register(t), Register(t)]);
      && n.threads == s.threads[t := Done]
      && n.core == s.core.(ctx := Some(c), gate := Some(g), gates := s.core.gates[g := Gate(true, true)],
                           boxes := s.core.boxes[Box(c, true) := g][Box(c, false) := g],
                           ledger := s.core.ledger[c := Member])
  {
    hide Do, Steps, Alone;
    SixSteps(s, Acquire(t), Assign(t), NewGate(t, g), SetOwner(t), Register(t), Register(t));
    TakesCtxAlone(s, t, c);
    var s1 := Do(s, Acquire(t));
    AssignAndGate(s1, t, c, g);
    var s2 := Do(Do(s1, Assign(t)), NewGate(t, g));
    OwnAndRegister(s2, t, c, g);
    var n := Do(Do(Do(s2, SetOwner(t)), Register(t)), Register(t));
    assert n.threads == s.threads[t := Done];
    assert n.core.gates == s.core.gates[g := Gate(true, true)];
  }

  /** A create from its look on, when every submit and every reply succeeds. */
  function CreateScript(t: Tid, c: Ctx, p: Pid, g: Gid): seq<Action> {
    [Go(t), Alloc(t, p)] + [Submit(t, Taken), Fire(p, Some(c)), Retire(p), Take(t)] +
    [Acquire(t), Assign(t), NewGate(t, g), SetOwner(t), Register(t), Register(t)]
  }

  /** The first half: from the look to the reply. */
  lemma LookingToReply(s: State, t: Tid, c: Ctx, p: Pid)
    requires t in s.threads && s.threads[t] == Make(Look) && s.core.ctx.None?
    requires c !in s.core.ledger && p !in s.core.promises
    ensures
      var n := Steps(s, [Go(t), Alloc(t, p)] + [Submit(t, Taken), Fire(p, Some(c)), Retire(p), Take(t)]);
      && n.threads == s.threads[t := Adopts(WantAdopt, c)]
      && n.core == s.core.(
           promises := s.core.promises[p := Promise(true, Fulfilled, Some(Some(c)), true, 1, t)],
           ledger := s.core.ledger[c := Held(t)])
  {
    hide Steps, Alone;
    var look := [Go(t), Alloc(t, p)];
    var reply := [Submit(t, Taken), Fire(p, Some(c)), Retire(p), Take(t)];
    StepsAppend(s, look, reply);
    LookAndAlloc(s, t, p);
    var s1 := Steps(s, look);
    Replied(s1, t, p, Some(c));
    var n := Steps(s1, reply);
    assert n.threads == s.threads[t := Adopts(WantAdopt, c)];
    assert n.core.promises == s.core.promises[p := Promise(true, Fulfilled, Some(Some(c)), true, 1, t)];
  }

  lemma StillAlone(s: State, n: State, t: Tid)
    requires Alone(s, t) && t in n.threads && n.threads == s.threads[t := n.threads[t]]
    ensures Alone(n, t)
  {
    hide HoldsCreate, SharesCtx, OwnsCtx;
  }

  lemma Creating(s: State, t: Tid, c: Ctx, p: Pid, g: Gid)
    requires t in s.threads && s.threads[t] == Make(Look) && s.core.ctx.None? && Alone(s, t)
    requires c !in s.core.ledger && p !in s.core.promises && g !in s.core.gates
    ensures
      var n := Steps(s, CreateScript(t, c, p, g));
      && n.threads == s.threads[t := Done]
      && n.core == s.core.(ctx := Some(c), gate := Some(g), gates := s.core.gates[g := Gate(true, true)],
                           boxes := s.core.boxes[Box(c, true) := g][Box(c, false) := g],
                           promises := s.core.promises[p := Promise(true, Fulfilled, Some(Some(c)), true, 1, t)],
                           ledger := s.core.ledger[c := Member])
  {
    hide Steps, Alone;
    var first := [Go(t), Alloc(t, p)] + [Submit(t, Taken), Fire(p, Some(c)), Retire(p), Take(t)];
    var adopt := [Acquire(t), Assign(t), NewGate(t, g), SetOwner(t), Register(t), Register(t)];
    StepsAppend(s, first, adopt);
    LookingToReply(s, t, c, p);
    var s2 := Steps(s, first);
    StillAlone(s, s2, t);
    Adopting(s2, t, c, g);
    var n := Steps(s2, adopt);
    assert n.threads == s.threads[t := Done];
    assert n.core.ledger == s.core.ledger[c := Member];
  }

  // ------------------------------------------------------------------ from any reachable state

  /** While there is no context, the callers under the shared lock return at their next step. */
  lemma {:induction false} CallersReturn(s: State, here: set<Tid>) returns (leave: seq<Action>)
    requires s.core.ctx.None? && forall u :: u in here ==> u in s.threads && s.threads[u] == CallIn
    ensures forall a :: a in leave ==> a.Go? && a.t in here
    ensures
      var n := Steps(s, leave);
      && n.core == s.core && n.threads.Keys == s.threads.Keys
      && forall u :: u in s.threads ==> n.threads[u] == if u in here then Done else s.threads[u]
    decreases |here|
  {
    if here == {} {
      leave := [];
    } else {
      var u :| u in here;
      var s1 := Do(s, Go(u));
      assert s1 == Put(s, u, Done, s.core);
      var rest := CallersReturn(s1, here - {u});
      leave := [Go(u)] + rest;
      FirstStep(s, Go(u), rest);
    }
  }

  /** Beside a creator that finds no context there is nobody at the context lock but callers about to return. */
  lemma OnlyCallersBeside(s: State, t: Tid, u: Tid)
    requires Exclusive(s) && Guarded(s) && s.core.ctx.None?
    requires t in s.threads && s.threads[t] == Make(Look) && u in s.threads && u != t && s.threads[u] != CallIn
    ensures !HoldsCreate(s.threads[u]) && !SharesCtx(s.threads[u]) && !OwnsCtx(s.threads[u])
  {
    hide Guarded, CoreGuarded;
    Each(s, t);
    Each(s, u);
    assert !Conflict(s.threads[t], s.threads[u]);
    assert (forall g :: OwnerSet(s.core, g) ==> s.core.ctx.Some?) by {
      NoOwnerWithoutCtx(s.core);
    }
  }

  lemma NoOwnerWithoutCtx(k: Core)
    requires CoreGuarded(k)
    ensures forall g :: OwnerSet(k, g) ==> k.ctx.Some?
  {
  }

  lemma LeavesAlone(s: State, m: State, t: Tid)
    requires Exclusive(s) && Guarded(s) && s.core.ctx.None? && t in s.threads && s.threads[t] == Make(Look)
    requires m.threads.Keys == s.threads.Keys
    requires forall u :: u in s.threads ==> m.threads[u] == if s.threads[u] == CallIn then Done else s.threads[u]
    ensures Alone(m, t)
  {
    hide Exclusive, Guarded;
    forall u | u in m.threads && u != t
      ensures !HoldsCreate(m.threads[u]) && !SharesCtx(m.threads[u]) && !OwnsCtx(m.threads[u])
    {
      if s.threads[u] != CallIn {
        OnlyCallersBeside(s, t, u);
      }
    }
  }

  /** Before the first context there is no gate and no listener. */
  lemma NothingWithoutCtx(s: State, t: Tid)
    requires Guarded(s) && t in s.threads && s.threads[t] == Make(Look) && s.core.ctx.None?
    ensures s.core.gates == map[] && s.core.boxes == map[]
  {
    Each(s, t);
  }

  /** The context is the member, its gate is the only one and has an owner, and both listeners are registered on it. */
  predicate HasNode(k: Core, c: Ctx, g: Gid) {
    && k.ctx == Some(c) && k.gate == Some(g) && k.gates == map[g := Gate(true, true)]
    && k.boxes == map[Box(c, true) := g, Box(c, false) := g]
  }

  lemma CreatingAfterReturns(s: State, t: Tid, c: Ctx, p: Pid, g: Gid) returns (leave: seq<Action>)
    requires Exclusive(s) && Guarded(s) && t in s.threads && s.threads[t] == Make(Look) && s.core.ctx.None?
    requires c !in s.core.ledger && p !in s.core.promises && g !in s.core.gates
    ensures forall a :: a in leave ==> a.Go? && a.t in s.threads && s.threads[a.t] == CallIn
    ensures
      var n := Steps(s, leave + CreateScript(t, c, p, g));
      && t in n.threads && n.threads[t] == Done && HasNode(n.core, c, g)
      && n.core.promises == s.core.promises[p := Promise(true, Fulfilled, Some(Some(c)), true, 1, t)]
  {
    hide Steps, Exclusive, Guarded, CreateScript, Alone;
    NothingWithoutCtx(s, t);
    leave := CallersReturn(s, set u | u in s.threads && s.threads[u] == CallIn);
    var m := Steps(s, leave);
    LeavesAlone(s, m, t);
    Creating(m, t, c, p, g);
    StepsAppend(s, leave, CreateScript(t, c, p, g));
  }

  /**
   From every reachable state in which a creator has the create lock and the shared context lock and finds no context:
   once the callers that share the lock have returned, its own steps and a successful reply make the context the member,
   with a fresh gate that is owned, and both listeners registered on it; the promise is read and deleted once.
   */
  lemma CreationSucceeds(run: seq<Action>, t: Tid, c: Ctx, p: Pid, g: Gid) returns (leave: seq<Action>)
    requires t in After(run).threads && After(run).threads[t] == Make(Look) && After(run).core.ctx.None?
    requires c !in After(run).core.ledger && p !in After(run).core.promises && g !in After(run).core.gates
    ensures forall a :: a in leave ==> a.Go? && a.t in After(run).threads && After(run).threads[a.t] == CallIn
    ensures
      var n := After(run + (leave + CreateScript(t, c, p, g)));
      && t in n.threads && n.threads[t] == Done && HasNode(n.core, c, g)
      && n.core.promises == After(run).core.promises[p := Promise(true, Fulfilled, Some(Some(c)), true, 1, t)]
  {
    hide After, Steps, Exclusive, Promised, Ledgered, Doomed, Guarded, Listed, Accounted, CreateScript;
    InvAlways(run);
    leave := CreatingAfterReturns(After(run), t, c, p, g);
    AfterMore(run, leave + CreateScript(t, c, p, g));
  }

  lemma NoCreatorExcludes(other: Pc)
    requires !HoldsCreate(other) && !OwnsCtx(other)
    ensures !Conflict(Make(WantLook), other) && !Conflict(other, Make(WantLook))
    ensures !Conflict(Make(Look), other) && !Conflict(other, Make(Look))
  {
  }

  lemma BeginsAndLooks(s: State, t: Tid)
    requires CanBegin(s, t, Make(Want))
    requires forall u :: u in s.threads ==> !HoldsCreate(s.threads[u]) && !OwnsCtx(s.threads[u])
    ensures Do(Do(Do(s, Begin(t, Make(Want))), Acquire(t)), Acquire(t)) == Put(s, t, Make(Look), s.core)
  {
    hide Conflict, HoldsCreate, OwnsCtx;
    forall u | u in s.threads
      ensures !Conflict(Make(WantLook), s.threads[u]) && !Conflict(s.threads[u], Make(WantLook))
      ensures !Conflict(Make(Look), s.threads[u]) && !Conflict(s.threads[u], Make(Look))
    {
      NoCreatorExcludes(s.threads[u]);
    }
    var s1 := Do(s, Begin(t, Make(Want)));
    assert s1 == Put(s, t, Make(Want), s.core);
    var s2 := Do(s1, Acquire(t));
    assert s2 == Put(s, t, Make(WantLook), s.core);
  }

  /** The context lock is owned by a creator past its reply or by the destructor only. */
  lemma NobodyOwnsCtx(s: State, u: Tid)
    requires Guarded(s) && s.core.closing.None? && u in s.threads && !HoldsCreate(s.threads[u])
    ensures !OwnsCtx(s.threads[u])
  {
    Each(s, u);
  }

  /**
   A module that is there, has no context and is not being torn down can be given a node: from every reachable state in
   which the create lock is free a new thread can run a whole create, and end it with the context adopted.
   */
  lemma NodeCanBeCreated(run: seq<Action>, t: Tid)
    requires t !in After(run).threads
    requires After(run).core.alive && After(run).core.closing.None? && After(run).core.ctx.None?
    requires forall u :: u in After(run).threads ==> !HoldsCreate(After(run).threads[u])
    ensures exists more, c, g ::
              && c !in After(run).core.ledger && t in After(run + more).threads && After(run + more).threads[t] == Done
              && HasNode(After(run + more).core, c, g)
  {
    hide After, Exclusive, Promised, Ledgered, Doomed, Guarded, Listed, Accounted, CreateScript, HasNode, Do;
    InvAlways(run);
    var s := After(run);
    forall u | u in s.threads
      ensures !OwnsCtx(s.threads[u])
    {
      NobodyOwnsCtx(s, u);
    }
    BeginsAndLooks(s, t);
    var look := [Begin(t, Make(Want)), Acquire(t), Acquire(t)];
    FirstStep(s, Begin(t, Make(Want)), [Acquire(t), Acquire(t)]);
    TwoSteps(Do(s, Begin(t, Make(Want))), Acquire(t), Acquire(t));
    assert [Begin(t, Make(Want))] + [Acquire(t), Acquire(t)] == look;
    AfterMore(run, look);
    var c := W.Fresh(s.core.ledger.Keys);
    var p := W.Fresh(s.core.promises.Keys);
    var g := W.Fresh(s.core.gates.Keys);
    var leave := CreationSucceeds(run + look, t, c, p, g);
    var rest := leave + CreateScript(t, c, p, g);
    assert run + look + rest == run + (look + rest);
  }

  /** A create on a module that has its context looks, finds it and returns; it makes no promise and changes nothing. */
  lemma SecondCreateChangesNothing(run: seq<Action>, t: Tid)
    requires t !in After(run).threads
    requires After(run).core.alive && After(run).core.closing.None? && After(run).core.ctx.Some?
    requires forall u :: u in After(run).threads ==> !HoldsCreate(After(run).threads[u])
    ensures After(run + [Begin(t, Make(Want)), Acquire(t), Acquire(t), Go(t)]) ==
            State(After(run).threads[t := Done], After(run).core)
  {
    hide After, Exclusive, Promised, Ledgered, Doomed, Guarded, Listed, Accounted;
    InvAlways(run);
    var s := After(run);
    forall u | u in s.threads
      ensures !OwnsCtx(s.threads[u])
    {
      NobodyOwnsCtx(s, u);
    }
    BeginsAndLooks(s, t);
    AfterMore(run, [Begin(t, Make(Want)), Acquire(t), Acquire(t), Go(t)]);
    FourSteps(s, Begin(t, Make(Want)), Acquire(t), Acquire(t), Go(t));
    FindsCtx(Put(s, t, Make(Look), s.core), t);
    assert s.threads[t := Make(Look)][t := Done] == s.threads[t := Done];
  }

  lemma FindsCtx(s: State, t: Tid)
    requires t in s.threads && s.threads[t] == Make(Look) && s.core.ctx.Some?
    ensures Do(s, Go(t)) == Put(s, t, Done, s.core)
  {
  }
}
