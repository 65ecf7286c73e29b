/** Every promise has one reader, is resolved once and is deleted once. */
module LifecyclePromises {
  import opened Order
  import opened Lifecycle

  /** What a promise is like in each phase. */
  predicate Orderly(pr: Promise) {
    match pr.phase
    case Unsubmitted => pr.value.None? && pr.deletes == 0 && !pr.taken
    case Pending => pr.value.None? && pr.deletes == 0 && !pr.taken
    case Resolving => pr.value.Some? && pr.deletes == 0 && (pr.value.value.Some? ==> pr.create)
    case Fulfilled => pr.value.Some? && pr.deletes == 1 && (pr.value.value.Some? ==> pr.create)
    case Refused => !pr.taken && (if pr.value == Some(None) then pr.deletes == 1 else pr.value.None? && pr.deletes <= 1)
  }

  predicate InHand(pr: Promise) {
    pr.phase.Pending? || pr.phase.Resolving? || pr.phase.Fulfilled?
  }

  /** What a thread that stands at a promise may rely on. */
  predicate Relies(k: Core, t: Tid, who: Who, stage: Stage, p: Pid) {
    && p in k.promises && k.promises[p].reader == t
    && k.promises[p].create == (who.Creator? || who.Reaper?)
    && (who.Reaper? ==> stage.Awaiting?) && (who.Listener? ==> !stage.Awaiting?)
    && match stage
       case Ready => k.promises[p].phase.Unsubmitted?
       case Sent => k.promises[p].phase.Refused? && (k.promises[p].value.None? ==> k.promises[p].deletes == 0)
       case Awaiting => InHand(k.promises[p]) && !k.promises[p].taken
  }

  predicate At(s: State, t: Tid, stage: Stage, p: Pid) {
    t in s.threads && s.threads[t].Op? && s.threads[t].stage == stage && s.threads[t].p == p
  }

  /** Somebody stands at each promise that still needs a submit, a reclaim, or a reader for the context it may carry. */
  predicate Attended(s: State, p: Pid)
    requires p in s.core.promises
  {
    var pr := s.core.promises[p];
    && (pr.phase.Unsubmitted? ==> At(s, pr.reader, Ready, p))
    && (pr.phase.Refused? && pr.deletes == 0 ==> At(s, pr.reader, Sent, p))
    && (InHand(pr) && pr.create && !pr.taken ==> At(s, pr.reader, Awaiting, p))
  }

  ghost predicate Promised(s: State) {
    && (forall p :: p in s.core.promises ==> Orderly(s.core.promises[p]) && Attended(s, p))
    && (forall t :: t in s.threads && s.threads[t].Op? ==>
          Relies(s.core, t, s.threads[t].who, s.threads[t].stage, s.threads[t].p))
  }

  // ----------------------------------------------------------------------- the steps

  /** A step that moves a thread from no promise to no promise. */
  lemma Elsewhere(s: State, n: State, t: Tid, pc: Pc)
    requires Promised(s) && n == Put(s, t, pc, n.core) && n.core.promises == s.core.promises
    requires !pc.Op? && (t in s.threads ==> !s.threads[t].Op?)
    ensures Promised(n)
  {
    hide Orderly, InHand;
  }

  lemma AllocKeeps(s: State, t: Tid, p: Pid)
    requires Promised(s) && CanAlloc(s, t, p)
    ensures Promised(DoAlloc(s, t, p))
  {
  }

  /** A step of the thread that stands at a promise, on that promise: the others do not notice. */
  lemma OwnStep(s: State, n: State, t: Tid, pc: Pc)
    requires Promised(s) && t in s.threads && s.threads[t].Op? && n == Put(s, t, pc, n.core)
    requires
      var p := s.threads[t].p;
      && p in s.core.promises && p in n.core.promises
      && n.core.promises == s.core.promises[p := n.core.promises[p]] && n.core.promises[p].reader == t
      && Orderly(n.core.promises[p]) && Attended(n, p)
      && (pc.Op? ==> pc.p == p && Relies(n.core, t, pc.who, pc.stage, p))
    ensures Promised(n)
  {
    hide Orderly, InHand;
    var p := s.threads[t].p;
    assert s.core.promises[p].reader == t;
    forall q | q in n.core.promises
      ensures Orderly(n.core.promises[q]) && Attended(n, q)
    {
      assert q != p ==> Orderly(s.core.promises[q]) && Attended(s, q);
    }
    forall u | u in n.threads && n.threads[u].Op?
      ensures Relies(n.core, u, n.threads[u].who, n.threads[u].stage, n.threads[u].p)
    {
      assert u != t ==> Relies(s.core, u, s.threads[u].who, s.threads[u].stage, s.threads[u].p);
    }
  }

  /** What is known of a promise and the thread that stands at it. */
  lemma Standing(s: State, t: Tid)
    requires Promised(s) && t in s.threads && s.threads[t].Op?
    ensures Relies(s.core, t, s.threads[t].who, s.threads[t].stage, s.threads[t].p)
    ensures Orderly(s.core.promises[s.threads[t].p])
  {
  }

  lemma SubmitKeeps(s: State, t: Tid, answer: Answer)
    requires Promised(s) && Stands(s, t, Ready)
    ensures Promised(DoSubmit(s, t, answer))
  {
    hide Promised;
    Standing(s, t);
    var n := DoSubmit(s, t, answer);
    OwnStep(s, n, t, n.threads[t]);
  }

  lemma SettleKeeps(s: State, t: Tid)
    requires Promised(s) && Stands(s, t, Sent)
    ensures Promised(DoSettle(s, t))
  {
    hide Promised;
    Standing(s, t);
    var n := DoSettle(s, t);
    OwnStep(s, n, t, n.threads[t]);
  }

  lemma TakeKeeps(s: State, t: Tid)
    requires Promised(s) && CanTake(s, t)
    ensures Promised(DoTake(s, t))
  {
    hide Promised;
    Standing(s, t);
    var n := DoTake(s, t);
    OwnStep(s, n, t, n.threads[t]);
  }

  /** A caller gives up: nobody needs its promise any more. */
  lemma GiveUpKeeps(s: State, t: Tid, r: Tid)
    requires Promised(s) && CanTimeout(s, t, r) && !s.threads[t].who.Creator?
    ensures Promised(DoTimeout(s, t, r))
  {
    hide Promised;
    Standing(s, t);
    var n := DoTimeout(s, t, r);
    OwnStep(s, n, t, Done);
  }

  /** A creator gives up: the thread left behind takes its place. */
  lemma HandOverKeeps(s: State, t: Tid, r: Tid)
    requires Promised(s) && CanTimeout(s, t, r) && s.threads[t].who.Creator?
    ensures Promised(DoTimeout(s, t, r))
  {
    hide Orderly;
    var n := DoTimeout(s, t, r);
    var p := s.threads[t].p;
    forall q | q in n.core.promises
      ensures Orderly(n.core.promises[q]) && Attended(n, q)
    {
      assert Orderly(s.core.promises[q]) && Attended(s, q);
      assert q == p ==> Relies(s.core, t, Creator, Awaiting, p);
      SameOrderly(s.core.promises[q], n.core.promises[q]);
    }
    forall u | u in n.threads && n.threads[u].Op?
      ensures Relies(n.core, u, n.threads[u].who, n.threads[u].stage, n.threads[u].p)
    {
      assert Relies(s.core, t, Creator, Awaiting, p);
      assert u != r ==> Relies(s.core, u, s.threads[u].who, s.threads[u].stage, s.threads[u].p);
    }
  }

  lemma SameOrderly(a: Promise, b: Promise)
    requires b == a.(reader := b.reader)
    ensures Orderly(a) <==> Orderly(b)
  {
  }

  lemma TimeoutKeeps(s: State, t: Tid, r: Tid)
    requires Promised(s) && CanTimeout(s, t, r)
    ensures Promised(DoTimeout(s, t, r))
  {
    hide Promised, DoTimeout;
    if s.threads[t].who.Creator? {
      HandOverKeeps(s, t, r);
    } else {
      GiveUpKeeps(s, t, r);
    }
  }

  lemma FireKeeps(s: State, p: Pid, reply: Option<Ctx>)
    requires Promised(s) && CanFire(s, p, reply)
    ensures Promised(DoFire(s, p, reply))
  {
  }

  lemma RetireKeeps(s: State, p: Pid)
    requires Promised(s) && CanRetire(s, p)
    ensures Promised(DoRetire(s, p))
  {
  }

  lemma NoPromiseTouched(s: State, a: Action)
    requires Enabled(s, a) && !TouchesPromises(a)
    ensures
      var n := Apply(s, a);
      n == Put(s, a.t, n.threads[a.t], n.core) && n.core.promises == s.core.promises &&
      !n.threads[a.t].Op? && (a.t in s.threads ==> !s.threads[a.t].Op?)
  {
    hide Room;
  }

  lemma PromisedStep(s: State, a: Action)
    requires Promised(s) && Enabled(s, a)
    ensures Promised(Apply(s, a))
  {
    hide Promised, CanAlloc, CanTake, CanTimeout, CanFire, CanRetire, Stands;
    hide DoAlloc, DoSubmit, DoSettle, DoTake, DoTimeout, DoFire, DoRetire;
    match a
    case Alloc(t, p) => AllocKeeps(s, t, p);
    case Submit(t, answer) => SubmitKeeps(s, t, answer);
    case Settle(t) => SettleKeeps(s, t);
    case Take(t) => TakeKeeps(s, t);
    case Timeout(t, r) => TimeoutKeeps(s, t, r);
    case Fire(p, reply) => FireKeeps(s, p, reply);
    case Retire(p) => RetireKeeps(s, p);
    case _ =>
      NoPromiseTouched(s, a);
      Elsewhere(s, Apply(s, a), a.t, Apply(s, a).threads[a.t]);
  }
}
