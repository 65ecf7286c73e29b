/** Every event that finds its module ends in one way. */
module LifecycleEvents {
  import opened Lifecycle
  import opened LifecycleGates

  /** How often a thread's event was queued, and how often its release was submitted. */
  predicate Tally(k: Core, t: Tid, queued: nat, released: nat) {
    k.queued[t] == queued && k.released[t] == released
  }

  /** What has become of the event that a thread handles. */
  predicate Counted(k: Core, t: Tid, pc: Pc) {
    match pc
    case Op(Listener(e), stage, _) => e.stream && !stage.Awaiting? && Tally(k, t, 0, if stage.Ready? then 0 else 1)
    case Handle(e, h) =>
      match h {
        case Over(saw) => Settled(k, t, e, saw)
        case Leave(saw) => Settled(k, t, e, saw)
        case Overflown => e.stream && Tally(k, t, 0, 0)
        case InCtx => e.stream && Tally(k, t, 0, 0)
        case _ => Tally(k, t, 0, 0)
      }
    case _ => true
  }

  /** A stream was queued or its release was submitted, never both; a message was queued or dropped. */
  predicate Settled(k: Core, t: Tid, e: Event, saw: bool) {
    if !saw then Tally(k, t, 0, 0)
    else if e.stream then Tally(k, t, 1, 0) || Tally(k, t, 0, 1)
    else k.queued[t] <= 1 && k.released[t] == 0
  }

  ghost predicate Accounted(s: State) {
    forall t :: if t in s.threads then Counted(s.core, t, s.threads[t]) else Tally(s.core, t, 0, 0)
  }

  /** The counts of no thread change. */
  predicate SameCounts(k: Core, n: Core) {
    n.queued == k.queued && n.released == k.released
  }

  lemma MoveCounted(s: State, t: Tid, pc: Pc, k: Core)
    requires Accounted(s) && SameCounts(s.core, k) && Counted(k, t, pc)
    ensures Accounted(Put(s, t, pc, k))
  {
  }

  /** A step of a thread that changes at most its own counts. */
  lemma OwnCounted(s: State, t: Tid, pc: Pc, k: Core)
    requires Accounted(s) && Counted(k, t, pc)
    requires forall u :: u != t ==> k.queued[u] == s.core.queued[u] && k.released[u] == s.core.released[u]
    ensures Accounted(Put(s, t, pc, k))
  {
  }

  lemma GoCounted(s: State, t: Tid)
    requires Accounted(s) && Guarded(s) && CanGo(s, t)
    ensures Accounted(DoGo(s, t))
  {
    hide Accounted, Guarded, Tally;
    One(s, t);
    Each(s, t);
    assert s.threads[t].Handle? && s.threads[t].handling.InCtx? ==> s.core.ctx.Some? by {
      hide RelyOn;
      InCtxHasCtx(s, t);
    }
    MoveCounted(s, t, Goes(s.core, s.threads[t]).value, s.core);
  }

  lemma One(s: State, t: Tid)
    requires Accounted(s) && t in s.threads
    ensures Counted(s.core, t, s.threads[t])
  {
  }

  /** A listener that found its module always finds the context: the early return of callAsync is not taken. */
  lemma InCtxHasCtx(s: State, t: Tid)
    requires Guarded(s) && t in s.threads
    ensures s.threads[t].Handle? && s.threads[t].handling.InCtx? ==> s.core.ctx.Some?
  {
    Each(s, t);
  }

  lemma PushCounted(s: State, t: Tid, fits: bool)
    requires Accounted(s) && CanPush(s, t)
    ensures Accounted(DoPush(s, t, fits))
  {
    hide Accounted;
    One(s, t);
    var n := DoPush(s, t, fits);
    OwnCounted(s, t, n.threads[t], n.core);
  }

  lemma SubmitCounted(s: State, t: Tid, answer: Answer)
    requires Accounted(s) && Stands(s, t, Ready)
    ensures Accounted(DoSubmit(s, t, answer))
  {
    hide Accounted;
    One(s, t);
    var n := DoSubmit(s, t, answer);
    OwnCounted(s, t, n.threads[t], n.core);
  }

  lemma TimeoutCounted(s: State, t: Tid, r: Tid)
    requires Accounted(s) && CanTimeout(s, t, r)
    ensures Accounted(DoTimeout(s, t, r))
  {
    hide Accounted;
    MoveCounted(s, t, Done, s.core);
    if s.threads[t].who.Creator? {
      MoveCounted(Put(s, t, Done, s.core), r, Op(Reaper, Awaiting, s.threads[t].p), DoTimeout(s, t, r).core);
    }
  }

  lemma BeginCounted(s: State, t: Tid, pc: Pc)
    requires Accounted(s) && CanBegin(s, t, pc)
    ensures Accounted(DoBegin(s, t, pc))
  {
    assert Tally(s.core, t, 0, 0);
  }

  lemma BindingCounted(s: State, k: Core)
    requires Accounted(s) && SameCounts(s.core, k)
    ensures Accounted(s.(core := k))
  {
  }

  /** The other steps of a thread: they count nothing, and what was counted stays right where they lead. */
  lemma OtherStep(s: State, a: Action)
    requires Enabled(s, a) && !a.Begin? && !a.Go? && !a.Push? && !a.Submit? && !a.Timeout? && !a.Fire? && !a.Retire?
    requires Accounted(s)
    ensures
      var n := Apply(s, a);
      n == Put(s, a.t, n.threads[a.t], n.core) && SameCounts(s.core, n.core) && Counted(n.core, a.t, n.threads[a.t])
  {
    hide Room, Accounted;
    One(s, a.t);
  }

  lemma AccountedStep(s: State, a: Action)
    requires Accounted(s) && Guarded(s) && Enabled(s, a)
    ensures Accounted(Apply(s, a))
  {
    hide Accounted, Guarded, CanBegin, CanGo, CanTimeout, CanPush, Stands, Counted;
    hide DoBegin, DoGo, DoTimeout, DoSubmit, DoPush;
    match a
    case Begin(t, pc) => BeginCounted(s, t, pc);
    case Go(t) => GoCounted(s, t);
    case Timeout(t, r) => TimeoutCounted(s, t, r);
    case Submit(t, answer) => SubmitCounted(s, t, answer);
    case Push(t, fits) => PushCounted(s, t, fits);
    case Fire(p, reply) => BindingCounted(s, DoFire(s, p, reply).core);
    case Retire(p) => BindingCounted(s, DoRetire(s, p).core);
    case _ =>
      OtherStep(s, a);
      MoveCounted(s, a.t, Apply(s, a).threads[a.t], Apply(s, a).core);
  }
}
