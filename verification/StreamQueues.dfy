/** The per-protocol queues of inbound stream handles (src/stream_queues.h, src/stream_queues.cpp). */
module StreamQueues {
  import opened Order

  const CAP: nat := 1024

  type Id = n: nat | n < 0x1_0000_0000_0000_0000

  datatype Stream = Stream(id: Id, peer: string)

  datatype Protocol = Protocol(streams: seq<Stream>, dropped: nat)

  type State = map<string, Protocol>

  /** A removal names the protocol whose queue the table's iteration order led it to, if any. */
  datatype Op =
    | Push(proto: string, stream: Stream)
    | Pop(proto: string)
    | Remove(id: Id, found: Option<string>)
    | ReleaseAll

  function At(st: State, p: string): Protocol {
    if p in st then st[p] else Protocol([], 0)
  }

  /** The position of the first handle with this id, or the length. */
  function First(s: seq<Stream>, id: Id): (k: nat)
    ensures k <= |s|
    ensures forall j :: 0 <= j < k ==> s[j].id != id
    ensures k < |s| ==> s[k].id == id
  {
    if s == [] || s[0].id == id then 0 else First(s[1..], id) + 1
  }

  predicate Holds(st: State, p: string, id: Id) {
    First(At(st, p).streams, id) < |At(st, p).streams|
  }

  function Erased(s: seq<Stream>, k: nat): seq<Stream>
    requires k < |s|
  {
    s[..k] + s[k + 1..]
  }

  /** Every iteration order is allowed: a removal finds some holder of the id, or nothing when none holds it. */
  ghost predicate Legal(st: State, op: Op) {
    match op
    case Remove(id, Some(p)) => p in st && Holds(st, p, id)
    case Remove(id, None) => forall p :: p in st ==> !Holds(st, p, id)
    case _ => true
  }

  function Retired(st: State): State {
    map p | p in st && st[p].dropped != 0 :: Protocol([], st[p].dropped)
  }

  predicate Full(st: State, p: string) {
    |At(st, p).streams| >= CAP
  }

  function Next(st: State, op: Op): State {
    match op
    case Push(p, s) =>
      var e := At(st, p);
      if Full(st, p) then st[p := e.(dropped := e.dropped + 1)] else st[p := e.(streams := e.streams + [s])]
    case Pop(p) =>
      var e := At(st, p);
      if e.streams == [] then st else st[p := e.(streams := e.streams[1..])]
    case Remove(id, None) => st
    case Remove(id, Some(p)) =>
      if Holds(st, p, id) then st[p := At(st, p).(streams := Erased(At(st, p).streams, First(At(st, p).streams, id)))]
      else st
    case ReleaseAll => Retired(st)
  }

  /** What an operation returns; a removal whether it found the id. */
  datatype Outcome = Admitted | Refused | Delivered(stream: Stream) | Empty | Found(yes: bool) | Done

  function Result(st: State, op: Op): Outcome {
    match op
    case Push(p, _) => if Full(st, p) then Refused else Admitted
    case Pop(p) => if At(st, p).streams == [] then Empty else Delivered(At(st, p).streams[0])
    case Remove(_, found) => Found(found.Some?)
    case ReleaseAll => Done
  }

  function After(ops: seq<Op>): State {
    if ops == [] then map[] else Next(After(ops[..|ops| - 1]), ops[|ops| - 1])
  }

  /** Each operation of the history was allowed where it happened. */
  ghost predicate Run(ops: seq<Op>) {
    ops != [] ==> Run(ops[..|ops| - 1]) && Legal(After(ops[..|ops| - 1]), ops[|ops| - 1])
  }

  lemma Snoc(ops: seq<Op>, op: Op)
    ensures After(ops + [op]) == Next(After(ops), op)
    ensures Run(ops + [op]) <==> Run(ops) && Legal(After(ops), op)
  {
    assert (ops + [op])[..|ops|] == ops;
  }

  lemma FirstIs(s: seq<Stream>, id: Id, k: nat)
    requires k <= |s| && (forall j :: 0 <= j < k ==> s[j].id != id)
    requires k < |s| ==> s[k].id == id
    ensures First(s, id) == k
  {
  }

  /** `was` with every protocol outside `todo` retired already. */
  ghost predicate Sweeping(was: State, now: State, todo: set<string>) {
    && todo <= now.Keys && now.Keys <= was.Keys
    && (forall p :: p in todo ==> now[p] == was[p])
    && (forall p :: p in was && p !in todo ==>
          if was[p].dropped == 0 then p !in now else p in now && now[p] == Protocol([], was[p].dropped))
  }

  class Queues {
    var protocols: map<string, Protocol>
    ghost var history: seq<Op>

    /** What is stored is what the history left, and the history is one the code allows. */
    ghost predicate Valid()
      reads this
    {
      Run(history) && protocols == After(history)
    }

    constructor ()
      ensures Valid() && history == []
    {
      protocols := map[];
      history := [];
    }

    /** `push`: over the cap the newest handle is refused and counted. */
    method Offer(proto: string, stream: Stream) returns (ok: bool)
      requires Valid()
      modifies this
      ensures Valid() && history == old(history) + [Push(proto, stream)]
      ensures Result(After(old(history)), Push(proto, stream)) == if ok then Admitted else Refused
    {
      hide After, Run;
      Snoc(history, Push(proto, stream));
      history := history + [Push(proto, stream)];
      var p := if proto in protocols then protocols[proto] else Protocol([], 0);
      if |p.streams| >= CAP {
        protocols := protocols[proto := p.(dropped := p.dropped + 1)];
        return false;
      }
      protocols := protocols[proto := p.(streams := p.streams + [stream])];
      return true;
    }

    /** `pop`, once its wait is over. */
    method Take(proto: string) returns (out: Option<Stream>)
      requires Valid()
      modifies this
      ensures Valid() && history == old(history) + [Pop(proto)]
      ensures Result(After(old(history)), Pop(proto)) == if out.None? then Empty else Delivered(out.value)
    {
      hide After, Run;
      Snoc(history, Pop(proto));
      history := history + [Pop(proto)];
      if proto !in protocols || protocols[proto].streams == [] {
        return None;
      }
      var p := protocols[proto];
      protocols := protocols[proto := p.(streams := p.streams[1..])];
      return Some(p.streams[0]);
    }

    /** `remove`: the protocols in whatever order the table yields, each queue from its front. */
    method Drop(id: Id) returns (found: Option<string>)
      requires Valid()
      modifies this
      ensures Valid() && history == old(history) + [Remove(id, found)]
    {
      hide After, Run;
      var todo := protocols.Keys;
      while todo != {}
        invariant todo <= protocols.Keys && protocols == old(protocols) && history == old(history)
        invariant forall p :: p in protocols && p !in todo ==> !Holds(protocols, p, id)
      {
        var p :| p in todo;
        var s := protocols[p].streams;
        for k := 0 to |s|
          invariant forall j :: 0 <= j < k ==> s[j].id != id
          invariant protocols == old(protocols) && history == old(history)
        {
          if s[k].id == id {
            FirstIs(s, id, k);
            Snoc(history, Remove(id, Some(p)));
            history := history + [Remove(id, Some(p))];
            protocols := protocols[p := protocols[p].(streams := Erased(s, k))];
            return Some(p);
          }
        }
        FirstIs(s, id, |s|);
        todo := todo - {p};
      }
      Snoc(history, Remove(id, None));
      history := history + [Remove(id, None)];
      return None;
    }

    /** `releaseAll`: erases while iterating. */
    method Clear()
      requires Valid()
      modifies this
      ensures Valid() && history == old(history) + [ReleaseAll]
    {
      hide After, Run;
      Snoc(history, ReleaseAll);
      var todo := protocols.Keys;
      while todo != {}
        invariant Sweeping(old(protocols), protocols, todo) && history == old(history)
      {
        var p :| p in todo;
        protocols := protocols[p := protocols[p].(streams := [])];
        if protocols[p].dropped == 0 {
          protocols := protocols - {p};
        }
        todo := todo - {p};
      }
      history := history + [ReleaseAll];
    }
  }
}
