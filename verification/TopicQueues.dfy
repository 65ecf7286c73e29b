/** The per-topic backlog of src/topic_queues.h and src/topic_queues.cpp. */
module TopicQueues {

  const WORD: nat := 0x1_0000_0000_0000_0000

  /** A C++ `size_t`. */
  type Size = n: nat | n < WORD

  /** A string whose size a `size_t` holds. */
  type Payload = p: string | |p| < WORD

  function Add64(a: Size, b: Size): Size {
    (a + b) % WORD
  }

  function Sub64(a: Size, b: Size): Size {
    (a - b) % WORD
  }

  // ---------------------------------------------------------------- abstraction

  /** What a topic means: its waiting messages and the messages it refused. */
  datatype Entry = Entry(messages: seq<Payload>, dropped: nat)

  datatype State = State(topics: map<string, Entry>, maxMessages: Size, maxBytes: Size)

  const INITIAL: State := State(map[], 1024, 4 * 1024 * 1024)

  function Total(m: seq<Payload>): nat {
    if m == [] then 0 else Total(m[..|m| - 1]) + |m[|m| - 1]|
  }

  function EntryOf(st: State, topic: string): Entry {
    if topic in st.topics then st.topics[topic] else Entry([], 0)
  }

  datatype Op =
    | SetBounds(maxMessages: Size, maxBytes: Size)
    | Push(topic: string, payload: Payload)
    | Pop(topic: string)
    | Release(topic: string)
    | ReleaseAll

  datatype Outcome = Done | Accepted | Dropped | Disabled | Delivered(payload: Payload) | Empty

  /** The entries with their messages freed, those without a drop count forgotten. */
  function Retired(topics: map<string, Entry>): map<string, Entry> {
    map t | t in topics && topics[t].dropped != 0 :: Entry([], topics[t].dropped)
  }

  function Released(topics: map<string, Entry>, topic: string): map<string, Entry> {
    if topic !in topics then topics
    else if topics[topic].dropped != 0 then topics[topic := Entry([], topics[topic].dropped)]
    else topics - {topic}
  }

  /** A payload fits when one more message and its bytes stay within the bounds, in unbounded arithmetic. */
  predicate Fits(st: State, topic: string, payload: Payload) {
    var e := EntryOf(st, topic);
    |e.messages| < st.maxMessages && Total(e.messages) + |payload| <= st.maxBytes
  }

  function Next(st: State, op: Op): State {
    match op
    case SetBounds(m, b) => st.(maxMessages := m, maxBytes := b)
    case Push(t, p) =>
      var e := EntryOf(st, t);
      if st.maxMessages == 0 || st.maxBytes == 0 then st
      else if Fits(st, t, p) then st.(topics := st.topics[t := e.(messages := e.messages + [p])])
      else st.(topics := st.topics[t := e.(dropped := e.dropped + 1)])
    case Pop(t) =>
      var e := EntryOf(st, t);
      if e.messages == [] then st else st.(topics := st.topics[t := e.(messages := e.messages[1..])])
    case Release(t) => st.(topics := Released(st.topics, t))
    case ReleaseAll => st.(topics := Retired(st.topics))
  }

  function Result(st: State, op: Op): Outcome {
    match op
    case Push(t, p) =>
      if st.maxMessages == 0 || st.maxBytes == 0 then Disabled else if Fits(st, t, p) then Accepted else Dropped
    case Pop(t) =>
      var e := EntryOf(st, t);
      if e.messages == [] then Empty else Delivered(e.messages[0])
    case _ => Done
  }

  /** The state after a history of operations. */
  function After(ops: seq<Op>): State {
    if ops == [] then INITIAL else Next(After(ops[..|ops| - 1]), ops[|ops| - 1])
  }

  lemma AfterSnoc(ops: seq<Op>, op: Op)
    ensures After(ops + [op]) == Next(After(ops), op)
  {
    assert (ops + [op])[..|ops|] == ops;
  }

  lemma TotalSnoc(m: seq<Payload>, p: Payload)
    ensures Total(m + [p]) == Total(m) + |p|
  {
    assert (m + [p])[..|m|] == m;
  }

  lemma {:induction false} TotalFirst(m: seq<Payload>)
    requires m != []
    ensures Total(m) == |m[0]| + Total(m[1..])
  {
    if |m| > 1 {
      TotalFirst(m[..|m| - 1]);
      assert m[..|m| - 1][1..] == m[1..][..|m| - 2];
    } else {
      assert m[..0] == [] && m[1..] == [];
    }
  }

  /** The subtraction never wraps where it is used, and says that the sum exceeds the bound. */
  lemma ByteCheck(bytes: Size, size: Size, bound: Size)
    ensures (size > bound || bytes > Sub64(bound, size)) <==> bytes + size > bound
    ensures bytes + size <= bound ==> Add64(bytes, size) == bytes + size
  {
  }

  lemma SubExact(bytes: Size, size: Size)
    requires size <= bytes
    ensures Sub64(bytes, size) == bytes - size
  {
  }

  // ------------------------------------------------------------- representation

  /** A topic as the module stores it, with its running byte count. */
  datatype Topic = Topic(messages: seq<Payload>, bytes: Size, dropped: nat)

  function Meaning(topics: map<string, Topic>): map<string, Entry> {
    map t | t in topics :: Entry(topics[t].messages, topics[t].dropped)
  }

  predicate Exact(topics: map<string, Topic>) {
    forall t :: t in topics ==> topics[t].bytes == Total(topics[t].messages)
  }

  /** The byte counts that the table holds are those of its messages. */
  lemma Stored(topics: map<string, Topic>, topic: string, t: Topic)
    requires Exact(topics) && t.bytes == Total(t.messages)
    ensures Exact(topics[topic := t])
    ensures Meaning(topics[topic := t]) == Meaning(topics)[topic := Entry(t.messages, t.dropped)]
  {
  }

  lemma Lookup(topics: map<string, Topic>, topic: string)
    requires Exact(topics)
    ensures topic in Meaning(topics) <==> topic in topics
    ensures topic in topics ==>
      && Meaning(topics)[topic] == Entry(topics[topic].messages, topics[topic].dropped)
      && topics[topic].bytes == Total(topics[topic].messages)
    ensures Total([]) == 0
  {
  }

  lemma Erased(topics: map<string, Topic>, topic: string)
    requires Exact(topics)
    ensures Exact(topics - {topic}) && Meaning(topics - {topic}) == Meaning(topics) - {topic}
  {
  }

  /** `was` with every topic outside `todo` retired already. */
  ghost predicate Sweeping(was: map<string, Topic>, now: map<string, Topic>, todo: set<string>) {
    && todo <= now.Keys && now.Keys <= was.Keys && Exact(now)
    && (forall t :: t in todo ==> now[t] == was[t])
    && (forall t :: t in was && t !in todo ==>
          if was[t].dropped == 0 then t !in now else t in now && now[t] == Topic([], 0, was[t].dropped))
  }

  lemma SweepStep(was: map<string, Topic>, now: map<string, Topic>, todo: set<string>, t: string)
    requires Sweeping(was, now, todo) && t in todo
    ensures now[t].dropped != 0 ==> Sweeping(was, now[t := Topic([], 0, now[t].dropped)], todo - {t})
    ensures now[t].dropped == 0 ==> Sweeping(was, now[t := Topic([], 0, 0)] - {t}, todo - {t})
  {
  }

  lemma SweepStart(was: map<string, Topic>)
    requires Exact(was)
    ensures Sweeping(was, was, was.Keys)
  {
  }

  lemma SweepKeys(was: map<string, Topic>, now: map<string, Topic>, todo: set<string>)
    requires Sweeping(was, now, todo)
    ensures todo <= now.Keys
  {
  }

  lemma SweepDone(was: map<string, Topic>, now: map<string, Topic>)
    requires Sweeping(was, now, {})
    ensures Exact(now) && Meaning(now) == Retired(Meaning(was))
  {
  }

  datatype Sample = Sample(topic: string, depth: nat, dropped: nat)

  class Queues {
    var topics: map<string, Topic>
    var maxMessages: Size
    var maxBytes: Size
    ghost var history: seq<Op>

    /** What the stored topics mean. */
    ghost function Abs(): State
      reads this
    {
      State(Meaning(topics), maxMessages, maxBytes)
    }

    /** The byte counts are exact, and the state is that of the history. */
    ghost predicate Valid()
      reads this
    {
      Exact(topics) && Abs() == After(history)
    }

    constructor ()
      ensures Valid() && history == []
    {
      topics := map[];
      maxMessages := 1024;
      maxBytes := 4 * 1024 * 1024;
      history := [];
    }

    method SetBoundsTo(messages: Size, bytes: Size)
      requires Valid()
      modifies this
      ensures Valid() && history == old(history) + [SetBounds(messages, bytes)]
    {
      AfterSnoc(history, SetBounds(messages, bytes));
      maxMessages := messages;
      maxBytes := bytes;
      history := history + [SetBounds(messages, bytes)];
    }

    /** `push`: the byte check subtracts, so that no sum can wrap. */
    method Offer(topic: string, payload: Payload) returns (ok: bool)
      requires Valid()
      modifies this
      ensures Valid() && history == old(history) + [Push(topic, payload)]
      ensures ok <==> Result(After(old(history)), Push(topic, payload)) == Accepted
    {
      hide After, Total, Add64, Sub64, Meaning, Exact;
      AfterSnoc(history, Push(topic, payload));
      history := history + [Push(topic, payload)];
      if maxMessages == 0 || maxBytes == 0 {
        return false;
      }
      Lookup(topics, topic);
      var t := if topic in topics then topics[topic] else Topic([], 0, 0);
      ByteCheck(t.bytes, |payload|, maxBytes);
      var exceedsByteBound := |payload| > maxBytes || t.bytes > Sub64(maxBytes, |payload|);
      if |t.messages| >= maxMessages || exceedsByteBound {
        Stored(topics, topic, t.(dropped := t.dropped + 1));
        topics := topics[topic := t.(dropped := t.dropped + 1)];
        return false;
      }
      TotalSnoc(t.messages, payload);
      Stored(topics, topic, t.(bytes := Add64(t.bytes, |payload|), messages := t.messages + [payload]));
      topics := topics[topic := t.(bytes := Add64(t.bytes, |payload|), messages := t.messages + [payload])];
      return true;
    }

    /** `pop`, once its wait is over. */
    method Take(topic: string) returns (ok: bool, out: Payload)
      requires Valid()
      modifies this
      ensures Valid() && history == old(history) + [Pop(topic)]
      ensures Result(After(old(history)), Pop(topic)) == if ok then Delivered(out) else Empty
    {
      hide After, Total, Sub64, Meaning, Exact;
      AfterSnoc(history, Pop(topic));
      history := history + [Pop(topic)];
      Lookup(topics, topic);
      if topic !in topics || topics[topic].messages == [] {
        return false, "";
      }
      var t := topics[topic];
      out := t.messages[0];
      TotalFirst(t.messages);
      SubExact(t.bytes, |out|);
      Stored(topics, topic, t.(messages := t.messages[1..], bytes := Sub64(t.bytes, |out|)));
      topics := topics[topic := t.(messages := t.messages[1..], bytes := Sub64(t.bytes, |out|))];
      return true, out;
    }

    /** `release` */
    method Forget(topic: string)
      requires Valid()
      modifies this
      ensures Valid() && history == old(history) + [Release(topic)]
    {
      hide After, Meaning, Exact;
      AfterSnoc(history, Release(topic));
      history := history + [Release(topic)];
      Lookup(topics, topic);
      if topic in topics {
        Stored(topics, topic, Topic([], 0, topics[topic].dropped));
        topics := topics[topic := Topic([], 0, topics[topic].dropped)];
        if topics[topic].dropped == 0 {
          Erased(topics, topic);
          topics := topics - {topic};
        }
      }
    }

    /** `releaseAll`: erases while iterating, in whatever order the table yields. */
    method ForgetAll()
      requires Valid()
      modifies this
      ensures Valid() && history == old(history) + [ReleaseAll]
    {
      hide After, Meaning, Exact, Sweeping;
      AfterSnoc(history, ReleaseAll);
      var todo := topics.Keys;
      SweepStart(topics);
      while todo != {}
        invariant Sweeping(old(topics), topics, todo)
        invariant maxMessages == old(maxMessages) && maxBytes == old(maxBytes) && history == old(history)
      {
        var t :| t in todo;
        SweepStep(old(topics), topics, todo, t);
        SweepKeys(old(topics), topics, todo);
        topics := topics[t := Topic([], 0, topics[t].dropped)];
        if topics[t].dropped == 0 {
          topics := topics - {t};
        }
        todo := todo - {t};
      }
      SweepDone(old(topics), topics);
      history := history + [ReleaseAll];
    }

    /** `metrics`: one sample for each topic held. */
    method Samples() returns (samples: seq<Sample>)
      requires Valid()
      ensures forall k :: 0 <= k < |samples| ==>
        samples[k].topic in After(history).topics &&
        samples[k] == Sample(samples[k].topic, |After(history).topics[samples[k].topic].messages|,
                             After(history).topics[samples[k].topic].dropped)
      ensures forall t :: t in After(history).topics ==> exists k :: 0 <= k < |samples| && samples[k].topic == t
      ensures forall j, k :: 0 <= j < k < |samples| ==> samples[j].topic != samples[k].topic
    {
      hide After, Total;
      samples := [];
      var todo := topics.Keys;
      while todo != {}
        invariant todo <= topics.Keys
        invariant forall k :: 0 <= k < |samples| ==>
          samples[k].topic in topics && samples[k].topic !in todo &&
          samples[k] == Sample(samples[k].topic, |topics[samples[k].topic].messages|, topics[samples[k].topic].dropped)
        invariant forall t :: t in topics && t !in todo ==> exists k :: 0 <= k < |samples| && samples[k].topic == t
        invariant forall j, k :: 0 <= j < k < |samples| ==> samples[j].topic != samples[k].topic
      {
        var t :| t in todo;
        ghost var was := samples;
        samples := samples + [Sample(t, |topics[t].messages|, topics[t].dropped)];
        assert samples[|was|].topic == t;
        assert forall k :: 0 <= k < |was| ==> samples[k] == was[k];
        todo := todo - {t};
      }
      assert forall t :: t in After(history).topics ==> t in topics;
    }
  }
}
