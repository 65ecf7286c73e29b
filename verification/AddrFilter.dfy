/** The list filter and the two screens built on it (src/addr_filter.cpp:206-231, src/plugin.h:168-213). */
module AddrFilter {
  import opened Fields
  import opened Multiaddr

  datatype FilterResult = FilterResult(kept: seq<string>, dropped: seq<string>)

  datatype Screened = Accepted(addrs: seq<string>) | Refused(summary: string)

  function Describe(v: Verdict): string {
    match v
    case Ok => "ok"
    case Wildcard => "wildcard bind address"
    case ZeroPort => "port 0"
    case Loopback => "loopback"
  }

  /** The note that a dropped address leaves. */
  function Note(a: string, v: Verdict): string {
    a + " (" + Describe(v) + ")"
  }

  ghost predicate Passes(a: string, allow: bool) {
    VerdictOf(a, allow) == Ok
  }

  /** The addresses that pass, in order. */
  ghost function Kept(addrs: seq<string>, allow: bool): seq<string> {
    if addrs == [] then []
    else
      var rest := Kept(addrs[..|addrs| - 1], allow);
      var a := addrs[|addrs| - 1];
      if Passes(a, allow) then rest + [a] else rest
  }

  /** The notes of the addresses that do not pass, in order. */
  ghost function Notes(addrs: seq<string>, allow: bool): seq<string> {
    if addrs == [] then []
    else
      var rest := Notes(addrs[..|addrs| - 1], allow);
      var a := addrs[|addrs| - 1];
      if Passes(a, allow) then rest else rest + [Note(a, VerdictOf(a, allow))]
  }

  /** What `droppedSummary` builds up, note by note. */
  function Summary(notes: seq<string>): string {
    if notes == [] then ""
    else
      var rest := Summary(notes[..|notes| - 1]);
      (if rest == "" then "" else rest + ", ") + notes[|notes| - 1]
  }

  /** The notes as they stand between commas: all but the first after a space. */
  function Spaced(notes: seq<string>): (f: seq<string>)
    ensures |f| == |notes|
    ensures forall k :: 0 <= k < |f| ==> f[k] == if k == 0 then notes[0] else " " + notes[k]
  {
    seq(|notes|, k requires 0 <= k < |notes| => if k == 0 then notes[0] else " " + notes[k])
  }

  lemma {:induction false} JoinSnoc(f: seq<string>, t: string, c: char)
    requires f != []
    ensures Join(f + [t], c) == Join(f, c) + [c] + t
  {
    if |f| == 1 {
      assert f + [t] == [f[0]] + [t];
      JoinCons(f[0], [t], c);
    } else {
      JoinSnoc(f[1..], t, c);
      assert f + [t] == [f[0]] + (f[1..] + [t]);
      JoinCons(f[0], f[1..] + [t], c);
    }
  }

  lemma SummarySnoc(notes: seq<string>, note: string)
    ensures Summary([]) == ""
    ensures Summary(notes + [note]) == (if Summary(notes) == "" then "" else Summary(notes) + ", ") + note
  {
    assert (notes + [note])[..|notes|] == notes;
  }

  lemma SpacedSnoc(notes: seq<string>, note: string)
    ensures Spaced([note]) == [note]
    ensures notes != [] ==> Spaced(notes + [note]) == Spaced(notes) + [" " + note]
  {
  }

  /** From the first note on, which has something in it, the notes are joined by comma and space. */
  lemma {:induction false} SummaryJoins(notes: seq<string>)
    requires notes != [] && notes[0] != ""
    ensures Summary(notes) == Join(Spaced(notes), ',') && Summary(notes) != ""
  {
    hide Join, Summary, Spaced;
    var front, last := notes[..|notes| - 1], notes[|notes| - 1];
    SummarySnoc(front, last);
    SpacedSnoc(front, last);
    assert notes == front + [last];
    if front == [] {
      JoinOne(last, ',');
    } else {
      SummaryJoins(front);
      JoinSnoc(Spaced(front), " " + last, ',');
      assert Summary(front) + ", " + last == Summary(front) + [','] + (" " + last);
    }
  }

  /** The summary is the notes joined by comma and space iff no empty note comes before another. */
  lemma SummaryIsJoin(notes: seq<string>)
    ensures Summary(notes) == Join(Spaced(notes), ',') <==> |notes| <= 1 || notes[0] != ""
  {
    hide Join, Summary, Spaced;
    if notes == [] {
      EmptySummary();
    } else if notes[0] != "" {
      SummaryJoins(notes);
    } else {
      JoinLength(notes);
    }
  }

  lemma EmptySummary()
    ensures Summary([]) == Join(Spaced([]), ',')
  {
  }

  /** A text that starts with an empty note is shorter than the join: the comma after it is missing. */
  lemma {:induction false} JoinLength(notes: seq<string>)
    requires |notes| > 0 && notes[0] == ""
    ensures |notes| == 1 ==> Summary(notes) == Join(Spaced(notes), ',') == ""
    ensures |notes| > 1 ==> |Summary(notes)| < |Join(Spaced(notes), ',')|
  {
    hide Join, Summary, Spaced;
    var front, last := notes[..|notes| - 1], notes[|notes| - 1];
    SummarySnoc(front, last);
    SpacedSnoc(front, last);
    assert notes == front + [last];
    if front == [] {
      JoinOne(last, ',');
    } else {
      JoinLength(front);
      JoinSnoc(Spaced(front), " " + last, ',');
    }
  }

  /** `droppedSummary` */
  method DroppedSummary(r: FilterResult) returns (out: string)
    ensures out == Summary(r.dropped)
    ensures out == Join(Spaced(r.dropped), ',') <==> |r.dropped| <= 1 || r.dropped[0] != ""
  {
    hide Join, Spaced, Summary;
    SummaryIsJoin(r.dropped);
    SummarySnoc([], "");
    out := "";
    for i := 0 to |r.dropped|
      invariant out == Summary(r.dropped[..i])
    {
      assert r.dropped[..i + 1] == r.dropped[..i] + [r.dropped[i]];
      SummarySnoc(r.dropped[..i], r.dropped[i]);
      if out != "" {
        out := out + ", ";
      }
      out := out + r.dropped[i];
    }
    assert r.dropped[..|r.dropped|] == r.dropped;
  }

  /** `filter` */
  method Filter(addrs: seq<string>, allowLoopback: bool) returns (r: FilterResult)
    ensures r.kept == Kept(addrs, allowLoopback) && r.dropped == Notes(addrs, allowLoopback)
  {
    hide VerdictOf;
    r := FilterResult([], []);
    for i := 0 to |addrs|
      invariant r.kept == Kept(addrs[..i], allowLoopback) && r.dropped == Notes(addrs[..i], allowLoopback)
    {
      var a := addrs[i];
      assert addrs[..i + 1][..i] == addrs[..i];
      var v := Classify(a, allowLoopback);
      if v == Ok {
        r := r.(kept := r.kept + [a]);
        continue;
      }
      var note := a;
      note := note + " (";
      note := note + Describe(v);
      note := note + ")";
      r := r.(dropped := r.dropped + [note]);
    }
    assert addrs[..|addrs|] == addrs;
  }

  /** `screenDialAddrs`: refused when something was supplied and nothing of it can be dialled. */
  method ScreenDial(addrs: seq<string>) returns (r: Screened)
    ensures r == Screen(addrs, true)
  {
    hide Kept, Notes, Summary;
    var f := Filter(addrs, true);
    if addrs != [] && f.kept == [] {
      var summary := DroppedSummary(f);
      return Refused(summary);
    }
    return Accepted(f.kept);
  }

  /** `screenPublishAddrs`; `publishLoopback` is false on a device build. */
  method ScreenPublish(addrs: seq<string>, publishLoopback: bool) returns (r: Screened)
    ensures r == Screen(addrs, publishLoopback)
  {
    hide Kept, Notes, Summary;
    var f := Filter(addrs, publishLoopback);
    if addrs != [] && f.kept == [] {
      var summary := DroppedSummary(f);
      return Refused(summary);
    }
    return Accepted(f.kept);
  }

  ghost function Screen(addrs: seq<string>, allow: bool): Screened {
    if addrs != [] && Kept(addrs, allow) == [] then Refused(Summary(Notes(addrs, allow)))
    else Accepted(Kept(addrs, allow))
  }

  // ------------------------------------------------------------------ partition

  /** `addrs` is `kept` and `others` interleaved, each in its own order. */
  ghost predicate Interleaved(kept: seq<string>, others: seq<string>, addrs: seq<string>)
    decreases |addrs|
  {
    if addrs == [] then kept == [] && others == []
    else
      var n, last := |addrs| - 1, addrs[|addrs| - 1];
      || (kept != [] && kept[|kept| - 1] == last && Interleaved(kept[..|kept| - 1], others, addrs[..n]))
      || (others != [] && others[|others| - 1] == last && Interleaved(kept, others[..|others| - 1], addrs[..n]))
  }

  /** The notes that addresses leave when each of them is dropped. */
  ghost function NotesOf(others: seq<string>, allow: bool): (n: seq<string>)
    ensures |n| == |others|
  {
    seq(|others|, k requires 0 <= k < |others| => Note(others[k], VerdictOf(others[k], allow)))
  }

  /** Kept and dropped interleave back to the input; every kept address passes and no dropped one does. */
  lemma {:induction false} FilterPartitions(addrs: seq<string>, allow: bool) returns (others: seq<string>)
    ensures Interleaved(Kept(addrs, allow), others, addrs)
    ensures Notes(addrs, allow) == NotesOf(others, allow)
    ensures forall k :: 0 <= k < |Kept(addrs, allow)| ==> Passes(Kept(addrs, allow)[k], allow)
    ensures forall k :: 0 <= k < |others| ==> !Passes(others[k], allow)
  {
    hide VerdictOf, Passes, Note;
    others := [];
    if addrs != [] {
      var n, last := |addrs| - 1, addrs[|addrs| - 1];
      others := FilterPartitions(addrs[..n], allow);
      if Passes(last, allow) {
        assert Kept(addrs, allow)[..|Kept(addrs, allow)| - 1] == Kept(addrs[..n], allow);
      } else {
        assert (others + [last])[..|others|] == others;
        others := others + [last];
      }
    }
  }

  // ----------------------------------------------------------- dial and publish

  /** What can be published can be dialled, and loopback is the only difference. */
  lemma PublishableIsDialable(a: string, allow: bool)
    ensures VerdictOf(a, true) != Loopback
    ensures VerdictOf(a, allow) != Loopback ==> VerdictOf(a, true) == VerdictOf(a, allow)
    ensures VerdictOf(a, allow) == Loopback ==> VerdictOf(a, true) == Ok
  {
    var cs := Components(Segments.Segs(a));
    hide Components, Hard, HardVerdict, LoopbackHost, Judged, Judge;
    JudgeSound(cs, allow);
    JudgeSound(cs, true);
    HardOrNot(cs, allow, Judge(cs, allow));
    HardOrNot(cs, true, Judge(cs, true));
  }

  lemma {:induction false} KeptOfKept(addrs: seq<string>, first: bool, second: bool)
    requires second ==> first
    ensures Kept(Kept(addrs, first), second) == Kept(addrs, second)
  {
    hide VerdictOf;
    if addrs != [] {
      var n, last := |addrs| - 1, addrs[|addrs| - 1];
      KeptOfKept(addrs[..n], first, second);
      PublishableIsDialable(last, second);
      if Passes(last, first) {
        var front := Kept(addrs[..n], first);
        assert (front + [last])[..|front|] == front;
      }
    }
  }

  /** Filtering again changes nothing, and screening for publication needs no screening for dialling before it. */
  lemma FilterIdempotent(addrs: seq<string>, allow: bool)
    ensures Kept(Kept(addrs, allow), allow) == Kept(addrs, allow)
    ensures Notes(Kept(addrs, allow), allow) == []
    ensures Kept(Kept(addrs, true), allow) == Kept(addrs, allow)
  {
    KeptOfKept(addrs, allow, allow);
    KeptOfKept(addrs, true, allow);
    var others := FilterPartitions(addrs, allow);
    NoNotes(Kept(addrs, allow), allow);
  }

  lemma {:induction false} NoNotes(addrs: seq<string>, allow: bool)
    requires forall k :: 0 <= k < |addrs| ==> Passes(addrs[k], allow)
    ensures Notes(addrs, allow) == []
  {
    if addrs != [] {
      NoNotes(addrs[..|addrs| - 1], allow);
    }
  }

  /** A screen that accepts answers with an empty list only for an empty list; it refuses when nothing passes. */
  lemma ScreenNeverEmpties(addrs: seq<string>, allow: bool)
    ensures
      var r := Screen(addrs, allow);
      && (r.Accepted? ==> (r.addrs == [] <==> addrs == []))
      && (r.Refused? <==> addrs != [] && forall k :: 0 <= k < |addrs| ==> !Passes(addrs[k], allow))
  {
    KeptNone(addrs, allow);
  }

  lemma {:induction false} KeptNone(addrs: seq<string>, allow: bool)
    ensures Kept(addrs, allow) == [] <==> forall k :: 0 <= k < |addrs| ==> !Passes(addrs[k], allow)
  {
    hide Passes;
    if addrs != [] {
      var n := |addrs| - 1;
      KeptNone(addrs[..n], allow);
      if !Passes(addrs[n], allow) && forall k :: 0 <= k < n ==> !Passes(addrs[..n][k], allow) {
        assert forall k :: 0 <= k < n ==> addrs[..n][k] == addrs[k];
      }
      if forall k :: 0 <= k < |addrs| ==> !Passes(addrs[k], allow) {
        forall k | 0 <= k < n ensures !Passes(addrs[..n][k], allow) {
          assert addrs[..n][k] == addrs[k];
        }
      }
    }
  }

  lemma NoteSays(a: string, v: Verdict)
    ensures Note(a, v) != "" && (',' !in a ==> ',' !in Note(a, v))
  {
  }

  /** No note of a filter is empty, nor has one a comma unless its address does. */
  lemma {:induction false} NotesSay(addrs: seq<string>, allow: bool)
    ensures forall k :: 0 <= k < |Notes(addrs, allow)| ==> Notes(addrs, allow)[k] != ""
    ensures Free(addrs, ',') ==> Free(Notes(addrs, allow), ',')
  {
    hide VerdictOf, Note;
    if addrs != [] {
      var a := addrs[|addrs| - 1];
      NotesSay(addrs[..|addrs| - 1], allow);
      NoteSays(a, VerdictOf(a, allow));
    }
  }

  /**
   The summary of a filter is always its notes joined by comma and space, and the notes are read back from it when no
   address has a comma.
   */
  lemma SummaryReadsBack(addrs: seq<string>, allow: bool)
    ensures Summary(Notes(addrs, allow)) == Join(Spaced(Notes(addrs, allow)), ',')
    ensures Free(addrs, ',') && Notes(addrs, allow) != [] ==>
              Split(Summary(Notes(addrs, allow)), ',') == Spaced(Notes(addrs, allow))
  {
    hide Notes, Summary, Split, Join;
    NotesSay(addrs, allow);
    var notes := Notes(addrs, allow);
    SummaryIsJoin(notes);
    if Free(addrs, ',') && notes != [] {
      SplitJoin(Spaced(notes), ',');
    }
  }

  // -------------------------------------------------------------- what a screen answers

  /** The note on an address at fault, by the fault. */
  ghost predicate Says(note: string, a: string, allow: bool) {
    match VerdictOf(a, allow)
    case Ok => false
    case Wildcard => note == a + " (wildcard bind address)"
    case ZeroPort => note == a + " (port 0)"
    case Loopback => note == a + " (loopback)"
  }

  lemma NoteSaysFault(a: string, allow: bool)
    requires VerdictOf(a, allow) != Ok
    ensures Says(Note(a, VerdictOf(a, allow)), a, allow)
  {
    hide VerdictOf;
    var v := VerdictOf(a, allow);
    assert a + " (" + Describe(v) + ")" == a + (" (" + Describe(v) + ")");
    assert " (" + "wildcard bind address" + ")" == " (wildcard bind address)";
    assert " (" + "port 0" + ")" == " (port 0)" && " (" + "loopback" + ")" == " (loopback)";
  }

  lemma {:induction false} KeptCount(addrs: seq<string>, allow: bool, a: string)
    ensures multiset(Kept(addrs, allow))[a] == if VerdictOf(a, allow) == Ok then multiset(addrs)[a] else 0
  {
    hide VerdictOf;
    if addrs != [] {
      var front, last := addrs[..|addrs| - 1], addrs[|addrs| - 1];
      KeptCount(front, allow, a);
      assert addrs == front + [last];
      assert multiset(addrs) == multiset(front) + multiset{last};
    }
  }

  lemma {:induction false} KeptAll(addrs: seq<string>, allow: bool)
    requires forall k :: 0 <= k < |addrs| ==> VerdictOf(addrs[k], allow) == Ok
    ensures Kept(addrs, allow) == addrs
  {
    hide VerdictOf;
    if addrs != [] {
      KeptAll(addrs[..|addrs| - 1], allow);
      assert addrs == addrs[..|addrs| - 1] + [addrs[|addrs| - 1]];
    }
  }

  /**
   What an accepted list holds: the passing addresses, each as often as it was supplied and in the order supplied, so
   that they and the others interleave to the input; and the whole input when all pass.
   */
  lemma AcceptedHoldsThePassing(addrs: seq<string>, allow: bool, kept: seq<string>) returns (others: seq<string>)
    requires Screen(addrs, allow) == Accepted(kept)
    ensures Interleaved(kept, others, addrs)
    ensures (forall k :: 0 <= k < |kept| ==> VerdictOf(kept[k], allow) == Ok)
    ensures (forall k :: 0 <= k < |others| ==> VerdictOf(others[k], allow) != Ok)
    ensures forall a :: multiset(kept)[a] == if VerdictOf(a, allow) == Ok then multiset(addrs)[a] else 0
    ensures (forall k :: 0 <= k < |addrs| ==> VerdictOf(addrs[k], allow) == Ok) ==> kept == addrs
  {
    hide VerdictOf, Kept, Notes, Interleaved;
    others := FilterPartitions(addrs, allow);
    forall k | 0 <= k < |kept|
      ensures VerdictOf(kept[k], allow) == Ok
    {
      assert Passes(kept[k], allow);
    }
    forall k | 0 <= k < |others|
      ensures VerdictOf(others[k], allow) != Ok
    {
      assert !Passes(others[k], allow);
    }
    forall a
      ensures multiset(kept)[a] == if VerdictOf(a, allow) == Ok then multiset(addrs)[a] else 0
    {
      KeptCount(addrs, allow, a);
    }
    if forall k :: 0 <= k < |addrs| ==> VerdictOf(addrs[k], allow) == Ok {
      KeptAll(addrs, allow);
    }
  }

  lemma {:induction false} AllNoted(addrs: seq<string>, allow: bool)
    requires forall k :: 0 <= k < |addrs| ==> !Passes(addrs[k], allow)
    ensures Notes(addrs, allow) == NotesOf(addrs, allow)
  {
    hide VerdictOf, Passes, Note;
    if addrs != [] {
      AllNoted(addrs[..|addrs| - 1], allow);
    }
  }

  /** What a refusal says: each address supplied, in order, with its fault, joined by comma and space. */
  lemma RefusalNamesEach(addrs: seq<string>, allow: bool, summary: string) returns (notes: seq<string>)
    requires Screen(addrs, allow) == Refused(summary)
    ensures |notes| == |addrs| > 0 && (forall k :: 0 <= k < |addrs| ==> Says(notes[k], addrs[k], allow))
    ensures summary == Join(Spaced(notes), ',')
  {
    hide VerdictOf, Kept, Notes, Summary, Join, Spaced, Note, Says;
    KeptNone(addrs, allow);
    AllNoted(addrs, allow);
    SummaryReadsBack(addrs, allow);
    notes := NotesOf(addrs, allow);
    forall k | 0 <= k < |addrs|
      ensures Says(notes[k], addrs[k], allow)
    {
      assert !Passes(addrs[k], allow);
      NoteSaysFault(addrs[k], allow);
    }
  }
}
