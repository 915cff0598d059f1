/** The event log of one spool record (src/events.rs): capped, anchored at its first event,
    with repeated `state-seen` polls collapsed. */
module EventLog {
  import opened Prelude

  const EVENTS_MAX := 200
  const STATE_SEEN := "state-seen"

  /** `state` is `detail.state`, the only part of the detail the log looks at; `note` stands
      for the time stamp, the author and the rest of the detail. */
  datatype Event = Event(kind: string, state: Option<string>, note: nat)

  predicate Seen(e: Event) {
    e.kind == STATE_SEEN
  }

  /** The state of the newest `state-seen` entry, if there is one. */
  function LastStateSeen(list: seq<Event>): Option<Option<string>> {
    if list == [] then None
    else if Seen(list[|list| - 1]) then Some(list[|list| - 1].state)
    else LastStateSeen(list[..|list| - 1])
  }

  predicate Collapses(list: seq<Event>, e: Event) {
    Seen(e) && LastStateSeen(list) == Some(e.state)
  }

  function Trimmed(list: seq<Event>): seq<Event>
    decreases |list|
  {
    if |list| > EVENTS_MAX then Trimmed([list[0]] + list[2..]) else list
  }

  function Pushed(list: seq<Event>, e: Event): seq<Event> {
    if Collapses(list, e) then list else Trimmed(list + [e])
  }

  class Record {
    var events: seq<Event>

    constructor ()
      ensures events == []
    {
      events := [];
    }

    method LastSeen() returns (last: Option<Option<string>>)
      ensures last == LastStateSeen(events)
    {
      var i := |events|;
      assert events[..i] == events;
      while i > 0
        invariant 0 <= i <= |events|
        invariant LastStateSeen(events[..i]) == LastStateSeen(events)
      {
        assert events[..i][..i - 1] == events[..i - 1];
        if Seen(events[i - 1]) {
          return Some(events[i - 1].state);
        }
        i := i - 1;
      }
      return None;
    }

    method Push(e: Event)
      modifies this
      ensures events == Pushed(old(events), e)
    {
      if Seen(e) {
        var last := LastSeen();
        if last == Some(e.state) {
          return;
        }
      }
      events := events + [e];
      while |events| > EVENTS_MAX
        invariant Trimmed(events) == Trimmed(old(events) + [e])
        decreases |events|
      {
        assert events[..1] == [events[0]];
        events := events[..1] + events[2..];
      }
    }
  }

  // ---- whole histories ----

  function PushAll(list: seq<Event>, evs: seq<Event>): seq<Event>
    decreases |evs|
  {
    if evs == [] then list else PushAll(Pushed(list, evs[0]), evs[1..])
  }

  /** The events of a history that were not collapsed, in push order. */
  function Appended(list: seq<Event>, evs: seq<Event>): seq<Event>
    decreases |evs|
  {
    if evs == [] then []
    else (if Collapses(list, evs[0]) then [] else [evs[0]]) + Appended(Pushed(list, evs[0]), evs[1..])
  }

  /** The anchor and the newest 199 of the rest. */
  function Window(a: seq<Event>): seq<Event> {
    if |a| <= EVENTS_MAX then a else [a[0]] + a[|a| - (EVENTS_MAX - 1)..]
  }

  /** No two `state-seen` entries that follow each other, other kinds aside, say the same. */
  predicate NoRepeat(list: seq<Event>) {
    forall i, j :: 0 <= i < j < |list| ==> Differ(list, i, j)
  }

  predicate Differ(list: seq<Event>, i: nat, j: nat)
    requires i < j < |list|
  {
    Seen(list[i]) && Seen(list[j]) && Quiet(list, i + 1, j) ==> list[i].state != list[j].state
  }

  predicate Quiet(list: seq<Event>, from: nat, to: nat)
    requires to <= |list|
  {
    forall k :: from <= k < to ==> !Seen(list[k])
  }

  lemma {:induction false} LastSeenAt(list: seq<Event>) returns (i: int)
    ensures LastStateSeen(list).None? <==> i < 0
    ensures i < |list| && (i >= 0 ==> Seen(list[i]) && LastStateSeen(list) == Some(list[i].state))
    ensures forall k :: 0 <= k < |list| && k > i ==> !Seen(list[k])
  {
    if list == [] {
      i := -1;
    } else if Seen(list[|list| - 1]) {
      i := |list| - 1;
    } else {
      var shorter := list[..|list| - 1];
      i := LastSeenAt(shorter);
      assert forall k :: 0 <= k < |shorter| ==> list[k] == shorter[k];
    }
  }

  lemma AppendKeepsNoRepeat(list: seq<Event>, e: Event)
    requires NoRepeat(list) && !Collapses(list, e)
    ensures NoRepeat(list + [e])
  {
    var all := list + [e];
    var last := LastSeenAt(list);
    forall i, j | 0 <= i < j < |all| ensures Differ(all, i, j) {
      if j < |list| {
        assert Differ(list, i, j);
        assert Quiet(all, i + 1, j) ==> Quiet(list, i + 1, j) by {
          assert forall k :: 0 <= k < |list| ==> all[k] == list[k];
        }
      } else if Seen(e) && Seen(all[i]) && Quiet(all, i + 1, j) {
        assert last >= 0 && all[last] == list[last] && Seen(all[last]);
        assert i == last;
      }
    }
  }

  lemma DropKeepsNoRepeat(list: seq<Event>)
    requires |list| >= 2 && NoRepeat(list) && !Seen(list[0])
    ensures NoRepeat([list[0]] + list[2..])
  {
    var less := [list[0]] + list[2..];
    forall i, j | 0 <= i < j < |less| ensures Differ(less, i, j) {
      if i > 0 {
        assert less[i] == list[i + 1] && less[j] == list[j + 1];
        assert Differ(list, i + 1, j + 1);
        if Quiet(less, i + 1, j) {
          QuietShifts(list, less, i + 1, j);
        }
      }
    }
  }

  lemma QuietShifts(list: seq<Event>, less: seq<Event>, from: nat, to: nat)
    requires |list| >= 2 && less == [list[0]] + list[2..] && 1 <= from && to <= |less|
    requires Quiet(less, from, to)
    ensures Quiet(list, from + 1, to + 1)
  {
    forall k | from + 1 <= k < to + 1 ensures !Seen(list[k]) {
      assert list[k] == less[k - 1];
    }
  }

  lemma {:induction false} TrimKeepsNoRepeat(list: seq<Event>)
    requires list != [] && NoRepeat(list) && !Seen(list[0])
    ensures NoRepeat(Trimmed(list)) && Trimmed(list) != [] && Trimmed(list)[0] == list[0]
    decreases |list|
  {
    if |list| > EVENTS_MAX {
      DropKeepsNoRepeat(list);
      TrimKeepsNoRepeat([list[0]] + list[2..]);
    }
  }

  /** With an anchor that is no `state-seen`, trimming never brings two equal polls together. */
  lemma {:induction false} NeverRepeats(list: seq<Event>, evs: seq<Event>)
    requires list != [] && NoRepeat(list) && !Seen(list[0])
    ensures NoRepeat(PushAll(list, evs)) && PushAll(list, evs) != [] && PushAll(list, evs)[0] == list[0]
    decreases |evs|
  {
    if evs != [] {
      if !Collapses(list, evs[0]) {
        AppendKeepsNoRepeat(list, evs[0]);
        TrimKeepsNoRepeat(list + [evs[0]]);
      }
      NeverRepeats(Pushed(list, evs[0]), evs[1..]);
    }
  }

  /** What is stored is a window of what was appended. */
  lemma {:induction false} LogIsWindow(a: seq<Event>, evs: seq<Event>)
    ensures PushAll(Window(a), evs) == Window(a + Appended(Window(a), evs))
    decreases |evs|
  {
    hide Window, Trimmed, Collapses;
    var list := Window(a);
    if evs == [] {
      assert a + Appended(list, evs) == a;
    } else {
      var rest := Appended(Pushed(list, evs[0]), evs[1..]);
      if Collapses(list, evs[0]) {
        LogIsWindow(a, evs[1..]);
        assert a + Appended(list, evs) == a + Appended(list, evs[1..]);
      } else {
        WindowSlides(a, evs[0]);
        LogIsWindow(a + [evs[0]], evs[1..]);
        assert a + ([evs[0]] + rest) == (a + [evs[0]]) + rest;
      }
    }
  }

  lemma TrimsOne(list: seq<Event>)
    requires |list| == EVENTS_MAX + 1
    ensures Trimmed(list) == [list[0]] + list[2..]
  {
    assert Trimmed([list[0]] + list[2..]) == [list[0]] + list[2..];
  }

  lemma WindowSlides(a: seq<Event>, e: Event)
    ensures Trimmed(Window(a) + [e]) == Window(a + [e])
  {
    if |a| >= EVENTS_MAX {
      var list := Window(a) + [e];
      TrimsOne(list);
      var from := |a| + 1 - (EVENTS_MAX - 1);
      assert list[2..] == (a + [e])[from..];
      hide Trimmed;
    }
  }

  /** For every history that does not open with a poll: the log is capped, keeps the first
      event, holds the newest appended events in order, and shows no poll twice in a row. */
  lemma LogOfHistory(first: Event, evs: seq<Event>)
    requires !Seen(first)
    ensures var log := PushAll([], [first] + evs);
            var appended := [first] + Appended([first], evs);
            && 1 <= |log| <= EVENTS_MAX && log[0] == first
            && log == Window(appended)
            && NoRepeat(log)
  {
    var all := [first] + evs;
    assert all[1..] == evs && Pushed([], first) == [first] && Window([first]) == [first];
    LogIsWindow([first], evs);
    NeverRepeats([first], evs);
  }

  // ---- one push ----

  lemma {:induction false} TrimmedIsWindow(list: seq<Event>)
    ensures Trimmed(list) == Window(list)
    decreases |list|
  {
    if |list| > EVENTS_MAX {
      TrimmedIsWindow([list[0]] + list[2..]);
    }
  }

  /** Entry `i` is the newest poll. */
  predicate NewestPoll(list: seq<Event>, i: nat) {
    i < |list| && list[i].kind == "state-seen" && forall k :: i < k < |list| ==> list[k].kind != "state-seen"
  }

  /** A push leaves the log alone exactly when it is a poll and the newest poll of the log has its state;
      otherwise it is appended, and of more than 200 entries the first and the newest 199 stay. */
  lemma PushOutcome(list: seq<Event>, e: Event)
    ensures var repeated := e.kind == "state-seen" && exists i: nat :: NewestPoll(list, i) && list[i].state == e.state;
            var all := list + [e];
            Pushed(list, e) == if repeated then list else if |all| <= 200 then all else [all[0]] + all[|all| - 199..]
  {
    TrimmedIsWindow(list + [e]);
    var i := LastSeenAt(list);
    hide LastStateSeen, Trimmed;
    assert i >= 0 ==> NewestPoll(list, i);
    forall j: nat | NewestPoll(list, j) ensures j == i {
      assert Seen(list[j]);
    }
  }

  // ---- why the first event must not be a poll ----

  function Note(n: nat): Event {
    Event("note", None, n)
  }

  function Notes(n: nat): seq<Event> {
    if n == 0 then [] else Notes(n - 1) + [Note(n)]
  }

  lemma {:induction false} NotesAppend(list: seq<Event>, n: nat)
    requires |list| + n <= EVENTS_MAX
    ensures PushAll(list, Notes(n)) == list + Notes(n) && |Notes(n)| == n
    decreases n
  {
    if n == 0 {
      assert list + [] == list;
    } else {
      NotesAppend(list, n - 1);
      PushAllConcat(list, Notes(n - 1), [Note(n)]);
      var before := list + Notes(n - 1);
      assert PushAll(before, [Note(n)]) == Pushed(before, Note(n)) by { assert [Note(n)][1..] == []; }
      assert list + Notes(n) == before + [Note(n)];
    }
  }

  lemma {:induction false} PushAllConcat(list: seq<Event>, a: seq<Event>, b: seq<Event>)
    ensures PushAll(list, a + b) == PushAll(PushAll(list, a), b)
    decreases |a|
  {
    if a == [] {
      assert a + b == b;
    } else {
      assert (a + b)[0] == a[0] && (a + b)[1..] == a[1..] + b;
      PushAllConcat(Pushed(list, a[0]), a[1..], b);
    }
  }

  /** Poll, a different poll, the first one again, then notes until one entry is dropped. */
  function PollAnchor(first: Event): seq<Event> {
    var other := Event(STATE_SEEN, if first.state == Some("a") then Some("b") else Some("a"), 0);
    [other, first] + Notes(EVENTS_MAX - 2)
  }

  lemma PollAnchorRepeats(first: Event)
    requires Seen(first)
    ensures !NoRepeat(PushAll([], [first] + PollAnchor(first)))
  {
    var evs := PollAnchor(first);
    var other := evs[0];
    assert ([first] + evs)[1..] == evs && Pushed([], first) == [first];
    assert evs[1..] == [first] + Notes(EVENTS_MAX - 2);
    assert [first] == [] + [first] && LastStateSeen([first]) == Some(first.state);
    var three := [first, other, first];
    assert [first] + [other] == [first, other] && LastStateSeen([first, other]) == Some(other.state);
    assert [first, other] + [first] == three;
    assert PushAll([first], evs) == PushAll([first, other], evs[1..]);
    assert evs[1..][1..] == Notes(EVENTS_MAX - 2);
    assert PushAll([first, other], evs[1..]) == PushAll(three, Notes(EVENTS_MAX - 2));
    NotesAppend(three, EVENTS_MAX - 3);
    PushAllConcat(three, Notes(EVENTS_MAX - 3), [Note(EVENTS_MAX - 2)]);
    var full := three + Notes(EVENTS_MAX - 3);
    assert PushAll(full, [Note(EVENTS_MAX - 2)]) == Pushed(full, Note(EVENTS_MAX - 2)) by {
      assert [Note(EVENTS_MAX - 2)][1..] == [];
    }
    var over := full + [Note(EVENTS_MAX - 2)];
    var log := [over[0]] + over[2..];
    assert Trimmed(log) == log && Trimmed(over) == log;
    assert log[0] == first && log[1] == over[2] == first && Quiet(log, 1, 1);
    assert !Differ(log, 0, 1);
  }

  /** Exactly the histories whose first event is no poll are safe for every continuation. */
  lemma SafeAnchors(first: Event)
    ensures (forall evs :: NoRepeat(PushAll([], [first] + evs))) <==> !Seen(first)
  {
    if Seen(first) {
      PollAnchorRepeats(first);
    } else {
      forall evs ensures NoRepeat(PushAll([], [first] + evs)) {
        LogOfHistory(first, evs);
      }
    }
  }
}
