/** Wake exclusivity over whole runs, with arrivals repeated, `owl route` by hand and any write
    failing: exactly the steps that keep it, and what holds whether they do or not. */
module WakeRuns {
  import opened Prelude
  import opened Routing
  import opened WakeTicks

  // ---- what is kept of one record ----

  /** Its wake file lies only in the directory of the session that currently has it. */
  ghost predicate ExclusiveAt(b: Board, id: RecId) {
    forall s :: (s, id) in b.wakes ==> s in b.sessions && RoutingOf(b.routing, id).current == Some(s)
  }

  predicate NoRepeats(s: seq<Sid>) {
    forall i, j :: 0 <= i < j < |s| ==> s[i] != s[j]
  }

  ghost predicate TriedOnce(r: Routing) {
    NoRepeats(r.tried) && (r.current.Some? ==> r.current.value in r.tried)
  }

  /** The woken sessions are among the tried ones, none twice. */
  ghost predicate WokenOnce(b: Board, id: RecId) {
    && NoRepeats(WokenFor(b, id))
    && forall s :: s in WokenFor(b, id) ==> s in RoutingOf(b.routing, id).tried
  }

  ghost predicate Tried(b: Board) {
    forall id :: TriedOnce(RoutingOf(b.routing, id))
  }

  ghost predicate Woken(b: Board) {
    forall id :: WokenOnce(b, id)
  }

  ghost predicate Exclusive(b: Board) {
    forall id :: ExclusiveAt(b, id)
  }

  lemma GivenOnce(r: Routing, s: Sid, now: nat)
    requires TriedOnce(r)
    ensures TriedOnce(Given(r, s, now)) && forall t :: t in r.tried ==> t in Given(r, s, now).tried
  {
  }

  lemma SameKept(b: Board, b': Board, id: RecId)
    requires SameFor(b, b', id) && b'.sessions == b.sessions
    ensures ExclusiveAt(b', id) <==> ExclusiveAt(b, id)
    ensures TriedOnce(RoutingOf(b'.routing, id)) <==> TriedOnce(RoutingOf(b.routing, id))
    ensures WokenOnce(b', id) <==> WokenOnce(b, id)
  {
    hide NoRepeats;
  }

  lemma ForgottenKept(b: Board, id: RecId)
    requires Forgotten(b, id)
    ensures ExclusiveAt(b, id) && TriedOnce(RoutingOf(b.routing, id)) && WokenOnce(b, id)
  {
    NoWakes(b, id);
  }

  /** A session that was never tried takes the record over. */
  lemma PassedOnTried(w: World, b: Board, b': Board, id: RecId, dropped: Option<Sid>)
    requires id in b.inbox && PassedOn(w, b, b', id, dropped) && TriedOnce(RoutingOf(b.routing, id))
    ensures TriedOnce(RoutingOf(b'.routing, id))
    ensures WokenOnce(b, id) && id !in w.unsaved ==> WokenOnce(b', id)
  {
    var r := RoutingOf(b.routing, id);
    var s :| IsFirst(b.inbox[id], b.sessions, Candidates(w, b.sessions, r.tried), s)
      && WakesBut(b, b', id, dropped, Some(s)) && WokenFor(b', id) == WokenFor(b, id) + [s]
      && RoutingOf(b'.routing, id) == if id in w.unsaved then r else Routing(Some(s), Some(w.now), r.tried + [s]);
    assert s !in r.tried;
    hide IsFirst, Candidates, WakesBut;
  }

  /** It does so exclusively exactly when the routing is saved and no other wake file stays. */
  lemma PassedOnExclusive(w: World, b: Board, b': Board, id: RecId, dropped: Option<Sid>)
    requires id in b.inbox && PassedOn(w, b, b', id, dropped) && b'.sessions == b.sessions
    requires TriedOnce(RoutingOf(b.routing, id)) && ExclusiveAt(b, id)
    ensures ExclusiveAt(b', id) <==>
            id !in w.unsaved && forall t :: (t, id) in b.wakes ==> Some(t) == dropped
  {
    var r := RoutingOf(b.routing, id);
    var s :| IsFirst(b.inbox[id], b.sessions, Candidates(w, b.sessions, r.tried), s)
      && WakesBut(b, b', id, dropped, Some(s)) && WokenFor(b', id) == WokenFor(b, id) + [s]
      && RoutingOf(b'.routing, id) == if id in w.unsaved then r else Routing(Some(s), Some(w.now), r.tried + [s]);
    assert s !in r.tried && s in b.sessions;
    assert (s, id) in b'.wakes;
    hide IsFirst, Candidates, NoRepeats;
  }

  lemma LeftAloneKept(w: World, b: Board, b': Board, id: RecId, dropped: Option<Sid>)
    requires LeftAlone(w, b, b', id, dropped) && b'.sessions == b.sessions
    ensures TriedOnce(RoutingOf(b.routing, id)) ==> TriedOnce(RoutingOf(b'.routing, id))
    ensures WokenOnce(b, id) ==> WokenOnce(b', id)
    ensures ExclusiveAt(b, id) ==>
            (ExclusiveAt(b', id) <==> !LetsGo(w, b, id) || forall t :: (t, id) in b.wakes ==> Some(t) == dropped)
  {
    hide NoRepeats, LetsGo;
  }

  // ---- `route` ----

  /** The condition under which `route` keeps exclusivity: a wake file is added only where no other
      is, and the routing saved with it; and no session whose file stays loses the record. */
  ghost predicate RouteKeeps(w: World, b: Board, id: RecId) {
    && (CanWake(w, b, id) ==> id !in w.unsaved && !HasWake(b, id))
    && (LetsGo(w, b, id) ==> !HasWake(b, id))
  }

  lemma RouteKeepsAt(w: World, b: Board, id: RecId)
    requires TriedOnce(RoutingOf(b.routing, id)) && ExclusiveAt(b, id)
    ensures ExclusiveAt(Routed(w, b, id), id) <==> RouteKeeps(w, b, id)
  {
    var b' := Routed(w, b, id);
    RouteHasFate(w, b, id);
    RoutedElsewhere(w, b, id, id);
    NoWakes(b, id);
    assert CanWake(w, b, id) ==> !LetsGo(w, b, id) && id in b.inbox;
    assert LetsGo(w, b, id) ==> id in b.inbox;
    hide Routed, CanWake, LetsGo, PassedOn, LeftAlone, HasWake, Forgotten, ExclusiveAt, TriedOnce;
    if id !in b.inbox {
      ForgottenKept(b', id);
    } else if CanWake(w, b, id) {
      PassedOnExclusive(w, b, b', id, None);
    } else {
      LeftAloneKept(w, b, b', id, None);
    }
  }

  lemma RouteTriesAt(w: World, b: Board, id: RecId)
    requires TriedOnce(RoutingOf(b.routing, id))
    ensures TriedOnce(RoutingOf(Routed(w, b, id).routing, id))
    ensures WokenOnce(b, id) && (CanWake(w, b, id) ==> id !in w.unsaved) ==> WokenOnce(Routed(w, b, id), id)
  {
    var b' := Routed(w, b, id);
    RouteHasFate(w, b, id);
    RoutedElsewhere(w, b, id, id);
    assert CanWake(w, b, id) ==> id in b.inbox;
    hide Routed, CanWake, PassedOn, LeftAlone, Forgotten, TriedOnce, WokenOnce;
    if id !in b.inbox {
      ForgottenKept(b', id);
    } else if CanWake(w, b, id) {
      PassedOnTried(w, b, b', id, None);
    } else {
      LeftAloneKept(w, b, b', id, None);
    }
  }

  /** `owl route`, the arrival of a record and its repetition after a failed pull: on any board that
      is exclusive, the board after it is so exactly under this condition. */
  lemma RouteKeepsIff(w: World, b: Board, id: RecId)
    requires Tried(b) && Exclusive(b)
    ensures Exclusive(Routed(w, b, id)) <==> RouteKeeps(w, b, id)
  {
    RouteKeepsAt(w, b, id);
    hide Routed, RouteKeeps, TriedOnce, ExclusiveAt, SameFor;
    forall x | x != id ensures ExclusiveAt(Routed(w, b, id), x) {
      RoutedElsewhere(w, b, id, x);
      SameKept(b, Routed(w, b, id), x);
    }
  }

  lemma RouteTries(w: World, b: Board, id: RecId)
    requires Tried(b)
    ensures Tried(Routed(w, b, id))
    ensures Woken(b) && (CanWake(w, b, id) ==> id !in w.unsaved) ==> Woken(Routed(w, b, id))
  {
    var b' := Routed(w, b, id);
    hide Routed, CanWake, TriedOnce, WokenOnce, SameFor;
    RouteTriesAt(w, b, id);
    forall x | x != id
      ensures TriedOnce(RoutingOf(b'.routing, x)) && (WokenOnce(b', x) <==> WokenOnce(b, x))
    {
      RoutedElsewhere(w, b, id, x);
      SameKept(b, b', x);
    }
  }

  /** An unsaved wake is not remembered: the next `route` wakes the same session again. */
  lemma UnsavedIsWokenAgain(w: World, b: Board, id: RecId)
    requires CanWake(w, b, id) && id in w.unsaved
    ensures var b' := Routed(w.(unsaved := {}), Routed(w, b, id), id);
            exists s :: WokenFor(b', id) == WokenFor(b, id) + [s, s]
  {
    var r := RoutingOf(b.routing, id);
    var s := Target(w, b.sessions, b.inbox[id], r.tried).value;
    var b1 := Routed(w, b, id);
    var w' := w.(unsaved := {});
    assert s in Candidates(w, b.sessions, r.tried) && Candidates(w', b.sessions, r.tried) == Candidates(w, b.sessions, r.tried);
    OneTarget(w, b.sessions, b.inbox[id], r.tried, Some(s), Target(w', b.sessions, b.inbox[id], r.tried));
    hide Ahead, IsLive, Target;
    assert WokenFor(b1, id) == WokenFor(b, id) + [s] && RoutingOf(b1.routing, id) == r;
    assert WokenFor(Routed(w', b1, id), id) == WokenFor(b1, id) + [s];
    assert (WokenFor(b, id) + [s]) + [s] == WokenFor(b, id) + [s, s];
  }

  // ---- a tick ----

  /** In a tick only an unsaved wake breaks exclusivity: the old wake file goes first. */
  ghost predicate TickSaves(w: World, b: Board, id: RecId) {
    Retried(w, b, id) && CanWake(w, b, id) ==> id !in w.unsaved
  }

  lemma FateKept(w: World, b: Board, b': Board, id: RecId)
    requires TickFate(w, b, b', id) && TriedOnce(RoutingOf(b.routing, id)) && b'.sessions == b.sessions
    ensures TriedOnce(RoutingOf(b'.routing, id))
    ensures WokenOnce(b, id) && TickSaves(w, b, id) ==> WokenOnce(b', id)
    ensures ExclusiveAt(b, id) ==> (ExclusiveAt(b', id) <==> TickSaves(w, b, id))
  {
    var current := RoutingOf(b.routing, id).current;
    assert Retried(w, b, id) ==> id in b.inbox;
    assert ExclusiveAt(b, id) ==> forall t :: (t, id) in b.wakes ==> Some(t) == current;
    hide Retried, CanWake, PassedOn, LeftAlone, SameFor, Forgotten, TriedOnce, WokenOnce, ExclusiveAt;
    if id !in b.inbox {
      ForgottenKept(b', id);
    } else if !Retried(w, b, id) {
      SameKept(b, b', id);
    } else if CanWake(w, b, id) {
      PassedOnTried(w, b, b', id, current);
      if ExclusiveAt(b, id) {
        PassedOnExclusive(w, b, b', id, current);
      }
    } else {
      LeftAloneKept(w, b, b', id, current);
    }
  }

  /** What a tick keeps of any record, routed or not. */
  lemma TickKeepsAt(w: World, b: Board, id: RecId)
    requires TriedOnce(RoutingOf(b.routing, id))
    ensures var b' := Ticked(w, b); var saves := id in b.routing ==> TickSaves(w, b, id);
            && TriedOnce(RoutingOf(b'.routing, id))
            && (WokenOnce(b, id) && saves ==> WokenOnce(b', id))
            && (ExclusiveAt(b, id) ==> (ExclusiveAt(b', id) <==> saves))
  {
    hide TickFate, TickSaves, TickedFrom, TickedOne, SameFor, TriedOnce, WokenOnce, ExclusiveAt;
    TickedEach(w, b, b.routing.Keys, id);
    if id in b.routing {
      TickOutcome(w, b, id);
      FateKept(w, b, Ticked(w, b), id);
    } else {
      SameKept(b, Ticked(w, b), id);
    }
  }

  // ---- sessions ----

  lemma SweptKept(w: World, b: Board)
    ensures Tried(b) ==> Tried(Swept(w, b))
    ensures Woken(b) ==> Woken(Swept(w, b))
    ensures Exclusive(b) ==> Exclusive(Swept(w, b))
    ensures forall s :: s in Swept(w, b).sessions ==> IsLive(w, Swept(w, b).sessions, s)
  {
    var b' := Swept(w, b);
    hide NoRepeats, TriedOnce;
    if Woken(b) {
      forall x ensures WokenOnce(b', x) {
        assert WokenOnce(b, x);
      }
    }
    if Exclusive(b) {
      forall x ensures ExclusiveAt(b', x) {
        assert ExclusiveAt(b, x);
      }
    }
  }

  lemma AssignedTried(w: World, b: Board, sid: Sid)
    requires Tried(b)
    ensures Tried(Assigned(w, b, sid)) && (Woken(b) ==> Woken(Assigned(w, b, sid)))
  {
    var b' := Assigned(w, b, sid);
    hide NoRepeats, IsLive, Unclaimed;
    forall id ensures TriedOnce(RoutingOf(b'.routing, id)) && (WokenOnce(b, id) ==> WokenOnce(b', id)) {
      assert TriedOnce(RoutingOf(b.routing, id));
      GivenOnce(RoutingOf(b.routing, id), sid, w.now);
    }
  }

  lemma AssignedExclusive(w: World, b: Board, sid: Sid)
    requires Exclusive(b) && forall s :: s in b.sessions ==> IsLive(w, b.sessions, s)
    ensures Exclusive(Assigned(w, b, sid))
  {
    var b' := Assigned(w, b, sid);
    hide IsLive;
    forall id ensures ExclusiveAt(b', id) {
      assert ExclusiveAt(b, id);
    }
  }

  lemma MarkedKept(w: World, b: Board, sid: Sid, m: Marker)
    ensures Tried(b) ==> Tried(Marked(w, b, sid, m))
    ensures Woken(b) ==> Woken(Marked(w, b, sid, m))
    ensures Exclusive(b) ==> Exclusive(Marked(w, b, sid, m))
  {
    var b' := Marked(w, b, sid, m);
    hide NoRepeats, TriedOnce;
    if Woken(b) {
      forall x ensures WokenOnce(b', x) {
        assert WokenOnce(b, x);
      }
    }
    if Exclusive(b) {
      forall x ensures ExclusiveAt(b', x) {
        assert ExclusiveAt(b, x);
      }
    }
  }

  lemma StartedKept(w: World, b: Board, sid: Sid, cwd: nat)
    requires Tried(b)
    ensures var b' := Started(w, b, sid, cwd);
            Tried(b') && (Woken(b) ==> Woken(b')) && (Exclusive(b) ==> Exclusive(b'))
  {
    var marked := Marked(w, b, sid, Marker(cwd, w.now));
    hide Tried, Woken, Exclusive, IsLive, Marked, Swept, Assigned;
    MarkedKept(w, b, sid, Marker(cwd, w.now));
    SweptKept(w, marked);
    AssignedTried(w, Swept(w, marked), sid);
    if Exclusive(b) {
      AssignedExclusive(w, Swept(w, marked), sid);
    }
  }

  lemma EndedKept(w: World, b: Board, sid: Sid)
    requires Tried(b)
    ensures var b' := Ended(w, b, sid);
            Tried(b') && (Woken(b) ==> Woken(b')) && (Exclusive(b) ==> Exclusive(b'))
  {
    var b' := Ended(w, b, sid);
    hide NoRepeats;
    forall id
      ensures TriedOnce(RoutingOf(b'.routing, id)) && (WokenOnce(b, id) ==> WokenOnce(b', id))
      ensures ExclusiveAt(b, id) ==> ExclusiveAt(b', id)
    {
      assert TriedOnce(RoutingOf(b.routing, id));
    }
  }

  /** Steps that touch `inbox/` alone. */
  lemma InboxKept(b: Board, inbox: map<RecId, Item>)
    ensures var b' := b.(inbox := inbox);
            (Tried(b) <==> Tried(b')) && (Woken(b) <==> Woken(b')) && (Exclusive(b) <==> Exclusive(b'))
  {
    var b' := b.(inbox := inbox);
    hide NoRepeats, TriedOnce;
    forall x ensures (WokenOnce(b, x) <==> WokenOnce(b', x)) && (ExclusiveAt(b, x) <==> ExclusiveAt(b', x)) {
    }
  }

  lemma ReleasedKept(b: Board, id: RecId)
    requires Tried(b)
    ensures var b' := Released(b, id);
            Tried(b') && (Woken(b) ==> Woken(b')) && (Exclusive(b) ==> Exclusive(b'))
  {
    var b' := Released(b, id);
    ReleasedForgets(b, id);
    ForgottenKept(b', id);
    assert TriedOnce(RoutingOf(b'.routing, id)) && ExclusiveAt(b', id) && WokenOnce(b', id);
    hide NoRepeats, TriedOnce, WokenOnce, ExclusiveAt, Released;
    forall x | x != id
      ensures TriedOnce(RoutingOf(b'.routing, x)) && (WokenOnce(b', x) <==> WokenOnce(b, x))
      ensures ExclusiveAt(b', x) <==> ExclusiveAt(b, x)
    {
      ReleasedElsewhere(b, id, x);
      SameKept(b, b', x);
    }
  }

  // ---- runs ----

  /** `Arrive` is also the repetition of an arrival whose pull failed half way; `Route` is `owl route`;
      `Leave` is a record taken from `inbox/` with its routing left behind. */
  datatype Step =
    | Arrive(id: RecId, item: Item) | Route(id: RecId) | Release(id: RecId) | MarkSeen(id: RecId) | Leave(id: RecId)
    | SessionStart(sid: Sid, cwd: nat) | SessionEnd(sid: Sid) | Heartbeat(sid: Sid) | LeaseTick

  ghost function Next(w: World, b: Board, s: Step): Board {
    match s
    case Arrive(id, item) => Arrived(w, b, id, item)
    case Route(id) => Routed(w, b, id)
    case Release(id) => Released(b, id)
    case MarkSeen(id) => Seen(b, id)
    case Leave(id) => Gone(b, id)
    case SessionStart(sid, cwd) => Started(w, b, sid, cwd)
    case SessionEnd(sid) => Ended(w, b, sid)
    case Heartbeat(sid) => Touched(w, b, sid)
    case LeaseTick => Ticked(w, b)
  }

  const EMPTY_BOARD := Board(map[], {}, map[], map[], map[])

  /** Any steps in any order, at any times, with any writes failing. */
  ghost predicate Run(bs: seq<Board>, ws: seq<World>, steps: seq<Step>) {
    && |bs| == |steps| + 1 && |ws| == |steps| && bs[0] == EMPTY_BOARD
    && forall i :: 0 <= i < |steps| ==> bs[i + 1] == Next(ws[i], bs[i], steps[i])
  }

  /** The step keeps exclusivity: read off the board before it. */
  ghost predicate StepKeeps(w: World, b: Board, s: Step) {
    match s
    case Arrive(id, item) => RouteKeeps(w, b.(inbox := b.inbox[id := item]), id)
    case Route(id) => RouteKeeps(w, b, id)
    case LeaseTick => forall id :: id in b.routing ==> TickSaves(w, b, id)
    case _ => true
  }

  /** No wake of the step goes without its routing. */
  ghost predicate StepSaves(w: World, b: Board, s: Step) {
    match s
    case Arrive(id, item) => CanWake(w, b.(inbox := b.inbox[id := item]), id) ==> id !in w.unsaved
    case Route(id) => CanWake(w, b, id) ==> id !in w.unsaved
    case LeaseTick => forall id :: id in b.routing ==> TickSaves(w, b, id)
    case _ => true
  }

  lemma RouteStepKept(w: World, b: Board, c: Board, id: RecId)
    requires Tried(b) && c == b.(inbox := c.inbox)
    ensures Tried(Routed(w, c, id))
    ensures Woken(b) && (CanWake(w, c, id) ==> id !in w.unsaved) ==> Woken(Routed(w, c, id))
    ensures Exclusive(b) ==> (Exclusive(Routed(w, c, id)) <==> RouteKeeps(w, c, id))
  {
    hide Tried, Woken, Exclusive, RouteKeeps, CanWake, Routed;
    InboxKept(b, c.inbox);
    RouteTries(w, c, id);
    if Exclusive(b) {
      RouteKeepsIff(w, c, id);
    }
  }

  lemma TickStepKept(w: World, b: Board)
    requires Tried(b)
    ensures var b' := Ticked(w, b); var saves := forall id :: id in b.routing ==> TickSaves(w, b, id);
            && Tried(b') && (Woken(b) && saves ==> Woken(b')) && (Exclusive(b) ==> (Exclusive(b') <==> saves))
  {
    var b' := Ticked(w, b);
    hide TickSaves, Ticked, TriedOnce, WokenOnce, ExclusiveAt;
    forall id
      ensures var saves := id in b.routing ==> TickSaves(w, b, id);
              && TriedOnce(RoutingOf(b'.routing, id))
              && (WokenOnce(b, id) && saves ==> WokenOnce(b', id))
              && (ExclusiveAt(b, id) ==> (ExclusiveAt(b', id) <==> saves))
    {
      TickKeepsAt(w, b, id);
    }
  }

  lemma SeenOrGoneKept(b: Board, id: RecId)
    requires Tried(b)
    ensures Tried(Seen(b, id)) && (Woken(b) <==> Woken(Seen(b, id))) && (Exclusive(b) <==> Exclusive(Seen(b, id)))
    ensures Tried(Gone(b, id)) && (Woken(b) <==> Woken(Gone(b, id))) && (Exclusive(b) <==> Exclusive(Gone(b, id)))
  {
    hide Tried, Woken, Exclusive;
    InboxKept(b, Seen(b, id).inbox);
    InboxKept(b, Gone(b, id).inbox);
  }

  lemma TouchedKept(w: World, b: Board, sid: Sid)
    requires Tried(b)
    ensures var b' := Touched(w, b, sid);
            Tried(b') && (Woken(b) ==> Woken(b')) && (Exclusive(b) ==> Exclusive(b'))
  {
    hide Tried, Woken, Exclusive, Marked;
    if sid in b.sessions {
      MarkedKept(w, b, sid, b.sessions[sid].(heartbeat := w.now));
    }
  }

  lemma StepKept(w: World, b: Board, s: Step)
    requires Tried(b)
    ensures var b' := Next(w, b, s);
            && Tried(b') && (Woken(b) && StepSaves(w, b, s) ==> Woken(b'))
            && (Exclusive(b) ==> (Exclusive(b') <==> StepKeeps(w, b, s)))
  {
    hide Tried, Woken, Exclusive, RouteKeeps, CanWake, TickSaves, Routed, Released, Seen, Gone, Started, Ended, Touched, Ticked;
    match s {
      case Arrive(id, item) => RouteStepKept(w, b, b.(inbox := b.inbox[id := item]), id);
      case Route(id) => RouteStepKept(w, b, b, id);
      case Release(id) => ReleasedKept(b, id);
      case MarkSeen(id) => SeenOrGoneKept(b, id);
      case Leave(id) => SeenOrGoneKept(b, id);
      case SessionStart(sid, cwd) => StartedKept(w, b, sid, cwd);
      case SessionEnd(sid) => EndedKept(w, b, sid);
      case Heartbeat(sid) => TouchedKept(w, b, sid);
      case LeaseTick => TickStepKept(w, b);
    }
  }

  lemma EmptyKept()
    ensures Tried(EMPTY_BOARD) && Woken(EMPTY_BOARD) && Exclusive(EMPTY_BOARD)
  {
  }

  /** At every moment of every run: no session is tried twice for a record, and the one that has it is
      among those tried. */
  lemma {:induction false} EveryRunTried(bs: seq<Board>, ws: seq<World>, steps: seq<Step>, i: nat)
    requires Run(bs, ws, steps) && i < |bs|
    ensures Tried(bs[i])
    decreases i
  {
    hide Next, Tried;
    EmptyKept();
    if i > 0 {
      EveryRunTried(bs, ws, steps, i - 1);
      StepKept(ws[i - 1], bs[i - 1], steps[i - 1]);
    }
  }

  lemma {:induction false} KeptSoFar(bs: seq<Board>, ws: seq<World>, steps: seq<Step>, i: nat)
    requires Run(bs, ws, steps) && i < |bs|
    requires forall k :: 0 <= k < i ==> StepKeeps(ws[k], bs[k], steps[k])
    ensures Exclusive(bs[i])
    decreases i
  {
    hide Next, Tried, Exclusive, StepKeeps, StepSaves;
    EmptyKept();
    if i > 0 {
      KeptSoFar(bs, ws, steps, i - 1);
      EveryRunTried(bs, ws, steps, i - 1);
      StepKept(ws[i - 1], bs[i - 1], steps[i - 1]);
    }
  }

  /** A run stays exclusive to its end exactly when each of its steps meets its condition. */
  lemma ExclusiveIff(bs: seq<Board>, ws: seq<World>, steps: seq<Step>)
    requires Run(bs, ws, steps)
    ensures (forall i :: 0 <= i < |bs| ==> Exclusive(bs[i]))
            <==> forall k :: 0 <= k < |steps| ==> StepKeeps(ws[k], bs[k], steps[k])
  {
    hide Next, Tried, Exclusive, StepKeeps, StepSaves;
    if forall k :: 0 <= k < |steps| ==> StepKeeps(ws[k], bs[k], steps[k]) {
      forall i | 0 <= i < |bs| ensures Exclusive(bs[i]) {
        KeptSoFar(bs, ws, steps, i);
      }
    }
    if forall i :: 0 <= i < |bs| ==> Exclusive(bs[i]) {
      forall k | 0 <= k < |steps| ensures StepKeeps(ws[k], bs[k], steps[k]) {
        EveryRunTried(bs, ws, steps, k);
        StepKept(ws[k], bs[k], steps[k]);
        assert Exclusive(bs[k]) && Exclusive(bs[k + 1]);
      }
    }
  }

  /** While the conditions are met, one session at most holds a wake file for a record, and it is the
      registered session that has the record. */
  lemma OneWakePerRecord(bs: seq<Board>, ws: seq<World>, steps: seq<Step>, i: nat, id: RecId, s: Sid, t: Sid)
    requires Run(bs, ws, steps) && i < |bs|
    requires forall k :: 0 <= k < i ==> StepKeeps(ws[k], bs[k], steps[k])
    requires (s, id) in bs[i].wakes && (t, id) in bs[i].wakes
    ensures s == t && s in bs[i].sessions && id in bs[i].routing && bs[i].routing[id].current == Some(s)
  {
    hide Next, StepKeeps, StepSaves;
    KeptSoFar(bs, ws, steps, i);
    assert ExclusiveAt(bs[i], id);
  }

  lemma {:induction false} WokenSoFar(bs: seq<Board>, ws: seq<World>, steps: seq<Step>, i: nat)
    requires Run(bs, ws, steps) && i < |bs|
    requires forall k :: 0 <= k < i ==> StepSaves(ws[k], bs[k], steps[k])
    ensures Woken(bs[i])
    decreases i
  {
    hide Next, Tried, Woken, StepKeeps, StepSaves;
    EmptyKept();
    if i > 0 {
      WokenSoFar(bs, ws, steps, i - 1);
      EveryRunTried(bs, ws, steps, i - 1);
      StepKept(ws[i - 1], bs[i - 1], steps[i - 1]);
    }
  }

  /** While every wake is saved with its routing, no session is woken twice for a record between two
      releases of it, whether exclusivity holds or not. */
  lemma NeverWokenTwice(bs: seq<Board>, ws: seq<World>, steps: seq<Step>, i: nat)
    requires Run(bs, ws, steps) && i < |bs|
    requires forall k :: 0 <= k < i ==> StepSaves(ws[k], bs[k], steps[k])
    ensures forall id :: NoRepeats(WokenFor(bs[i], id))
    ensures forall id, s :: s in WokenFor(bs[i], id) ==> s in RoutingOf(bs[i].routing, id).tried
  {
    hide Next, StepSaves, NoRepeats;
    WokenSoFar(bs, ws, steps, i);
    forall id
      ensures NoRepeats(WokenFor(bs[i], id))
      ensures forall s :: s in WokenFor(bs[i], id) ==> s in RoutingOf(bs[i].routing, id).tried
    {
      assert WokenOnce(bs[i], id);
    }
  }
}
