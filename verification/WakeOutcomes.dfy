/** What each step of session routing leaves behind, for every board and every failing write, said of the
    markers, wake files and routings themselves: the meaning of the steps of `Routing`, written down a
    second time and without them. */
module WakeOutcomes {
  import opened Prelude
  import opened Routing
  import opened WakeTicks
  import WakeRuns

  /** Registered, its process not known to be gone, its heartbeat younger than the limit. */
  predicate Alive(w: World, b: Board, s: Sid) {
    s in b.sessions && s !in w.gone && w.stale > 0 && w.now < b.sessions[s].heartbeat + w.stale
  }

  lemma AliveIsLive(w: World, b: Board)
    ensures forall s :: IsLive(w, b.sessions, s) <==> Alive(w, b, s)
  {
  }

  // ---- who is next ----

  /** The session comes no later than the other: in the record's checkout before elsewhere, then the newer
      heartbeat, then the smaller id. */
  predicate NoLater(item: Item, b: Board, s: Sid, t: Sid)
    requires s in b.sessions && t in b.sessions
  {
    var away, away' := item.checkout.Some? && b.sessions[s].cwd != item.checkout.value,
                       item.checkout.Some? && b.sessions[t].cwd != item.checkout.value;
    && (away ==> away')
    && (away == away' ==>
          && b.sessions[t].heartbeat <= b.sessions[s].heartbeat
          && (b.sessions[t].heartbeat == b.sessions[s].heartbeat ==> s <= t))
  }

  /** The session the record goes to next. */
  ghost predicate IsNext(w: World, b: Board, id: RecId, s: Sid)
    requires id in b.inbox
  {
    && Alive(w, b, s) && s !in RoutingOf(b.routing, id).tried
    && forall t :: Alive(w, b, t) && t !in RoutingOf(b.routing, id).tried ==> NoLater(b.inbox[id], b, s, t)
  }

  ghost predicate NobodyLeft(w: World, b: Board, id: RecId) {
    forall s :: Alive(w, b, s) ==> s in RoutingOf(b.routing, id).tried
  }

  /** `route` looks for a session among the live ones not tried yet, and takes the first by checkout,
      heartbeat and id. */
  lemma TargetOutcome(w: World, b: Board, id: RecId)
    requires id in b.inbox
    ensures var target := Target(w, b.sessions, b.inbox[id], RoutingOf(b.routing, id).tried);
            if NobodyLeft(w, b, id) then target == None else target.Some? && IsNext(w, b, id, target.value)
  {
    var tried := RoutingOf(b.routing, id).tried;
    var target := Target(w, b.sessions, b.inbox[id], tried);
    AliveIsLive(w, b);
    assert forall s :: s in Candidates(w, b.sessions, tried) <==> Alive(w, b, s) && s !in tried;
    assert IsTarget(w, b.sessions, b.inbox[id], tried, target);
    hide Target, IsLive, Alive, Candidates;
    if target.Some? {
      forall t | Alive(w, b, t) && t !in tried ensures NoLater(b.inbox[id], b, target.value, t) {
        assert t in Candidates(w, b.sessions, tried);
        assert t != target.value ==> Ahead(b.inbox[id], b.sessions, target.value, t);
      }
    }
  }

  // ---- `route` ----

  /** Nothing of the record is left: no wake file in any directory, no routing. */
  ghost predicate AllGone(b: Board, b': Board, id: RecId) {
    && b'.sessions == b.sessions && b'.inbox == b.inbox && b'.routing == b.routing - {id}
    && forall s, x :: (s, x) in b'.wakes <==> (s, x) in b.wakes && x != id
  }

  lemma ReleaseOutcome(b: Board, id: RecId)
    ensures AllGone(b, Released(b, id), id)
  {
  }

  /** The session has a wake file and, if it could be saved, the record. */
  predicate WokenAs(w: World, b: Board, b': Board, id: RecId, s: Sid) {
    && b'.wakes == b.wakes + {(s, id)}
    && b'.routing == (if id in w.unsaved then b.routing
                      else b.routing[id := Routing(Some(s), Some(w.now), RoutingOf(b.routing, id).tried + [s])])
    && b' == b.(wakes := b'.wakes, routing := b'.routing, woken := b'.woken)
  }

  /** Every branch of `route`: a record that is gone is released; one that cannot be read is left; with
      nobody left it is taken from its session; otherwise the next session gets a wake file and
      then, if that was written, the record, from now on and noted as tried. */
  ghost predicate RoutedAs(w: World, b: Board, b': Board, id: RecId) {
    var r := RoutingOf(b.routing, id);
    if id !in b.inbox then AllGone(b, b', id)
    else if !b.inbox[id].parses then b' == b
    else if NobodyLeft(w, b, id) then
      && b' == b.(routing := b'.routing) && RoutingOf(b'.routing, id) == (if id in w.unsaved then r else Routing(None, None, r.tried))
      && b'.routing - {id} == b.routing - {id}
    else if !b.inbox[id].renders || id in w.unwoken then b' == b
    else exists s :: IsNext(w, b, id, s) && WokenAs(w, b, b', id, s)
  }

  lemma RouteOutcome(w: World, b: Board, id: RecId)
    ensures RoutedAs(w, b, Routed(w, b, id), id)
  {
    ReleaseOutcome(b, id);
    if id in b.inbox {
      TargetOutcome(w, b, id);
    }
    assert forall s :: id in b.inbox && IsNext(w, b, id, s) ==> s !in RoutingOf(b.routing, id).tried;
    hide Target, IsNext, NobodyLeft, Released, AllGone;
  }

  // ---- a tick ----

  /** Held by a live session whose lease has not run out. */
  predicate Leased(w: World, b: Board, id: RecId) {
    var r := RoutingOf(b.routing, id);
    r.current.Some? && Alive(w, b, r.current.value)
    && w.now <= (match r.routedAt case None => 0 case Some(t) => t) + w.lease
  }

  lemma LeasedIsNotExpired(w: World, b: Board, id: RecId)
    ensures Expired(w, b.sessions, RoutingOf(b.routing, id)) <==> !Leased(w, b, id)
  {
    AliveIsLive(w, b);
    hide IsLive, Alive;
  }

  /** A tick leaves a record alone exactly while it is seen, cannot be read, or is leased. */
  lemma LeaseHolds(w: World, b: Board, id: RecId)
    requires id in b.routing && id in b.inbox && (b.inbox[id].seen || !b.inbox[id].parses || Leased(w, b, id))
    ensures SameFor(b, Ticked(w, b), id)
  {
    LeasedIsNotExpired(w, b, id);
    TickOutcome(w, b, id);
    hide SameFor, Ticked, Expired, Leased, PassedOn, LeftAlone, CanWake;
  }

  /** Otherwise the session it is with loses its wake file, whatever becomes of the record then. */
  lemma LeaseEnds(w: World, b: Board, id: RecId, s: Sid)
    requires id in b.routing && id in b.inbox && !b.inbox[id].seen && b.inbox[id].parses && !Leased(w, b, id)
    requires RoutingOf(b.routing, id).current == Some(s) && s in RoutingOf(b.routing, id).tried
    ensures (s, id) !in Ticked(w, b).wakes
  {
    LeasedIsNotExpired(w, b, id);
    TickOutcome(w, b, id);
    var b', r := Ticked(w, b), RoutingOf(b.routing, id);
    hide Ticked, Expired, Leased, SameFor, IsLive, Ahead;
    if CanWake(w, b, id) {
      var t :| IsFirst(b.inbox[id], b.sessions, Candidates(w, b.sessions, r.tried), t) && WakesBut(b, b', id, r.current, Some(t));
      assert t !in r.tried;
    }
  }

  /** And the record goes to the next session, if there is one that can be told, its lease starting now. */
  lemma LeasePasses(w: World, b: Board, id: RecId)
    requires id in b.routing && id in b.inbox && !b.inbox[id].seen && b.inbox[id].parses && !Leased(w, b, id)
    requires b.inbox[id].renders && id !in w.unwoken && id !in w.unsaved && !NobodyLeft(w, b, id)
    ensures var b', r := Ticked(w, b), RoutingOf(b.routing, id);
            exists s :: IsNext(w, b, id, s) && (s, id) in b'.wakes
                        && id in b'.routing && b'.routing[id] == Routing(Some(s), Some(w.now), r.tried + [s])
  {
    var b', r := Ticked(w, b), RoutingOf(b.routing, id);
    LeasedIsNotExpired(w, b, id);
    TickOutcome(w, b, id);
    NextIsFirst(w, b, id);
    hide Ticked, Expired, Leased, SameFor, IsNext, NobodyLeft, Ahead, IsLive;
    var t :| IsFirst(b.inbox[id], b.sessions, Candidates(w, b.sessions, r.tried), t) && WakesBut(b, b', id, r.current, Some(t))
      && RoutingOf(b'.routing, id) == Routing(Some(t), Some(w.now), r.tried + [t]);
    assert (t, id) in b'.wakes;
  }

  lemma NextIsFirst(w: World, b: Board, id: RecId)
    requires id in b.inbox
    ensures var cs := Candidates(w, b.sessions, RoutingOf(b.routing, id).tried);
            && (cs == {} <==> NobodyLeft(w, b, id))
            && forall s :: IsFirst(b.inbox[id], b.sessions, cs, s) ==> IsNext(w, b, id, s)
  {
    var tried := RoutingOf(b.routing, id).tried;
    var cs := Candidates(w, b.sessions, tried);
    AliveIsLive(w, b);
    assert forall s :: s in cs <==> Alive(w, b, s) && s !in tried;
    hide IsLive, Alive, Candidates;
    forall s | IsFirst(b.inbox[id], b.sessions, cs, s) ensures IsNext(w, b, id, s) {
      forall t | Alive(w, b, t) && t !in tried ensures NoLater(b.inbox[id], b, s, t) {
        assert t in cs && (t != s ==> Ahead(b.inbox[id], b.sessions, s, t));
      }
    }
  }

  // ---- sessions ----

  /** The sweep at a session start: exactly the live sessions stay, with their markers and all of their
      wake files. */
  lemma SweepOutcome(w: World, b: Board)
    ensures var b' := Swept(w, b);
            && (forall s :: s in b'.sessions <==> Alive(w, b, s))
            && (forall s :: s in b'.sessions ==> b'.sessions[s] == b.sessions[s])
            && (forall s, id :: (s, id) in b'.wakes <==> (s, id) in b.wakes && Alive(w, b, s))
            && b' == b.(sessions := b'.sessions, wakes := b'.wakes)
  {
    AliveIsLive(w, b);
  }

  /** A record nobody has looked at and no live session has. */
  predicate Waits(w: World, b: Board, id: RecId) {
    var current := RoutingOf(b.routing, id).current;
    id in b.inbox && !b.inbox[id].seen && !(current.Some? && Alive(w, b, current.value))
  }

  /** The backlog: every waiting record goes to the session that starts, from now on, without a wake file. */
  lemma BacklogOutcome(w: World, b: Board, sid: Sid, id: RecId)
    ensures var b', r := Assigned(w, b, sid), RoutingOf(b.routing, id);
            && b' == b.(routing := b'.routing)
            && (if Waits(w, b, id) && id !in w.unsaved then
                  && id in b'.routing && b'.routing[id].current == Some(sid) && b'.routing[id].routedAt == Some(w.now)
                  && b'.routing[id].tried == (if sid in r.tried then r.tried else r.tried + [sid])
                else (id in b'.routing <==> id in b.routing) && RoutingOf(b'.routing, id) == r)
  {
    AliveIsLive(w, b);
    hide IsLive, Alive;
  }

  /** A session end: its directory goes, and exactly the records it had are without a session. */
  lemma EndOutcome(w: World, b: Board, sid: Sid, id: RecId)
    ensures var b', r := Ended(w, b, sid), RoutingOf(b.routing, id);
            && b'.sessions == b.sessions - {sid}
            && (forall s, x :: (s, x) in b'.wakes <==> (s, x) in b.wakes && s != sid)
            && (id in b'.routing <==> id in b.routing)
            && RoutingOf(b'.routing, id) == (if r.current == Some(sid) && id !in w.unsaved then Routing(None, None, r.tried) else r)
            && b'.inbox == b.inbox && b'.woken == b.woken
  {
  }

  // ---- every step of a run ----

  predicate HeartbeatAs(w: World, b: Board, b': Board, sid: Sid) {
    && b' == b.(sessions := b'.sessions) && b'.sessions.Keys == b.sessions.Keys
    && (forall s :: s in b.sessions ==>
          b'.sessions[s] == if s == sid && !w.unmarked then Marker(b.sessions[s].cwd, w.now) else b.sessions[s])
  }

  lemma HeartbeatOutcome(w: World, b: Board, sid: Sid)
    ensures HeartbeatAs(w, b, Touched(w, b, sid), sid)
  {
  }

  /** What each step of a run is: an arrival puts the record into `inbox/` and routes it, a session start is
      the marker, the sweep and the backlog one after the other. */
  ghost predicate Does(w: World, b: Board, b': Board, s: WakeRuns.Step) {
    match s
    case Arrive(id, item) => RoutedAs(w, b.(inbox := b.inbox[id := item]), b', id)
    case Route(id) => RoutedAs(w, b, b', id)
    case Release(id) => AllGone(b, b', id)
    case MarkSeen(id) => b' == if id in b.inbox then b.(inbox := b.inbox[id := b.inbox[id].(seen := true)]) else b
    case Leave(id) => b' == b.(inbox := b.inbox - {id})
    case SessionStart(sid, cwd) =>
      b' == Assigned(w, Swept(w, if w.unmarked then b else b.(sessions := b.sessions[sid := Marker(cwd, w.now)])), sid)
    case SessionEnd(sid) => b' == Ended(w, b, sid)
    case Heartbeat(sid) => HeartbeatAs(w, b, b', sid)
    case LeaseTick => b' == Ticked(w, b)
  }

  lemma StepOutcome(w: World, b: Board, s: WakeRuns.Step)
    ensures Does(w, b, WakeRuns.Next(w, b, s), s)
  {
    hide RoutedAs, AllGone, HeartbeatAs, Routed, Released, Ended, Ticked, Assigned, Swept, Touched;
    match s {
      case Arrive(id, item) => RouteOutcome(w, b.(inbox := b.inbox[id := item]), id);
      case Route(id) => RouteOutcome(w, b, id);
      case Release(id) => ReleaseOutcome(b, id);
      case Heartbeat(sid) => HeartbeatOutcome(w, b, sid);
      case _ =>
    }
  }
}
