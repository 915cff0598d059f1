/** What `route` and a lease tick (src/route.rs) do to one record, on any board and with any write
    failing, and that the records of a tick do not disturb each other. */
module WakeTicks {
  import opened Prelude
  import opened Routing

  // ---- one record on two boards ----

  predicate HasWake(b: Board, id: RecId) {
    exists x :: x in b.wakes && x.1 == id
  }

  lemma NoWakes(b: Board, id: RecId)
    ensures !HasWake(b, id) <==> forall s :: (s, id) !in b.wakes
  {
    if HasWake(b, id) {
      var x :| x in b.wakes && x.1 == id;
      assert (x.0, id) in b.wakes;
    }
  }

  /** The two boards agree about record `id`. */
  ghost predicate SameFor(b: Board, b': Board, id: RecId) {
    && (id in b.routing <==> id in b'.routing) && RoutingOf(b.routing, id) == RoutingOf(b'.routing, id)
    && (forall s :: (s, id) in b.wakes <==> (s, id) in b'.wakes)
    && WokenFor(b, id) == WokenFor(b', id)
  }

  predicate SameWorldOf(b: Board, b': Board) {
    b'.sessions == b.sessions && b'.inbox == b.inbox
  }

  /** The wake files of the record: without the one in `dropped`, and with one in `added`. */
  ghost predicate WakesBut(b: Board, b': Board, id: RecId, dropped: Option<Sid>, added: Option<Sid>) {
    forall t :: (t, id) in b'.wakes <==> Some(t) == added || ((t, id) in b.wakes && Some(t) != dropped)
  }

  lemma SameForChain(a: Board, b: Board, c: Board, id: RecId)
    requires SameFor(a, b, id) && SameFor(b, c, id)
    ensures SameFor(a, c, id)
  {
  }

  lemma SameForSelf(b: Board, id: RecId)
    ensures SameFor(b, b, id)
  {
  }

  // ---- what becomes of a record ----

  /** `route` gets as far as writing a wake file. */
  ghost predicate CanWake(w: World, b: Board, id: RecId) {
    && id in b.inbox && b.inbox[id].parses && b.inbox[id].renders && id !in w.unwoken
    && Candidates(w, b.sessions, RoutingOf(b.routing, id).tried) != {}
  }

  /** `route` finds nobody and takes the record from its session. */
  ghost predicate LetsGo(w: World, b: Board, id: RecId) {
    && id in b.inbox && b.inbox[id].parses && id !in w.unsaved
    && Candidates(w, b.sessions, RoutingOf(b.routing, id).tried) == {}
  }

  ghost predicate Forgotten(b: Board, id: RecId) {
    id !in b.routing && WokenFor(b, id) == [] && !HasWake(b, id)
  }

  /** The record goes to the least untried live session: a wake file there, and the routing, if it can
      be saved, with the lease starting now. */
  ghost predicate PassedOn(w: World, b: Board, b': Board, id: RecId, dropped: Option<Sid>)
    requires id in b.inbox
  {
    var r := RoutingOf(b.routing, id);
    exists s :: IsFirst(b.inbox[id], b.sessions, Candidates(w, b.sessions, r.tried), s)
      && WakesBut(b, b', id, dropped, Some(s)) && WokenFor(b', id) == WokenFor(b, id) + [s]
      && RoutingOf(b'.routing, id) == if id in w.unsaved then r else Routing(Some(s), Some(w.now), r.tried + [s])
  }

  /** No session gets it. */
  ghost predicate LeftAlone(w: World, b: Board, b': Board, id: RecId, dropped: Option<Sid>) {
    var r := RoutingOf(b.routing, id);
    && WakesBut(b, b', id, dropped, None) && WokenFor(b', id) == WokenFor(b, id)
    && RoutingOf(b'.routing, id) == if LetsGo(w, b, id) then Unheld(r) else r
  }

  ghost predicate RouteFate(w: World, b: Board, b': Board, id: RecId) {
    if id !in b.inbox then Forgotten(b', id)
    else if CanWake(w, b, id) then PassedOn(w, b, b', id, None)
    else LeftAlone(w, b, b', id, None)
  }

  /** Unseen, readable, and held by no live session within its lease. */
  predicate Retried(w: World, b: Board, id: RecId) {
    id in b.inbox && !b.inbox[id].seen && b.inbox[id].parses && Expired(w, b.sessions, RoutingOf(b.routing, id))
  }

  ghost predicate TickFate(w: World, b: Board, b': Board, id: RecId) {
    if id !in b.inbox then Forgotten(b', id)
    else if !Retried(w, b, id) then SameFor(b, b', id)
    else if CanWake(w, b, id) then PassedOn(w, b, b', id, RoutingOf(b.routing, id).current)
    else LeftAlone(w, b, b', id, RoutingOf(b.routing, id).current)
  }

  // ---- `route` ----

  lemma ReleasedForgets(b: Board, id: RecId)
    ensures Forgotten(Released(b, id), id)
  {
  }

  lemma RouteWakes(w: World, b: Board, id: RecId)
    requires CanWake(w, b, id)
    ensures PassedOn(w, b, Routed(w, b, id), id, None)
  {
    var r := RoutingOf(b.routing, id);
    var cs := Candidates(w, b.sessions, r.tried);
    var s := Target(w, b.sessions, b.inbox[id], r.tried).value;
    assert IsFirst(b.inbox[id], b.sessions, cs, s) && s !in r.tried;
    hide Ahead, IsLive, Target, Candidates;
    assert WakesBut(b, Routed(w, b, id), id, None, Some(s));
  }

  lemma RouteLeaves(w: World, b: Board, id: RecId)
    requires id in b.inbox && !CanWake(w, b, id)
    ensures LeftAlone(w, b, Routed(w, b, id), id, None)
  {
    hide Ahead, IsLive, IsFirst;
  }

  /** `route`, on any board and with either write failing. */
  lemma RouteHasFate(w: World, b: Board, id: RecId)
    ensures RouteFate(w, b, Routed(w, b, id), id)
  {
    hide PassedOn, LeftAlone, CanWake, Forgotten;
    if id !in b.inbox {
      ReleasedForgets(b, id);
    } else if CanWake(w, b, id) {
      RouteWakes(w, b, id);
    } else {
      RouteLeaves(w, b, id);
    }
  }

  lemma RoutedElsewhere(w: World, b: Board, id: RecId, x: RecId)
    ensures SameWorldOf(b, Routed(w, b, id)) && (x != id ==> SameFor(b, Routed(w, b, id), x))
  {
    hide Target, Given;
  }

  lemma ReleasedElsewhere(b: Board, id: RecId, x: RecId)
    requires x != id
    ensures SameFor(b, Released(b, id), x)
  {
  }

  // ---- a tick, record by record ----

  lemma WithoutWakeElsewhere(b: Board, id: RecId, x: RecId)
    ensures SameWorldOf(b, WithoutWake(b, id)) && (x != id ==> SameFor(b, WithoutWake(b, id), x))
  {
  }

  lemma TickedOneElsewhere(w: World, b: Board, id: RecId, x: RecId)
    ensures SameWorldOf(b, TickedOne(w, b, id))
    ensures x != id ==> SameFor(b, TickedOne(w, b, id), x)
  {
    RoutedElsewhere(w, b, id, x);
    WithoutWakeElsewhere(b, id, x);
    RoutedElsewhere(w, WithoutWake(b, id), id, x);
    assert id !in b.inbox ==> TickedOne(w, b, id) == Routed(w, b, id);
    hide Routed, WithoutWake, Expired, Released, SameFor;
    if x != id {
      SameForChain(b, WithoutWake(b, id), Routed(w, WithoutWake(b, id), id), x);
      SameForSelf(b, x);
    }
  }

  lemma RoutedDepends(w: World, b: Board, c: Board, id: RecId)
    requires SameWorldOf(b, c) && SameFor(b, c, id)
    ensures SameFor(Routed(w, b, id), Routed(w, c, id), id)
  {
    hide Target, Given;
  }

  lemma WithoutWakeDepends(b: Board, c: Board, id: RecId)
    requires SameWorldOf(b, c) && SameFor(b, c, id)
    ensures SameWorldOf(WithoutWake(b, id), WithoutWake(c, id)) && SameFor(WithoutWake(b, id), WithoutWake(c, id), id)
  {
  }

  lemma ReleasedDepends(b: Board, c: Board, id: RecId)
    ensures SameFor(Released(b, id), Released(c, id), id)
  {
  }

  lemma TickedOneDepends(w: World, b: Board, c: Board, id: RecId)
    requires SameWorldOf(b, c) && SameFor(b, c, id)
    ensures SameFor(TickedOne(w, b, id), TickedOne(w, c, id), id)
  {
    ReleasedDepends(b, c, id);
    WithoutWakeDepends(b, c, id);
    RoutedDepends(w, WithoutWake(b, id), WithoutWake(c, id), id);
    assert RoutingOf(b.routing, id) == RoutingOf(c.routing, id);
    hide Routed, WithoutWake, Released, Expired, SameFor, RoutingOf;
  }

  /** The records of a tick do not disturb each other: each one ends as if ticked alone. */
  lemma {:induction false} TickedEach(w: World, b: Board, rest: set<RecId>, x: RecId)
    ensures SameWorldOf(b, TickedFrom(w, b, rest))
    ensures SameFor(if x in rest then TickedOne(w, b, x) else b, TickedFrom(w, b, rest), x)
    decreases rest
  {
    if rest == {} {
      SameForSelf(b, x);
    } else {
      var id := LeastOf(rest);
      var b1, left := TickedOne(w, b, id), rest - {id};
      TickedEach(w, b1, left, x);
      TickedOneElsewhere(w, b, id, x);
      hide SameFor, TickedOne;
      if x in left {
        TickedOneDepends(w, b, b1, x);
        SameForChain(TickedOne(w, b, x), TickedOne(w, b1, x), TickedFrom(w, b, rest), x);
      } else if x != id {
        SameForChain(b, b1, TickedFrom(w, b, rest), x);
      }
    }
  }

  /** Routing on the board from which the record's wake file was just taken. */
  lemma FateWithoutWake(w: World, b: Board, b': Board, id: RecId)
    requires id in b.inbox && RouteFate(w, WithoutWake(b, id), b', id)
    ensures var current := RoutingOf(b.routing, id).current;
            if CanWake(w, b, id) then PassedOn(w, b, b', id, current) else LeftAlone(w, b, b', id, current)
  {
    var c, r := WithoutWake(b, id), RoutingOf(b.routing, id);
    assert WakesBut(b, c, id, r.current, None);
    assert c.sessions == b.sessions && c.inbox == b.inbox && c.routing == b.routing && WokenFor(c, id) == WokenFor(b, id);
    hide WithoutWake, Candidates, IsFirst, RoutingOf, WokenFor;
    if CanWake(w, b, id) {
      var s :| IsFirst(c.inbox[id], c.sessions, Candidates(w, c.sessions, RoutingOf(c.routing, id).tried), s)
        && WakesBut(c, b', id, None, Some(s)) && WokenFor(b', id) == WokenFor(c, id) + [s]
        && RoutingOf(b'.routing, id) == if id in w.unsaved then r else Routing(Some(s), Some(w.now), r.tried + [s]);
      assert WakesBut(b, b', id, r.current, Some(s));
    }
  }

  lemma TickedOneHasFate(w: World, b: Board, id: RecId)
    ensures TickFate(w, b, TickedOne(w, b, id), id)
  {
    hide Routed, WithoutWake, Released, PassedOn, LeftAlone, CanWake, Expired, Forgotten, RouteFate, SameFor;
    if id !in b.inbox {
      ReleasedForgets(b, id);
    } else if Retried(w, b, id) {
      RouteHasFate(w, WithoutWake(b, id), id);
      FateWithoutWake(w, b, Routed(w, WithoutWake(b, id), id), id);
    } else {
      SameForSelf(b, id);
    }
  }

  lemma SameFate(w: World, b: Board, c: Board, d: Board, id: RecId)
    requires TickFate(w, b, c, id) && SameFor(c, d, id)
    ensures TickFate(w, b, d, id)
  {
    NoWakes(c, id);
    NoWakes(d, id);
    hide Retried, CanWake, LetsGo, HasWake, IsFirst, Candidates;
    if id in b.inbox && Retried(w, b, id) && CanWake(w, b, id) {
      var r := RoutingOf(b.routing, id);
      var s :| IsFirst(b.inbox[id], b.sessions, Candidates(w, b.sessions, r.tried), s)
        && WakesBut(b, c, id, r.current, Some(s)) && WokenFor(c, id) == WokenFor(b, id) + [s]
        && RoutingOf(c.routing, id) == if id in w.unsaved then r else Routing(Some(s), Some(w.now), r.tried + [s]);
      assert WakesBut(b, d, id, r.current, Some(s));
    }
  }

  /** A tick, on any board and with any write failing: a record that left `inbox/` is forgotten; one
      seen, unreadable or held by a live session within its lease is untouched; every other loses
      its session's wake file and goes to the least untried live session, or stays as the
      failing write or the lack of a session leaves it. */
  lemma TickOutcome(w: World, b: Board, id: RecId)
    requires id in b.routing
    ensures TickFate(w, b, Ticked(w, b), id)
  {
    hide TickFate, SameFor, TickedOne, TickedFrom;
    TickedOneHasFate(w, b, id);
    TickedEach(w, b, b.routing.Keys, id);
    SameFate(w, b, TickedOne(w, b, id), Ticked(w, b), id);
  }

  /** A session that starts alive, its marker written, leaves no unseen record without a live holder,
      but for those whose routing cannot be saved. */
  lemma BacklogIsHeld(w: World, b: Board, sid: Sid, cwd: nat, id: RecId)
    requires id in b.inbox && !b.inbox[id].seen && sid !in w.gone && w.stale > 0 && !w.unmarked
    ensures var b' := Started(w, b, sid, cwd);
            id in w.unsaved
            || (id in b'.routing && b'.routing[id].current.Some? && IsLive(w, b'.sessions, b'.routing[id].current.value))
  {
  }
}
