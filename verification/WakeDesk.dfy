/** The same steps as src/route.rs takes them: loops over directories that rewrite routing records
    and wake files one by one. Each method is proved to do what `Routing` says. */
module WakeDesk {
  import opened Prelude
  import opened Routing

  class Desk {
    var sessions: map<Sid, Marker>
    var wakes: set<(Sid, RecId)>
    var routing: map<RecId, Routing>
    var inbox: map<RecId, Item>
    ghost var woken: map<RecId, seq<Sid>>

    ghost function Now(): Board
      reads this
    {
      Board(sessions, wakes, routing, inbox, woken)
    }

    constructor ()
      ensures Now() == Board(map[], {}, map[], map[], map[])
    {
      sessions, wakes, routing, inbox, woken := map[], {}, map[], map[], map[];
    }

    /** The first of the candidates in the sorted order. */
    method FirstCandidate(w: World, item: Item, tried: seq<Sid>) returns (target: Option<Sid>)
      ensures target == Target(w, sessions, item, tried)
    {
      target := None;
      var rest := sessions.Keys;
      ghost var seen: set<Sid> := {};
      while rest != {}
        invariant rest + seen == sessions.Keys && rest !! seen
        invariant target.None? ==> forall t :: t in seen ==> !IsCandidate(w, sessions, tried, t)
        invariant target.Some? ==> target.value in seen && IsCandidate(w, sessions, tried, target.value)
        invariant forall t :: target.Some? && t in seen && IsCandidate(w, sessions, tried, t) && t != target.value ==>
                    Ahead(item, sessions, target.value, t)
        decreases rest
      {
        var s :| s in rest;
        if IsCandidate(w, sessions, tried, s) && (target.None? || Ahead(item, sessions, s, target.value)) {
          target := Some(s);
        }
        rest := rest - {s};
        seen := seen + {s};
      }
      OneTarget(w, sessions, item, tried, target, Target(w, sessions, item, tried));
    }

    /** `release`: the record's wake file in every session directory, then its routing. */
    method Release(id: RecId)
      modifies this
      ensures Now() == Released(old(Now()), id)
    {
      var rest := wakes;
      ghost var before := wakes;
      while rest != {}
        invariant rest <= before
        invariant wakes == set x | x in before && (x.1 != id || x in rest)
        invariant sessions == old(sessions) && routing == old(routing) && inbox == old(inbox) && woken == old(woken)
        decreases rest
      {
        var x :| x in rest;
        if x.1 == id {
          wakes := wakes - {x};
        }
        rest := rest - {x};
      }
      routing := routing - {id};
      woken := woken - {id};
    }

    /** `route`; no session when the record is gone, cannot be shown, nobody is left to try, or a
        write fails. */
    method Route(w: World, id: RecId) returns (session: Option<Sid>)
      modifies this
      ensures Now() == Routed(w, old(Now()), id)
    {
      if id !in inbox {
        Release(id);
        return None;
      }
      if !inbox[id].parses {
        return None;
      }
      var before := RoutingOf(routing, id);
      var target := FirstCandidate(w, inbox[id], before.tried);
      if target.None? {
        var after := before.(current := None, routedAt := None);
        if after != before && id !in w.unsaved {
          routing := routing[id := after];
        }
        return None;
      }
      if !inbox[id].renders || id in w.unwoken {
        return None;
      }
      var s := target.value;
      wakes := wakes + {(s, id)};
      woken := woken[id := (if id in woken then woken[id] else []) + [s]];
      if id in w.unsaved {
        return None;
      }
      var tried := before.tried;
      if s !in tried {
        tried := tried + [s];
      }
      routing := routing[id := Routing(Some(s), Some(w.now), tried)];
      return Some(s);
    }

    /** A record arrives and is routed. */
    method Arrive(w: World, id: RecId, item: Item)
      modifies this
      ensures Now() == Arrived(w, old(Now()), id, item)
    {
      inbox := inbox[id := item];
      var _ := Route(w, id);
    }

    /** One routing of `lease_tick`. */
    method TickRecord(w: World, id: RecId)
      modifies this
      ensures Now() == TickedOne(w, old(Now()), id)
    {
      if id !in inbox {
        Release(id);
        return;
      }
      if inbox[id].seen || !inbox[id].parses {
        return;
      }
      var r := RoutingOf(routing, id);
      if r.current.Some? {
        var s := r.current.value;
        var routed := if r.routedAt.Some? then r.routedAt.value else 0;
        if IsLive(w, sessions, s) && Since(w.now, routed) <= w.lease {
          return;
        }
        wakes := wakes - {(s, id)};
      }
      var _ := Route(w, id);
    }

    method LeaseTick(w: World)
      modifies this
      ensures Now() == Ticked(w, old(Now()))
    {
      var rest := routing.Keys;
      while rest != {}
        invariant TickedFrom(w, Now(), rest) == Ticked(w, old(Now()))
        decreases rest
      {
        ghost var least := LeastOf(rest);
        var id :| id in rest && forall x :: x in rest ==> id <= x;
        assert id == least;
        TickRecord(w, id);
        rest := rest - {id};
      }
    }

    /** `remove_session`: the marker and every wake file under it. */
    method RemoveSession(s: Sid)
      modifies `sessions, `wakes
      ensures sessions == old(sessions) - {s}
      ensures wakes == set x | x in old(wakes) && x.0 != s
    {
      sessions := sessions - {s};
      wakes := set x | x in wakes && x.0 != s;
    }

    /** `sweep_sessions`: over every session directory, with a marker or without. */
    method Sweep(w: World)
      modifies this
      ensures Now() == Swept(w, old(Now()))
    {
      var rest := sessions.Keys + set x | x in wakes :: x.0;
      ghost var before, wakesBefore := sessions, wakes;
      while rest != {}
        invariant forall s :: s in sessions <==> s in before && (s in rest || IsLive(w, before, s))
        invariant forall s :: s in sessions ==> sessions[s] == before[s]
        invariant forall x :: x in wakes <==> x in wakesBefore && (x.0 in rest || IsLive(w, before, x.0))
        invariant routing == old(routing) && inbox == old(inbox) && woken == old(woken)
        decreases rest
      {
        var s :| s in rest;
        if !IsLive(w, sessions, s) {
          RemoveSession(s);
        }
        rest := rest - {s};
      }
    }

    /** `assign_backlog`: no wake file, the start-up text shows the backlog already. */
    method AssignBacklog(w: World, sid: Sid)
      modifies this
      ensures Now() == Assigned(w, old(Now()), sid)
    {
      var rest := inbox.Keys;
      ghost var b := Now();
      while rest != {}
        invariant rest <= inbox.Keys
        invariant sessions == b.sessions && wakes == b.wakes && inbox == b.inbox && woken == b.woken
        invariant forall id :: id in routing <==> id in b.routing || (Assigns(w, b, id) && id !in rest)
        invariant forall id :: id in routing ==>
                    routing[id] == if Assigns(w, b, id) && id !in rest then Given(RoutingOf(b.routing, id), sid, w.now)
                                   else RoutingOf(b.routing, id)
        decreases rest
      {
        var id :| id in rest;
        var r := RoutingOf(routing, id);
        if !inbox[id].seen && !(r.current.Some? && IsLive(w, sessions, r.current.value)) {
          var tried := r.tried;
          if sid !in tried {
            tried := tried + [sid];
          }
          if id !in w.unsaved {
            routing := routing[id := Routing(Some(sid), Some(w.now), tried)];
          }
        }
        rest := rest - {id};
      }
    }

    method WriteMarker(w: World, sid: Sid, m: Marker)
      modifies `sessions
      ensures Now() == Marked(w, old(Now()), sid, m)
    {
      if !w.unmarked {
        sessions := sessions[sid := m];
      }
    }

    method SessionStart(w: World, sid: Sid, cwd: nat)
      modifies this
      ensures Now() == Started(w, old(Now()), sid, cwd)
    {
      WriteMarker(w, sid, Marker(cwd, w.now));
      Sweep(w);
      AssignBacklog(w, sid);
    }

    /** `end_session`: the directory goes, then every routing naming it lets go. */
    method SessionEnd(w: World, sid: Sid)
      modifies this
      ensures Now() == Ended(w, old(Now()), sid)
    {
      RemoveSession(sid);
      var rest := routing.Keys;
      ghost var before := routing;
      while rest != {}
        invariant rest <= before.Keys && routing.Keys == before.Keys
        invariant forall id :: id in before ==>
                    routing[id] == if before[id].current == Some(sid) && id !in w.unsaved && id !in rest then Unheld(before[id]) else before[id]
        invariant sessions == old(sessions) - {sid} && inbox == old(inbox) && woken == old(woken)
        invariant wakes == set x | x in old(wakes) && x.0 != sid
        decreases rest
      {
        var id :| id in rest;
        if routing[id].current == Some(sid) && id !in w.unsaved {
          routing := routing[id := routing[id].(current := None, routedAt := None)];
        }
        rest := rest - {id};
      }
    }

    method Heartbeat(w: World, sid: Sid)
      modifies this
      ensures Now() == Touched(w, old(Now()), sid)
    {
      if sid in sessions {
        WriteMarker(w, sid, sessions[sid].(heartbeat := w.now));
      }
    }
  }
}
