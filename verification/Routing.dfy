/** Waking one session per record (src/route.rs): a lease allocator over sessions and records. This
    module says what each step does; `WakeDesk` does it step by step. */
module Routing {
  import opened Prelude

  type Sid = nat
  type RecId = nat

  /** `sessions/<sid>/marker.json`; directories are numbers. */
  datatype Marker = Marker(cwd: nat, heartbeat: nat)

  /** `spool/routing/<id>.json`. */
  datatype Routing = Routing(current: Option<Sid>, routedAt: Option<nat>, tried: seq<Sid>)

  const NEVER_ROUTED := Routing(None, None, [])

  /** An inbox record as routing sees it: `parses`: its payload does; `renders`: the text of its
      wake file can be made; `checkout`: the directory configured for its project. */
  datatype Item = Item(seen: bool, parses: bool, renders: bool, checkout: Option<nat>)

  /** `woken`: the sessions a wake file was written for since the record's last release, in order;
      the source keeps no such list. */
  datatype Board = Board(sessions: map<Sid, Marker>, wakes: set<(Sid, RecId)>, routing: map<RecId, Routing>,
                         inbox: map<RecId, Item>, woken: map<RecId, seq<Sid>>)

  /** What one step meets: the clock, the two limits in seconds, the sessions whose processes are all
      gone, and the writes that fail in it: the wake files and the routings of these records, the
      marker. */
  datatype World = World(now: nat, stale: nat, lease: nat, gone: set<Sid>,
                         unwoken: set<RecId>, unsaved: set<RecId>, unmarked: bool)

  function Since(now: nat, past: nat): nat {
    if now < past then 0 else now - past
  }

  predicate IsLive(w: World, sessions: map<Sid, Marker>, s: Sid) {
    s in sessions && s !in w.gone && Since(w.now, sessions[s].heartbeat) < w.stale
  }

  function RoutingOf(routing: map<RecId, Routing>, id: RecId): Routing {
    if id in routing then routing[id] else NEVER_ROUTED
  }

  function WokenFor(b: Board, id: RecId): seq<Sid> {
    if id in b.woken then b.woken[id] else []
  }

  // ---- who is next ----

  predicate Elsewhere(item: Item, m: Marker) {
    item.checkout.Some? && m.cwd != item.checkout.value
  }

  /** In the record's checkout first, then the newest heartbeat, then the session id. */
  predicate Ahead(item: Item, sessions: map<Sid, Marker>, s: Sid, t: Sid)
    requires s in sessions && t in sessions
  {
    var m, n := sessions[s], sessions[t];
    if Elsewhere(item, m) != Elsewhere(item, n) then !Elsewhere(item, m)
    else if m.heartbeat != n.heartbeat then m.heartbeat > n.heartbeat
    else s < t
  }

  predicate IsCandidate(w: World, sessions: map<Sid, Marker>, tried: seq<Sid>, s: Sid) {
    IsLive(w, sessions, s) && s !in tried
  }

  function Candidates(w: World, sessions: map<Sid, Marker>, tried: seq<Sid>): (candidates: set<Sid>)
    ensures candidates <= sessions.Keys
  {
    set s | s in sessions && IsCandidate(w, sessions, tried, s)
  }

  predicate IsFirst(item: Item, sessions: map<Sid, Marker>, candidates: set<Sid>, s: Sid)
    requires candidates <= sessions.Keys
  {
    s in candidates && forall t :: t in candidates && t != s ==> Ahead(item, sessions, s, t)
  }

  ghost function First(item: Item, sessions: map<Sid, Marker>, candidates: set<Sid>): (s: Sid)
    requires candidates != {} && candidates <= sessions.Keys
    ensures IsFirst(item, sessions, candidates, s)
  {
    var s :| s in candidates;
    if candidates == {s} then s
    else
      var t := First(item, sessions, candidates - {s});
      assert forall u :: u in candidates ==> u == s || u in candidates - {s};
      if Ahead(item, sessions, s, t) then s else t
  }

  predicate IsTarget(w: World, sessions: map<Sid, Marker>, item: Item, tried: seq<Sid>, target: Option<Sid>) {
    var cs := Candidates(w, sessions, tried);
    match target case None => cs == {} case Some(s) => IsFirst(item, sessions, cs, s)
  }

  /** The least untried live session, if there is one. */
  ghost function Target(w: World, sessions: map<Sid, Marker>, item: Item, tried: seq<Sid>): (target: Option<Sid>)
    ensures IsTarget(w, sessions, item, tried, target)
  {
    var cs := Candidates(w, sessions, tried);
    if cs == {} then None else Some(First(item, sessions, cs))
  }

  /** The order is strict, so the target is the only one. */
  lemma OneTarget(w: World, sessions: map<Sid, Marker>, item: Item, tried: seq<Sid>, s: Option<Sid>, t: Option<Sid>)
    requires IsTarget(w, sessions, item, tried, s) && IsTarget(w, sessions, item, tried, t)
    ensures s == t
  {
    assert s.Some? && t.Some? ==> s == t || Ahead(item, sessions, s.value, t.value);
  }

  // ---- the steps ----

  function WithoutRecord(wakes: set<(Sid, RecId)>, id: RecId): set<(Sid, RecId)> {
    set x | x in wakes && x.1 != id
  }

  function Released(b: Board, id: RecId): Board {
    b.(wakes := WithoutRecord(b.wakes, id), routing := b.routing - {id}, woken := b.woken - {id})
  }

  function Given(r: Routing, s: Sid, now: nat): Routing {
    Routing(Some(s), Some(now), if s in r.tried then r.tried else r.tried + [s])
  }

  function Unheld(r: Routing): Routing {
    r.(current := None, routedAt := None)
  }

  /** `route`: the wake file by rename, then the routing record. A record that does not parse or
      render is an error and nothing changes; a failing second write leaves the wake file. */
  ghost function Routed(w: World, b: Board, id: RecId): Board {
    if id !in b.inbox then Released(b, id)
    else if !b.inbox[id].parses then b
    else
      var r := RoutingOf(b.routing, id);
      match Target(w, b.sessions, b.inbox[id], r.tried)
      case None => if Unheld(r) == r || id in w.unsaved then b else b.(routing := b.routing[id := Unheld(r)])
      case Some(s) =>
        if !b.inbox[id].renders || id in w.unwoken then b
        else
          b.(wakes := b.wakes + {(s, id)}, woken := b.woken[id := WokenFor(b, id) + [s]],
             routing := if id in w.unsaved then b.routing else b.routing[id := Given(r, s, w.now)])
  }

  /** A new record in `inbox/`, routed at once. */
  ghost function Arrived(w: World, b: Board, id: RecId, item: Item): Board {
    Routed(w, b.(inbox := b.inbox[id := item]), id)
  }

  predicate Expired(w: World, sessions: map<Sid, Marker>, r: Routing) {
    match r.current
    case None => true
    case Some(s) =>
      !IsLive(w, sessions, s) || Since(w.now, match r.routedAt case None => 0 case Some(t) => t) > w.lease
  }

  function WithoutWake(b: Board, id: RecId): Board {
    match RoutingOf(b.routing, id).current
    case None => b
    case Some(s) => b.(wakes := b.wakes - {(s, id)})
  }

  /** One routing in a lease tick. */
  ghost function TickedOne(w: World, b: Board, id: RecId): Board {
    if id !in b.inbox then Released(b, id)
    else if b.inbox[id].seen || !b.inbox[id].parses || !Expired(w, b.sessions, RoutingOf(b.routing, id)) then b
    else Routed(w, WithoutWake(b, id), id)
  }

  ghost function LeastOf(ids: set<RecId>): (id: RecId)
    requires ids != {}
    ensures id in ids && forall x :: x in ids ==> id <= x
  {
    var x :| x in ids;
    if ids == {x} then x
    else
      var y := LeastOf(ids - {x});
      assert forall u :: u in ids ==> u == x || u in ids - {x};
      if x < y then x else y
  }

  /** The tick walks the routings in order. */
  ghost function TickedFrom(w: World, b: Board, rest: set<RecId>): Board
    decreases rest
  {
    if rest == {} then b
    else
      var id := LeastOf(rest);
      TickedFrom(w, TickedOne(w, b, id), rest - {id})
  }

  ghost function Ticked(w: World, b: Board): Board {
    TickedFrom(w, b, b.routing.Keys)
  }

  /** Dead sessions lose their directories, wake files included. */
  function Swept(w: World, b: Board): Board {
    b.(sessions := map s | s in b.sessions && IsLive(w, b.sessions, s) :: b.sessions[s],
       wakes := set x | x in b.wakes && IsLive(w, b.sessions, x.0))
  }

  /** Unseen, and held by no live session. */
  predicate Unclaimed(w: World, b: Board, id: RecId) {
    && id in b.inbox && !b.inbox[id].seen
    && var c := RoutingOf(b.routing, id).current; !(c.Some? && IsLive(w, b.sessions, c.value))
  }

  /** Unclaimed records go to the session; a routing that cannot be saved stays. */
  predicate Assigns(w: World, b: Board, id: RecId) {
    Unclaimed(w, b, id) && id !in w.unsaved
  }

  function Assigned(w: World, b: Board, sid: Sid): Board {
    b.(routing := map id | id in b.routing.Keys + b.inbox.Keys && (id in b.routing || Assigns(w, b, id)) ::
                    if Assigns(w, b, id) then Given(RoutingOf(b.routing, id), sid, w.now) else b.routing[id])
  }

  function Marked(w: World, b: Board, sid: Sid, m: Marker): Board {
    if w.unmarked then b else b.(sessions := b.sessions[sid := m])
  }

  /** `SessionStart`: the marker, the sweep, the backlog, each whatever became of the one before. */
  function Started(w: World, b: Board, sid: Sid, cwd: nat): Board {
    Assigned(w, Swept(w, Marked(w, b, sid, Marker(cwd, w.now))), sid)
  }

  function Ended(w: World, b: Board, sid: Sid): Board {
    b.(sessions := b.sessions - {sid}, wakes := (set x | x in b.wakes && x.0 != sid),
       routing := map id | id in b.routing ::
                    if b.routing[id].current == Some(sid) && id !in w.unsaved then Unheld(b.routing[id]) else b.routing[id])
  }

  function Touched(w: World, b: Board, sid: Sid): Board {
    if sid in b.sessions then Marked(w, b, sid, b.sessions[sid].(heartbeat := w.now)) else b
  }

  function Seen(b: Board, id: RecId): Board {
    if id in b.inbox then b.(inbox := b.inbox[id := b.inbox[id].(seen := true)]) else b
  }

  function Gone(b: Board, id: RecId): Board {
    b.(inbox := b.inbox - {id})
  }
}
