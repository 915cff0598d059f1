/** Sorted listings of a directory (`list` of src/spool.rs) and the commands that go over many
    records (src/cli/allow.rs, src/cli/deny.rs, `expire_outbox` of src/pull.rs). */
module Batches {
  import opened Prelude
  import opened Exchange

  datatype Dir = Inbox | Outbox | Asks | Done | Cache

  function In(h: Home, dir: Dir): map<nat, Record> {
    match dir
    case Inbox => h.inbox
    case Outbox => h.outbox
    case Asks => h.asks
    case Done => h.done
    case Cache => h.cache
  }

  function With(h: Home, dir: Dir, records: map<nat, Record>): Home {
    match dir
    case Inbox => h.(inbox := records)
    case Outbox => h.(outbox := records)
    case Asks => h.(asks := records)
    case Done => h.(done := records)
    case Cache => h.(cache := records)
  }

  // ---- listings ----

  ghost function LeastId(ids: set<nat>): (id: nat)
    requires ids != {}
    ensures id in ids && forall x :: x in ids ==> id <= x
  {
    var x: nat :| x in ids;
    if ids == {x} then x
    else
      var y := LeastId(ids - {x});
      assert forall u :: u in ids ==> u == x || u in ids - {x};
      if x < y then x else y
  }

  /** The ids in `rest` whose records pass the filter, in order. */
  ghost function ListedFrom(records: map<nat, Record>, keep: Record -> bool, rest: set<nat>): seq<nat>
    requires rest <= records.Keys
    decreases rest
  {
    if rest == {} then []
    else
      var id := LeastId(rest);
      (if keep(records[id]) then [id] else []) + ListedFrom(records, keep, rest - {id})
  }

  ghost function Listed(records: map<nat, Record>, keep: Record -> bool): seq<nat> {
    ListedFrom(records, keep, records.Keys)
  }

  lemma {:induction false} ListedMeans(records: map<nat, Record>, keep: Record -> bool, rest: set<nat>)
    requires rest <= records.Keys
    ensures var ids := ListedFrom(records, keep, rest);
            && (forall i, j :: 0 <= i < j < |ids| ==> ids[i] < ids[j])
            && (forall id :: id in ids <==> id in rest && keep(records[id]))
    decreases rest
  {
    if rest != {} {
      var id := LeastId(rest);
      ListedMeans(records, keep, rest - {id});
      var tail := ListedFrom(records, keep, rest - {id});
      assert forall i :: 0 <= i < |tail| ==> tail[i] in tail;
    }
  }

  /** The first of the listed envelopes is the one `existing_answer` names. */
  lemma FirstListedExists(outbox: map<Id, Record>, id: Id, ids: seq<nat>)
    requires ids == Listed(outbox, (r: Record) => r.question == Some(id))
    ensures ExistingAnswer(outbox, id) == if ids == [] then None else Some(ids[0])
  {
    ListedMeans(outbox, (r: Record) => r.question == Some(id), outbox.Keys);
    assert forall a :: a in ids <==> Replies(outbox, id, a);
    var found := ExistingAnswer(outbox, id);
    if ids != [] {
      assert ids[0] in ids;
      if found.Some? {
        assert found.value in ids;
      }
    }
  }

  // ---- commands over many records: one step after the other, up to the first failure ----

  function AllowedEach(h: Home, peer: Peer, ids: seq<Id>, ok: Id -> bool): Home
    decreases |ids|
  {
    if ids == [] then h
    else if !HeldFrom(h, ids[0], peer) then AllowedEach(h, peer, ids[1..], ok)
    else if !ok(ids[0]) then h
    else AllowedEach(AllowedOne(h, ids[0], peer, true), peer, ids[1..], ok)
  }

  function DeniedEach(h: Home, peer: Peer, ids: seq<Id>, w: Id -> FinishWrites): Home
    decreases |ids|
  {
    if ids == [] then h
    else if !HeldFrom(h, ids[0], peer) then DeniedEach(h, peer, ids[1..], w)
    else
      var h' := DeniedOne(h, ids[0], peer, w(ids[0]));
      if w(ids[0]) == FinishWrites(true, true) then DeniedEach(h', peer, ids[1..], w) else h'
  }

  const U64_MAX: nat := 0xffff_ffff_ffff_ffff

  /** `ttl_days.saturating_mul(86_400)`. */
  function TtlSecs(days: nat): nat {
    if days * 86_400 > U64_MAX then U64_MAX else days * 86_400
  }

  /** Strictly older than the time to live; an entry without a readable time stamp is kept, and one
      from the future has age 0. */
  predicate IsLate(received: Option<nat>, days: nat, now: nat) {
    received.Some? && (if now < received.value then 0 else now - received.value) > TtlSecs(days)
  }

  /** A failed move is logged and the sweep goes on. */
  function ExpiredEach(h: Home, ids: seq<Id>, received: Id -> Option<nat>, days: nat, now: nat, w: Id -> MoveWrites): Home
    decreases |ids|
  {
    if ids == [] then h
    else
      var h' := if IsLate(received(ids[0]), days, now) then ExpiredOne(h, ids[0], w(ids[0])) else h;
      ExpiredEach(h', ids[1..], received, days, now, w)
  }

  // ---- what they come to ----

  predicate Ascending(ids: seq<nat>) {
    forall i, j :: 0 <= i < j < |ids| ==> ids[i] < ids[j]
  }

  lemma TailAscends(ids: seq<nat>)
    requires Ascending(ids) && ids != []
    ensures Ascending(ids[1..]) && ids[0] !in ids[1..]
    ensures forall x :: x in ids <==> x == ids[0] || x in ids[1..]
    ensures forall x :: x in ids ==> ids[0] <= x
  {
    assert ids == [ids[0]] + ids[1..];
  }

  /** Every held record of `ids` up to and including `id` can be written. */
  ghost predicate AllWritten(h: Home, peer: Peer, ids: seq<Id>, ok: Id -> bool, id: Id) {
    forall x :: x in ids && x <= id && HeldFrom(h, x, peer) ==> ok(x)
  }

  lemma {:induction false} AllowedEachAt(h: Home, peer: Peer, ids: seq<Id>, ok: Id -> bool, id: Id)
    requires Ascending(ids)
    ensures var h' := AllowedEach(h, peer, ids, ok);
            && h' == h.(inbox := h'.inbox, hist := h'.hist) && h'.inbox.Keys == h.inbox.Keys
            && (id in h.inbox ==>
                  h'.inbox[id] == if id in ids && HeldFrom(h, id, peer) && AllWritten(h, peer, ids, ok, id)
                                  then h.inbox[id].(state := Pending) else h.inbox[id])
    decreases |ids|
  {
    if ids != [] {
      TailAscends(ids);
      if !HeldFrom(h, ids[0], peer) {
        AllowedEachAt(h, peer, ids[1..], ok, id);
      } else if ok(ids[0]) {
        var h1 := AllowedOne(h, ids[0], peer, true);
        AllowedEachAt(h1, peer, ids[1..], ok, id);
        assert forall x :: x in ids[1..] ==> (HeldFrom(h1, x, peer) <==> HeldFrom(h, x, peer));
      }
    }
  }

  ghost function HeldIds(h: Home): seq<Id> {
    Listed(h.inbox, (r: Record) => r.state == Consent)
  }

  lemma HeldIdsMean(h: Home)
    ensures Ascending(HeldIds(h))
    ensures forall x :: x in HeldIds(h) <==> x in h.inbox && h.inbox[x].state == Consent
  {
    ListedMeans(h.inbox, (r: Record) => r.state == Consent, h.inbox.Keys);
  }

  /** `owl allow` opens exactly the held records of that peer that come before the first one that
      cannot be written, and touches nothing but those records. */
  lemma AllowOpensExactly(h: Home, peer: Peer, ok: Id -> bool, id: Id)
    ensures var h' := AllowedEach(h, peer, HeldIds(h), ok);
            && h' == h.(inbox := h'.inbox, hist := h'.hist) && h'.inbox.Keys == h.inbox.Keys
            && (id in h.inbox ==>
                  h'.inbox[id] == if HeldFrom(h, id, peer) && (forall x: Id :: x <= id && HeldFrom(h, x, peer) ==> ok(x))
                                  then h.inbox[id].(state := Pending) else h.inbox[id])
  {
    HeldIdsMean(h);
    AllowedEachAt(h, peer, HeldIds(h), ok, id);
    hide AllowedEach, HeldIds;
  }

  const BOTH := FinishWrites(true, true)

  /** Every held record of `ids` before `id` is finished with both its writes. */
  ghost predicate AllFinished(h: Home, peer: Peer, ids: seq<Id>, w: Id -> FinishWrites, id: Id) {
    forall x :: x in ids && x < id && HeldFrom(h, x, peer) ==> w(x) == BOTH
  }

  /** What is left of record `id`, given whether the command gets to it. */
  ghost predicate DeniedAt(h: Home, h': Home, id: Id, reached: bool, w: FinishWrites) {
    && (if reached && w.done then id in h.inbox && id in h'.done && h'.done[id] == h.inbox[id].(state := Denied)
        else (id in h'.done <==> id in h.done) && (id in h.done ==> h'.done[id] == h.done[id]))
    && (if reached && w == BOTH then id !in h'.inbox
        else (id in h'.inbox <==> id in h.inbox) && (id in h.inbox ==> h'.inbox[id] == h.inbox[id]))
    && h' == h.(inbox := h'.inbox, done := h'.done)
  }

  lemma DeniedFirst(h: Home, peer: Peer, first: Id, w: FinishWrites, id: Id)
    requires HeldFrom(h, first, peer)
    ensures DeniedAt(h, DeniedOne(h, first, peer, w), id, id == first, w)
  {
  }

  /** The first record finished, then the others. */
  lemma DeniedThen(h: Home, h1: Home, h': Home, first: Id, id: Id, reached: bool, w: FinishWrites)
    requires DeniedAt(h, h1, id, id == first, BOTH) && DeniedAt(h1, h', id, reached && id != first, w)
    requires id == first ==> w == BOTH
    ensures DeniedAt(h, h', id, reached || id == first, w)
  {
  }

  lemma {:induction false} DeniedEachAt(h: Home, peer: Peer, ids: seq<Id>, w: Id -> FinishWrites, id: Id)
    requires Ascending(ids)
    ensures DeniedAt(h, DeniedEach(h, peer, ids, w), id,
                     id in ids && HeldFrom(h, id, peer) && AllFinished(h, peer, ids, w, id), w(id))
    decreases |ids|
  {
    if ids != [] {
      var first := ids[0];
      TailAscends(ids);
      if !HeldFrom(h, first, peer) {
        DeniedEachAt(h, peer, ids[1..], w, id);
      } else {
        var h1 := DeniedOne(h, first, peer, w(first));
        DeniedFirst(h, peer, first, w(first), id);
        if w(first) == BOTH {
          DeniedEachAt(h1, peer, ids[1..], w, id);
          assert forall x :: x in ids[1..] ==> (HeldFrom(h1, x, peer) <==> HeldFrom(h, x, peer));
          hide DeniedAt, DeniedOne;
          DeniedThen(h, h1, DeniedEach(h1, peer, ids[1..], w), first, id,
                     id in ids[1..] && HeldFrom(h1, id, peer) && AllFinished(h1, peer, ids[1..], w, id), w(id));
        } else {
          DeniedFirst(h, peer, first, w(first), id);
        }
      }
    }
  }

  /** `owl deny` finishes exactly the held records of that peer that come before the first one that
      cannot be finished, and of that one writes what could be written. */
  lemma DenyClosesExactly(h: Home, peer: Peer, w: Id -> FinishWrites, id: Id)
    ensures DeniedAt(h, DeniedEach(h, peer, HeldIds(h), w), id,
                     HeldFrom(h, id, peer) && (forall x: Id :: x < id && HeldFrom(h, x, peer) ==> w(x) == BOTH), w(id))
  {
    HeldIdsMean(h);
    DeniedEachAt(h, peer, HeldIds(h), w, id);
    hide DeniedEach, HeldIds, DeniedAt;
  }

  ghost function OutboxIds(h: Home): seq<Id> {
    Listed(h.outbox, _ => true)
  }

  ghost predicate ExpiredAt(h: Home, h': Home, id: Id, late: bool, w: MoveWrites) {
    && (if late && w.move then
          && id in h.outbox && id !in h'.outbox && id in h'.done
          && h'.done[id] == if w.mark then h.outbox[id].(state := Expired) else h.outbox[id]
        else
          && (id in h'.outbox <==> id in h.outbox) && (id in h.outbox ==> h'.outbox[id] == h.outbox[id])
          && (id in h'.done <==> id in h.done) && (id in h.done ==> h'.done[id] == h.done[id]))
    && h' == h.(outbox := h'.outbox, done := h'.done, hist := h'.hist)
  }

  lemma ExpiredFirst(h: Home, first: Id, w: MoveWrites, id: Id)
    ensures ExpiredAt(h, ExpiredOne(h, first, w), id, id == first && id in h.outbox, w)
  {
  }

  lemma ExpiredThen(h: Home, h1: Home, h': Home, id: Id, now: bool, later: bool, w: MoveWrites)
    requires ExpiredAt(h, h1, id, now, w) && ExpiredAt(h1, h', id, later, w) && !(now && later)
    ensures ExpiredAt(h, h', id, now || later, w)
  {
  }

  lemma {:induction false} ExpiredEachAt(h: Home, ids: seq<Id>, received: Id -> Option<nat>, days: nat, now: nat,
                                         w: Id -> MoveWrites, id: Id)
    requires Ascending(ids)
    ensures ExpiredAt(h, ExpiredEach(h, ids, received, days, now, w), id,
                      id in ids && id in h.outbox && IsLate(received(id), days, now), w(id))
    decreases |ids|
  {
    if ids != [] {
      TailAscends(ids);
      var first := ids[0];
      var late := IsLate(received(first), days, now);
      var h1 := if late then ExpiredOne(h, first, w(first)) else h;
      ExpiredEachAt(h1, ids[1..], received, days, now, w, id);
      if late {
        ExpiredFirst(h, first, w(first), id);
      }
      assert id != first ==> (id in h1.outbox <==> id in h.outbox);
      hide IsLate, ExpiredOne;
      if late && id == first && id in h.outbox {
        ExpiredThen(h, h1, ExpiredEach(h1, ids[1..], received, days, now, w), id, true, false, w(id));
      }
    }
  }

  /** The sweep moves exactly the late envelopes whose move succeeds, a failure stopping none of the
      others, and touches nothing else. */
  lemma ExpireMovesExactly(h: Home, received: Id -> Option<nat>, days: nat, now: nat, w: Id -> MoveWrites, id: Id)
    ensures var ttl := if days * 86_400 > 0xffff_ffff_ffff_ffff then 0xffff_ffff_ffff_ffff else days * 86_400;
            ExpiredAt(h, ExpiredEach(h, OutboxIds(h), received, days, now, w), id,
                      id in h.outbox && received(id).Some? && received(id).value + ttl < now, w(id))
  {
    assert IsLate(received(id), days, now)
      <==> received(id).Some? && received(id).value + TtlSecs(days) < now;
    ListedMeans(h.outbox, _ => true, h.outbox.Keys);
    ExpiredEachAt(h, OutboxIds(h), received, days, now, w, id);
    hide ExpiredEach, ExpiredAt, IsLate;
  }
}
