/** One turn of `pull_once` (src/pull.rs) on a peer that was reached: the loop over the fetched
    envelopes, then the loop over the asks still open. */
module Pulls {
  import opened Prelude
  import opened Exchange
  import opened Batches

  // ---- the loops ----

  /** The envelopes of one fetch, against the asks listed when the pull began: what is ingested is no
      longer listed. */
  function PulledItems(h: Home, open: map<Id, Record>, contact: Peer, items: seq<Envelope>, ws: seq<IngestWrites>)
    : (Home, map<Id, Record>)
    requires |ws| == |items|
    decreases |items|
  {
    if items == [] then (h, open)
    else
      var (h', v) := IngestedFrom(h, open, contact, items[0], ws[0]);
      PulledItems(h', Unlisted(open, items[0], v), contact, items[1..], ws[1..])
  }

  function Unlisted(open: map<Id, Record>, e: Envelope, v: Verdict): map<Id, Record> {
    if v == Ingested && e.payload.inReplyTo.Some? then open - {e.payload.inReplyTo.value} else open
  }

  /** `still_open`: what is listed and was asked of this contact, in order. */
  ghost function StillOpen(open: map<Id, Record>, contact: Peer): seq<Id> {
    Listed(open, (r: Record) => r.peer == contact)
  }

  /** The asks among `ids` whose task was seen as rejected. */
  function DeclinedEach(h: Home, open: map<Id, Record>, ids: seq<Id>, refused: set<Id>, w: Id -> MoveWrites)
    : (Home, map<Id, Record>)
    decreases |ids|
  {
    if ids == [] then (h, open)
    else if ids[0] !in refused then DeclinedEach(h, open, ids[1..], refused, w)
    else
      var (h', ok) := AskClosed(h, ids[0], Declined, w(ids[0]));
      DeclinedEach(h', if ok then open - {ids[0]} else open, ids[1..], refused, w)
  }

  /** `pull_once` on one peer that was reached. */
  ghost function PulledPeer(h: Home, open: map<Id, Record>, contact: Peer, items: seq<Envelope>, ws: seq<IngestWrites>,
                            refused: set<Id>, w: Id -> MoveWrites): (Home, map<Id, Record>)
    requires |ws| == |items|
  {
    var (h', left) := PulledItems(h, open, contact, items, ws);
    DeclinedEach(h', left, StillOpen(left, contact), refused, w)
  }

  // ---- one ask ----

  /** The ask `q` moves to `done/` with this state, if it is closed here; otherwise it stays. */
  ghost predicate AskFate(h: Home, h': Home, q: Id, closed: bool, state: State, mark: bool) {
    if closed then
      q in h.asks && q !in h'.asks && q in h'.done && h'.done[q] == if mark then h.asks[q].(state := state) else h.asks[q]
    else
      && (q in h'.asks <==> q in h.asks) && (q in h.asks ==> h'.asks[q] == h.asks[q])
      && (q in h'.done <==> q in h.done) && (q in h.done ==> h'.done[q] == h.done[q])
  }

  /** It goes from the list exactly if `gone`. */
  predicate ListFate(open: map<Id, Record>, left: map<Id, Record>, q: Id, gone: bool) {
    (q in left <==> q in open && !gone) && (q in left ==> left[q] == open[q])
  }

  lemma ClosedHasFate(h: Home, id: Id, state: State, w: MoveWrites, q: Id)
    ensures var (h', ok) := AskClosed(h, id, state, w); var closed := id in h.asks && w.move;
            AskFate(h, h', q, closed && q == id, state, w.mark) && ok == (closed && w.mark)
            && h' == h.(asks := h'.asks, done := h'.done)
  {
  }

  // ---- the second loop ----

  /** What the second loop does to one ask. */
  ghost predicate DeclineFate(h: Home, open: map<Id, Record>, h': Home, left: map<Id, Record>, q: Id, closed: bool, mark: bool) {
    && h' == h.(asks := h'.asks, done := h'.done)
    && AskFate(h, h', q, closed, Declined, mark) && ListFate(open, left, q, closed && mark)
  }

  lemma DeclineFateChain(h: Home, open: map<Id, Record>, h1: Home, open1: map<Id, Record>, h': Home, left: map<Id, Record>,
                         q: Id, now: bool, later: bool, mark: bool)
    requires DeclineFate(h, open, h1, open1, q, now, mark) && DeclineFate(h1, open1, h', left, q, later, mark)
    ensures DeclineFate(h, open, h', left, q, now || later, mark)
  {
  }

  lemma DeclineFirst(h: Home, open: map<Id, Record>, id: Id, w: MoveWrites, q: Id, mark: bool)
    requires q == id ==> mark == w.mark
    ensures var (h', ok) := AskClosed(h, id, Declined, w);
            && DeclineFate(h, open, h', if ok then open - {id} else open, q, q == id && id in h.asks && w.move, mark)
            && (q != id ==> (q in h'.asks <==> q in h.asks))
  {
    ClosedHasFate(h, id, Declined, w, q);
    hide AskClosed;
  }

  lemma {:induction false} DeclinedEachAt(h: Home, open: map<Id, Record>, ids: seq<Id>, refused: set<Id>,
                                          w: Id -> MoveWrites, q: Id)
    requires Ascending(ids)
    ensures var (h', left) := DeclinedEach(h, open, ids, refused, w);
            DeclineFate(h, open, h', left, q, q in ids && q in refused && q in h.asks && w(q).move, w(q).mark)
    decreases |ids|
  {
    if ids != [] {
      var first := ids[0];
      TailAscends(ids);
      hide Ascending, AskClosed, DeclineFate;
      if first !in refused {
        DeclinedEachAt(h, open, ids[1..], refused, w, q);
      } else {
        var (h1, ok) := AskClosed(h, first, Declined, w(first));
        var open1 := if ok then open - {first} else open;
        DeclineFirst(h, open, first, w(first), q, w(q).mark);
        DeclinedEachAt(h1, open1, ids[1..], refused, w, q);
        var (h', left) := DeclinedEach(h1, open1, ids[1..], refused, w);
        DeclineFateChain(h, open, h1, open1, h', left, q, q == first && first in h.asks && w(first).move,
                         q in ids[1..] && q in refused && q in h1.asks && w(q).move, w(q).mark);
      }
    }
  }

  lemma StillOpenMeans(open: map<Id, Record>, contact: Peer)
    ensures Ascending(StillOpen(open, contact))
    ensures forall q :: q in StillOpen(open, contact) <==> q in open && open[q].peer == contact
  {
    ListedMeans(open, (r: Record) => r.peer == contact, open.Keys);
  }

  /** The second loop: exactly the listed asks of this contact that are still in `asks/`,
      whose task was seen as rejected and whose move succeeds go to `done/`, as declined if that
      can be written; those leave the list, and nothing else changes. */
  lemma DeclineClosesExactly(h: Home, open: map<Id, Record>, contact: Peer, refused: set<Id>, w: Id -> MoveWrites, q: Id)
    ensures var (h', left) := DeclinedEach(h, open, StillOpen(open, contact), refused, w);
            DeclineFate(h, open, h', left, q,
                        q in open && open[q].peer == contact && q in refused && q in h.asks && w(q).move, w(q).mark)
  {
    StillOpenMeans(open, contact);
    DeclinedEachAt(h, open, StillOpen(open, contact), refused, w, q);
    hide DeclinedEach, StillOpen, DeclineFate;
  }

  // ---- the first loop ----

  /** The envelope answers the listed ask `q` and its writes go through up to the move of the ask. */
  predicate Answers(open: map<Id, Record>, contact: Peer, e: Envelope, w: IngestWrites, q: Id) {
    && e.payload.inReplyTo == Some(q) && VerdictOn(open, contact, e) == Ingested && w.inbox && w.move.move
    && (!open[q].threaded && e.payload.kind == Answer && open[q].env.payload.kind == Question ==> w.cache)
  }

  /** Item `i` is the first to do so. */
  ghost predicate FirstAnswer(open: map<Id, Record>, contact: Peer, items: seq<Envelope>, ws: seq<IngestWrites>, q: Id, i: nat)
    requires |ws| == |items|
  {
    && i < |items| && Answers(open, contact, items[i], ws[i], q)
    && forall k :: 0 <= k < i ==> !Answers(open, contact, items[k], ws[k], q)
  }

  /** What an ask and its entry in the list come to. */
  ghost predicate PullFate(h: Home, open: map<Id, Record>, h': Home, left: map<Id, Record>, q: Id, answered: bool, mark: bool) {
    AskFate(h, h', q, answered, Answered, mark) && ListFate(open, left, q, answered && mark)
  }

  lemma IngestHasFate(h: Home, open: map<Id, Record>, contact: Peer, e: Envelope, w: IngestWrites, q: Id)
    ensures var (h', v) := IngestedFrom(h, open, contact, e, w);
            && PullFate(h, open, h', Unlisted(open, e, v), q, q in h.asks && Answers(open, contact, e, w, q), w.move.mark)
            && h' == h.(inbox := h'.inbox, cache := h'.cache, asks := h'.asks, done := h'.done)
  {
  }

  /** The list lost nothing about `q` when the first item was none of its answers. */
  lemma AnswersLater(open: map<Id, Record>, contact: Peer, items: seq<Envelope>, ws: seq<IngestWrites>, v: Verdict, q: Id, k: nat)
    requires |ws| == |items| && k + 1 < |items|
    requires var open1 := Unlisted(open, items[0], v); ListFate(open, open1, q, false)
    ensures Answers(Unlisted(open, items[0], v), contact, items[1..][k], ws[1..][k], q)
            <==> Answers(open, contact, items[k + 1], ws[k + 1], q)
  {
  }

  /** The first loop: the ask `q` leaves `asks/` exactly if it is there and one of the items answers
      it; by the first of them it goes to `done/` as answered and from the list, or, if the new state
      cannot be written, to `done/` as it was and stays listed. */
  lemma {:induction false} AnsweredByFirst(h: Home, open: map<Id, Record>, contact: Peer, items: seq<Envelope>,
                                           ws: seq<IngestWrites>, q: Id, i: nat)
    requires |ws| == |items| && q in h.asks && FirstAnswer(open, contact, items, ws, q, i)
    ensures var (h', left) := PulledItems(h, open, contact, items, ws); PullFate(h, open, h', left, q, true, ws[i].move.mark)
    decreases |items|
  {
    var (h1, v) := IngestedFrom(h, open, contact, items[0], ws[0]);
    var open1 := Unlisted(open, items[0], v);
    IngestHasFate(h, open, contact, items[0], ws[0], q);
    hide IngestedFrom, Answers;
    if i == 0 {
      NotAnswered(h1, open1, contact, items[1..], ws[1..], q);
    } else {
      forall k: nat | k + 1 < |items|
        ensures Answers(open1, contact, items[1..][k], ws[1..][k], q) <==> Answers(open, contact, items[k + 1], ws[k + 1], q)
      {
        AnswersLater(open, contact, items, ws, v, q, k);
      }
      AnsweredByFirst(h1, open1, contact, items[1..], ws[1..], q, i - 1);
    }
  }

  lemma {:induction false} NotAnswered(h: Home, open: map<Id, Record>, contact: Peer, items: seq<Envelope>,
                                       ws: seq<IngestWrites>, q: Id)
    requires |ws| == |items|
    requires q in h.asks ==> forall i :: 0 <= i < |items| ==> !Answers(open, contact, items[i], ws[i], q)
    ensures var (h', left) := PulledItems(h, open, contact, items, ws); PullFate(h, open, h', left, q, false, false)
    decreases |items|
  {
    if items != [] {
      var (h1, v) := IngestedFrom(h, open, contact, items[0], ws[0]);
      var open1 := Unlisted(open, items[0], v);
      IngestHasFate(h, open, contact, items[0], ws[0], q);
      hide IngestedFrom, Answers;
      forall k: nat | k + 1 < |items|
        ensures Answers(open1, contact, items[1..][k], ws[1..][k], q) <==> Answers(open, contact, items[k + 1], ws[k + 1], q)
      {
        AnswersLater(open, contact, items, ws, v, q, k);
      }
      NotAnswered(h1, open1, contact, items[1..], ws[1..], q);
    }
  }

  lemma {:induction false} FirstIsThere(open: map<Id, Record>, contact: Peer, items: seq<Envelope>, ws: seq<IngestWrites>,
                                        q: Id, i: nat)
    requires |ws| == |items| && i < |items| && Answers(open, contact, items[i], ws[i], q)
    ensures exists k: nat :: k <= i && FirstAnswer(open, contact, items, ws, q, k)
    decreases i
  {
    hide Answers;
    if k: nat :| k < i && Answers(open, contact, items[k], ws[k], q) {
      FirstIsThere(open, contact, items, ws, q, k);
    } else {
      assert FirstAnswer(open, contact, items, ws, q, i);
    }
  }

  /** Both halves: of the listed asks exactly those leave `asks/` that were in it and are answered by
      one of the items with its writes up to the move, and of these exactly those leave the list
      whose new state is written too; no ask that is not answered is touched. */
  lemma PullAnswersExactly(h: Home, open: map<Id, Record>, contact: Peer, items: seq<Envelope>, ws: seq<IngestWrites>, q: Id)
    requires |ws| == |items|
    ensures var (h', left) := PulledItems(h, open, contact, items, ws);
            if q in h.asks && exists i: nat :: i < |items| && Answers(open, contact, items[i], ws[i], q) then
              exists i: nat :: FirstAnswer(open, contact, items, ws, q, i) && PullFate(h, open, h', left, q, true, ws[i].move.mark)
            else PullFate(h, open, h', left, q, false, false)
  {
    hide PulledItems, PullFate, Answers;
    if q in h.asks && exists i: nat :: i < |items| && Answers(open, contact, items[i], ws[i], q) {
      var i: nat :| i < |items| && Answers(open, contact, items[i], ws[i], q);
      FirstIsThere(open, contact, items, ws, q, i);
      var k: nat :| FirstAnswer(open, contact, items, ws, q, k);
      AnsweredByFirst(h, open, contact, items, ws, q, k);
    } else {
      NotAnswered(h, open, contact, items, ws, q);
    }
  }

  // ---- what the first loop stores ----

  /** The ask item `i` replies to has been answered by an earlier one, and is no longer listed. */
  ghost predicate TooLate(h: Home, open: map<Id, Record>, contact: Peer, items: seq<Envelope>, ws: seq<IngestWrites>, i: nat)
    requires |ws| == |items| && i < |items|
  {
    var to := items[i].payload.inReplyTo;
    to.Some? && to.value in h.asks
    && exists k: nat :: k < i && FirstAnswer(open, contact, items, ws, to.value, k) && ws[k].move.mark
  }

  /** Item `i` is written to `inbox/`. */
  ghost predicate Stores(h: Home, open: map<Id, Record>, contact: Peer, items: seq<Envelope>, ws: seq<IngestWrites>, i: nat)
    requires |ws| == |items| && i < |items|
  {
    VerdictOn(open, contact, items[i]) == Ingested && ws[i].inbox && !TooLate(h, open, contact, items, ws, i)
  }

  function Received(contact: Peer, e: Envelope): Record {
    Record(e, Pending, None, false, contact, None, None, false)
  }

  lemma FirstLater(open: map<Id, Record>, contact: Peer, items: seq<Envelope>, ws: seq<IngestWrites>, v: Verdict, q: Id, k: nat)
    requires |ws| == |items| && k + 1 < |items| && ListFate(open, Unlisted(open, items[0], v), q, false)
    requires !Answers(open, contact, items[0], ws[0], q)
    ensures FirstAnswer(Unlisted(open, items[0], v), contact, items[1..], ws[1..], q, k)
            <==> FirstAnswer(open, contact, items, ws, q, k + 1)
  {
    hide Answers, Unlisted, ListFate;
    forall j: nat | j + 1 < |items|
      ensures Answers(Unlisted(open, items[0], v), contact, items[1..][j], ws[1..][j], q)
              <==> Answers(open, contact, items[j + 1], ws[j + 1], q)
    {
      AnswersLater(open, contact, items, ws, v, q, j);
    }
  }

  lemma TooLateLater(h: Home, open: map<Id, Record>, contact: Peer, items: seq<Envelope>, ws: seq<IngestWrites>, i: nat)
    requires |ws| == |items| && i + 1 < |items| && items[i + 1].payload.inReplyTo.Some?
    requires !(items[i + 1].payload.inReplyTo.value in h.asks
               && Answers(open, contact, items[0], ws[0], items[i + 1].payload.inReplyTo.value))
    ensures var (h1, v) := IngestedFrom(h, open, contact, items[0], ws[0]);
            TooLate(h1, Unlisted(open, items[0], v), contact, items[1..], ws[1..], i) <==> TooLate(h, open, contact, items, ws, i + 1)
  {
    var q := items[i + 1].payload.inReplyTo.value;
    var (h1, v) := IngestedFrom(h, open, contact, items[0], ws[0]);
    var open1 := Unlisted(open, items[0], v);
    IngestHasFate(h, open, contact, items[0], ws[0], q);
    assert items[1..][i] == items[i + 1];
    hide IngestedFrom, Answers, Unlisted;
    if q in h.asks {
      forall k: nat | k + 1 < |items|
        ensures FirstAnswer(open1, contact, items[1..], ws[1..], q, k) <==> FirstAnswer(open, contact, items, ws, q, k + 1)
        ensures ws[1..][k] == ws[k + 1]
      {
        FirstLater(open, contact, items, ws, v, q, k);
      }
      if TooLate(h, open, contact, items, ws, i + 1) {
        var k: nat :| k < i + 1 && FirstAnswer(open, contact, items, ws, q, k) && ws[k].move.mark;
        assert FirstAnswer(open1, contact, items[1..], ws[1..], q, k - 1);
      }
      if TooLate(h1, open1, contact, items[1..], ws[1..], i) {
        var k: nat :| k < i && FirstAnswer(open1, contact, items[1..], ws[1..], q, k) && ws[1..][k].move.mark;
        assert FirstAnswer(open, contact, items, ws, q, k + 1);
      }
    }
  }

  /** What is stored of the other items does not depend on the first one having had its turn. */
  lemma StoresLater(h: Home, open: map<Id, Record>, contact: Peer, items: seq<Envelope>, ws: seq<IngestWrites>, i: nat)
    requires |ws| == |items| && i + 1 < |items|
    ensures var (h1, v) := IngestedFrom(h, open, contact, items[0], ws[0]);
            Stores(h1, Unlisted(open, items[0], v), contact, items[1..], ws[1..], i) <==> Stores(h, open, contact, items, ws, i + 1)
  {
    var (h1, v) := IngestedFrom(h, open, contact, items[0], ws[0]);
    var open1 := Unlisted(open, items[0], v);
    assert items[1..][i] == items[i + 1] && ws[1..][i] == ws[i + 1];
    if items[i + 1].payload.inReplyTo.Some? {
      var q := items[i + 1].payload.inReplyTo.value;
      IngestHasFate(h, open, contact, items[0], ws[0], q);
      hide IngestedFrom, Unlisted;
      if q in h.asks && Answers(open, contact, items[0], ws[0], q) {
        assert FirstAnswer(open, contact, items, ws, q, 0);
        assert TooLate(h, open, contact, items, ws, i + 1) <==> ws[0].move.mark;
        assert !TooLate(h1, open1, contact, items[1..], ws[1..], i);
      } else {
        TooLateLater(h, open, contact, items, ws, i);
        hide TooLate, Answers;
      }
    }
  }

  lemma IngestStores(h: Home, open: map<Id, Record>, contact: Peer, items: seq<Envelope>, ws: seq<IngestWrites>)
    requires |ws| == |items| && items != []
    ensures var h1 := IngestedFrom(h, open, contact, items[0], ws[0]).0;
            h1.inbox == if Stores(h, open, contact, items, ws, 0)
                        then h.inbox[items[0].payload.id := Received(contact, items[0])] else h.inbox
  {
    assert !TooLate(h, open, contact, items, ws, 0);
  }

  /** `inbox/` gets exactly the replies of the contact to asks still listed at their turn, the last one
      under an id remaining; nothing else in it changes. */
  lemma {:induction false} PullStoresNone(h: Home, open: map<Id, Record>, contact: Peer, items: seq<Envelope>,
                                          ws: seq<IngestWrites>, x: Id)
    requires |ws| == |items|
    requires forall i: nat :: i < |items| && items[i].payload.id == x ==> !Stores(h, open, contact, items, ws, i)
    ensures var h' := PulledItems(h, open, contact, items, ws).0;
            (x in h'.inbox <==> x in h.inbox) && (x in h.inbox ==> h'.inbox[x] == h.inbox[x])
    decreases |items|
  {
    if items != [] {
      var (h1, v) := IngestedFrom(h, open, contact, items[0], ws[0]);
      var open1 := Unlisted(open, items[0], v);
      IngestStores(h, open, contact, items, ws);
      hide IngestedFrom, Stores, Unlisted;
      forall i: nat | i < |items[1..]| && items[1..][i].payload.id == x
        ensures !Stores(h1, open1, contact, items[1..], ws[1..], i)
      {
        StoresLater(h, open, contact, items, ws, i);
      }
      PullStoresNone(h1, open1, contact, items[1..], ws[1..], x);
    }
  }

  lemma {:induction false} PullStoresLast(h: Home, open: map<Id, Record>, contact: Peer, items: seq<Envelope>,
                                          ws: seq<IngestWrites>, i: nat)
    requires |ws| == |items| && i < |items| && Stores(h, open, contact, items, ws, i)
    requires forall j: nat :: i < j < |items| && items[j].payload.id == items[i].payload.id ==> !Stores(h, open, contact, items, ws, j)
    ensures var h' := PulledItems(h, open, contact, items, ws).0; var x := items[i].payload.id;
            x in h'.inbox && h'.inbox[x] == Received(contact, items[i])
    decreases |items|
  {
    var (h1, v) := IngestedFrom(h, open, contact, items[0], ws[0]);
    var open1 := Unlisted(open, items[0], v);
    IngestStores(h, open, contact, items, ws);
    hide IngestedFrom, Stores, Unlisted;
    forall j: nat | j + 1 < |items|
      ensures Stores(h1, open1, contact, items[1..], ws[1..], j) <==> Stores(h, open, contact, items, ws, j + 1)
    {
      StoresLater(h, open, contact, items, ws, j);
    }
    if i == 0 {
      PullStoresNone(h1, open1, contact, items[1..], ws[1..], items[0].payload.id);
    } else {
      PullStoresLast(h1, open1, contact, items[1..], ws[1..], i - 1);
    }
  }

  lemma {:induction false} PullStores(h: Home, open: map<Id, Record>, contact: Peer, items: seq<Envelope>,
                                      ws: seq<IngestWrites>, i: nat)
    requires |ws| == |items| && i < |items| && Stores(h, open, contact, items, ws, i)
    requires forall j: nat :: j < |items| && items[j].payload.id == items[i].payload.id && Stores(h, open, contact, items, ws, j)
               ==> items[j] == items[i]
    ensures var h' := PulledItems(h, open, contact, items, ws).0; var x := items[i].payload.id;
            x in h'.inbox && h'.inbox[x] == Received(contact, items[i])
    decreases |items| - i
  {
    hide PulledItems, Stores;
    if j: nat :| i < j < |items| && items[j].payload.id == items[i].payload.id && Stores(h, open, contact, items, ws, j) {
      PullStores(h, open, contact, items, ws, j);
    } else {
      PullStoresLast(h, open, contact, items, ws, i);
    }
  }

  // ---- both loops ----

  /** A pull of one peer in all, from the list it began with: each listed ask of it that was still in
      `asks/` is answered, or declined, or stays, and which of them is decided by the first item that
      answers it, the task seen and the move. */
  lemma PullOutcome(h: Home, open: map<Id, Record>, contact: Peer, items: seq<Envelope>, ws: seq<IngestWrites>,
                    refused: set<Id>, w: Id -> MoveWrites, q: Id)
    requires |ws| == |items| && q in h.asks && q in open && open[q].peer == contact
    ensures var (h', left) := PulledPeer(h, open, contact, items, ws, refused, w);
            if exists i: nat :: i < |items| && Answers(open, contact, items[i], ws[i], q) then
              exists i: nat :: FirstAnswer(open, contact, items, ws, q, i) && PullFate(h, open, h', left, q, true, ws[i].move.mark)
            else
              var closed := q in refused && w(q).move;
              AskFate(h, h', q, closed, Declined, w(q).mark) && ListFate(open, left, q, closed && w(q).mark)
  {
    var (h1, left1) := PulledItems(h, open, contact, items, ws);
    PullAnswersExactly(h, open, contact, items, ws, q);
    DeclineClosesExactly(h1, left1, contact, refused, w, q);
    hide PulledItems, DeclinedEach, Answers, StillOpen;
    if exists i: nat :: i < |items| && Answers(open, contact, items[i], ws[i], q) {
      var i: nat :| FirstAnswer(open, contact, items, ws, q, i) && PullFate(h, open, h1, left1, q, true, ws[i].move.mark);
      assert PullFate(h, open, DeclinedEach(h1, left1, StillOpen(left1, contact), refused, w).0,
                      DeclinedEach(h1, left1, StillOpen(left1, contact), refused, w).1, q, true, ws[i].move.mark);
    }
  }
}
