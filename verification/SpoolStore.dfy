/** The spool as src/spool.rs keeps it and the commands as they change it, write by write. Every
    method is proved to do what `Exchange`, `Machine`, `Batches` and `Pulls` say of it. */
module SpoolStore {
  import opened Prelude
  import opened Exchange
  import opened Batches
  import opened Outcomes
  import opened Pulls
  import Machine

  /** One attempt of the scheduler from beginning to end (src/auto.rs). */
  ghost function Attempted(h: Home, own: Peer, id: Id, mode: Option<Mode>, enabled: bool, text: Option<Text>,
                           newId: Id, w: SendWrites, drafted: bool, noted: bool): Home {
    if id !in h.inbox || !Machine.Candidate(h.inbox[id], mode, enabled) then h
    else if text.None? then Machine.Rewritten(h, id, Machine.FailedRecord(h.inbox[id]), noted)
    else if !drafted then h
    else
      var rec := WithDraft(h.inbox[id], TextDraft(text.value));
      var withDraft := h.(inbox := h.inbox[id := rec], hist := h.hist + [DraftStored(id)]);
      var (h', sent) := SendOf(withDraft, own, id, rec, ByScheduler, newId, w);
      if sent then h' else Machine.AfterFailedSend(h', id, noted)
  }

  lemma ListedNone(records: map<nat, Record>, keep: Record -> bool)
    ensures ListedFrom(records, keep, {}) == []
  {
  }

  method ListRecords(records: map<nat, Record>, keep: Record -> bool) returns (ids: seq<nat>)
    ensures ids == Listed(records, keep)
  {
    ids := [];
    var rest := records.Keys;
    hide ListedFrom, LeastId;
    while rest != {}
      invariant rest <= records.Keys
      invariant ids + ListedFrom(records, keep, rest) == Listed(records, keep)
      decreases rest
    {
      var id :| id in rest && forall x :: x in rest ==> id <= x by {
        LeastIsThere(rest);
      }
      ListedStep(records, keep, rest, id);
      ghost var tail := ListedFrom(records, keep, rest - {id});
      assert ids + ([id] + tail) == (ids + [id]) + tail && ids + ([] + tail) == ids + tail;
      if keep(records[id]) {
        ids := ids + [id];
      }
      rest := rest - {id};
    }
    ListedNone(records, keep);
  }

  lemma LeastIsThere(rest: set<nat>)
    requires rest != {}
    ensures exists id :: id in rest && forall x :: x in rest ==> id <= x
  {
    var _ := LeastId(rest);
  }

  lemma ListedStep(records: map<nat, Record>, keep: Record -> bool, rest: set<nat>, id: nat)
    requires rest <= records.Keys && id in rest && forall x :: x in rest ==> id <= x
    ensures ListedFrom(records, keep, rest)
            == (if keep(records[id]) then [id] else []) + ListedFrom(records, keep, rest - {id})
  {
    assert id == LeastId(rest);
  }

  class Store {
    const own: Peer
    var inbox: map<Id, Record>
    var outbox: map<Id, Record>
    var asks: map<Id, Record>
    var done: map<Id, Record>
    var cache: map<Hash, Record>
    var log: seq<LogLine>
    var hist: seq<Event>

    constructor (own: Peer)
      ensures Now() == EMPTY && this.own == own
    {
      this.own := own;
      inbox, outbox, asks, done, cache, log, hist := map[], map[], map[], map[], map[], [], [];
    }

    function Now(): Home
      reads this
    {
      Home(inbox, outbox, asks, done, cache, log, hist)
    }

    // ---- src/spool.rs ----

    method Put(dir: Dir, id: nat, rec: Record, ok: bool) returns (r: bool)
      modifies this
      ensures r == ok && Now() == if ok then With(old(Now()), dir, In(old(Now()), dir)[id := rec]) else old(Now())
    {
      if ok {
        match dir {
          case Inbox => inbox := inbox[id := rec];
          case Outbox => outbox := outbox[id := rec];
          case Asks => asks := asks[id := rec];
          case Done => done := done[id := rec];
          case Cache => cache := cache[id := rec];
        }
      }
      return ok;
    }

    method Remove(dir: Dir, id: nat, ok: bool) returns (r: bool)
      modifies this
      ensures r == ok && Now() == if ok then With(old(Now()), dir, In(old(Now()), dir) - {id}) else old(Now())
    {
      if ok {
        match dir {
          case Inbox => inbox := inbox - {id};
          case Outbox => outbox := outbox - {id};
          case Asks => asks := asks - {id};
          case Done => done := done - {id};
          case Cache => cache := cache - {id};
        }
      }
      return ok;
    }

    method Get(dir: Dir, id: nat) returns (rec: Option<Record>)
      ensures rec == if id in In(Now(), dir) then Some(In(Now(), dir)[id]) else None
    {
      var records := In(Now(), dir);
      if id in records {
        return Some(records[id]);
      }
      return None;
    }

    /** `set_state`: read, change, write; no record is an error. */
    method SetState(dir: Dir, id: nat, state: State, ok: bool) returns (r: bool)
      modifies this
      ensures var records := In(old(Now()), dir);
              if id in records && ok then r && Now() == With(old(Now()), dir, records[id := records[id].(state := state)])
              else !r && Now() == old(Now())
    {
      var rec := Get(dir, id);
      if rec.None? {
        return false;
      }
      r := Put(dir, id, rec.value.(state := state), ok);
    }

    /** `move_to`: one rename. */
    method MoveTo(from: Dir, id: nat, to: Dir, ok: bool) returns (r: bool)
      requires from != to
      modifies this
      ensures var h := old(Now());
              if id in In(h, from) && ok then
                r && Now() == With(With(h, to, In(h, to)[id := In(h, from)[id]]), from, In(h, from) - {id})
              else !r && Now() == h
    {
      var rec := Get(from, id);
      if rec.None? || !ok {
        return false;
      }
      var _ := Put(to, id, rec.value, true);
      var _ := Remove(from, id, true);
      return true;
    }

    /** `list`, the ids in order. */
    method List(dir: Dir, keep: Record -> bool) returns (ids: seq<nat>)
      ensures ids == Listed(In(Now(), dir), keep)
    {
      ids := ListRecords(In(Now(), dir), keep);
    }

    // ---- src/answer.rs ----

    method FindExisting(id: Id) returns (found: Option<Id>)
      ensures found == ExistingAnswer(outbox, id)
    {
      var ids := List(Outbox, (r: Record) => r.question == Some(id));
      FirstListedExists(outbox, id, ids);
      if ids == [] {
        return None;
      }
      return Some(ids[0]);
    }

    method HasOutgoingLine(id: Id) returns (has: bool)
      ensures has == HasLine(log, id)
    {
      for i := 0 to |log|
        invariant forall k :: 0 <= k < i ==> log[k].question != id
      {
        if log[i].question == id {
          return true;
        }
      }
      return false;
    }

    method Finish(id: Id, rec: Record, state: State, answer: Option<Id>, w: FinishWrites) returns (ok: bool)
      modifies this
      ensures (Now(), ok) == Finished(old(Now()), id, rec, state, answer, w)
    {
      ok := Put(Done, id, rec.(state := state, answer := answer), w.done);
      if !ok {
        return;
      }
      ok := Remove(Inbox, id, w.unlink);
    }

    /** The envelope to finish with: the one in `outbox/`, or a new one signed and spooled. */
    method Sign(id: Id, rec: Record, via: SendMode, newId: Id, w: SendWrites) returns (answer: Option<Id>)
      modifies this
      ensures (Now(), answer) == SignPart(old(Now()), own, id, rec, via, newId, w)
    {
      if !Sendable(own, rec) {
        return None;
      }
      var cacheable := Cacheable(Now(), id, rec.env.payload);
      var existing := FindExisting(id);
      if existing.Some? {
        return existing;
      }
      if rec.env.payload.kind != Question && !DraftFits(rec.env.payload.kind, rec.draft.value) {
        return None;
      }
      var out := OutboxRecord(own, id, rec, newId);
      var ok := Put(Outbox, newId, out, w.outbox);
      if !ok {
        return None;
      }
      hist := hist + [Signed(newId, id, rec.env.payload.kind, via)];
      if cacheable {
        ok := Put(Cache, rec.env.payload.hash, out, w.cache);
        if !ok {
          return None;
        }
      }
      return Some(newId);
    }

    method Close(id: Id, rec: Record, via: SendMode, answer: Id, w: SendWrites) returns (ok: bool)
      modifies this
      ensures (Now(), ok) == ClosePart(old(Now()), id, rec, via, answer, w)
    {
      var has := HasOutgoingLine(id);
      if !has {
        if !w.log {
          return false;
        }
        log := log + [LogLine(rec.env.payload.from, id, via)];
        hist := hist + [Logged(id, rec.env.payload.kind, via)];
      }
      ok := Finish(id, rec, Answered, Some(answer), w.finish);
    }

    /** `send`. */
    method Send(id: Id, rec: Record, via: SendMode, newId: Id, w: SendWrites) returns (ok: bool)
      modifies this
      ensures (Now(), ok) == SendOf(old(Now()), own, id, rec, via, newId, w)
    {
      var answer := Sign(id, rec, via, newId, w);
      if answer.None? {
        return false;
      }
      ok := Close(id, rec, via, answer.value, w);
    }

    /** `owl send`. */
    method SendCommand(id: Id, newId: Id, w: SendWrites)
      modifies this
      ensures Now() == SentOne(old(Now()), own, id, newId, w)
    {
      var rec := Get(Inbox, id);
      if rec.Some? {
        var _ := Send(id, rec.value, ByHuman, newId, w);
      }
    }

    // ---- src/cli/draft.rs, src/cli/reject.rs, src/cli/deny.rs, src/cli/allow.rs ----

    method Draft(id: Id, d: Exchange.Draft, ok: bool)
      modifies this
      ensures Now() == DraftedOne(old(Now()), id, d, ok)
    {
      var found := Get(Inbox, id);
      if found.None? || !IsRequest(found.value.env.payload.kind) {
        return;
      }
      var rec := found.value;
      if rec.state != Pending && rec.state != Drafted {
        return;
      }
      var existing := FindExisting(id);
      if existing.Some? || !DraftFits(rec.env.payload.kind, d) {
        return;
      }
      var stored := Put(Inbox, id, WithDraft(rec, d), ok);
      if stored {
        hist := hist + [DraftStored(id)];
      }
    }

    /** `owl edit`. */
    method Edit(id: Id, text: Option<Text>, ok: bool)
      modifies this
      ensures Now() == EditedOne(old(Now()), id, text, ok)
    {
      var found := Get(Inbox, id);
      if found.None? || found.value.env.payload.kind == Content || found.value.env.payload.kind == ToolCall
         || found.value.draft.None?
      {
        return;
      }
      var existing := FindExisting(id);
      if existing.Some? || text.None? {
        return;
      }
      var _ := Put(Inbox, id, found.value.(draft := Some(TextDraft(text.value))), ok);
    }

    method Reject(id: Id, w: FinishWrites)
      modifies this
      ensures Now() == RejectedOne(old(Now()), id, w)
    {
      var rec := Get(Inbox, id);
      if rec.Some? {
        var _ := Finish(id, rec.value, Rejected, rec.value.answer, w);
      }
    }

    method DenyOne(id: Id, peer: Peer, w: FinishWrites) returns (ok: bool)
      modifies this
      ensures Now() == DeniedOne(old(Now()), id, peer, w)
      ensures ok == (!HeldFrom(old(Now()), id, peer) || w == FinishWrites(true, true))
    {
      var rec := Get(Inbox, id);
      if rec.None? || rec.value.state != Consent || rec.value.env.payload.from != peer {
        return true;
      }
      ok := Finish(id, rec.value, Denied, rec.value.answer, w);
    }

    /** `deny_held`: stops at the first record that cannot be finished. */
    method DenyHeld(peer: Peer, w: Id -> FinishWrites)
      modifies this
      ensures var h := old(Now()); Now() == DeniedEach(h, peer, HeldIds(h), w)
    {
      var ids := List(Inbox, (r: Record) => r.state == Consent);
      ghost var target := DeniedEach(Now(), peer, ids, w);
      hide Now, Listed, HeldFrom, Finished;
      for i := 0 to |ids|
        invariant DeniedEach(Now(), peer, ids[i..], w) == target
      {
        assert ids[i..][0] == ids[i] && ids[i..][1..] == ids[i + 1..];
        var ok := DenyOne(ids[i], peer, w(ids[i]));
        if !ok {
          return;
        }
      }
    }

    method AllowOne(id: Id, peer: Peer, ok: bool) returns (r: bool)
      modifies this
      ensures Now() == AllowedOne(old(Now()), id, peer, ok)
      ensures r == (!HeldFrom(old(Now()), id, peer) || ok)
    {
      var rec := Get(Inbox, id);
      if rec.None? || rec.value.state != Consent || rec.value.env.payload.from != peer {
        return true;
      }
      r := SetState(Inbox, id, Pending, ok);
      if r {
        hist := hist + [Allowed(id)];
      }
    }

    /** `release` of src/cli/allow.rs: stops at the first record that cannot be written. */
    method AllowHeld(peer: Peer, ok: Id -> bool)
      modifies this
      ensures var h := old(Now()); Now() == AllowedEach(h, peer, HeldIds(h), ok)
    {
      var ids := List(Inbox, (r: Record) => r.state == Consent);
      ghost var target := AllowedEach(Now(), peer, ids, ok);
      hide Now, Listed, HeldFrom;
      for i := 0 to |ids|
        invariant AllowedEach(Now(), peer, ids[i..], ok) == target
      {
        assert ids[i..][0] == ids[i] && ids[i..][1..] == ids[i + 1..];
        var r := AllowOne(ids[i], peer, ok(ids[i]));
        if !r {
          return;
        }
      }
    }

    // ---- src/server.rs, src/pull.rs ----

    /** The end of `post_question`. `remembered`: the id reached the table of seen ids. `served`: the
        cached answer that goes back to the peer at once. */
    method PostQuestion(env: Envelope, mode: Option<Mode>, enabled: bool, spooled: bool, remembered: bool)
      returns (served: Option<Record>)
      modifies this
      ensures Now() == Posted(old(Now()), own, env, mode, enabled, spooled, remembered)
      ensures var h, p := old(Now()), env.payload;
              served == if p.to == own && enabled && remembered && FromCache(h, p, mode) then Some(h.cache[p.hash]) else None
    {
      var p := env.payload;
      ThreadIsKnown(Now(), p, p.id);
      hide ThreadKnown, ThreadGoesOn;
      if !IsRequest(p.kind) || p.to != own || !enabled || mode == Some(Never) {
        return None;
      }
      if ServesCached(Now(), p, mode) {
        if remembered {
          served := Some(cache[p.hash]);
          hist := hist + [ServedFromCache(p.id, mode)];
          return;
        }
        return None;
      }
      var rec := Record(env, RecordStateFor(p.kind, mode), None, false, p.from, None, None, false);
      var ok := Put(Inbox, p.id, rec, spooled);
      if ok {
        hist := hist + [Arrived(p.id, p.kind, mode)];
      }
      return None;
    }

    /** An envelope leaves `outbox/`: first the rename, then the new state. */
    method MoveOut(a: Id, state: State, w: MoveWrites) returns (ok: bool)
      requires a in outbox
      modifies this
      ensures Now() == MovedOut(old(Now()), a, state, w)
    {
      var question := outbox[a].question;
      ok := MoveTo(Outbox, a, Done, w.move);
      if !ok {
        return;
      }
      hist := hist + [Left(a, question)];
      ok := SetState(Done, a, state, w.mark);
    }

    method AckOutbox(caller: Peer, a: Id, w: MoveWrites) returns (ok: bool)
      modifies this
      ensures Now() == AckedOne(old(Now()), caller, a, w)
    {
      var rec := Get(Outbox, a);
      if rec.None? || !IsReply(rec.value.env.payload.kind) || rec.value.env.payload.to != caller {
        return false;
      }
      ok := MoveOut(a, Acked, w);
    }

    /** `expire_outbox`; `received`: when each entry was spooled, if its time stamp can be read. */
    method ExpireOutbox(received: Id -> Option<nat>, days: nat, now: nat, w: Id -> MoveWrites)
      modifies this
      ensures var h := old(Now()); Now() == ExpiredEach(h, OutboxIds(h), received, days, now, w)
    {
      var ids := List(Outbox, _ => true);
      ghost var target := ExpiredEach(Now(), ids, received, days, now, w);
      hide Listed, MovedOut, IsLate;
      for i := 0 to |ids|
        invariant ExpiredEach(Now(), ids[i..], received, days, now, w) == target
      {
        assert ids[i..][0] == ids[i] && ids[i..][1..] == ids[i + 1..];
        if IsLate(received(ids[i]), days, now) && ids[i] in outbox {
          var _ := MoveOut(ids[i], Expired, w(ids[i]));
        }
      }
    }

    /** An ask leaves `asks/`: first the rename, then the new state. */
    method CloseAsk(id: Id, state: State, w: MoveWrites) returns (ok: bool)
      modifies this
      ensures (Now(), ok) == AskClosed(old(Now()), id, state, w)
    {
      ghost var h := Now();
      ok := MoveTo(Asks, id, Done, w.move);
      if ok {
        ok := SetState(Done, id, state, w.mark);
        assert w.mark ==> done == h.done[id := h.asks[id].(state := state)];
      }
    }

    /** `ingest_envelope` up to the ack, which goes out exactly on `Ingested`. */
    method Ingest(open: map<Id, Record>, contact: Peer, env: Envelope, w: IngestWrites) returns (v: Verdict)
      modifies this
      ensures (Now(), v) == IngestedFrom(old(Now()), open, contact, env, w)
      ensures v == Ingested ==> env.payload.inReplyTo.Some?
    {
      v := VerdictOn(open, contact, env);
      if v != Ingested {
        return;
      }
      var ask := open[env.payload.inReplyTo.value];
      var rec := Record(env, Pending, None, false, contact, None, None, false);
      var ok := Put(Inbox, env.payload.id, rec, w.inbox);
      if !ok {
        return Failed;
      }
      if !ask.threaded && env.payload.kind == Answer && ask.env.payload.kind == Question {
        ok := Put(Cache, ask.env.payload.hash, rec, w.cache);
        if !ok {
          return Failed;
        }
      }
      ok := CloseAsk(env.payload.inReplyTo.value, Answered, w.move);
      if !ok {
        return Failed;
      }
    }

    /** The loop of `pull_once` over one peer's fetched envelopes: what is ingested is no longer
        listed, and what fails is tried again on the next pull. */
    method PullItems(open: map<Id, Record>, contact: Peer, items: seq<Envelope>, ws: seq<IngestWrites>)
      returns (left: map<Id, Record>)
      requires |ws| == |items|
      modifies this
      ensures (Now(), left) == PulledItems(old(Now()), open, contact, items, ws)
    {
      left := open;
      ghost var target := PulledItems(Now(), open, contact, items, ws);
      hide Now, IngestedFrom;
      for i := 0 to |items|
        invariant PulledItems(Now(), left, contact, items[i..], ws[i..]) == target
      {
        assert items[i..][0] == items[i] && items[i..][1..] == items[i + 1..];
        assert ws[i..][0] == ws[i] && ws[i..][1..] == ws[i + 1..];
        var v := Ingest(left, contact, items[i], ws[i]);
        if v == Ingested {
          left := left - {items[i].payload.inReplyTo.value};
        }
      }
    }

    /** The second loop of `pull_once`: the asks still open whose task was seen as rejected. */
    method CloseDeclined(open: map<Id, Record>, ids: seq<Id>, refused: set<Id>, w: Id -> MoveWrites)
      returns (left: map<Id, Record>)
      modifies this
      ensures (Now(), left) == DeclinedEach(old(Now()), open, ids, refused, w)
    {
      left := open;
      ghost var target := DeclinedEach(Now(), open, ids, refused, w);
      hide Now, AskClosed;
      for i := 0 to |ids|
        invariant DeclinedEach(Now(), left, ids[i..], refused, w) == target
      {
        assert ids[i..][0] == ids[i] && ids[i..][1..] == ids[i + 1..];
        if ids[i] in refused {
          var ok := CloseAsk(ids[i], Declined, w(ids[i]));
          if ok {
            left := left - {ids[i]};
          }
        }
      }
    }

    /** The turn of `pull_once` on a peer that was reached. */
    method PullPeer(open: map<Id, Record>, contact: Peer, items: seq<Envelope>, ws: seq<IngestWrites>,
                    refused: set<Id>, w: Id -> MoveWrites)
      returns (left: map<Id, Record>)
      requires |ws| == |items|
      modifies this
      ensures (Now(), left) == PulledPeer(old(Now()), open, contact, items, ws, refused, w)
    {
      hide Now, PulledItems, DeclinedEach;
      left := PullItems(open, contact, items, ws);
      var stillOpen := ListRecords(left, (r: Record) => r.peer == contact);
      left := CloseDeclined(left, stillOpen, refused, w);
    }

    // ---- src/auto.rs ----

    /** `fail_as_is` and, with `reset`, `fail`. */
    method Fail(id: Id, rec: Record, reset: bool, ok: bool)
      modifies this
      ensures Now() == Machine.Rewritten(old(Now()), id,
                         if reset then Machine.FailedRecord(rec) else rec.(autoError := true), ok)
    {
      var failed := rec.(autoError := true);
      if reset {
        failed := failed.(state := Pending, draft := None);
      }
      var _ := Put(Inbox, id, failed, ok);
    }

    /** `attempt`; `text`: what the runner gave, if it gave anything usable; `drafted` and
        `noted`: the writes of the drafted record and of a failure. */
    method Attempt(id: Id, mode: Option<Mode>, enabled: bool, text: Option<Text>, newId: Id, w: SendWrites,
                   drafted: bool, noted: bool)
      modifies this
      ensures Now() == Attempted(old(Now()), own, id, mode, enabled, text, newId, w, drafted, noted)
    {
      var found := Get(Inbox, id);
      if found.None? || !Machine.Candidate(found.value, mode, enabled) {
        return;
      }
      if text.None? {
        Fail(id, found.value, true, noted);
        return;
      }
      var rec := WithDraft(found.value, TextDraft(text.value));
      var ok := Put(Inbox, id, rec, drafted);
      if !ok {
        return;
      }
      hist := hist + [DraftStored(id)];
      ok := Send(id, rec, ByScheduler, newId, w);
      if ok {
        return;
      }
      var left := Get(Inbox, id);
      if left.None? {
        return;
      }
      var existing := FindExisting(id);
      Fail(id, left.value, existing.None?, noted);
    }
  }

  /** The legs of one attempt with nothing in between. */
  ghost function ThreeLegs(m: Machine.Machine, t: Machine.TaskId, mode: Option<Mode>, enabled: bool, text: Option<Text>,
                           newId: Id, w: SendWrites, drafted: bool, noted: bool): Machine.Machine
    requires t in m.running && m.running[t].phase.Claimed?
  {
    var m1 := Machine.AutoDrafted(m, t, mode, enabled, text, if text.None? then noted else drafted);
    var m2 := if t in m1.running then Machine.AutoSigned(m1, t, newId, w, noted) else m1;
    if t in m2.running then Machine.AutoClosed(m2, t, w, noted) else m2
  }

  /** Left to itself, an attempt of the scheduler is its three legs in the machine, one after the other. */
  lemma AttemptIsThreeLegs(m: Machine.Machine, t: Machine.TaskId, mode: Option<Mode>, enabled: bool, text: Option<Text>,
                           newId: Id, w: SendWrites, drafted: bool, noted: bool)
    requires t in m.running && m.running[t].phase.Claimed?
    ensures var home := Attempted(m.home, m.own, m.running[t].id, mode, enabled, text, newId, w, drafted, noted);
            ThreeLegs(m, t, mode, enabled, text, newId, w, drafted, noted) == Machine.Ended(m, t, home)
  {
    hide SignPart, ClosePart, Machine.AfterFailedSend;
  }

  /** The scheduler: the set of claimed records and the spawned attempts. */
  class Scheduler {
    var inFlight: set<Id>
    var running: map<Machine.TaskId, Machine.Task>

    constructor ()
      ensures inFlight == {} && running == map[]
    {
      inFlight, running := {}, map[];
    }

    /** The machine this scheduler runs in, given its spool. */
    ghost function State(own: Peer, home: Home): Machine.Machine
      reads this
    {
      Machine.Machine(own, home, running, inFlight)
    }

    /** `claim`: true when the record was free and is now claimed. */
    method Claim(id: Id) returns (claimed: bool)
      modifies `inFlight
      ensures claimed == (id !in old(inFlight)) && inFlight == old(inFlight) + {id}
    {
      claimed := id !in inFlight;
      inFlight := inFlight + {id};
    }

    /** `spawn`: an attempt begins unless the record is claimed already. */
    method Spawn(store: Store, t: Machine.TaskId, id: Id) returns (spawned: bool)
      requires t !in running
      modifies this
      ensures State(store.own, store.Now()) == Machine.Spawned(old(State(store.own, store.Now())), t, id)
      ensures spawned <==> t in running
    {
      spawned := Claim(id);
      if spawned {
        running := running[t := Machine.Task(id, Machine.Claimed)];
      } else {
        assert inFlight == old(inFlight);
      }
    }

    /** The end of the spawned task: the attempt is over and the record free again. */
    method End(store: Store, t: Machine.TaskId)
      requires t in running
      modifies this
      ensures State(store.own, store.Now()) == Machine.Ended(old(State(store.own, store.Now())), t, store.Now())
    {
      inFlight := inFlight - {running[t].id};
      running := running - {t};
    }

    /** A whole attempt as `spawn` runs it: claim, attempt, release. Nothing happens to a record that
        is claimed; otherwise the machine goes through the attempt's legs and is back without it. */
    method RunAttempt(store: Store, t: Machine.TaskId, id: Id, mode: Option<Mode>, enabled: bool, text: Option<Text>,
                      newId: Id, w: SendWrites, drafted: bool, noted: bool)
      requires t !in running
      modifies this, store
      ensures State(store.own, store.Now())
              == AttemptedBy(old(State(store.own, store.Now())), t, id, mode, enabled, text, newId, w, drafted, noted)
    {
      var spawned := Spawn(store, t, id);
      if !spawned {
        return;
      }
      ghost var m0 := State(store.own, store.Now());
      store.Attempt(id, mode, enabled, text, newId, w, drafted, noted);
      AttemptIsThreeLegs(m0, t, mode, enabled, text, newId, w, drafted, noted);
      End(store, t);
      hide Machine.AutoDrafted, Machine.AutoSigned, Machine.AutoClosed, Attempted;
    }
  }

  /** Spawned, then the three legs, as far as the attempt goes. */
  ghost function AttemptedBy(m: Machine.Machine, t: Machine.TaskId, id: Id, mode: Option<Mode>, enabled: bool,
                             text: Option<Text>, newId: Id, w: SendWrites, drafted: bool, noted: bool): Machine.Machine
    requires t !in m.running
  {
    var m0 := Machine.Spawned(m, t, id);
    if t !in m0.running then m0 else ThreeLegs(m0, t, mode, enabled, text, newId, w, drafted, noted)
  }
}
