/** What every step keeps about envelopes, the outgoing log and finished requests: the retryable
    `send` of src/answer.rs over whole runs. */
module Sending {
  import opened Prelude
  import opened Exchange
  import opened Machine

  // ---- the invariant ----

  /** Envelope `a` was signed and spooled in reply to request `q`. */
  ghost predicate SignedFor(hist: seq<Event>, a: Id, q: Id) {
    exists kind, via :: Signed(a, q, kind, via) in hist
  }

  ghost predicate InboxNamed(h: Home) {
    forall id :: id in h.inbox ==> h.inbox[id].env.payload.id == id
  }

  ghost predicate AsksAreOwn(h: Home, own: Peer) {
    forall id :: id in h.asks ==> h.asks[id].env.payload.from == own && h.asks[id].env.payload.id == id
  }

  ghost predicate WellSpooled(h: Home, own: Peer, a: Id, rec: Record) {
    && rec.state == Unacked && rec.env.signer == Some(own) && rec.env.payload.id == a
    && IsReply(rec.env.payload.kind) && rec.question.Some? && rec.env.payload.inReplyTo == rec.question
    && SignedFor(h.hist, a, rec.question.value)
  }

  ghost predicate OutboxShape(h: Home, own: Peer) {
    forall a :: a in h.outbox ==> WellSpooled(h, own, a, h.outbox[a])
  }

  ghost predicate OneEnvelopeEach(h: Home) {
    forall a, b :: a in h.outbox && b in h.outbox && h.outbox[a].question == h.outbox[b].question ==> a == b
  }

  predicate OneLineEach(log: seq<LogLine>) {
    forall i, j :: 0 <= i < j < |log| ==> log[i].question != log[j].question
  }

  /** A received request finished as answered has its log line, and its answer was spooled. */
  ghost predicate AnsweredProperly(h: Home, id: Id, rec: Record) {
    rec.answer.Some? && HasLine(h.log, id) && SignedFor(h.hist, rec.answer.value, id)
  }

  ghost predicate AnsweredShape(h: Home, own: Peer) {
    forall id :: id in h.done && h.done[id].state == Answered && h.done[id].env.payload.from != own
      ==> AnsweredProperly(h, id, h.done[id])
  }

  ghost predicate Orderly(h: Home, own: Peer) {
    && InboxNamed(h) && AsksAreOwn(h, own) && OutboxShape(h, own)
    && OneEnvelopeEach(h) && OneLineEach(h.log) && AnsweredShape(h, own)
  }

  /** Attempts hold the record of the request they are for and an answer signed for it. */
  ghost predicate TaskShape(m: Machine, t: TaskId) 
    requires t in m.running
  {
    match m.running[t].phase
    case Claimed => true
    case HasDraft(rec) => rec.env.payload.id == m.running[t].id
    case HasAnswer(rec, a) => rec.env.payload.id == m.running[t].id && SignedFor(m.home.hist, a, m.running[t].id)
  }

  ghost predicate Inv(m: Machine) {
    Orderly(m.home, m.own) && forall t :: t in m.running ==> TaskShape(m, t)
  }

  // ---- evidence is never taken back ----

  ghost predicate Extends(h: Home, h': Home) {
    && (forall a, q :: SignedFor(h.hist, a, q) ==> SignedFor(h'.hist, a, q))
    && (forall id :: HasLine(h.log, id) ==> HasLine(h'.log, id))
  }

  lemma GrowthExtends(h: Home, h': Home)
    requires h.hist <= h'.hist && h.log <= h'.log
    ensures Extends(h, h')
  {
    assert forall e :: e in h.hist ==> e in h'.hist;
    forall q | HasLine(h.log, q) ensures HasLine(h'.log, q) {
      var i :| 0 <= i < |h.log| && h.log[i].question == q;
      assert h'.log[i].question == q;
    }
  }

  /** Steps that leave everything but `inbox/` and the history alone. */
  lemma InboxStepOrderly(h: Home, h': Home, own: Peer)
    requires Orderly(h, own) && InboxNamed(h')
    requires h'.outbox == h.outbox && h'.asks == h.asks && h'.done == h.done && h'.log == h.log && h.hist <= h'.hist
    ensures Orderly(h', own) && Extends(h, h')
  {
    GrowthExtends(h, h');
    hide SignedFor, HasLine, OneLineEach;
  }

  // ---- `send` ----

  lemma NewEnvelopeOrderly(h: Home, h': Home, own: Peer, id: Id, newId: Id, out: Record)
    requires Orderly(h, own) && newId !in h.outbox
    requires h'.outbox == h.outbox[newId := out] && WellSpooled(h', own, newId, out) && out.question == Some(id)
    requires forall a :: a in h.outbox ==> h.outbox[a].question != Some(id)
    requires h'.inbox == h.inbox && h'.asks == h.asks && h'.done == h.done && h'.log == h.log && h.hist <= h'.hist
    ensures Orderly(h', own) && Extends(h, h')
  {
    GrowthExtends(h, h');
    hide SignedFor, HasLine, OneLineEach;
  }

  lemma NoneExists(outbox: map<Id, Record>, id: Id)
    requires ExistingAnswer(outbox, id).None?
    ensures forall a :: a in outbox ==> outbox[a].question != Some(id)
  {
    forall a | a in outbox ensures outbox[a].question != Some(id) {
      assert !Replies(outbox, id, a);
    }
  }

  lemma ExistingIsSigned(h: Home, own: Peer, id: Id)
    requires OutboxShape(h, own) && ExistingAnswer(h.outbox, id).Some?
    ensures SignedFor(h.hist, ExistingAnswer(h.outbox, id).value, id)
  {
    var a := ExistingAnswer(h.outbox, id).value;
    assert Replies(h.outbox, id, a);
    assert WellSpooled(h, own, a, h.outbox[a]);
  }

  lemma CachedOrderly(h: Home, own: Peer, id: Id, rec: Record, via: SendMode, newId: Id)
    requires Orderly(h, own) && rec.env.payload.id == id && NewToSpool(h, newId) && ExistingAnswer(h.outbox, id).None?
    requires Sendable(own, rec)
    ensures var spooled := Spooled(h, own, id, rec, via, newId);
            var cached := spooled.(cache := spooled.cache[rec.env.payload.hash := OutboxRecord(own, id, rec, newId)]);
            && Orderly(spooled, own) && Extends(h, spooled) && SignedFor(spooled.hist, newId, id)
            && Orderly(cached, own) && Extends(h, cached)
  {
    var spooled := Spooled(h, own, id, rec, via, newId);
    var cached := spooled.(cache := spooled.cache[rec.env.payload.hash := OutboxRecord(own, id, rec, newId)]);
    SpooledOrderly(h, own, id, rec, via, newId);
    assert InboxNamed(cached) by { assert Orderly(spooled, own); }
    hide Orderly, Extends, SignedFor, NewToSpool, ExistingAnswer, OutboxRecord;
    InboxStepOrderly(spooled, cached, own);
    ExtendsChain(h, spooled, cached);
  }

  lemma SignPartOrderly(h: Home, own: Peer, id: Id, rec: Record, via: SendMode, newId: Id, w: SendWrites)
    requires Orderly(h, own) && rec.env.payload.id == id && NewToSpool(h, newId)
    ensures var (h', answer) := SignPart(h, own, id, rec, via, newId, w);
            && Orderly(h', own) && Extends(h, h') && h'.inbox == h.inbox && h'.log == h.log
            && (answer.Some? ==> SignedFor(h'.hist, answer.value, id))
  {
    NothingExtends(h);
    assert OutboxShape(h, own);
    hide Orderly, Extends, SignedFor, ThreadKnown, NewToSpool, ExistingAnswer, OutboxRecord, OutboxShape;
    if ExistingAnswer(h.outbox, id).Some? {
      ExistingIsSigned(h, own, id);
    } else if Sendable(own, rec) {
      CachedOrderly(h, own, id, rec, via, newId);
    }
  }

  lemma SpooledOrderly(h: Home, own: Peer, id: Id, rec: Record, via: SendMode, newId: Id)
    requires Orderly(h, own) && rec.env.payload.id == id && NewToSpool(h, newId) && ExistingAnswer(h.outbox, id).None?
    requires Sendable(own, rec)
    ensures var h' := Spooled(h, own, id, rec, via, newId);
            Orderly(h', own) && Extends(h, h') && SignedFor(h'.hist, newId, id)
  {
    assert newId !in h.outbox;
    hide NewToSpool, Orderly, SignedFor;
    NoneExists(h.outbox, id);
    JustSigned(h.hist, newId, id, rec.env.payload.kind, via);
    NewEnvelopeOrderly(h, Spooled(h, own, id, rec, via, newId), own, id, newId, OutboxRecord(own, id, rec, newId));
  }

  lemma JustSigned(hist: seq<Event>, a: Id, q: Id, kind: Kind, via: SendMode)
    ensures SignedFor(hist + [Signed(a, q, kind, via)], a, q)
  {
    var all := hist + [Signed(a, q, kind, via)];
    assert all[|hist|] == Signed(a, q, kind, via);
    assert Signed(a, q, kind, via) in all;
  }

  lemma CopyOrderly(h: Home, h': Home, own: Peer, id: Id, rec: Record)
    requires Orderly(h, own) && h' == h.(done := h.done[id := rec])
    requires rec.state == Answered && rec.env.payload.from != own ==> AnsweredProperly(h, id, rec)
    ensures Orderly(h', own) && Extends(h, h')
  {
    GrowthExtends(h, h');
    hide SignedFor, HasLine, OneLineEach, WellSpooled;
  }

  lemma UnlinkOrderly(h: Home, own: Peer, id: Id)
    requires Orderly(h, own)
    ensures Orderly(h.(inbox := h.inbox - {id}), own) && Extends(h, h.(inbox := h.inbox - {id}))
  {
    hide SignedFor, HasLine, OneLineEach, WellSpooled;
    InboxStepOrderly(h, h.(inbox := h.inbox - {id}), own);
  }

  lemma FinishedOrderly(h: Home, own: Peer, id: Id, rec: Record, state: State, answer: Option<Id>, w: FinishWrites)
    requires Orderly(h, own) && rec.env.payload.id == id
    requires state == Answered ==> answer.Some? && HasLine(h.log, id) && SignedFor(h.hist, answer.value, id)
    ensures var h' := Finished(h, id, rec, state, answer, w).0;
            Orderly(h', own) && Extends(h, h') && h'.outbox == h.outbox && h'.hist == h.hist
  {
    var rec' := rec.(state := state, answer := answer);
    var copied := h.(done := h.done[id := rec']);
    hide Orderly, SignedFor, HasLine, Extends;
    CopyOrderly(h, copied, own, id, rec');
    UnlinkOrderly(copied, own, id);
    NothingExtends(h);
    ExtendsChain(h, copied, copied.(inbox := copied.inbox - {id}));
  }

  lemma NothingExtends(h: Home)
    ensures Extends(h, h)
  {
  }

  lemma LoggedOrderly(h: Home, h': Home, own: Peer, id: Id, line: LogLine)
    requires Orderly(h, own) && !HasLine(h.log, id) && line.question == id
    requires h'.log == h.log + [line] && h.hist <= h'.hist
    requires h'.inbox == h.inbox && h'.outbox == h.outbox && h'.asks == h.asks && h'.done == h.done
    ensures Orderly(h', own) && Extends(h, h') && HasLine(h'.log, id)
  {
    GrowthExtends(h, h');
    assert h'.log[|h.log|].question == id;
    assert OneLineEach(h'.log);
    hide SignedFor, HasLine, OneLineEach;
  }

  lemma ClosePartOrderly(h: Home, own: Peer, id: Id, rec: Record, via: SendMode, answer: Id, w: SendWrites)
    requires Orderly(h, own) && rec.env.payload.id == id && SignedFor(h.hist, answer, id)
    ensures var h' := ClosePart(h, id, rec, via, answer, w).0;
            Orderly(h', own) && Extends(h, h') && h'.outbox == h.outbox
  {
    if HasLine(h.log, id) {
      hide Orderly, SignedFor;
      FinishedOrderly(h, own, id, rec, Answered, Some(answer), w.finish);
    } else if w.log {
      var line := LogLine(rec.env.payload.from, id, via);
      var logged := h.(log := h.log + [line], hist := h.hist + [Logged(id, rec.env.payload.kind, via)]);
      hide SignedFor;
      LoggedOrderly(h, logged, own, id, line);
      hide Orderly;
      FinishedOrderly(logged, own, id, rec, Answered, Some(answer), w.finish);
    } else {
      GrowthExtends(h, h);
    }
  }

  lemma SentOrderly(h: Home, own: Peer, id: Id, newId: Id, w: SendWrites)
    requires Orderly(h, own) && NewToSpool(h, newId)
    ensures Orderly(SentOne(h, own, id, newId, w), own) && Extends(h, SentOne(h, own, id, newId, w))
  {
    GrowthExtends(h, h);
    if id in h.inbox {
      assert h.inbox[id].env.payload.id == id;
      hide Orderly, NewToSpool, SignedFor;
      SignPartOrderly(h, own, id, h.inbox[id], ByHuman, newId, w);
      var (signed, answer) := SignPart(h, own, id, h.inbox[id], ByHuman, newId, w);
      if answer.Some? {
        ClosePartOrderly(signed, own, id, h.inbox[id], ByHuman, answer.value, w);
      }
    }
  }

  // ---- the other commands ----

  lemma MovedOutOrderly(h: Home, own: Peer, a: Id, state: State, w: MoveWrites)
    requires Orderly(h, own) && a in h.outbox && state != Answered
    ensures Orderly(MovedOut(h, a, state, w), own) && Extends(h, MovedOut(h, a, state, w))
  {
    assert WellSpooled(h, own, a, h.outbox[a]);
    GrowthExtends(h, MovedOut(h, a, state, w));
    hide SignedFor, HasLine, OneLineEach;
  }

  lemma AskClosedOrderly(h: Home, own: Peer, id: Id, state: State, w: MoveWrites)
    requires Orderly(h, own)
    ensures Orderly(AskClosed(h, id, state, w).0, own) && Extends(h, AskClosed(h, id, state, w).0)
  {
    GrowthExtends(h, AskClosed(h, id, state, w).0);
    hide SignedFor, HasLine, OneLineEach;
  }

  lemma AskedOrderly(h: Home, own: Peer, p: Payload, threaded: bool, ok: bool)
    requires Orderly(h, own)
    ensures Orderly(Asked(h, own, p, threaded, ok), own) && Extends(h, Asked(h, own, p, threaded, ok))
  {
    GrowthExtends(h, Asked(h, own, p, threaded, ok));
    hide SignedFor, HasLine, OneLineEach;
  }

  lemma IngestedOrderly(h: Home, own: Peer, open: map<Id, Record>, contact: Peer, env: Envelope, w: IngestWrites)
    requires Orderly(h, own)
    ensures var h' := IngestedFrom(h, open, contact, env, w).0; Orderly(h', own) && Extends(h, h')
  {
    GrowthExtends(h, h);
    if VerdictOn(open, contact, env) == Ingested && w.inbox {
      var q := env.payload.inReplyTo.value;
      var rec := Record(env, Pending, None, false, contact, None, None, false);
      var stored := h.(inbox := h.inbox[env.payload.id := rec]);
      var kept := stored.(cache := stored.cache[open[q].env.payload.hash := rec]);
      InboxStepOrderly(h, stored, own);
      InboxStepOrderly(h, kept, own);
      hide Orderly, Extends;
      AskClosedOrderly(stored, own, q, Answered, w.move);
      AskClosedOrderly(kept, own, q, Answered, w.move);
      ExtendsChain(h, stored, AskClosed(stored, q, Answered, w.move).0);
      ExtendsChain(h, kept, AskClosed(kept, q, Answered, w.move).0);
    }
  }

  lemma ExtendsChain(a: Home, b: Home, c: Home)
    requires Extends(a, b) && Extends(b, c)
    ensures Extends(a, c)
  {
  }

  lemma VerdictOrderly(h: Home, own: Peer, s: Step)
    requires Orderly(h, own) && (s.Deny? || s.Reject?)
    ensures Orderly(Local(h, own, s), own) && Extends(h, Local(h, own, s))
  {
    GrowthExtends(h, h);
    var id := s.id;
    if id in h.inbox {
      assert h.inbox[id].env.payload.id == id;
      var w := s.finish;
      hide Orderly, Extends;
      FinishedOrderly(h, own, id, h.inbox[id], State.Denied, h.inbox[id].answer, w);
      FinishedOrderly(h, own, id, h.inbox[id], State.Rejected, h.inbox[id].answer, w);
    }
  }

  ghost predicate OnlyInbox(h: Home, h': Home) {
    h'.outbox == h.outbox && h'.asks == h.asks && h'.done == h.done && h'.log == h.log && h.hist <= h'.hist
  }

  lemma PostOnlyInbox(h: Home, own: Peer, s: Step)
    requires InboxNamed(h) && s.Post?
    ensures InboxNamed(Local(h, own, s)) && OnlyInbox(h, Local(h, own, s))
  {
    hide ThreadKnown, MayReadCache;
  }

  lemma CommandOnlyInbox(h: Home, own: Peer, s: Step)
    requires InboxNamed(h) && (s.Allow? || s.Draft? || s.Edit? || IsAuto(s))
    ensures InboxNamed(Local(h, own, s)) && OnlyInbox(h, Local(h, own, s))
  {
    hide ExistingAnswer;
  }

  lemma InboxCommandOrderly(h: Home, own: Peer, s: Step)
    requires Orderly(h, own) && (s.Post? || s.Allow? || s.Draft? || s.Edit? || IsAuto(s))
    ensures Orderly(Local(h, own, s), own) && Extends(h, Local(h, own, s))
  {
    assert InboxNamed(h);
    hide Orderly, InboxNamed, Local, Extends;
    if s.Post? {
      PostOnlyInbox(h, own, s);
    } else {
      CommandOnlyInbox(h, own, s);
    }
    InboxStepOrderly(h, Local(h, own, s), own);
  }

  lemma DepartingOrderly(h: Home, own: Peer, s: Step)
    requires Orderly(h, own) && (s.Ack? || s.Expire?)
    ensures Orderly(Local(h, own, s), own) && Extends(h, Local(h, own, s))
  {
    NothingExtends(h);
    hide Orderly, Extends, MovedOut;
    if s.answer in h.outbox {
      MovedOutOrderly(h, own, s.answer, Acked, s.move);
      MovedOutOrderly(h, own, s.answer, State.Expired, s.move);
    }
  }

  lemma LeavingOrderly(h: Home, own: Peer, s: Step)
    requires Orderly(h, own) && (s.Ack? || s.Expire? || s.Ask? || s.Decline?)
    ensures Orderly(Local(h, own, s), own) && Extends(h, Local(h, own, s))
  {
    hide Orderly, Extends, MovedOut, AskClosed, Asked;
    if s.Ask? {
      AskedOrderly(h, own, s.payload, s.threaded, s.ok);
    } else if s.Decline? {
      AskClosedOrderly(h, own, s.id, State.Declined, s.move);
    } else {
      DepartingOrderly(h, own, s);
    }
  }

  lemma LocalOrderly(h: Home, own: Peer, s: Step)
    requires Orderly(h, own) && (s.Send? ==> NewToSpool(h, s.newId))
    ensures Orderly(Local(h, own, s), own) && Extends(h, Local(h, own, s))
  {
    hide Orderly, Extends;
    if s.Send? {
      SentOrderly(h, own, s.id, s.newId, s.send);
    } else if s.Deny? || s.Reject? {
      VerdictOrderly(h, own, s);
    } else if s.Ingest? {
      IngestedOrderly(h, own, s.open, s.contact, s.env, s.ingest);
    } else if s.Ack? || s.Expire? || s.Ask? || s.Decline? {
      LeavingOrderly(h, own, s);
    } else {
      InboxCommandOrderly(h, own, s);
    }
  }

  // ---- the attempts ----

  lemma FailedOnlyInbox(h: Home, id: Id, ok: bool)
    requires InboxNamed(h)
    ensures InboxNamed(AfterFailedSend(h, id, ok)) && OnlyInbox(h, AfterFailedSend(h, id, ok))
  {
    hide ExistingAnswer;
  }

  lemma AfterFailedSendOrderly(h: Home, own: Peer, id: Id, ok: bool)
    requires Orderly(h, own)
    ensures Orderly(AfterFailedSend(h, id, ok), own) && Extends(h, AfterFailedSend(h, id, ok))
  {
    assert InboxNamed(h);
    hide Orderly, Extends, AfterFailedSend, InboxNamed;
    FailedOnlyInbox(h, id, ok);
    InboxStepOrderly(h, AfterFailedSend(h, id, ok), own);
  }

  /** Evidence kept, the attempts' own facts carry over. */
  lemma TasksCarryOver(m: Machine, m': Machine)
    requires Inv(m) && Orderly(m'.home, m'.own) && Extends(m.home, m'.home)
    requires forall t :: t in m'.running ==> (t in m.running && m'.running[t] == m.running[t]) || TaskShape(m', t)
    ensures Inv(m')
  {
    hide SignedFor, HasLine, Orderly;
    forall t | t in m'.running ensures TaskShape(m', t) {
      if t in m.running && m'.running[t] == m.running[t] {
        assert TaskShape(m, t);
      }
    }
  }

  lemma AutoSignedOrderly(m: Machine, t: TaskId, newId: Id, w: SendWrites, ok: bool)
    requires Inv(m) && t in m.running && m.running[t].phase.HasDraft? && NewToSpool(m.home, newId)
    ensures Inv(AutoSigned(m, t, newId, w, ok))
  {
    var m' := AutoSigned(m, t, newId, w, ok);
    assert TaskShape(m, t);
    hide SignedFor, HasLine, Orderly, Extends, SignPart, AfterFailedSend, NewToSpool;
    var id, rec := m.running[t].id, m.running[t].phase.rec;
    SignPartOrderly(m.home, m.own, id, rec, ByScheduler, newId, w);
    var (h, answer) := SignPart(m.home, m.own, id, rec, ByScheduler, newId, w);
    AfterFailedSendOrderly(h, m.own, id, ok);
    ExtendsChain(m.home, h, AfterFailedSend(h, id, ok));
    TasksCarryOver(m, m');
  }

  lemma AutoClosedOrderly(m: Machine, t: TaskId, w: SendWrites, ok: bool)
    requires Inv(m) && t in m.running && m.running[t].phase.HasAnswer?
    ensures Inv(AutoClosed(m, t, w, ok))
  {
    var m' := AutoClosed(m, t, w, ok);
    assert TaskShape(m, t);
    hide SignedFor, HasLine, Orderly, Extends, ClosePart, AfterFailedSend;
    var id, rec := m.running[t].id, m.running[t].phase.rec;
    ClosePartOrderly(m.home, m.own, id, rec, ByScheduler, m.running[t].phase.answer, w);
    var (h, done) := ClosePart(m.home, id, rec, ByScheduler, m.running[t].phase.answer, w);
    AfterFailedSendOrderly(h, m.own, id, ok);
    ExtendsChain(m.home, h, AfterFailedSend(h, id, ok));
    TasksCarryOver(m, m');
  }

  lemma AutoDraftedOrderly(m: Machine, t: TaskId, mode: Option<Mode>, enabled: bool, text: Option<Text>, ok: bool)
    requires Inv(m) && t in m.running
    ensures Inv(AutoDrafted(m, t, mode, enabled, text, ok))
  {
    var m' := AutoDrafted(m, t, mode, enabled, text, ok);
    InboxStepOrderly(m.home, m'.home, m.own);
    assert t in m'.running ==> TaskShape(m', t);
    hide SignedFor, HasLine, Orderly, Extends;
    TasksCarryOver(m, m');
  }

  lemma AutoOrderly(m: Machine, s: Step)
    requires Inv(m) && Enabled(m, s) && IsAuto(s)
    ensures Inv(Next(m, s))
  {
    hide Inv, AutoSigned, AutoClosed, AutoDrafted;
    match s {
      case Spawn(t, id) => SpawnedOrderly(m, t, id);
      case AutoDraft(t, mode, enabled, text, ok) => AutoDraftedOrderly(m, t, mode, enabled, text, ok);
      case AutoSign(t, newId, w, ok) => AutoSignedOrderly(m, t, newId, w, ok);
      case AutoClose(t, w, ok) => AutoClosedOrderly(m, t, w, ok);
    }
  }

  lemma SpawnedOrderly(m: Machine, t: TaskId, id: Id)
    requires Inv(m)
    ensures Inv(Spawned(m, t, id))
  {
    GrowthExtends(m.home, m.home);
    TasksCarryOver(m, Spawned(m, t, id));
  }

  lemma StepKeepsInv(m: Machine, s: Step)
    requires Inv(m) && Enabled(m, s)
    ensures Inv(Next(m, s))
  {
    if IsAuto(s) {
      AutoOrderly(m, s);
    } else {
      LocalOrderly(m.home, m.own, s);
      hide SignedFor, HasLine, Orderly, Local;
      TasksCarryOver(m, Next(m, s));
    }
  }

  /** In every run, with writes failing anywhere, at every moment: one envelope per request in
      `outbox/`, one line per request in the log, and a received request is only finished as
      answered with its line logged and its answer spooled. */
  lemma {:induction false} EveryRunIsOrderly(ms: seq<Machine>, steps: seq<Step>, i: nat)
    requires Run(ms, steps) && i <= |steps|
    ensures Inv(ms[i]) && ms[i].own == ms[0].own
    decreases i
  {
    if i > 0 {
      EveryRunIsOrderly(ms, steps, i - 1);
      StepKeepsInv(ms[i - 1], steps[i - 1]);
    }
  }
}
