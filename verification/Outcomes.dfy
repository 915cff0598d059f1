/** What each command and request leaves in the directories, for every input and every failing write,
    said of the records themselves: the meaning of the steps of `Exchange` and `Machine`, written down
    a second time and without them. */
module Outcomes {
  import opened Prelude
  import opened Exchange
  import opened Machine
  import opened TaskProgress

  const REQUESTS := {Question, Content, ToolCall}
  const REPLIES := {Answer, ContentReply, ToolReply}

  /** Another record of the thread is in `inbox/` or `done/`. */
  ghost predicate ThreadGoesOn(h: Home, p: Payload, id: Id) {
    p.thread.Some? && exists x: Id :: x != id && ((x in h.inbox && h.inbox[x].env.payload.thread == p.thread)
                                              || (x in h.done && h.done[x].env.payload.thread == p.thread))
  }

  lemma ThreadIsKnown(h: Home, p: Payload, id: Id)
    ensures ThreadKnown(h, p, id) <==> ThreadGoesOn(h, p, id)
  {
  }

  /** An envelope for the request waits in `outbox/`. */
  ghost predicate HasEnvelope(h: Home, id: Id) {
    exists a: Id :: a in h.outbox && h.outbox[a].question == Some(id)
  }

  lemma EnvelopeExists(h: Home, id: Id)
    ensures ExistingAnswer(h.outbox, id).Some? <==> HasEnvelope(h, id)
  {
    var found := ExistingAnswer(h.outbox, id);
    if found.Some? {
      assert Replies(h.outbox, id, found.value);
    } else if HasEnvelope(h, id) {
      var a: Id :| a in h.outbox && h.outbox[a].question == Some(id);
      assert Replies(h.outbox, id, a);
    }
  }

  // ---- arrival ----

  /** Answered from the cache: a question of a peer under manual or auto, without a snippet, opening
      its thread, whose text was answered before. */
  ghost predicate FromCache(h: Home, p: Payload, mode: Option<Mode>) {
    && p.kind == Question && mode in {Some(Manual), Some(Auto)}
    && !p.snippet && !ThreadGoesOn(h, p, p.id) && p.hash in h.cache
  }

  /** An enabled request to us under no `never` policy is answered from the cache, or is put into
      `inbox/` as it came: pending if it is a question of a peer with a policy, else held. */
  ghost predicate PostedAs(h: Home, h': Home, own: Peer, env: Envelope, mode: Option<Mode>, enabled: bool, spooled: bool,
                           remembered: bool) {
    var p := env.payload;
    if p.kind !in REQUESTS || p.to != own || !enabled || mode == Some(Never) then h' == h
    else if FromCache(h, p, mode) then
      h' == h.(hist := if remembered then h.hist + [ServedFromCache(p.id, mode)] else h.hist)
    else if !spooled then h' == h
    else
      var state := if p.kind == Question && mode.Some? then Pending else Consent;
      h' == h.(inbox := h.inbox[p.id := Record(env, state, None, false, p.from, None, None, false)],
               hist := h.hist + [Arrived(p.id, p.kind, mode)])
  }

  lemma PostOutcome(h: Home, own: Peer, env: Envelope, mode: Option<Mode>, enabled: bool, spooled: bool, remembered: bool)
    ensures PostedAs(h, Posted(h, own, env, mode, enabled, spooled, remembered), own, env, mode, enabled, spooled, remembered)
  {
    ThreadIsKnown(h, env.payload, env.payload.id);
    hide ThreadKnown, ThreadGoesOn;
    assert mode.Some? ==> mode.value == Manual || mode.value == Auto || mode.value == Never;
  }

  // ---- the owner's verdicts ----

  /** Held for the owner's consent, from this peer. */
  predicate IsHeld(h: Home, id: Id, peer: Peer) {
    id in h.inbox && h.inbox[id].state == Consent && h.inbox[id].env.payload.from == peer
  }

  predicate AllowedAs(h: Home, h': Home, id: Id, peer: Peer, ok: bool) {
    if ok && IsHeld(h, id, peer) then
      h' == h.(inbox := h.inbox[id := h.inbox[id].(state := Pending)], hist := h.hist + [Allowed(id)])
    else h' == h
  }

  lemma AllowOutcome(h: Home, id: Id, peer: Peer, ok: bool)
    ensures AllowedAs(h, AllowedOne(h, id, peer, ok), id, peer, ok)
  {
  }

  /** A record finished with this state, as far as the writes go: the copy in `done/` first. */
  predicate FinishedAs(h: Home, h': Home, id: Id, state: State, w: FinishWrites)
    requires id in h.inbox
  {
    h' == if !w.done then h
          else h.(done := h.done[id := h.inbox[id].(state := state)], inbox := if w.unlink then h.inbox - {id} else h.inbox)
  }

  lemma DenyOutcome(h: Home, id: Id, peer: Peer, w: FinishWrites)
    ensures var h' := DeniedOne(h, id, peer, w);
            if IsHeld(h, id, peer) then FinishedAs(h, h', id, Denied, w) else h' == h
  {
  }

  /** `owl reject` finishes any record of `inbox/`, whatever its state and its kind. */
  lemma RejectOutcome(h: Home, id: Id, w: FinishWrites)
    ensures var h' := RejectedOne(h, id, w); if id in h.inbox then FinishedAs(h, h', id, Rejected, w) else h' == h
  {
  }

  // ---- drafting ----

  /** Open to drafting, with a draft of the shape its kind asks for. */
  ghost predicate TakesDraft(h: Home, id: Id, d: Exchange.Draft) {
    && id in h.inbox && h.inbox[id].state in {Pending, Drafted} && !HasEnvelope(h, id)
    && match h.inbox[id].env.payload.kind
       case Question => d.TextDraft?
       case Content => d.ContentDraft?
       case ToolCall => d.ToolDraft?
       case _ => false
  }

  ghost predicate DraftedAs(h: Home, h': Home, id: Id, d: Exchange.Draft, ok: bool) {
    if ok && TakesDraft(h, id, d) then
      var rec := h.inbox[id];
      h' == h.(inbox := h.inbox[id := rec.(state := Drafted, draft := Some(d),
                                           autoError := rec.autoError && rec.env.payload.kind != Question)],
               hist := h.hist + [DraftStored(id)])
    else h' == h
  }

  lemma DraftOutcome(h: Home, id: Id, d: Exchange.Draft, ok: bool)
    ensures DraftedAs(h, DraftedOne(h, id, d, ok), id, d, ok)
  {
    EnvelopeExists(h, id);
    hide ExistingAnswer, HasEnvelope;
  }

  ghost predicate EditedAs(h: Home, h': Home, id: Id, text: Option<Text>, ok: bool) {
    if && ok && text.Some? && id in h.inbox && h.inbox[id].draft.Some? && !HasEnvelope(h, id)
       && h.inbox[id].env.payload.kind !in {Content, ToolCall}
    then h' == h.(inbox := h.inbox[id := h.inbox[id].(draft := Some(TextDraft(text.value)))])
    else h' == h
  }

  lemma EditOutcome(h: Home, id: Id, text: Option<Text>, ok: bool)
    ensures EditedAs(h, EditedOne(h, id, text, ok), id, text, ok)
  {
    EnvelopeExists(h, id);
    hide ExistingAnswer, HasEnvelope;
  }

  // ---- sending ----

  /** The envelope says to the asker what was drafted, under our signature, as the reply to its request. */
  predicate Says(e: Envelope, own: Peer, rec: Record, a: Id) {
    var q, p := rec.env.payload, e.payload;
    && rec.draft.Some? && p.text == rec.draft.value.text
    && p.id == a && p.to == q.from && p.from == q.to && p.thread == q.thread && p.inReplyTo == Some(q.id)
    && (p.kind == ContentReply <==> q.kind == Content) && (p.kind == ToolReply <==> q.kind == ToolCall)
    && p.kind in REPLIES && !p.snippet && e.signer == Some(own)
  }

  predicate Carries(out: Record, own: Peer, id: Id, rec: Record, a: Id) {
    && Says(out.env, own, rec, a)
    && out.state == Unacked && out.question == Some(id) && out.peer == rec.env.payload.from
    && out.draft.None? && !out.autoError && out.answer.None? && !out.threaded
  }

  /** A drafted request to us, its draft of the shape its kind asks for. */
  predicate Ready(own: Peer, rec: Record) {
    rec.env.payload.kind in REQUESTS && rec.state == Drafted && rec.draft.Some? && rec.env.payload.to == own
  }

  predicate Shaped(rec: Record)
    requires rec.draft.Some?
  {
    && (rec.env.payload.kind == Content ==> rec.draft.value.ContentDraft?)
    && (rec.env.payload.kind == ToolCall ==> rec.draft.value.ToolDraft?)
  }

  lemma NewEnvelopeCarries(own: Peer, id: Id, rec: Record, newId: Id)
    requires Ready(own, rec)
    ensures Carries(OutboxRecord(own, id, rec, newId), own, id, rec, newId)
  {
  }

  lemma ReadyIsSendable(own: Peer, rec: Record)
    ensures Sendable(own, rec) <==> Ready(own, rec)
    ensures Ready(own, rec) ==>
              (Shaped(rec) <==> rec.env.payload.kind == Question || DraftFits(rec.env.payload.kind, rec.draft.value))
  {
  }

  lemma CacheableMeans(h: Home, id: Id, q: Payload)
    ensures Cacheable(h, id, q) <==> q.kind == Question && !q.snippet && !ThreadGoesOn(h, q, id)
  {
    ThreadIsKnown(h, q, id);
    hide ThreadKnown, ThreadGoesOn;
  }

  /** The first part of `send`: a new envelope exactly for a ready, shaped record without one; it
      carries the draft. It is cached exactly for a question without a snippet that opened its thread. */
  lemma SignOutcome(h: Home, own: Peer, id: Id, rec: Record, via: SendMode, newId: Id, w: SendWrites)
    ensures var (h', answer) := SignPart(h, own, id, rec, via, newId, w);
            var q := rec.env.payload;
            if !Ready(own, rec) then h' == h && answer == None
            else if HasEnvelope(h, id) then h' == h && answer == ExistingAnswer(h.outbox, id)
            else if !Shaped(rec) || !w.outbox then h' == h && answer == None
            else
              var cacheable := q.kind == Question && !q.snippet && !ThreadGoesOn(h, q, id);
              && newId in h'.outbox && Carries(h'.outbox[newId], own, id, rec, newId)
              && h'.outbox == h.outbox[newId := h'.outbox[newId]]
              && h'.cache == (if cacheable && w.cache then h.cache[q.hash := h'.outbox[newId]] else h.cache)
              && h' == h.(outbox := h'.outbox, cache := h'.cache, hist := h.hist + [Signed(newId, id, q.kind, via)])
              && answer == (if cacheable && !w.cache then None else Some(newId))
  {
    EnvelopeExists(h, id);
    ReadyIsSendable(own, rec);
    CacheableMeans(h, id, rec.env.payload);
    assert Ready(own, rec) ==> rec.draft.Some?;
    hide ExistingAnswer, HasEnvelope, Cacheable, ThreadGoesOn, Ready, Shaped, Sendable, DraftFits, Carries, OutboxRecord;
    if Ready(own, rec) {
      NewEnvelopeCarries(own, id, rec, newId);
    }
  }

  /** The second part: one log line for the asker unless the log has one for the request, then the
      record finished as answered, naming its answer. */
  lemma CloseOutcome(h: Home, id: Id, rec: Record, via: SendMode, answer: Id, w: SendWrites)
    ensures var (h', ok) := ClosePart(h, id, rec, via, answer, w);
            var logged := exists i :: 0 <= i < |h.log| && h.log[i].question == id;
            if !logged && !w.log then h' == h && !ok
            else
              var finished := rec.(state := Answered, answer := Some(answer));
              && h'.log == (if logged then h.log else h.log + [LogLine(rec.env.payload.from, id, via)])
              && h'.hist == (if logged then h.hist else h.hist + [Logged(id, rec.env.payload.kind, via)])
              && h'.done == (if w.finish.done then h.done[id := finished] else h.done)
              && h'.inbox == (if w.finish.done && w.finish.unlink then h.inbox - {id} else h.inbox)
              && h' == h.(log := h'.log, hist := h'.hist, done := h'.done, inbox := h'.inbox)
              && ok == (w.finish.done && w.finish.unlink)
  {
  }

  /** A whole send with every write succeeding, on a ready record without an envelope and a log line. */
  lemma SendOutcome(h: Home, own: Peer, id: Id, newId: Id)
    requires id in h.inbox && Ready(own, h.inbox[id]) && Shaped(h.inbox[id]) && !HasEnvelope(h, id)
    requires forall i :: 0 <= i < |h.log| ==> h.log[i].question != id
    ensures var h' := SentOne(h, own, id, newId, SendWrites(true, true, true, FinishWrites(true, true)));
            var rec := h.inbox[id];
            && newId in h'.outbox && Carries(h'.outbox[newId], own, id, rec, newId) && h'.outbox.Keys == h.outbox.Keys + {newId}
            && h'.log == h.log + [LogLine(rec.env.payload.from, id, ByHuman)]
            && h'.inbox == h.inbox - {id} && h'.done == h.done[id := rec.(state := Answered, answer := Some(newId))]
            && h'.asks == h.asks
  {
    var w := SendWrites(true, true, true, FinishWrites(true, true));
    SignOutcome(h, own, id, h.inbox[id], ByHuman, newId, w);
    CloseOutcome(SignPart(h, own, id, h.inbox[id], ByHuman, newId, w).0, id, h.inbox[id], ByHuman, newId, w);
    hide SignPart, ClosePart, Carries, Ready, Shaped, HasEnvelope, ThreadGoesOn;
  }

  // ---- envelopes leave ----

  predicate MovedAs(h: Home, h': Home, a: Id, state: State, w: MoveWrites)
    requires a in h.outbox
  {
    h' == if !w.move then h
          else h.(outbox := h.outbox - {a}, hist := h.hist + [Left(a, h.outbox[a].question)],
                  done := h.done[a := if w.mark then h.outbox[a].(state := state) else h.outbox[a]])
  }

  /** Only the one it is addressed to acks a reply. */
  predicate AckedAs(h: Home, h': Home, caller: Peer, a: Id, w: MoveWrites) {
    if a in h.outbox && h.outbox[a].env.payload.kind in REPLIES && h.outbox[a].env.payload.to == caller then
      MovedAs(h, h', a, Acked, w)
    else h' == h
  }

  lemma AckOutcome(h: Home, caller: Peer, a: Id, w: MoveWrites)
    ensures AckedAs(h, AckedOne(h, caller, a, w), caller, a, w)
  {
  }

  lemma ExpireOutcome(h: Home, a: Id, w: MoveWrites)
    ensures var h' := ExpiredOne(h, a, w); if a in h.outbox then MovedAs(h, h', a, State.Expired, w) else h' == h
  {
  }

  // ---- the asker ----

  predicate AskedAs(h: Home, h': Home, own: Peer, p: Payload, threaded: bool, ok: bool) {
    if ok && p.kind in REQUESTS && p.from == own then
      h' == h.(asks := h.asks[p.id := Record(Envelope(p, Some(own)), Waiting, None, false, p.to, None, None, threaded)])
    else h' == h
  }

  lemma AskOutcome(h: Home, own: Peer, p: Payload, threaded: bool, ok: bool)
    ensures AskedAs(h, Asked(h, own, p, threaded, ok), own, p, threaded, ok)
  {
  }

  /** The reply goes into `inbox/` under its own id, into the cache under the hash of the question it
      answers if that question was not threaded, and the ask to `done/`. */
  predicate IngestedAs(h: Home, h': Home, open: map<Id, Record>, contact: Peer, env: Envelope, w: IngestWrites, v: Verdict) {
    var p := env.payload;
    if env.signer != Some(contact) || p.kind !in REPLIES then h' == h && v == Forged
    else if p.inReplyTo.None? || p.inReplyTo.value !in open || open[p.inReplyTo.value].peer != contact then
      h' == h && v == Unrelated
    else if !w.inbox then h' == h && v == Failed
    else
      var q, ask := p.inReplyTo.value, open[p.inReplyTo.value];
      var rec := Record(env, Pending, None, false, contact, None, None, false);
      var cached := p.kind == Answer && ask.env.payload.kind == Question && !ask.threaded;
      var moved := (!cached || w.cache) && q in h.asks && w.move.move;
      && h'.inbox == h.inbox[p.id := rec]
      && h'.cache == (if cached && w.cache then h.cache[ask.env.payload.hash := rec] else h.cache)
      && h'.asks == (if moved then h.asks - {q} else h.asks)
      && h'.done == (if !moved then h.done
                     else h.done[q := if w.move.mark then h.asks[q].(state := Answered) else h.asks[q]])
      && h' == h.(inbox := h'.inbox, cache := h'.cache, asks := h'.asks, done := h'.done)
      && v == (if moved && w.move.mark then Ingested else Failed)
  }

  lemma VerdictMeans(open: map<Id, Record>, contact: Peer, env: Envelope)
    ensures var p := env.payload;
            VerdictOn(open, contact, env) ==
              if env.signer != Some(contact) || p.kind !in REPLIES then Forged
              else if p.inReplyTo.None? || p.inReplyTo.value !in open || open[p.inReplyTo.value].peer != contact then Unrelated
              else Ingested
  {
  }

  lemma IngestOutcome(h: Home, open: map<Id, Record>, contact: Peer, env: Envelope, w: IngestWrites)
    ensures var (h', v) := IngestedFrom(h, open, contact, env, w); IngestedAs(h, h', open, contact, env, w, v)
  {
    VerdictMeans(open, contact, env);
    hide VerdictOn;
    assert VerdictOn(open, contact, env) == Ingested ==> env.payload.inReplyTo.Some? && env.payload.inReplyTo.value in open;
  }

  predicate DeclinedAs(h: Home, h': Home, id: Id, w: MoveWrites) {
    if id in h.asks && w.move then
      h' == h.(asks := h.asks - {id}, done := h.done[id := if w.mark then h.asks[id].(state := Declined) else h.asks[id]])
    else h' == h
  }

  lemma DeclineOutcome(h: Home, id: Id, w: MoveWrites)
    ensures DeclinedAs(h, DeclinedOne(h, id, w), id, w)
  {
  }

  // ---- every command of the machine ----

  /** What each step of a machine other than the scheduler's does to its home. */
  ghost predicate Does(h: Home, h': Home, own: Peer, s: Step) {
    match s
    case Post(env, mode, enabled, spooled, remembered) => PostedAs(h, h', own, env, mode, enabled, spooled, remembered)
    case Allow(id, peer, ok) => AllowedAs(h, h', id, peer, ok)
    case Deny(id, peer, w) => if IsHeld(h, id, peer) then FinishedAs(h, h', id, Denied, w) else h' == h
    case Reject(id, w) => if id in h.inbox then FinishedAs(h, h', id, Rejected, w) else h' == h
    case Draft(id, d, ok) => DraftedAs(h, h', id, d, ok)
    case Edit(id, text, ok) => EditedAs(h, h', id, text, ok)
    case Send(id, newId, w) => h' == if id in h.inbox then SendOf(h, own, id, h.inbox[id], ByHuman, newId, w).0 else h
    case Ack(caller, a, w) => AckedAs(h, h', caller, a, w)
    case Expire(a, w) => if a in h.outbox then MovedAs(h, h', a, State.Expired, w) else h' == h
    case Ask(p, threaded, ok) => AskedAs(h, h', own, p, threaded, ok)
    case Ingest(contact, env, open, w) => exists v :: IngestedAs(h, h', open, contact, env, w, v)
    case Decline(id, w) => DeclinedAs(h, h', id, w)
    case _ => true
  }

  lemma CommandOutcome(m: Machine, s: Step)
    requires Enabled(m, s) && !IsAuto(s)
    ensures Does(m.home, Next(m, s).home, m.own, s) && Next(m, s) == m.(home := Next(m, s).home)
  {
    var h := m.home;
    hide Enabled, PostedAs, AllowedAs, FinishedAs, DraftedAs, EditedAs, AckedAs, MovedAs, AskedAs, IngestedAs, DeclinedAs, IsHeld,
         Posted, AllowedOne, DeniedOne, RejectedOne, DraftedOne, EditedOne, SendOf, AckedOne, ExpiredOne, Asked, IngestedFrom,
         DeclinedOne;
    match s {
      case Post(env, mode, enabled, spooled, remembered) => PostOutcome(h, m.own, env, mode, enabled, spooled, remembered);
      case Allow(id, peer, ok) => AllowOutcome(h, id, peer, ok);
      case Deny(id, peer, w) => DenyOutcome(h, id, peer, w);
      case Reject(id, w) => RejectOutcome(h, id, w);
      case Draft(id, d, ok) => DraftOutcome(h, id, d, ok);
      case Edit(id, text, ok) => EditOutcome(h, id, text, ok);
      case Ack(caller, a, w) => AckOutcome(h, caller, a, w);
      case Expire(a, w) => ExpireOutcome(h, a, w);
      case Ask(p, threaded, ok) => AskOutcome(h, m.own, p, threaded, ok);
      case Ingest(contact, env, open, w) => IngestOutcome(h, open, contact, env, w);
      case Decline(id, w) => DeclineOutcome(h, id, w);
      case _ =>
    }
  }

  // ---- the scheduler ----

  /** Answered without a human: a pending question, the responder on, the peer under auto. */
  predicate Automatic(rec: Record, mode: Option<Mode>, enabled: bool) {
    rec.state == Pending && rec.env.payload.kind == Question && enabled && mode == Some(Auto)
  }

  lemma SpawnOutcome(m: Machine, t: TaskId, id: Id)
    ensures var m' := Spawned(m, t, id);
            if id in m.inFlight then m' == m
            else m' == m.(running := m.running[t := Task(id, Claimed)], inFlight := m.inFlight + {id})
  {
  }

  predicate Released(m: Machine, m': Machine, t: TaskId)
    requires t in m.running
  {
    m'.running == m.running - {t} && m'.inFlight == m.inFlight - {m.running[t].id} && m'.own == m.own
  }

  /** The first leg touches the record only if it may be answered without a human; it is then drafted
      with the text, or, when there is none, noted as failed. */
  lemma AutoDraftOutcome(m: Machine, t: TaskId, mode: Option<Mode>, enabled: bool, text: Option<Text>, ok: bool)
    requires t in m.running
    ensures var m', h, id := AutoDrafted(m, t, mode, enabled, text, ok), m.home, m.running[t].id;
            if id !in h.inbox || !Automatic(h.inbox[id], mode, enabled) then m'.home == h && Released(m, m', t)
            else if text.None? || !ok then
              && m'.home == (if !ok then h
                             else h.(inbox := h.inbox[id := h.inbox[id].(state := Pending, draft := None, autoError := true)]))
              && Released(m, m', t)
            else
              var rec := h.inbox[id].(state := Drafted, draft := Some(TextDraft(text.value)), autoError := false);
              && m'.home == h.(inbox := h.inbox[id := rec], hist := h.hist + [DraftStored(id)])
              && m'.running == m.running[t := Task(id, HasDraft(rec))] && m'.inFlight == m.inFlight && m'.own == m.own
  {
  }

  /** A failed send: noted on the record, which stays drafted beside an envelope and is pending, without
      its draft, where there is none. */
  predicate NotedFailure(h: Home, h': Home, id: Id, kept: bool, ok: bool) {
    h' == if id !in h.inbox || !ok then h
          else if kept then h.(inbox := h.inbox[id := h.inbox[id].(autoError := true)])
          else h.(inbox := h.inbox[id := h.inbox[id].(state := Pending, draft := None, autoError := true)])
  }

  lemma FailedSendOutcome(h: Home, id: Id, ok: bool)
    ensures NotedFailure(h, AfterFailedSend(h, id, ok), id, HasEnvelope(h, id), ok)
  {
    EnvelopeExists(h, id);
    hide ExistingAnswer, HasEnvelope;
  }

  lemma AutoSignOutcome(m: Machine, t: TaskId, newId: Id, w: SendWrites, ok: bool)
    requires t in m.running && m.running[t].phase.HasDraft?
    ensures var id, rec := m.running[t].id, m.running[t].phase.rec;
            var m', (h, answer) := AutoSigned(m, t, newId, w, ok), SignPart(m.home, m.own, id, rec, ByScheduler, newId, w);
            if answer.None? then NotedFailure(h, m'.home, id, HasEnvelope(h, id), ok) && Released(m, m', t)
            else m' == m.(home := h, running := m.running[t := Task(id, HasAnswer(rec, answer.value))])
  {
    var id, rec := m.running[t].id, m.running[t].phase.rec;
    FailedSendOutcome(SignPart(m.home, m.own, id, rec, ByScheduler, newId, w).0, id, ok);
    hide AfterFailedSend, SignPart, HasEnvelope;
  }

  lemma AutoCloseOutcome(m: Machine, t: TaskId, w: SendWrites, ok: bool)
    requires t in m.running && m.running[t].phase.HasAnswer?
    ensures var id, rec, a := m.running[t].id, m.running[t].phase.rec, m.running[t].phase.answer;
            var m', (h, sent) := AutoClosed(m, t, w, ok), ClosePart(m.home, id, rec, ByScheduler, a, w);
            && Released(m, m', t)
            && (if sent then m'.home == h else NotedFailure(h, m'.home, id, HasEnvelope(h, id), ok))
  {
    var id, rec, a := m.running[t].id, m.running[t].phase.rec, m.running[t].phase.answer;
    FailedSendOutcome(ClosePart(m.home, id, rec, ByScheduler, a, w).0, id, ok);
    hide AfterFailedSend, ClosePart, HasEnvelope;
  }

  // ---- the task ----

  /** Which task state goes with which record state. */
  predicate Shows(s: State, t: TaskState) {
    && (t == Submitted <==> s == Consent)
    && (t == Working <==> s in {Pending, Drafted})
    && (t == Completed <==> s in {Unacked, Acked, State.Expired, Answered})
  }

  predicate OwnRequest(records: map<Id, Record>, caller: Peer, id: Id) {
    id in records && records[id].env.payload.kind in REQUESTS && records[id].env.payload.from == caller
  }

  ghost predicate OwnReply(outbox: map<Id, Record>, caller: Peer, id: Id, a: Id) {
    && a in outbox && outbox[a].env.payload.kind in REPLIES
    && outbox[a].env.payload.inReplyTo == Some(id) && outbox[a].env.payload.to == caller
  }

  /** The caller's request in `inbox/`, else the first reply to it addressed to the caller, else the
      request in `done/`, decides; nobody else's does. */
  lemma TaskOutcome(h: Home, caller: Peer, id: Id)
    ensures var task := FindTask(h, caller, id);
            if OwnRequest(h.inbox, caller, id) then task.Some? && Shows(h.inbox[id].state, task.value)
            else if exists a :: OwnReply(h.outbox, caller, id, a) then
              && task.Some?
              && exists a :: OwnReply(h.outbox, caller, id, a) && (forall b :: OwnReply(h.outbox, caller, id, b) ==> a <= b)
                          && Shows(h.outbox[a].state, task.value)
            else if OwnRequest(h.done, caller, id) then task.Some? && Shows(h.done[id].state, task.value)
            else task.None?
  {
    assert forall a :: OwnReply(h.outbox, caller, id, a) <==> IsReplyTo(h.outbox, caller, id, a);
    assert forall s: State :: Shows(s, A2aState(s));
    if !OwnRequest(h.inbox, caller, id) {
      if exists a :: IsReplyTo(h.outbox, caller, id, a) {
        var a: Id :| IsReplyTo(h.outbox, caller, id, a)
                     && FindTask(h, caller, id) == Some(A2aState(h.outbox[FirstReply(h.outbox, caller, id, a)].state));
        assert OwnReply(h.outbox, caller, id, FirstReply(h.outbox, caller, id, a));
      }
    }
  }
}
