/** What a peer sees of its request over time: `find_task` of src/server.rs and the states of
    src/envelope.rs, over whole runs. */
module TaskProgress {
  import opened Prelude
  import opened Exchange
  import opened Machine
  import opened Accounting
  import opened OneRequest
  import Attempts
  import Consent
  import Sending

  // ---- the code ----

  datatype TaskState = Submitted | Working | Completed | Refused

  /** `a2a_state`; the status text is left out. */
  function A2aState(s: State): TaskState {
    match s
    case Consent => Submitted
    case Pending => Working
    case Drafted => Working
    case Unacked => Completed
    case Acked => Completed
    case Expired => Completed
    case Answered => Completed
    case Denied => Refused
    case Rejected => Refused
    case _ => Refused
  }

  predicate IsRequestOf(records: map<Id, Record>, caller: Peer, id: Id) {
    id in records && IsRequest(records[id].env.payload.kind) && records[id].env.payload.from == caller
  }

  ghost predicate IsReplyTo(outbox: map<Id, Record>, caller: Peer, id: Id, a: Id) {
    && a in outbox && IsReply(outbox[a].env.payload.kind)
    && outbox[a].env.payload.inReplyTo == Some(id) && outbox[a].env.payload.to == caller
  }

  /** The first matching envelope in id order, as the loop over `list_lenient` meets them. */
  ghost function FirstReply(outbox: map<Id, Record>, caller: Peer, id: Id, a: Id): (least: Id)
    requires IsReplyTo(outbox, caller, id, a)
    ensures IsReplyTo(outbox, caller, id, least)
    ensures forall b :: IsReplyTo(outbox, caller, id, b) ==> least <= b
    decreases a
  {
    if b: Id :| IsReplyTo(outbox, caller, id, b) && b < a then FirstReply(outbox, caller, id, b) else a
  }

  ghost function FindTask(h: Home, caller: Peer, id: Id): Option<TaskState> {
    if IsRequestOf(h.inbox, caller, id) then Some(A2aState(h.inbox[id].state))
    else if a: Id :| IsReplyTo(h.outbox, caller, id, a) then
      Some(A2aState(h.outbox[FirstReply(h.outbox, caller, id, a)].state))
    else if IsRequestOf(h.done, caller, id) then Some(A2aState(h.done[id].state))
    else None
  }

  // ---- progress ----

  function Rank(t: TaskState): nat {
    match t
    case Submitted => 0
    case Working => 1
    case Completed => 2
    case Refused => 2
  }

  /** SUBMITTED, then WORKING, then COMPLETED or REJECTED for good. */
  predicate NotBack(t: Option<TaskState>, t': Option<TaskState>) {
    t.Some? && t'.Some? && Rank(t.value) <= Rank(t'.value) && (Rank(t.value) == 2 ==> t' == t)
  }

  /** Where an accepted request can be: in `inbox/`, or only in `done/` with a final state, and
      then answered if its envelope is still in `outbox/`. */
  ghost predicate Tracked(h: Home, q: Payload) {
    && q.id !in h.outbox && q.id !in h.asks && IsRequest(q.kind)
    && (forall a :: a in h.outbox && h.outbox[a].question == Some(q.id) ==> h.outbox[a].env.payload.to == q.from)
    && if q.id in h.inbox then h.inbox[q.id].env.payload == q
       else && q.id in h.done && h.done[q.id].env.payload == q
            && (h.done[q.id].state == Answered || h.done[q.id].state == Denied || h.done[q.id].state == Rejected)
            && (InOutbox(h.outbox, q.id) > 0 ==> h.done[q.id].state == Answered)
  }

  /** `owl reject` is not run on a record whose envelope is in `outbox/`. */
  ghost predicate NoLateReject(h: Home, s: Step, id: Id) {
    s.Reject? && s.id == id ==> InOutbox(h.outbox, id) == 0
  }

  // ---- what a step does to `done/` ----

  /** `done/` holds for `id` what it held, or the copy with which a command finished the record. */
  ghost predicate Closes(m: Machine, s: Step, id: Id)
    requires Enabled(m, s)
  {
    var h, h' := m.home, Next(m, s).home;
    || (&& (id in h.done <==> id in h'.done) && (id in h.done ==> h'.done[id] == h.done[id])
        && (id in h.inbox && !Introduces(s, id) ==> id in h'.inbox))
    || (&& id in h.inbox && id in h'.done && h'.done[id].env == h.inbox[id].env
        && (|| h'.done[id].state == Answered
            || (h'.done[id].state == Denied && h.inbox[id].state == Consent)
            || (h'.done[id].state == Rejected && s.Reject? && s.id == id)))
  }

  lemma ClosePartDone(h: Home, id: Id, rec: Record, via: SendMode, answer: Id, w: SendWrites)
    ensures var h' := ClosePart(h, id, rec, via, answer, w).0;
            || (h'.done == h.done && h'.inbox == h.inbox)
            || (h'.done == h.done[id := rec.(state := Answered, answer := Some(answer))]
                && (h'.inbox == h.inbox || h'.inbox == h.inbox - {id}))
  {
  }

  lemma SignPartDone(h: Home, own: Peer, id: Id, rec: Record, via: SendMode, newId: Id, w: SendWrites)
    ensures var h' := SignPart(h, own, id, rec, via, newId, w).0; h'.done == h.done && h'.inbox == h.inbox
  {
    hide SignPart, ExistingAnswer;
    SignPartShape(h, own, id, rec, via, newId, w);
  }

  lemma SendCloses(m: Machine, s: Step, id: Id)
    requires Enabled(m, s) && s.Send?
    ensures Closes(m, s, id)
  {
    var h := m.home;
    hide SignPart, ClosePart, Enabled;
    if s.id in h.inbox {
      var rec := h.inbox[s.id];
      SignPartDone(h, m.own, s.id, rec, ByHuman, s.newId, s.send);
      var (signed, answer) := SignPart(h, m.own, s.id, rec, ByHuman, s.newId, s.send);
      if answer.Some? {
        ClosePartDone(signed, s.id, rec, ByHuman, answer.value, s.send);
      }
    }
  }

  lemma AutoSignCloses(m: Machine, s: Step, id: Id)
    requires Enabled(m, s) && s.AutoSign? && Attempts.HoldsRecord(m, s.task)
    ensures Closes(m, s, id)
  {
    var t := m.running[s.task];
    SignPartDone(m.home, m.own, t.id, t.phase.rec, ByScheduler, s.newId, s.send);
    hide SignPart, ExistingAnswer, NewToSpool, Busy;
  }

  lemma FailedSendKeeps(h: Home, id: Id, ok: bool)
    ensures var h' := AfterFailedSend(h, id, ok); h'.done == h.done && h'.inbox.Keys == h.inbox.Keys
  {
    hide ExistingAnswer;
  }

  lemma AutoCloseCloses(m: Machine, s: Step, id: Id)
    requires Enabled(m, s) && s.AutoClose? && Attempts.HoldsRecord(m, s.task)
    ensures Closes(m, s, id)
  {
    var t := m.running[s.task];
    var closed := ClosePart(m.home, t.id, t.phase.rec, ByScheduler, t.phase.answer, s.send).0;
    hide ClosePart, AfterFailedSend, NewToSpool, Busy;
    ClosePartDone(m.home, t.id, t.phase.rec, ByScheduler, t.phase.answer, s.send);
    FailedSendKeeps(closed, t.id, s.ok);
  }

  lemma AutoDraftCloses(m: Machine, s: Step, id: Id)
    requires Enabled(m, s) && (s.AutoDraft? || s.Spawn?)
    ensures Closes(m, s, id)
  {
    hide NewToSpool, Busy;
  }

  lemma AutoCloses(m: Machine, s: Step, id: Id)
    requires Enabled(m, s) && IsAuto(s)
    requires (s.AutoSign? || s.AutoClose?) ==> Attempts.HoldsRecord(m, s.task)
    ensures Closes(m, s, id)
  {
    hide Closes, Attempts.HoldsRecord;
    if s.AutoSign? {
      AutoSignCloses(m, s, id);
    } else if s.AutoClose? {
      AutoCloseCloses(m, s, id);
    } else {
      AutoDraftCloses(m, s, id);
    }
  }

  /** The same, for a home instead of a machine. */
  ghost predicate ClosesLocally(h: Home, h': Home, s: Step, id: Id) {
    || (&& (id in h.done <==> id in h'.done) && (id in h.done ==> h'.done[id] == h.done[id])
        && (id in h.inbox && !Introduces(s, id) ==> id in h'.inbox))
    || (&& id in h.inbox && id in h'.done && h'.done[id].env == h.inbox[id].env
        && ((h'.done[id].state == Denied && h.inbox[id].state == Consent)
            || (h'.done[id].state == Rejected && s.Reject? && s.id == id)))
  }

  lemma DenyCloses(h: Home, own: Peer, s: Step, id: Id)
    requires s.Deny?
    ensures ClosesLocally(h, Local(h, own, s), s, id)
  {
  }

  lemma VerdictCloses(h: Home, own: Peer, s: Step, id: Id)
    requires s.Deny? || s.Reject?
    ensures ClosesLocally(h, Local(h, own, s), s, id)
  {
    if s.Deny? {
      DenyCloses(h, own, s, id);
    }
  }

  lemma LeavingCloses(h: Home, own: Peer, s: Step, id: Id)
    requires (s.Ack? || s.Expire? || s.Ask? || s.Decline?) && id !in h.outbox && id !in h.asks
    ensures ClosesLocally(h, Local(h, own, s), s, id)
  {
  }

  lemma IngestCloses(h: Home, own: Peer, s: Step, id: Id)
    requires s.Ingest? && id !in h.outbox && id !in h.asks
    ensures ClosesLocally(h, Local(h, own, s), s, id)
  {
  }

  lemma InboxCloses(h: Home, own: Peer, s: Step, id: Id)
    requires s.Post? || s.Allow? || s.Draft? || s.Edit?
    ensures ClosesLocally(h, Local(h, own, s), s, id)
  {
    hide ExistingAnswer, ThreadKnown;
  }

  lemma OtherCloses(m: Machine, s: Step, id: Id)
    requires Enabled(m, s) && !IsAuto(s) && !s.Send?
    requires id !in m.home.outbox && id !in m.home.asks
    ensures Closes(m, s, id)
  {
    hide Local, Enabled;
    if s.Deny? || s.Reject? {
      VerdictCloses(m.home, m.own, s, id);
    } else if s.Ingest? {
      IngestCloses(m.home, m.own, s, id);
    } else if s.Post? || s.Allow? || s.Draft? || s.Edit? {
      InboxCloses(m.home, m.own, s, id);
    } else {
      LeavingCloses(m.home, m.own, s, id);
    }
  }

  lemma StepCloses(m: Machine, s: Step, id: Id)
    requires Enabled(m, s) && Attempts.Scheduled(m)
    requires id !in m.home.outbox && id !in m.home.asks
    ensures Closes(m, s, id)
  {
    assert (s.AutoSign? || s.AutoClose?) ==> Attempts.HoldsRecord(m, s.task);
    hide Closes, Attempts.Scheduled, Attempts.HoldsRecord;
    if s.Send? {
      SendCloses(m, s, id);
    } else if IsAuto(s) {
      AutoCloses(m, s, id);
    } else {
      OtherCloses(m, s, id);
    }
  }

  // ---- the tracked request under one step ----

  /** Everything a run keeps that the argument below leans on. */
  ghost predicate Sound(m: Machine, q: Payload) {
    && Attempts.Scheduled(m) && Balanced(m.home, q.id) && OpenUnanswered(m.home, q.id)
    && Sending.OutboxShape(m.home, m.own) && Consent.Agrees(m.home)
  }

  lemma InboxStates(h: Home, id: Id)
    requires Consent.Agrees(h) && id in h.inbox && IsRequest(h.inbox[id].env.payload.kind)
    ensures h.inbox[id].state == State.Consent || h.inbox[id].state == Pending || h.inbox[id].state == Drafted
  {
    assert Consent.RecordAgrees(h.hist, id, h.inbox[id]);
  }

  /** What a step adds to `outbox/` is a reply to the peer whose request it answers. */
  ghost predicate AddsReply(m: Machine, h': Home, a: Id) {
    a in h'.outbox ==>
      || (a in m.home.outbox && h'.outbox[a] == m.home.outbox[a])
      || (&& NewToSpool(m.home, a) && h'.outbox[a].question.Some?
          && var id := h'.outbox[a].question.value;
             id in m.home.inbox && h'.outbox[a].env.payload.to == m.home.inbox[id].env.payload.from)
  }

  lemma SignPartAdds(m: Machine, id: Id, via: SendMode, newId: Id, w: SendWrites, a: Id)
    requires id in m.home.inbox && NewToSpool(m.home, newId)
    ensures AddsReply(m, SignPart(m.home, m.own, id, m.home.inbox[id], via, newId, w).0, a)
  {
    hide SignPart, ExistingAnswer, NewToSpool;
    SignPartShape(m.home, m.own, id, m.home.inbox[id], via, newId, w);
  }

  /** Only `owl send` and the attempts put anything into `outbox/`. */
  lemma OthersAddNothing(h: Home, own: Peer, s: Step, a: Id)
    requires !IsAuto(s) && !s.Send?
    ensures var h' := Local(h, own, s); a in h'.outbox ==> a in h.outbox && h'.outbox[a] == h.outbox[a]
  {
    hide ExistingAnswer, ThreadKnown;
  }

  lemma SendAdds(m: Machine, s: Step, a: Id)
    requires Enabled(m, s) && s.Send?
    ensures AddsReply(m, Local(m.home, m.own, s), a)
  {
    hide SignPart, ClosePart, ExistingAnswer, NewToSpool, Busy, AddsReply;
    if s.id in m.home.inbox {
      var rec := m.home.inbox[s.id];
      SignPartAdds(m, s.id, ByHuman, s.newId, s.send, a);
      var (signed, answer) := SignPart(m.home, m.own, s.id, rec, ByHuman, s.newId, s.send);
      if answer.Some? {
        CloseKeepsOutbox(signed, s.id, rec, ByHuman, answer.value, s.send);
        SameOutboxAdds(m, signed, ClosePart(signed, s.id, rec, ByHuman, answer.value, s.send).0, a);
      }
    } else {
      SameOutboxAdds(m, m.home, m.home, a);
    }
  }

  lemma SameOutboxAdds(m: Machine, h: Home, h': Home, a: Id)
    requires (AddsReply(m, h, a) || h.outbox == m.home.outbox) && h'.outbox == h.outbox
    ensures AddsReply(m, h', a)
  {
  }

  lemma LocalAdds(m: Machine, s: Step, a: Id)
    requires Enabled(m, s) && !IsAuto(s)
    ensures AddsReply(m, Local(m.home, m.own, s), a)
  {
    hide Local, Enabled;
    if s.Send? {
      SendAdds(m, s, a);
    } else {
      OthersAddNothing(m.home, m.own, s, a);
    }
  }

  lemma AutoAdds(m: Machine, s: Step, a: Id)
    requires Enabled(m, s) && IsAuto(s)
    requires (s.AutoSign? || s.AutoClose?) ==> Attempts.HoldsRecord(m, s.task)
    ensures AddsReply(m, Next(m, s).home, a)
  {
    hide SignPart, ExistingAnswer, NewToSpool, Busy;
    if s.AutoSign? {
      SignPartAdds(m, m.running[s.task].id, ByScheduler, s.newId, s.send, a);
    } else if s.AutoClose? {
      var t := m.running[s.task];
      CloseKeepsOutbox(m.home, t.id, t.phase.rec, ByScheduler, t.phase.answer, s.send);
      hide ClosePart;
    }
  }

  lemma CloseKeepsOutbox(h: Home, id: Id, rec: Record, via: SendMode, answer: Id, w: SendWrites)
    ensures var h' := ClosePart(h, id, rec, via, answer, w).0; h'.outbox == h.outbox && h'.asks == h.asks
  {
  }

  lemma StepAdds(m: Machine, s: Step, a: Id)
    requires Enabled(m, s) && Attempts.Scheduled(m)
    ensures AddsReply(m, Next(m, s).home, a)
  {
    assert (s.AutoSign? || s.AutoClose?) ==> Attempts.HoldsRecord(m, s.task);
    hide AddsReply, Attempts.Scheduled, Local, Attempts.HoldsRecord;
    if IsAuto(s) {
      AutoAdds(m, s, a);
    } else {
      LocalAdds(m, s, a);
    }
  }

  lemma SignPartAsks(h: Home, own: Peer, id: Id, rec: Record, via: SendMode, newId: Id, w: SendWrites)
    ensures SignPart(h, own, id, rec, via, newId, w).0.asks == h.asks
  {
    hide SignPart, ExistingAnswer;
    SignPartShape(h, own, id, rec, via, newId, w);
  }

  lemma SendKeepsAsks(h: Home, own: Peer, s: Step)
    requires s.Send?
    ensures Local(h, own, s).asks == h.asks
  {
    hide SignPart, ClosePart;
    if s.id in h.inbox {
      var rec := h.inbox[s.id];
      SignPartAsks(h, own, s.id, rec, ByHuman, s.newId, s.send);
      var (signed, answer) := SignPart(h, own, s.id, rec, ByHuman, s.newId, s.send);
      if answer.Some? {
        CloseKeepsOutbox(signed, s.id, rec, ByHuman, answer.value, s.send);
      }
    }
  }

  lemma AutoKeepsAsks(m: Machine, s: Step)
    requires Enabled(m, s) && IsAuto(s)
    ensures Next(m, s).home.asks == m.home.asks
  {
    hide SignPart, ClosePart, ExistingAnswer, NewToSpool, Busy;
    if s.AutoSign? {
      var t := m.running[s.task];
      SignPartAsks(m.home, m.own, t.id, t.phase.rec, ByScheduler, s.newId, s.send);
    } else if s.AutoClose? {
      var t := m.running[s.task];
      CloseKeepsOutbox(m.home, t.id, t.phase.rec, ByScheduler, t.phase.answer, s.send);
    }
  }

  lemma LocalKeepsAsks(h: Home, own: Peer, s: Step, id: Id)
    requires !IsAuto(s) && !s.Send? && !s.Ask? && id !in h.asks
    ensures id !in Local(h, own, s).asks
  {
    hide ExistingAnswer, ThreadKnown;
  }

  /** Own ids are new, so the request's id stays out of `outbox/` and `asks/`. */
  lemma AsksAdd(m: Machine, s: Step, id: Id)
    requires Enabled(m, s) && id !in m.home.asks && id in Next(m, s).home.asks
    ensures NewToSpool(m.home, id)
  {
    if IsAuto(s) {
      AutoKeepsAsks(m, s);
    } else if s.Send? {
      SendKeepsAsks(m.home, m.own, s);
    } else if !s.Ask? {
      LocalKeepsAsks(m.home, m.own, s, id);
    }
    hide NewToSpool, Busy, ExistingAnswer, SignPart, ClosePart, ThreadKnown;
  }

  lemma RepliesGoToAsker(m: Machine, s: Step, q: Payload)
    requires Enabled(m, s) && Attempts.Scheduled(m) && Tracked(m.home, q)
    ensures var h' := Next(m, s).home;
            && q.id !in h'.outbox && q.id !in h'.asks
            && forall a :: a in h'.outbox && h'.outbox[a].question == Some(q.id) ==> h'.outbox[a].env.payload.to == q.from
  {
    var h' := Next(m, s).home;
    assert !NewToSpool(m.home, q.id);
    if q.id in h'.asks {
      AsksAdd(m, s, q.id);
    }
    StepAdds(m, s, q.id);
    forall a | a in h'.outbox && h'.outbox[a].question == Some(q.id) ensures h'.outbox[a].env.payload.to == q.from {
      StepAdds(m, s, a);
    }
    hide Next, Enabled, NewToSpool, Attempts.Scheduled, InOutbox;
  }

  /** Out of `inbox/` no envelope is added for the request. */
  lemma SettledAccount(m: Machine, s: Step, q: Payload)
    requires Enabled(m, s) && Sound(m, q) && q.id !in m.home.inbox
    ensures InOutbox(Next(m, s).home.outbox, q.id) <= InOutbox(m.home.outbox, q.id)
  {
    StepAccount(m, s, q.id);
    if SignedCount(Next(m, s).home.hist, q.id) > SignedCount(m.home.hist, q.id) {
      SignerHasRecord(m, s, q.id);
    }
    hide Next, Enabled, InOutbox, SignedCount, LeftCount, Attempts.Scheduled, Consent.Agrees, Sending.OutboxShape;
  }

  lemma StaysTracked(m: Machine, s: Step, q: Payload)
    requires Enabled(m, s) && Sound(m, q) && Tracked(m.home, q)
    requires !Introduces(s, q.id) && NoLateReject(m.home, s, q.id)
    ensures Tracked(Next(m, s).home, q)
  {
    RepliesGoToAsker(m, s, q);
    StepCloses(m, s, q.id);
    StepMoves(m, s, q.id);
    if q.id in m.home.inbox {
      ClosingAccount(m, s, q);
    } else {
      SettledAccount(m, s, q);
    }
    hide Next, Enabled, InOutbox, ExistingAnswer, Sound;
  }

  /** A verdict on a request without an envelope does not put one into `outbox/`. */
  lemma ClosingAccount(m: Machine, s: Step, q: Payload)
    requires Enabled(m, s) && Sound(m, q) && q.id in m.home.inbox
    ensures m.home.inbox[q.id].state == State.Consent || (s.Reject? && InOutbox(m.home.outbox, q.id) == 0)
        ==> InOutbox(Next(m, s).home.outbox, q.id) == 0
  {
    StepAccount(m, s, q.id);
    if SignedCount(Next(m, s).home.hist, q.id) > SignedCount(m.home.hist, q.id) {
      SignerHasRecord(m, s, q.id);
    }
    hide Next, Enabled, InOutbox, SignedCount, LeftCount, Attempts.Scheduled, Consent.Agrees, Sending.OutboxShape;
  }

  // ---- the task never goes back ----

  lemma ReplyIsForRequest(h: Home, own: Peer, q: Payload, a: Id)
    requires Sending.OutboxShape(h, own) && IsReplyTo(h.outbox, q.from, q.id, a)
    ensures h.outbox[a].question == Some(q.id) && h.outbox[a].state == Unacked && InOutbox(h.outbox, q.id) > 0
  {
    assert Sending.WellSpooled(h, own, a, h.outbox[a]);
    WaitingCounts(h.outbox, q.id, a);
  }

  lemma WaitingIsReply(h: Home, own: Peer, q: Payload) returns (a: Id)
    requires Sending.OutboxShape(h, own) && Tracked(h, q) && InOutbox(h.outbox, q.id) > 0
    ensures IsReplyTo(h.outbox, q.from, q.id, a)
  {
    a :| a in EnvelopesFor(h.outbox, q.id);
    assert Sending.WellSpooled(h, own, a, h.outbox[a]);
  }

  /** What the asker is told about a tracked request. */
  ghost function View(h: Home, q: Payload): TaskState
    requires Tracked(h, q)
  {
    if q.id in h.inbox then (if h.inbox[q.id].state == State.Consent then Submitted else Working)
    else if InOutbox(h.outbox, q.id) > 0 then Completed
    else A2aState(h.done[q.id].state)
  }

  lemma TaskOfTracked(h: Home, own: Peer, q: Payload)
    requires Sending.OutboxShape(h, own) && Consent.Agrees(h) && Tracked(h, q)
    ensures FindTask(h, q.from, q.id) == Some(View(h, q))
  {
    if q.id in h.inbox {
      InboxStates(h, q.id);
    } else {
      if a: Id :| IsReplyTo(h.outbox, q.from, q.id, a) {
        var first := FirstReply(h.outbox, q.from, q.id, a);
        ReplyIsForRequest(h, own, q, first);
        FoundInOutbox(h, own, q);
      } else if InOutbox(h.outbox, q.id) > 0 {
        var a := WaitingIsReply(h, own, q);
        assert false;
      }
    }
  }

  lemma FoundInOutbox(h: Home, own: Peer, q: Payload)
    requires Sending.OutboxShape(h, own) && q.id !in h.inbox
    requires exists a: Id :: IsReplyTo(h.outbox, q.from, q.id, a)
    ensures FindTask(h, q.from, q.id) == Some(Completed)
  {
    var a: Id :| IsReplyTo(h.outbox, q.from, q.id, a)
      && FindTask(h, q.from, q.id) == Some(A2aState(h.outbox[FirstReply(h.outbox, q.from, q.id, a)].state));
    ReplyIsForRequest(h, own, q, FirstReply(h.outbox, q.from, q.id, a));
  }

  lemma SettledView(h: Home, q: Payload)
    requires Tracked(h, q) && q.id !in h.inbox
    ensures View(h, q) == A2aState(h.done[q.id].state)
  {
    hide InOutbox;
  }

  /** Once out of `inbox/` the task is settled. */
  lemma SettledStays(m: Machine, s: Step, q: Payload)
    requires Enabled(m, s) && Sound(m, q) && Tracked(m.home, q) && Tracked(Next(m, s).home, q)
    requires !Introduces(s, q.id) && q.id !in m.home.inbox
    ensures View(Next(m, s).home, q) == View(m.home, q)
  {
    assert Attempts.Scheduled(m) && q.id !in m.home.outbox && q.id !in m.home.asks;
    hide Next, Enabled, View, Tracked, Sound, Attempts.Scheduled, ExistingAnswer;
    StepMoves(m, s, q.id);
    StepCloses(m, s, q.id);
    SettledView(m.home, q);
    SettledView(Next(m, s).home, q);
  }

  lemma OpenView(h: Home, q: Payload)
    requires Tracked(h, q) && q.id in h.inbox
    ensures Rank(View(h, q)) == if h.inbox[q.id].state == State.Consent then 0 else 1
  {
    hide InOutbox, Tracked;
  }

  lemma WorkingView(h: Home, q: Payload)
    requires Tracked(h, q) && (q.id in h.inbox ==> h.inbox[q.id].state != State.Consent)
    ensures Rank(View(h, q)) >= 1
  {
    hide InOutbox;
  }

  lemma OpenMovesOn(m: Machine, s: Step, q: Payload)
    requires Enabled(m, s) && Sound(m, q) && Tracked(m.home, q) && Tracked(Next(m, s).home, q)
    requires !Introduces(s, q.id) && q.id in m.home.inbox
    ensures Rank(View(m.home, q)) < 2 && Rank(View(m.home, q)) <= Rank(View(Next(m, s).home, q))
  {
    assert Attempts.Scheduled(m);
    hide Next, Enabled, ExistingAnswer, Sound, Attempts.Scheduled, Tracked, View;
    StepMoves(m, s, q.id);
    OpenView(m.home, q);
    if m.home.inbox[q.id].state != State.Consent {
      WorkingView(Next(m, s).home, q);
    }
  }

  lemma StepNotBack(m: Machine, s: Step, q: Payload)
    requires Enabled(m, s) && Sound(m, q) && Sound(Next(m, s), q) && Tracked(m.home, q)
    requires !Introduces(s, q.id) && NoLateReject(m.home, s, q.id)
    ensures NotBack(FindTask(m.home, q.from, q.id), FindTask(Next(m, s).home, q.from, q.id))
  {
    StaysTracked(m, s, q);
    TaskOfTracked(m.home, m.own, q);
    TaskOfTracked(Next(m, s).home, Next(m, s).own, q);
    hide Next, Enabled, FindTask, Tracked, View, NoLateReject, Sound;
    if q.id in m.home.inbox {
      OpenMovesOn(m, s, q);
    } else {
      SettledStays(m, s, q);
    }
  }

  // ---- whole runs ----

  lemma RunIsSound(ms: seq<Machine>, steps: seq<Step>, i: nat, q: Payload)
    requires Run(ms, steps) && i <= |steps| && IntroducedOnce(steps, q.id)
    ensures Sound(ms[i], q)
  {
    RunFacts(ms, steps, i, q.id);
    Sending.EveryRunIsOrderly(ms, steps, i);
    Consent.EveryRunAgrees(ms, steps, i);
  }

  /** The request `q` was accepted under an unused id by step `i`. */
  ghost predicate AcceptedAt(ms: seq<Machine>, steps: seq<Step>, i: nat, q: Payload)
    requires Run(ms, steps) && i < |steps|
  {
    && steps[i].Post? && steps[i].env.payload == q && NewToSpool(ms[i].home, q.id)
    && IsRequest(q.kind) && q.id in ms[i + 1].home.inbox
  }

  ghost predicate NoLateRejects(ms: seq<Machine>, steps: seq<Step>, id: Id)
    requires Run(ms, steps)
  {
    forall i :: 0 <= i < |steps| ==> NoLateReject(ms[i].home, steps[i], id)
  }

  lemma AcceptedIsTracked(ms: seq<Machine>, steps: seq<Step>, i: nat, q: Payload)
    requires Run(ms, steps) && IntroducedOnce(steps, q.id) && i < |steps| && AcceptedAt(ms, steps, i, q)
    ensures Tracked(ms[i + 1].home, q)
  {
    RunFacts(ms, steps, i, q.id);
    assert Introduces(steps[i], q.id);
    assert NotYet(steps, i, q.id) && Unused(ms[i].home, q.id);
    assert InOutbox(ms[i].home.outbox, q.id) == 0;
    assert EnvelopesFor(ms[i].home.outbox, q.id) == {};
    forall a | a in ms[i].home.outbox ensures ms[i].home.outbox[a].question != Some(q.id) {
      assert a !in EnvelopesFor(ms[i].home.outbox, q.id);
    }
    assert ms[i + 1] == Next(ms[i], steps[i]);
    hide ThreadKnown, InOutbox, Unused;
  }

  lemma {:induction false} StaysTrackedInRun(ms: seq<Machine>, steps: seq<Step>, i: nat, j: nat, q: Payload)
    requires Run(ms, steps) && IntroducedOnce(steps, q.id) && NoLateRejects(ms, steps, q.id)
    requires i < j <= |steps| && AcceptedAt(ms, steps, i, q)
    ensures Tracked(ms[j].home, q)
    decreases j
  {
    if j == i + 1 {
      AcceptedIsTracked(ms, steps, i, q);
    } else {
      StaysTrackedInRun(ms, steps, i, j - 1, q);
      RunIsSound(ms, steps, j - 1, q);
      assert Introduces(steps[i], q.id) && !Introduces(steps[j - 1], q.id);
      assert NoLateReject(ms[j - 1].home, steps[j - 1], q.id);
      hide Sound, Tracked, NoLateReject, Enabled, Next;
      StaysTracked(ms[j - 1], steps[j - 1], q);
    }
  }

  lemma {:induction false} NotBackChain(a: Option<TaskState>, b: Option<TaskState>, c: Option<TaskState>)
    requires NotBack(a, b) && NotBack(b, c)
    ensures NotBack(a, c)
  {
  }

  lemma NotBackAtOnce(t: Option<TaskState>)
    requires t.Some?
    ensures NotBack(t, t)
  {
  }

  /** The asker's view of its request `q` after `k` steps. */
  ghost function TaskAt(ms: seq<Machine>, k: nat, q: Payload): Option<TaskState> {
    if k < |ms| then FindTask(ms[k].home, q.from, q.id) else None
  }

  // ---- the task is always found, whatever is rejected and when ----

  /** The request is in `inbox/`, or in `done/` once it is no longer there, under its own id. */
  ghost predicate Present(h: Home, q: Payload) {
    && q.id !in h.outbox && q.id !in h.asks && IsRequest(q.kind)
    && if q.id in h.inbox then h.inbox[q.id].env.payload == q
       else q.id in h.done && h.done[q.id].env.payload == q
  }

  lemma PresentIsFound(h: Home, q: Payload)
    requires Present(h, q)
    ensures FindTask(h, q.from, q.id).Some?
  {
    hide IsReplyTo;
  }

  lemma StaysPresent(m: Machine, s: Step, q: Payload)
    requires Enabled(m, s) && Attempts.Scheduled(m) && Present(m.home, q) && !Introduces(s, q.id)
    ensures Present(Next(m, s).home, q)
  {
    assert !NewToSpool(m.home, q.id);
    if q.id in Next(m, s).home.asks {
      AsksAdd(m, s, q.id);
    }
    StepAdds(m, s, q.id);
    StepCloses(m, s, q.id);
    StepMoves(m, s, q.id);
    hide Next, Enabled, NewToSpool, Attempts.Scheduled, ExistingAnswer;
  }

  lemma {:induction false} StaysPresentInRun(ms: seq<Machine>, steps: seq<Step>, i: nat, k: nat, q: Payload)
    requires Run(ms, steps) && IntroducedOnce(steps, q.id)
    requires i < k <= |steps| && AcceptedAt(ms, steps, i, q)
    ensures Present(ms[k].home, q)
    decreases k
  {
    if k == i + 1 {
      AcceptedIsTracked(ms, steps, i, q);
    } else {
      StaysPresentInRun(ms, steps, i, k - 1, q);
      Attempts.AttemptsNeverOverlap(ms, steps, k - 1);
      assert Introduces(steps[i], q.id) && !Introduces(steps[k - 1], q.id);
      hide Present, Enabled, Next, Attempts.Scheduled;
      StaysPresent(ms[k - 1], steps[k - 1], q);
    }
  }

  /** Over every run, late rejects included: from the step that accepts a request on, the asker
      finds its task. */
  lemma TaskIsFound(ms: seq<Machine>, steps: seq<Step>, i: nat, k: nat, q: Payload)
    requires Run(ms, steps) && IntroducedOnce(steps, q.id)
    requires i < k <= |steps| && AcceptedAt(ms, steps, i, q)
    ensures TaskAt(ms, k, q).Some?
  {
    StaysPresentInRun(ms, steps, i, k, q);
    PresentIsFound(ms[k].home, q);
  }

  lemma OneStepInRun(ms: seq<Machine>, steps: seq<Step>, i: nat, k: nat, q: Payload)
    requires Run(ms, steps) && IntroducedOnce(steps, q.id) && NoLateRejects(ms, steps, q.id)
    requires i < k < |steps| && AcceptedAt(ms, steps, i, q)
    ensures NotBack(TaskAt(ms, k, q), TaskAt(ms, k + 1, q))
  {
    StaysTrackedInRun(ms, steps, i, k, q);
    RunIsSound(ms, steps, k, q);
    RunIsSound(ms, steps, k + 1, q);
    assert Introduces(steps[i], q.id) && !Introduces(steps[k], q.id);
    assert NoLateReject(ms[k].home, steps[k], q.id);
    hide Sound, Tracked, NoLateReject, Enabled, Next, FindTask;
    StepNotBack(ms[k], steps[k], q);
  }

  /** From the moment a request is accepted the asker always finds its task, and over any run of
      commands, attempts, acks and expiries with failing writes the task only moves forward. */
  lemma {:induction false} TaskNeverGoesBack(ms: seq<Machine>, steps: seq<Step>, i: nat, j: nat, k: nat, q: Payload)
    requires Run(ms, steps) && IntroducedOnce(steps, q.id) && NoLateRejects(ms, steps, q.id)
    requires i < j <= k <= |steps| && AcceptedAt(ms, steps, i, q)
    ensures NotBack(TaskAt(ms, j, q), TaskAt(ms, k, q))
    decreases k
  {
    hide *;
    if j == k {
      TaskIsFound(ms, steps, i, k, q);
      NotBackAtOnce(TaskAt(ms, k, q));
    } else {
      TaskNeverGoesBack(ms, steps, i, j, k - 1, q);
      OneStepInRun(ms, steps, i, k - 1, q);
      NotBackChain(TaskAt(ms, j, q), TaskAt(ms, k - 1, q), TaskAt(ms, k, q));
    }
  }

  lemma NoReplyLeft(h: Home, own: Peer, q: Payload, a: Id)
    requires Sending.OutboxShape(h, own) && Sending.OneEnvelopeEach(h) && a in h.outbox && h.outbox[a].question == Some(q.id)
    ensures forall b: Id :: !IsReplyTo(h.outbox - {a}, q.from, q.id, b)
  {
    forall b: Id ensures !IsReplyTo(h.outbox - {a}, q.from, q.id, b) {
      if b in h.outbox {
        assert Sending.WellSpooled(h, own, b, h.outbox[b]);
      }
    }
  }

  lemma AfterLateReject(h: Home, own: Peer, q: Payload, a: Id)
    requires Sending.OutboxShape(h, own) && Tracked(h, q)
    requires q.id in h.inbox && a in h.outbox && h.outbox[a].question == Some(q.id)
    ensures var h1 := RejectedOne(h, q.id, FinishWrites(true, true));
            && Sending.OutboxShape(h1, own) && q.id !in h1.inbox && IsReplyTo(h1.outbox, q.from, q.id, a)
            && h1.outbox == h.outbox && q.id in h1.done && h1.done[q.id] == h.inbox[q.id].(state := Rejected)
            && MayAck(h1, q.from, a)
  {
    assert Sending.WellSpooled(h, own, a, h.outbox[a]);
    hide InOutbox, Sending.SignedFor;
  }

  /** The condition on `reject` is exact: on any tracked record whose one envelope is still in
      `outbox/` it shows the task completed, and the ack of that envelope then turns it back. */
  lemma LateRejectGoesBack(h: Home, own: Peer, q: Payload, a: Id)
    requires Sending.OutboxShape(h, own) && Sending.OneEnvelopeEach(h) && Consent.Agrees(h) && Tracked(h, q)
    requires q.id in h.inbox && a in h.outbox && h.outbox[a].question == Some(q.id)
    ensures var h1 := RejectedOne(h, q.id, FinishWrites(true, true));
            var h2 := AckedOne(h1, q.from, a, MoveWrites(true, true));
            && FindTask(h1, q.from, q.id) == Some(Completed)
            && FindTask(h2, q.from, q.id) == Some(Refused)
  {
    var h1 := RejectedOne(h, q.id, FinishWrites(true, true));
    var h2 := AckedOne(h1, q.from, a, MoveWrites(true, true));
    assert IsRequest(h.inbox[q.id].env.payload.kind) && h.inbox[q.id].env.payload == q && q.id != a;
    hide Consent.Agrees, Sending.OutboxShape, Sending.OneEnvelopeEach, Tracked, RejectedOne, IsReplyTo;
    AfterLateReject(h, own, q, a);
    FoundInOutbox(h1, own, q);
    NoReplyLeft(h, own, q, a);
    assert h2.outbox == h.outbox - {a} && h2.inbox == h1.inbox && h2.done[q.id] == h1.done[q.id];
  }
}
