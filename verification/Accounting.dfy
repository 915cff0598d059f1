/** How many envelopes are signed for one request: an exact account over whole runs, the case in
    which a retry signs again, and the runs in which none does. */
module Accounting {
  import opened Prelude
  import opened Exchange
  import opened Machine

  predicate IsSigned(e: Event, q: Id) {
    e.Signed? && e.id == q
  }

  predicate IsLeft(e: Event, q: Id) {
    e.Left? && e.question == Some(q)
  }

  function SignedCount(hist: seq<Event>, q: Id): nat {
    if hist == [] then 0
    else SignedCount(hist[..|hist| - 1], q) + (if IsSigned(hist[|hist| - 1], q) then 1 else 0)
  }

  function LeftCount(hist: seq<Event>, q: Id): nat {
    if hist == [] then 0
    else LeftCount(hist[..|hist| - 1], q) + (if IsLeft(hist[|hist| - 1], q) then 1 else 0)
  }

  /** Envelopes for `q` now in `outbox/`. */
  ghost function EnvelopesFor(outbox: map<Id, Record>, q: Id): set<Id> {
    set a | a in outbox && outbox[a].question == Some(q)
  }

  ghost function InOutbox(outbox: map<Id, Record>, q: Id): nat {
    |EnvelopesFor(outbox, q)|
  }

  /** Every envelope signed for a request is in `outbox/` or has left it. */
  ghost predicate Balanced(h: Home, q: Id) {
    SignedCount(h.hist, q) == LeftCount(h.hist, q) + InOutbox(h.outbox, q)
  }

  lemma CountStep(hist: seq<Event>, e: Event, q: Id)
    ensures SignedCount(hist + [e], q) == SignedCount(hist, q) + (if IsSigned(e, q) then 1 else 0)
    ensures LeftCount(hist + [e], q) == LeftCount(hist, q) + (if IsLeft(e, q) then 1 else 0)
  {
    assert (hist + [e])[..|hist|] == hist;
  }

  /** Nothing signed, nothing moved. */
  ghost predicate SameAccount(h: Home, h': Home, q: Id) {
    && h'.outbox == h.outbox
    && SignedCount(h'.hist, q) == SignedCount(h.hist, q) && LeftCount(h'.hist, q) == LeftCount(h.hist, q)
  }

  lemma SignPartAccount(h: Home, own: Peer, id: Id, rec: Record, via: SendMode, newId: Id, w: SendWrites, q: Id)
    requires Balanced(h, q) && newId !in h.outbox
    ensures var h' := SignPart(h, own, id, rec, via, newId, w).0;
            && Balanced(h', q) && LeftCount(h'.hist, q) == LeftCount(h.hist, q)
            && h'.inbox == h.inbox
            && SignedCount(h.hist, q) <= SignedCount(h'.hist, q) <= SignedCount(h.hist, q) + 1
            && (SignedCount(h'.hist, q) > SignedCount(h.hist, q) ==>
                  id == q && rec.state == Drafted && InOutbox(h.outbox, q) == 0)
  {
    hide SignPart, ExistingAnswer, SignedCount, LeftCount, InOutbox;
    SignPartShape(h, own, id, rec, via, newId, w);
    if Sendable(own, rec) && ExistingAnswer(h.outbox, id).None? {
      SpooledAccount(h, own, id, rec, via, newId, q);
    }
  }

  lemma SpooledAccount(h: Home, own: Peer, id: Id, rec: Record, via: SendMode, newId: Id, q: Id)
    requires rec.draft.Some? && newId !in h.outbox && ExistingAnswer(h.outbox, id).None?
    ensures var h' := Spooled(h, own, id, rec, via, newId);
            && LeftCount(h'.hist, q) == LeftCount(h.hist, q)
            && SignedCount(h'.hist, q) == SignedCount(h.hist, q) + (if id == q then 1 else 0)
            && InOutbox(h'.outbox, q) == InOutbox(h.outbox, q) + (if id == q then 1 else 0)
            && (id == q ==> InOutbox(h.outbox, q) == 0)
  {
    var h' := Spooled(h, own, id, rec, via, newId);
    CountStep(h.hist, Signed(newId, id, rec.env.payload.kind, via), q);
    var before, after := EnvelopesFor(h.outbox, q), EnvelopesFor(h'.outbox, q);
    if id == q {
      NoneWaiting(h.outbox, q);
      assert after == {newId};
    } else {
      assert after == before;
    }
  }

  lemma NoneWaiting(outbox: map<Id, Record>, q: Id)
    requires ExistingAnswer(outbox, q).None?
    ensures EnvelopesFor(outbox, q) == {} && InOutbox(outbox, q) == 0
  {
    forall a | a in EnvelopesFor(outbox, q) ensures false {
      assert Replies(outbox, q, a);
    }
  }

  lemma ClosePartAccount(h: Home, id: Id, rec: Record, via: SendMode, answer: Id, w: SendWrites, q: Id)
    ensures SameAccount(h, ClosePart(h, id, rec, via, answer, w).0, q)
  {
    CountStep(h.hist, Logged(id, rec.env.payload.kind, via), q);
  }

  lemma OutboxLoses(outbox: map<Id, Record>, a: Id, q: Id)
    requires a in outbox
    ensures InOutbox(outbox, q) == InOutbox(outbox - {a}, q) + (if outbox[a].question == Some(q) then 1 else 0)
  {
    var before, after := EnvelopesFor(outbox, q), EnvelopesFor(outbox - {a}, q);
    if outbox[a].question == Some(q) {
      assert after == before - {a} && a in before;
    } else {
      assert before == after;
    }
  }

  lemma MovedOutAccount(h: Home, a: Id, state: State, w: MoveWrites, q: Id)
    requires Balanced(h, q) && a in h.outbox
    ensures var h' := MovedOut(h, a, state, w);
            && Balanced(h', q) && SignedCount(h'.hist, q) == SignedCount(h.hist, q)
            && LeftCount(h'.hist, q) == LeftCount(h.hist, q) + (if w.move && h.outbox[a].question == Some(q) then 1 else 0)
  {
    hide SignedCount, LeftCount, InOutbox;
    CountStep(h.hist, Left(a, h.outbox[a].question), q);
    OutboxLoses(h.outbox, a, q);
  }

  /** The step moves an envelope for `q` out of `outbox/`. */
  predicate Departs(h: Home, s: Step, q: Id) {
    && (s.Ack? ==> MayAck(h, s.caller, s.answer)) && (s.Ack? || s.Expire?)
    && s.answer in h.outbox && h.outbox[s.answer].question == Some(q) && s.move.move
  }

  /** The step may put a record with this id into `inbox/`. */
  predicate Introduces(s: Step, id: Id) {
    (s.Post? || s.Ingest?) && s.env.payload.id == id
  }

  lemma QuietAccount(m: Machine, s: Step, q: Id)
    requires Enabled(m, s) && !s.Send? && !s.Ack? && !s.Expire? && !s.AutoSign? && !s.AutoClose?
    ensures SameAccount(m.home, Next(m, s).home, q)
  {
    var h := m.home;
    hide ExistingAnswer, ThreadKnown, Busy, SignedCount, LeftCount;
    match s {
      case Post(env, mode, _, _, _) =>
        CountStep(h.hist, ServedFromCache(env.payload.id, mode), q);
        CountStep(h.hist, Arrived(env.payload.id, env.payload.kind, mode), q);
      case Allow(id, _, _) => CountStep(h.hist, Allowed(id), q);
      case Draft(id, _, _) => CountStep(h.hist, DraftStored(id), q);
      case AutoDraft(t, _, _, _, _) => CountStep(h.hist, DraftStored(m.running[t].id), q);
      case _ =>
    }
  }

  lemma SendAccount(m: Machine, s: Step, q: Id)
    requires Enabled(m, s) && Balanced(m.home, q) && s.Send?
    ensures AccountStep(m, s, q)
  {
    var h, id := m.home, s.id;
    assert s.newId !in h.outbox;
    hide Balanced, SignedCount, LeftCount, ExistingAnswer, SignPart, ClosePart, InOutbox, Enabled;
    if id in h.inbox {
      SignPartAccount(h, m.own, id, h.inbox[id], ByHuman, s.newId, s.send, q);
      var (signed, answer) := SignPart(h, m.own, id, h.inbox[id], ByHuman, s.newId, s.send);
      if answer.Some? {
        ClosePartAccount(signed, id, h.inbox[id], ByHuman, answer.value, s.send, q);
        SameAccountBalanced(signed, ClosePart(signed, id, h.inbox[id], ByHuman, answer.value, s.send).0, q);
      }
    }
  }

  lemma FailedSameAccount(h: Home, id: Id, ok: bool, q: Id)
    ensures SameAccount(h, AfterFailedSend(h, id, ok), q) && Balanced(h, q) == Balanced(AfterFailedSend(h, id, ok), q)
  {
    hide ExistingAnswer, SignedCount, LeftCount, InOutbox;
  }

  lemma AutoSignAccount(m: Machine, s: Step, q: Id)
    requires Enabled(m, s) && Balanced(m.home, q) && s.AutoSign?
    ensures AccountStep(m, s, q)
  {
    var h := m.home;
    var id, rec := m.running[s.task].id, m.running[s.task].phase.rec;
    assert s.newId !in h.outbox;
    hide Balanced, SignedCount, LeftCount, ExistingAnswer, SignPart, InOutbox, AfterFailedSend, NewToSpool;
    SignPartAccount(h, m.own, id, rec, ByScheduler, s.newId, s.send, q);
    FailedSameAccount(SignPart(h, m.own, id, rec, ByScheduler, s.newId, s.send).0, id, s.ok, q);
  }

  lemma AutoCloseAccount(m: Machine, s: Step, q: Id)
    requires Enabled(m, s) && Balanced(m.home, q) && s.AutoClose?
    ensures AccountStep(m, s, q)
  {
    var h, t := m.home, m.running[s.task];
    hide Balanced, SignedCount, LeftCount, ExistingAnswer, ClosePart, InOutbox;
    ClosePartAccount(h, t.id, t.phase.rec, ByScheduler, t.phase.answer, s.send, q);
    var closed := ClosePart(h, t.id, t.phase.rec, ByScheduler, t.phase.answer, s.send).0;
    SameAccountBalanced(h, closed, q);
    SameAccountBalanced(closed, AfterFailedSend(closed, t.id, s.ok), q);
  }

  lemma DepartureAccount(m: Machine, s: Step, q: Id)
    requires Enabled(m, s) && Balanced(m.home, q) && (s.Ack? || s.Expire?)
    ensures AccountStep(m, s, q)
  {
    var h := m.home;
    hide Balanced, SignedCount, LeftCount, InOutbox;
    if s.answer in h.outbox {
      MovedOutAccount(h, s.answer, Acked, s.move, q);
      MovedOutAccount(h, s.answer, Expired, s.move, q);
    }
  }

  /** What one step does to the account of `q`. */
  ghost predicate AccountStep(m: Machine, s: Step, q: Id)
    requires Enabled(m, s)
  {
    var h, h' := m.home, Next(m, s).home;
    && Balanced(h', q)
    && LeftCount(h'.hist, q) == LeftCount(h.hist, q) + (if Departs(h, s, q) then 1 else 0)
    && SignedCount(h'.hist, q) >= SignedCount(h.hist, q)
    && (SignedCount(h'.hist, q) > SignedCount(h.hist, q) ==>
          && InOutbox(h.outbox, q) == 0
          && ((s.Send? && s.id == q && q in h.inbox && h.inbox[q].state == Drafted)
              || (s.AutoSign? && m.running[s.task].id == q)))
    && SignedCount(h'.hist, q) <= SignedCount(h.hist, q) + 1
  }

  lemma StepAccount(m: Machine, s: Step, q: Id)
    requires Enabled(m, s) && Balanced(m.home, q)
    ensures AccountStep(m, s, q)
  {
    if s.Send? {
      SendAccount(m, s, q);
    } else if s.Ack? || s.Expire? {
      DepartureAccount(m, s, q);
    } else if s.AutoSign? {
      AutoSignAccount(m, s, q);
    } else if s.AutoClose? {
      AutoCloseAccount(m, s, q);
    } else {
      QuietAccount(m, s, q);
      hide SignedCount, LeftCount, InOutbox, Enabled, Next;
      SameAccountBalanced(m.home, Next(m, s).home, q);
    }
  }

  lemma SameAccountBalanced(h: Home, h': Home, q: Id)
    requires SameAccount(h, h', q)
    ensures Balanced(h, q) <==> Balanced(h', q)
  {
  }

  /** Over every run, with any writes failing, the account balances: a request has been signed
      for exactly as often as envelopes for it left `outbox/`, plus the one that may be there. */
  lemma {:induction false} EveryRunBalances(ms: seq<Machine>, steps: seq<Step>, i: nat, q: Id)
    requires Run(ms, steps) && i <= |steps|
    ensures Balanced(ms[i].home, q)
    decreases i
  {
    if i == 0 {
      assert EnvelopesFor(EMPTY.outbox, q) == {};
    } else {
      EveryRunBalances(ms, steps, i - 1, q);
      StepAccount(ms[i - 1], steps[i - 1], q);
    }
  }

  // ---- when a retry signs again ----

  /** `owl send` signs a new envelope exactly when its gates pass, the spool write succeeds and
      `outbox/` holds none for the request at that moment; what left before does not count. */
  lemma SendSignsExactly(h: Home, own: Peer, q: Id, newId: Id, w: SendWrites)
    ensures SignedCount(SentOne(h, own, q, newId, w).hist, q) == SignedCount(h.hist, q) + 1
       <==> && q in h.inbox && Sendable(own, h.inbox[q])
            && DraftUsable(h.inbox[q]) && w.outbox && ExistingAnswer(h.outbox, q).None?
    ensures SignedCount(h.hist, q) <= SignedCount(SentOne(h, own, q, newId, w).hist, q) <= SignedCount(h.hist, q) + 1
  {
    if q in h.inbox {
      var rec := h.inbox[q];
      var (signed, answer) := SignPart(h, own, q, rec, ByHuman, newId, w);
      CountStep(h.hist, Signed(newId, q, rec.env.payload.kind, ByHuman), q);
      if answer.Some? {
        ClosePartAccount(signed, q, rec, ByHuman, answer.value, w, q);
      }
    }
    hide SignedCount, ExistingAnswer, ThreadKnown, ClosePart;
  }

  predicate DraftUsable(rec: Record) {
    rec.draft.Some? && (rec.env.payload.kind == Question || DraftFits(rec.env.payload.kind, rec.draft.value))
  }

  /** So the envelope of a `send` that failed on the log can be acked before the retry, and the
      retry then signs a second one for the same request. The log still gets one line. */
  lemma RetryAfterAckSignsAgain(h: Home, own: Peer, q: Id, a: Id, b: Id)
    requires q in h.inbox && Sendable(own, h.inbox[q]) && DraftUsable(h.inbox[q])
    requires ExistingAnswer(h.outbox, q).None? && !HasLine(h.log, q) && a !in h.outbox && h.inbox[q].env.payload.id == q
    ensures var allWrites := SendWrites(true, true, true, FinishWrites(true, true));
            var h1 := SentOne(h, own, q, a, allWrites.(log := false));
            var h2 := AckedOne(h1, h.inbox[q].env.payload.from, a, MoveWrites(true, true));
            var h3 := SentOne(h2, own, q, b, allWrites);
            && SignedCount(h3.hist, q) == SignedCount(h.hist, q) + 2
            && |h3.log| == |h.log| + 1 && q !in h3.inbox
  {
    var allWrites := SendWrites(true, true, true, FinishWrites(true, true));
    var rec := h.inbox[q];
    var h1 := SentOne(h, own, q, a, allWrites.(log := false));
    FirstTry(h, own, q, a);
    var h2 := AckedOne(h1, rec.env.payload.from, a, MoveWrites(true, true));
    assert h2.outbox == h.outbox;
    SameOutboxSameAnswer(h.outbox, h2.outbox, q);
    SendSignsExactly(h, own, q, a, allWrites.(log := false));
    CountStep(h1.hist, Left(a, Some(q)), q);
    SendSignsExactly(h2, own, q, b, allWrites);
    SecondTry(h2, own, q, b);
  }

  lemma SameOutboxSameAnswer(o: map<Id, Record>, o': map<Id, Record>, q: Id)
    requires o == o' && ExistingAnswer(o, q).None?
    ensures ExistingAnswer(o', q).None?
  {
  }

  lemma FirstTry(h: Home, own: Peer, q: Id, a: Id)
    requires q in h.inbox && Sendable(own, h.inbox[q]) && DraftUsable(h.inbox[q])
    requires ExistingAnswer(h.outbox, q).None? && !HasLine(h.log, q) && a !in h.outbox
    ensures var h1 := SentOne(h, own, q, a, SendWrites(true, true, false, FinishWrites(true, true)));
            && h1.inbox == h.inbox && h1.log == h.log && h1.outbox == h.outbox[a := OutboxRecord(own, q, h.inbox[q], a)]
  {
    hide ExistingAnswer, ThreadKnown, HasLine, OutboxRecord;
  }

  lemma SecondTry(h: Home, own: Peer, q: Id, b: Id)
    requires q in h.inbox && Sendable(own, h.inbox[q]) && DraftUsable(h.inbox[q])
    requires ExistingAnswer(h.outbox, q).None? && !HasLine(h.log, q)
    ensures var h' := SentOne(h, own, q, b, SendWrites(true, true, true, FinishWrites(true, true)));
            |h'.log| == |h.log| + 1 && q !in h'.inbox
  {
    hide ExistingAnswer, ThreadKnown, HasLine, OutboxRecord;
  }
}
