/** The life of one request whose id is not reused: how its record moves through the states,
    how often it is answered, and how often automatically. */
module OneRequest {
  import opened Prelude
  import opened Exchange
  import opened Machine
  import opened Accounting
  import Attempts
  import Sending

  // ---- how a step moves the record of `q` ----

  /** Short of a new arrival, a record keeps its payload and goes from consent to pending, from
      pending to drafted, and back to pending only when an attempt failed and left no envelope. */
  ghost predicate Moves(h: Home, h': Home, q: Id, failed: bool) {
    q in h'.inbox ==>
      && q in h.inbox && h'.inbox[q].env == h.inbox[q].env
      && var (old', new') := (h.inbox[q].state, h'.inbox[q].state);
         || new' == old'
         || (old' == Consent && new' == Pending)
         || (old' == Pending && new' == Drafted)
         || (failed && old' == Drafted && new' == Pending && ExistingAnswer(h'.outbox, q).None?)
  }

  /** A leg of an attempt on `q` that may end in the error path of `send`. */
  predicate FailsSend(m: Machine, s: Step, q: Id) {
    (s.AutoSign? || s.AutoClose?) && s.task in m.running && m.running[s.task].id == q
  }

  lemma SendMoves(h: Home, own: Peer, s: Step, q: Id)
    requires s.Send?
    ensures Moves(h, Local(h, own, s), q, false)
  {
    hide ExistingAnswer, SignPart;
    if s.id in h.inbox {
      Attempts.SignPartKeepsInbox(h, own, s.id, h.inbox[s.id], ByHuman, s.newId, s.send);
    }
  }

  lemma FinishingMoves(h: Home, own: Peer, s: Step, q: Id)
    requires s.Deny? || s.Reject?
    ensures Moves(h, Local(h, own, s), q, false)
  {
    hide ExistingAnswer;
  }

  lemma IngestMoves(h: Home, own: Peer, s: Step, q: Id)
    requires s.Ingest? && !Introduces(s, q)
    ensures Moves(h, Local(h, own, s), q, false)
  {
    hide ExistingAnswer, VerdictOn;
  }

  lemma LocalMoves(h: Home, own: Peer, s: Step, q: Id)
    requires !Introduces(s, q)
    ensures Moves(h, Local(h, own, s), q, false)
  {
    if s.Send? {
      SendMoves(h, own, s, q);
    } else if s.Ingest? {
      IngestMoves(h, own, s, q);
    } else if s.Deny? || s.Reject? {
      FinishingMoves(h, own, s, q);
    } else {
      hide ExistingAnswer, ThreadKnown, ServesCached;
    }
  }

  lemma FailedSendMoves(h: Home, id: Id, ok: bool, q: Id)
    requires id in h.inbox && h.inbox[id].state == Drafted
    ensures Moves(h, AfterFailedSend(h, id, ok), q, id == q)
  {
    hide ExistingAnswer;
  }

  lemma AutoDraftMoves(m: Machine, s: Step, q: Id)
    requires Enabled(m, s) && s.AutoDraft?
    ensures Moves(m.home, Next(m, s).home, q, FailsSend(m, s, q))
  {
    hide ExistingAnswer;
  }

  lemma AutoSignMoves(m: Machine, s: Step, q: Id)
    requires Enabled(m, s) && s.AutoSign? && Attempts.HoldsRecord(m, s.task)
    ensures Moves(m.home, Next(m, s).home, q, FailsSend(m, s, q))
  {
    var h, id, rec := m.home, m.running[s.task].id, m.running[s.task].phase.rec;
    Attempts.SignPartKeepsInbox(h, m.own, id, rec, ByScheduler, s.newId, s.send);
    var signed := SignPart(h, m.own, id, rec, ByScheduler, s.newId, s.send).0;
    hide SignPart, AfterFailedSend, ExistingAnswer;
    FailedSendMoves(signed, id, s.ok, q);
  }

  lemma CloseMoves(h: Home, id: Id, rec: Record, via: SendMode, answer: Id, w: SendWrites)
    ensures var (h', done) := ClosePart(h, id, rec, via, answer, w);
            if done then h'.inbox == h.inbox - {id} else h'.inbox == h.inbox
  {
  }

  lemma AutoCloseMoves(m: Machine, s: Step, q: Id)
    requires Enabled(m, s) && s.AutoClose? && Attempts.HoldsRecord(m, s.task)
    ensures Moves(m.home, Next(m, s).home, q, FailsSend(m, s, q))
  {
    var h, t := m.home, m.running[s.task];
    CloseMoves(h, t.id, t.phase.rec, ByScheduler, t.phase.answer, s.send);
    var (closed, done) := ClosePart(h, t.id, t.phase.rec, ByScheduler, t.phase.answer, s.send);
    hide ClosePart, AfterFailedSend, ExistingAnswer;
    if !done {
      FailedSendMoves(closed, t.id, s.ok, q);
    }
  }

  lemma AutoMoves(m: Machine, s: Step, q: Id)
    requires Enabled(m, s) && IsAuto(s) && Attempts.Scheduled(m)
    ensures Moves(m.home, Next(m, s).home, q, FailsSend(m, s, q))
  {
    if s.AutoSign? || s.AutoClose? {
      assert Attempts.HoldsRecord(m, s.task);
    }
    hide Attempts.HoldsRecord, Attempts.Scheduled;
    if s.AutoDraft? {
      AutoDraftMoves(m, s, q);
    } else if s.AutoSign? {
      AutoSignMoves(m, s, q);
    } else if s.AutoClose? {
      AutoCloseMoves(m, s, q);
    }
  }

  lemma StepMoves(m: Machine, s: Step, q: Id)
    requires Enabled(m, s) && Attempts.Scheduled(m) && !Introduces(s, q)
    ensures Moves(m.home, Next(m, s).home, q, FailsSend(m, s, q))
  {
    hide Moves, Attempts.Scheduled;
    if IsAuto(s) {
      AutoMoves(m, s, q);
    } else {
      LocalMoves(m.home, m.own, s, q);
    }
  }

  // ---- before the request exists ----

  /** `q` reaches `inbox/` at most once in the run. */
  predicate IntroducedOnce(steps: seq<Step>, q: Id) {
    forall i, j :: 0 <= i < j < |steps| && Introduces(steps[i], q) ==> !Introduces(steps[j], q)
  }

  predicate NotYet(steps: seq<Step>, i: nat, q: Id) {
    forall j :: 0 <= j < i && j < |steps| ==> !Introduces(steps[j], q)
  }

  predicate Unused(h: Home, q: Id) {
    q !in h.inbox && SignedCount(h.hist, q) == 0 && LeftCount(h.hist, q) == 0
  }

  /** The record an attempt in its second or third leg is for is in `inbox/`. */
  lemma SignerHasRecord(m: Machine, s: Step, q: Id)
    requires Enabled(m, s) && Attempts.Scheduled(m) && Balanced(m.home, q)
    requires SignedCount(Next(m, s).home.hist, q) > SignedCount(m.home.hist, q)
    ensures q in m.home.inbox && m.home.inbox[q].state == Drafted && InOutbox(m.home.outbox, q) == 0
  {
    StepAccount(m, s, q);
    if s.AutoSign? {
      assert Attempts.HoldsRecord(m, s.task);
    }
  }

  lemma DepartureWasThere(h: Home, s: Step, q: Id)
    requires Departs(h, s, q)
    ensures InOutbox(h.outbox, q) > 0
  {
    assert s.answer in EnvelopesFor(h.outbox, q);
  }

  lemma UnusedStays(m: Machine, s: Step, q: Id)
    requires Enabled(m, s) && Attempts.Scheduled(m) && Balanced(m.home, q)
    requires Unused(m.home, q) && !Introduces(s, q)
    ensures Unused(Next(m, s).home, q)
  {
    hide Attempts.Scheduled, Enabled, Next, SignedCount, LeftCount, InOutbox, ExistingAnswer;
    StepMoves(m, s, q);
    StepAccount(m, s, q);
    if Departs(m.home, s, q) {
      DepartureWasThere(m.home, s, q);
    }
    if SignedCount(Next(m, s).home.hist, q) > 0 {
      SignerHasRecord(m, s, q);
    }
  }

  // ---- an open request has no envelope ----

  ghost predicate OpenUnanswered(h: Home, q: Id) {
    q in h.inbox && (h.inbox[q].state == Consent || h.inbox[q].state == Pending) ==> InOutbox(h.outbox, q) == 0
  }

  lemma OpenStaysUnanswered(m: Machine, s: Step, q: Id)
    requires Enabled(m, s) && Attempts.Scheduled(m) && Balanced(m.home, q)
    requires OpenUnanswered(m.home, q) && (Introduces(s, q) ==> Unused(m.home, q))
    ensures OpenUnanswered(Next(m, s).home, q)
  {
    hide Attempts.Scheduled, Enabled, Next, SignedCount, LeftCount, InOutbox, ExistingAnswer;
    var h' := Next(m, s).home;
    StepAccount(m, s, q);
    if SignedCount(h'.hist, q) > SignedCount(m.home.hist, q) {
      SignerHasRecord(m, s, q);
    }
    if !Introduces(s, q) {
      StepMoves(m, s, q);
      if ExistingAnswer(h'.outbox, q).None? {
        NoneWaiting(h'.outbox, q);
      }
    }
  }

  // ---- answered once ----

  /** At most one envelope, and none has left while the request is in `inbox/`. */
  predicate AnsweredOnce(h: Home, q: Id) {
    SignedCount(h.hist, q) <= 1 && (LeftCount(h.hist, q) >= 1 ==> q !in h.inbox)
  }

  lemma AtMostOneWaiting(h: Home, q: Id)
    requires Sending.OneEnvelopeEach(h)
    ensures InOutbox(h.outbox, q) <= 1
  {
    var all := EnvelopesFor(h.outbox, q);
    if all != {} {
      var a :| a in all;
      assert all == {a};
    }
  }

  /** In every run: never more than one envelope signed beyond those that have left `outbox/`. */
  lemma SignedIsBounded(ms: seq<Machine>, steps: seq<Step>, i: nat, q: Id)
    requires Run(ms, steps) && i <= |steps|
    ensures var hist := ms[i].home.hist;
            LeftCount(hist, q) <= SignedCount(hist, q) <= LeftCount(hist, q) + 1
  {
    EveryRunBalances(ms, steps, i, q);
    Sending.EveryRunIsOrderly(ms, steps, i);
    AtMostOneWaiting(ms[i].home, q);
  }

  lemma AnsweredOnceStays(m: Machine, s: Step, q: Id)
    requires Enabled(m, s) && Attempts.Scheduled(m) && Balanced(m.home, q)
    requires AnsweredOnce(m.home, q) && (Introduces(s, q) ==> Unused(m.home, q))
    requires Departs(m.home, s, q) ==> q !in m.home.inbox
    ensures AnsweredOnce(Next(m, s).home, q)
  {
    hide Attempts.Scheduled, Enabled, Next, SignedCount, LeftCount, InOutbox, ExistingAnswer;
    StepAccount(m, s, q);
    if !Introduces(s, q) {
      StepMoves(m, s, q);
    }
    if SignedCount(Next(m, s).home.hist, q) > SignedCount(m.home.hist, q) {
      SignerHasRecord(m, s, q);
    }
  }

  // ---- answered automatically once ----

  predicate IsAutoSigned(e: Event, q: Id) {
    IsSigned(e, q) && e.via == ByScheduler
  }

  function AutoCount(hist: seq<Event>, q: Id): nat {
    if hist == [] then 0
    else AutoCount(hist[..|hist| - 1], q) + (if IsAutoSigned(hist[|hist| - 1], q) then 1 else 0)
  }

  lemma AutoCountStep(hist: seq<Event>, e: Event, q: Id)
    ensures AutoCount(hist + [e], q) == AutoCount(hist, q) + (if IsAutoSigned(e, q) then 1 else 0)
  {
    assert (hist + [e])[..|hist|] == hist;
  }

  lemma {:induction false} AutoWithinSigned(hist: seq<Event>, q: Id)
    ensures AutoCount(hist, q) <= SignedCount(hist, q)
  {
    if hist != [] {
      AutoWithinSigned(hist[..|hist| - 1], q);
    }
  }

  /** Only the second leg of an attempt signs automatically. */
  ghost predicate AutoStep(m: Machine, s: Step, q: Id)
    requires Enabled(m, s)
  {
    var h, h' := m.home, Next(m, s).home;
    AutoCount(h'.hist, q) == AutoCount(h.hist, q)
    || (&& AutoCount(h'.hist, q) == AutoCount(h.hist, q) + 1 && s.AutoSign? && m.running[s.task].id == q
        && SignedCount(h'.hist, q) > SignedCount(h.hist, q))
  }

  lemma SignPartAuto(h: Home, own: Peer, id: Id, rec: Record, via: SendMode, newId: Id, w: SendWrites, q: Id)
    ensures var h' := SignPart(h, own, id, rec, via, newId, w).0;
            || AutoCount(h'.hist, q) == AutoCount(h.hist, q)
            || (id == q && via == ByScheduler && AutoCount(h'.hist, q) == AutoCount(h.hist, q) + 1
                && SignedCount(h'.hist, q) > SignedCount(h.hist, q))
  {
    hide SignPart, ExistingAnswer;
    SignPartShape(h, own, id, rec, via, newId, w);
    AutoCountStep(h.hist, Signed(newId, id, rec.env.payload.kind, via), q);
    CountStep(h.hist, Signed(newId, id, rec.env.payload.kind, via), q);
  }

  lemma ClosePartAuto(h: Home, id: Id, rec: Record, via: SendMode, answer: Id, w: SendWrites, q: Id)
    ensures AutoCount(ClosePart(h, id, rec, via, answer, w).0.hist, q) == AutoCount(h.hist, q)
  {
    AutoCountStep(h.hist, Logged(id, rec.env.payload.kind, via), q);
  }

  lemma LocalAuto(h: Home, own: Peer, s: Step, q: Id)
    requires !IsAuto(s)
    ensures AutoCount(Local(h, own, s).hist, q) == AutoCount(h.hist, q)
  {
    hide ExistingAnswer, ThreadKnown, AutoCount;
    match s {
      case Post(env, mode, _, _, _) =>
        AutoCountStep(h.hist, ServedFromCache(env.payload.id, mode), q);
        AutoCountStep(h.hist, Arrived(env.payload.id, env.payload.kind, mode), q);
      case Allow(id, _, _) => AutoCountStep(h.hist, Allowed(id), q);
      case Draft(id, _, _) => AutoCountStep(h.hist, DraftStored(id), q);
      case Send(id, newId, w) =>
        hide SignPart, ClosePart;
        if id in h.inbox {
          SignPartAuto(h, own, id, h.inbox[id], ByHuman, newId, w, q);
          var (signed, answer) := SignPart(h, own, id, h.inbox[id], ByHuman, newId, w);
          if answer.Some? {
            ClosePartAuto(signed, id, h.inbox[id], ByHuman, answer.value, w, q);
          }
        }
      case Ack(_, a, _) => LeftAuto(h, a, q);
      case Expire(a, _) => LeftAuto(h, a, q);
      case _ =>
    }
  }

  lemma LeftAuto(h: Home, a: Id, q: Id)
    ensures a in h.outbox ==> AutoCount(h.hist + [Left(a, h.outbox[a].question)], q) == AutoCount(h.hist, q)
  {
    if a in h.outbox {
      AutoCountStep(h.hist, Left(a, h.outbox[a].question), q);
    }
  }

  lemma StepAuto(m: Machine, s: Step, q: Id)
    requires Enabled(m, s)
    ensures AutoStep(m, s, q)
  {
    var h := m.home;
    hide ExistingAnswer, AutoCount, SignedCount, SignPart, ClosePart, Local, NewToSpool, Busy;
    match s {
      case AutoDraft(t, _, _, _, _) => AutoCountStep(h.hist, DraftStored(m.running[t].id), q);
      case AutoSign(t, newId, w, _) =>
        SignPartAuto(h, m.own, m.running[t].id, m.running[t].phase.rec, ByScheduler, newId, w, q);
      case AutoClose(t, w, _) =>
        ClosePartAuto(h, m.running[t].id, m.running[t].phase.rec, ByScheduler, m.running[t].phase.answer, w, q);
      case Spawn(_, _) =>
      case _ => LocalAuto(h, m.own, s, q);
    }
  }

  /** What is true of `q` while no envelope leaves inside an attempt. */
  ghost predicate AutoOnce(m: Machine, q: Id) {
    && AutoCount(m.home.hist, q) <= 1
    && (AutoCount(m.home.hist, q) == 1 && q in m.home.inbox ==> m.home.inbox[q].state == Drafted)
    && (forall t :: t in m.running && m.running[t].id == q ==> LegAgrees(m, t, q))
  }

  /** Before signing nothing was signed automatically; after it an envelope is in `outbox/`. */
  ghost predicate LegAgrees(m: Machine, t: TaskId, q: Id)
    requires t in m.running
  {
    match m.running[t].phase
    case Claimed => true
    case HasDraft(_) => AutoCount(m.home.hist, q) == 0
    case HasAnswer(_, _) => InOutbox(m.home.outbox, q) > 0
  }

  lemma SignedIsWaiting(m: Machine, s: Step, q: Id)
    requires Enabled(m, s) && s.AutoSign? && m.running[s.task].id == q
    requires s.task in Next(m, s).running
    ensures InOutbox(Next(m, s).home.outbox, q) > 0
  {
    var h, rec := m.home, m.running[s.task].phase.rec;
    hide ExistingAnswer, SignPart, InOutbox;
    SignPartShape(h, m.own, q, rec, ByScheduler, s.newId, s.send);
    var (h', answer) := SignPart(h, m.own, q, rec, ByScheduler, s.newId, s.send);
    assert answer.Some? && Replies(h'.outbox, q, answer.value);
    WaitingCounts(h'.outbox, q, answer.value);
  }

  lemma WaitingCounts(outbox: map<Id, Record>, q: Id, a: Id)
    requires Replies(outbox, q, a)
    ensures InOutbox(outbox, q) > 0
  {
    assert a in EnvelopesFor(outbox, q);
  }

  lemma WaitingExists(outbox: map<Id, Record>, q: Id)
    requires InOutbox(outbox, q) > 0
    ensures ExistingAnswer(outbox, q).Some?
  {
    if ExistingAnswer(outbox, q).None? {
      NoneWaiting(outbox, q);
    }
  }

  /** The step does not take an envelope of `q` away in the middle of an attempt on `q`. */
  ghost predicate Calm(m: Machine, s: Step, q: Id) {
    Departs(m.home, s, q) ==> !Busy(m, q)
  }

  lemma OldLegAgrees(m: Machine, s: Step, q: Id, t: TaskId)
    requires Enabled(m, s) && Attempts.Scheduled(m) && Balanced(m.home, q) && AutoOnce(m, q) && Calm(m, s, q)
    requires t in m.running && t in Next(m, s).running && Next(m, s).running[t] == m.running[t] && m.running[t].id == q
    ensures LegAgrees(Next(m, s), t, q)
  {
    assert LegAgrees(m, t, q);
    assert m.running[t].phase != Claimed ==> Busy(m, q);
    assert s.AutoSign? && m.running[s.task].id == q ==> s.task == t;
    if s.AutoSign? {
      SignLegMoves(m, s);
    }
    StepAuto(m, s, q);
    StepAccount(m, s, q);
    hide AutoCount, SignedCount, LeftCount, InOutbox, Enabled, Next, AutoOnce, Attempts.Scheduled;
  }

  /** After its second leg an attempt is in its third or over. */
  lemma SignLegMoves(m: Machine, s: Step)
    requires Enabled(m, s) && s.AutoSign?
    ensures var m' := Next(m, s); s.task in m'.running ==> m'.running[s.task].phase.HasAnswer?
  {
    hide SignPart, AfterFailedSend, NewToSpool;
  }

  /** An attempt drafts a pending question only, for which nothing was signed automatically. */
  lemma DraftLegUnsigned(m: Machine, s: Step, q: Id)
    requires Enabled(m, s) && AutoOnce(m, q) && s.AutoDraft?
    requires s.task in Next(m, s).running && Next(m, s).running[s.task].id == q
    requires Next(m, s).running[s.task] != m.running[s.task]
    ensures AutoCount(Next(m, s).home.hist, q) == 0
  {
    StepAuto(m, s, q);
    hide AutoCount;
  }

  lemma NewLegAgrees(m: Machine, s: Step, q: Id, t: TaskId)
    requires Enabled(m, s)
    requires t in Next(m, s).running && Next(m, s).running[t].id == q
    requires t !in m.running || Next(m, s).running[t] != m.running[t]
    requires s.AutoDraft? && s.task == t ==> AutoCount(Next(m, s).home.hist, q) == 0
    ensures LegAgrees(Next(m, s), t, q)
  {
    hide AutoCount, SignedCount, LeftCount, InOutbox, ExistingAnswer, SignPart, ClosePart, Local, AfterFailedSend;
    assert s.Spawn? || ((s.AutoDraft? || s.AutoSign?) && s.task == t);
    if s.AutoSign? {
      SignedIsWaiting(m, s, q);
    }
  }

  lemma LegsAgree(m: Machine, s: Step, q: Id, t: TaskId)
    requires Enabled(m, s) && Attempts.Scheduled(m) && Balanced(m.home, q) && AutoOnce(m, q) && Calm(m, s, q)
    requires t in Next(m, s).running && Next(m, s).running[t].id == q
    ensures LegAgrees(Next(m, s), t, q)
  {
    if t in m.running && Next(m, s).running[t] == m.running[t] {
      OldLegAgrees(m, s, q, t);
    } else {
      hide AutoCount;
      if s.AutoDraft? && s.task == t {
        DraftLegUnsigned(m, s, q);
      }
      NewLegAgrees(m, s, q, t);
    }
  }

  lemma StateStaysDrafted(m: Machine, s: Step, q: Id)
    requires Enabled(m, s) && Attempts.Scheduled(m) && Balanced(m.home, q) && AutoOnce(m, q)
    requires !Introduces(s, q) && AutoCount(Next(m, s).home.hist, q) >= 1 && q in Next(m, s).home.inbox
    ensures Next(m, s).home.inbox[q].state == Drafted && AutoCount(Next(m, s).home.hist, q) == 1
  {
    var h' := Next(m, s).home;
    StepMoves(m, s, q);
    StepAuto(m, s, q);
    StepAccount(m, s, q);
    assert FailsSend(m, s, q) ==> LegAgrees(m, s.task, q);
    hide AutoCount, SignedCount, LeftCount, InOutbox, ExistingAnswer, Next;
    if AutoCount(h'.hist, q) > AutoCount(m.home.hist, q) {
      SignerHasRecord(m, s, q);
      WaitingExists(h'.outbox, q);
    } else if FailsSend(m, s, q) && s.AutoClose? {
      WaitingExists(h'.outbox, q);
    }
  }

  lemma AutoOnceStays(m: Machine, s: Step, q: Id)
    requires Enabled(m, s) && Attempts.Scheduled(m) && Balanced(m.home, q) && AutoOnce(m, q) && Calm(m, s, q)
    requires Introduces(s, q) ==> Unused(m.home, q)
    ensures AutoOnce(Next(m, s), q)
  {
    var m' := Next(m, s);
    forall t | t in m'.running && m'.running[t].id == q ensures LegAgrees(m', t, q) {
      LegsAgree(m, s, q, t);
    }
    StepAuto(m, s, q);
    hide AutoCount, SignedCount, LegAgrees, Next, ExistingAnswer, InOutbox;
    if Introduces(s, q) {
      AutoWithinSigned(m.home.hist, q);
    } else if AutoCount(m'.home.hist, q) >= 1 && q in m'.home.inbox {
      StateStaysDrafted(m, s, q);
    } else if AutoCount(m'.home.hist, q) > AutoCount(m.home.hist, q) {
      assert LegAgrees(m, s.task, q);
      DraftedMeansNone(m, s, q);
    }
  }

  lemma DraftedMeansNone(m: Machine, s: Step, q: Id)
    requires Enabled(m, s) && s.AutoSign? && m.running[s.task].id == q && LegAgrees(m, s.task, q)
    ensures AutoCount(m.home.hist, q) == 0
  {
  }

  // ---- whole runs ----

  /** No ack or expiry falls inside an attempt on `q`. */
  ghost predicate CalmRun(ms: seq<Machine>, steps: seq<Step>, q: Id)
    requires Run(ms, steps)
  {
    forall i :: 0 <= i < |steps| ==> Calm(ms[i], steps[i], q)
  }

  /** No envelope for `q` is acked or expires while its request is still in `inbox/`. */
  ghost predicate NoEarlyDeparture(ms: seq<Machine>, steps: seq<Step>, q: Id)
    requires Run(ms, steps)
  {
    forall i :: 0 <= i < |steps| && Departs(ms[i].home, steps[i], q) ==> q !in ms[i].home.inbox
  }

  /** At every moment of every run: the account balances, a request not yet received has left
      no trace, and one that is still open has no envelope in `outbox/`. */
  lemma {:induction false} RunFacts(ms: seq<Machine>, steps: seq<Step>, i: nat, q: Id)
    requires Run(ms, steps) && i <= |steps| && IntroducedOnce(steps, q)
    ensures Attempts.Scheduled(ms[i]) && Balanced(ms[i].home, q)
    ensures NotYet(steps, i, q) ==> Unused(ms[i].home, q)
    ensures OpenUnanswered(ms[i].home, q)
    decreases i
  {
    Attempts.AttemptsNeverOverlap(ms, steps, i);
    EveryRunBalances(ms, steps, i, q);
    if i > 0 {
      RunFacts(ms, steps, i - 1, q);
      hide Attempts.Scheduled, Enabled, Next, SignedCount, LeftCount, InOutbox, ExistingAnswer;
      if NotYet(steps, i, q) {
        UnusedStays(ms[i - 1], steps[i - 1], q);
      }
      OpenStaysUnanswered(ms[i - 1], steps[i - 1], q);
    }
  }

  /** Whatever the triggers, scans, failing writes and commands: at most one envelope is signed
      automatically for a request, if no ack or expiry falls inside an attempt on it. */
  lemma {:induction false} SignedAutomaticallyOnce(ms: seq<Machine>, steps: seq<Step>, i: nat, q: Id)
    requires Run(ms, steps) && i <= |steps| && IntroducedOnce(steps, q) && CalmRun(ms, steps, q)
    ensures AutoOnce(ms[i], q)
    decreases i
  {
    if i > 0 {
      SignedAutomaticallyOnce(ms, steps, i - 1, q);
      RunFacts(ms, steps, i - 1, q);
      hide Attempts.Scheduled, Enabled, Next, SignedCount, LeftCount, InOutbox, ExistingAnswer, AutoOnce, IntroducedOnce, NotYet;
      AutoOnceStays(ms[i - 1], steps[i - 1], q);
    }
  }

  /** A request is answered with at most one envelope ever, if none leaves `outbox/` while the
      request is still in `inbox/`. */
  lemma {:induction false} SignedOnce(ms: seq<Machine>, steps: seq<Step>, i: nat, q: Id)
    requires Run(ms, steps) && i <= |steps| && IntroducedOnce(steps, q) && NoEarlyDeparture(ms, steps, q)
    ensures AnsweredOnce(ms[i].home, q)
    decreases i
  {
    if i > 0 {
      SignedOnce(ms, steps, i - 1, q);
      RunFacts(ms, steps, i - 1, q);
      hide Attempts.Scheduled, Enabled, Next, SignedCount, LeftCount, InOutbox, ExistingAnswer;
      AnsweredOnceStays(ms[i - 1], steps[i - 1], q);
    }
  }
}
