/** Runs from an empty home in which the provisos of the run theorems fail and their conclusions
    with them: each proviso is needed. */
module Witnesses {
  import opened Prelude
  import opened Exchange
  import opened Machine
  import opened Accounting
  import opened OneRequest
  import opened TaskProgress
  import Consent
  import Sending

  const OWNER: Peer := 0
  const ASKER: Peer := 1
  const Q: Id := 10
  const FIRST: Id := 11
  const SECOND: Id := 12

  const QUESTION := Payload(Q, Question, ASKER, OWNER, None, None, false, 0, 0)
  const ASKED := Envelope(QUESTION, Some(ASKER))
  const DRAFTED := Record(ASKED, Drafted, Some(TextDraft(5)), false, ASKER, None, None, false)

  const BOTH := FinishWrites(true, true)
  const EVERY_WRITE := SendWrites(true, true, true, BOTH)
  const NO_LOG := SendWrites(true, true, false, BOTH)
  const MOVED := MoveWrites(true, true)

  // ---- building a run ----

  /** A run one step longer. */
  lemma Extend(ms: seq<Machine>, steps: seq<Step>, s: Step) returns (ms': seq<Machine>, steps': seq<Step>)
    requires Run(ms, steps) && Enabled(ms[|steps|], s)
    ensures ms' == ms + [Next(ms[|steps|], s)] && steps' == steps + [s] && Run(ms', steps')
  {
    ms', steps' := ms + [Next(ms[|steps|], s)], steps + [s];
    hide Enabled, Next;
  }

  lemma NothingExists(id: Id)
    ensures ExistingAnswer(map[], id) == None
  {
  }

  predicate Idle(m: Machine) {
    m.running == map[] && m.inFlight == {}
  }

  lemma IdleIsNotBusy(m: Machine, id: Id)
    requires Idle(m)
    ensures !Busy(m, id)
  {
  }

  // ---- post, draft, and a send that fails at the log ----

  function Arrival(mode: Mode): Step {
    Post(ASKED, Some(mode), true, true, true)
  }

  function Received(mode: Mode): Home {
    EMPTY.(inbox := map[Q := DRAFTED.(state := Pending, draft := None)], hist := [Arrived(Q, Question, Some(mode))])
  }

  lemma ArrivalNext(mode: Mode)
    requires mode != Never
    ensures Enabled(Start(OWNER), Arrival(mode))
    ensures Next(Start(OWNER), Arrival(mode)) == Start(OWNER).(home := Received(mode))
  {
    IdleIsNotBusy(Start(OWNER), Q);
  }

  lemma ArrivalRun(mode: Mode) returns (ms: seq<Machine>, steps: seq<Step>)
    requires mode != Never
    ensures Run(ms, steps) && |steps| == 1 && steps == [Arrival(mode)] && ms[1] == Start(OWNER).(home := Received(mode))
  {
    ArrivalNext(mode);
    hide Enabled, Next;
    ms, steps := Extend([Start(OWNER)], [], Arrival(mode));
  }

  const WITH_DRAFT := EMPTY.(inbox := map[Q := DRAFTED], hist := [Arrived(Q, Question, Some(Manual)), DraftStored(Q)])

  lemma DraftNext()
    ensures var m := Start(OWNER).(home := Received(Manual)); var s := Step.Draft(Q, TextDraft(5), true);
            Enabled(m, s) && Next(m, s) == m.(home := WITH_DRAFT)
  {
    IdleIsNotBusy(Start(OWNER).(home := Received(Manual)), Q);
    NothingExists(Q);
    hide ExistingAnswer;
  }

  const ENVELOPE := OutboxRecord(OWNER, Q, DRAFTED, FIRST)

  const SPOOLED := WITH_DRAFT.(outbox := map[FIRST := ENVELOPE], cache := map[0 := ENVELOPE],
                               hist := WITH_DRAFT.hist + [Signed(FIRST, Q, Question, ByHuman)])

  lemma SendNext()
    ensures var m := Start(OWNER).(home := WITH_DRAFT); var s := Send(Q, FIRST, NO_LOG);
            Enabled(m, s) && Next(m, s) == m.(home := SPOOLED)
  {
    IdleIsNotBusy(Start(OWNER).(home := WITH_DRAFT), Q);
    NothingExists(Q);
    hide ExistingAnswer;
  }

  lemma SpooledRun() returns (ms: seq<Machine>, steps: seq<Step>)
    ensures Run(ms, steps) && |steps| == 3 && ms[3] == Start(OWNER).(home := SPOOLED)
    ensures steps[0] == Arrival(Manual) && !Introduces(steps[1], Q) && !Introduces(steps[2], Q)
    ensures NewToSpool(ms[0].home, Q) && Q in ms[1].home.inbox
    ensures !steps[1].Reject? && !steps[2].Reject?
  {
    assert Q in Received(Manual).inbox;
    hide Enabled, Next, Received, WITH_DRAFT, SPOOLED;
    ms, steps := ArrivalRun(Manual);
    DraftNext();
    SendNext();
    ms, steps := Extend(ms, steps, Step.Draft(Q, TextDraft(5), true));
    ms, steps := Extend(ms, steps, Send(Q, FIRST, NO_LOG));
  }

  // ---- a second envelope ----

  const DEPARTED := SPOOLED.(outbox := map[], done := map[FIRST := ENVELOPE.(state := Acked)],
                             hist := SPOOLED.hist + [Left(FIRST, Some(Q))])

  lemma AckNext()
    ensures var m := Start(OWNER).(home := SPOOLED); var s := Ack(ASKER, FIRST, MOVED);
            && Enabled(m, s) && Next(m, s) == m.(home := DEPARTED)
            && Departs(SPOOLED, s, Q)
  {
  }

  ghost const SENT_AGAIN := SentOne(DEPARTED, OWNER, Q, SECOND, EVERY_WRITE)

  lemma ResendNext()
    ensures var m := Start(OWNER).(home := DEPARTED); var s := Send(Q, SECOND, EVERY_WRITE);
            Enabled(m, s) && Next(m, s) == m.(home := SENT_AGAIN)
  {
    IdleIsNotBusy(Start(OWNER).(home := DEPARTED), Q);
    hide SentOne, ExistingAnswer, Busy;
  }

  lemma SignedBefore()
    ensures SignedCount(DEPARTED.hist, Q) == 1
  {
    var h0 := WITH_DRAFT.hist;
    assert h0 == ([] + [Arrived(Q, Question, Some(Manual))]) + [DraftStored(Q)];
    CountStep([], Arrived(Q, Question, Some(Manual)), Q);
    CountStep([Arrived(Q, Question, Some(Manual))], DraftStored(Q), Q);
    CountStep(h0, Signed(FIRST, Q, Question, ByHuman), Q);
    CountStep(SPOOLED.hist, Left(FIRST, Some(Q)), Q);
    hide SignedCount, LeftCount;
  }

  lemma SignsAgain()
    ensures SignedCount(SENT_AGAIN.hist, Q) == 2 && |SENT_AGAIN.log| == 1
  {
    SignedBefore();
    NothingExists(Q);
    SendSignsExactly(DEPARTED, OWNER, Q, SECOND, EVERY_WRITE);
    SecondTry(DEPARTED, OWNER, Q, SECOND);
    hide ExistingAnswer, SignedCount, SentOne, OutboxRecord;
  }

  lemma SecondRun() returns (ms: seq<Machine>, steps: seq<Step>)
    ensures Run(ms, steps) && |steps| == 5 && ms[3].home == SPOOLED && ms[5].home == SENT_AGAIN
    ensures steps[0] == Arrival(Manual) && !Introduces(steps[1], Q) && !Introduces(steps[2], Q)
    ensures steps[3] == Ack(ASKER, FIRST, MOVED) && steps[4] == Send(Q, SECOND, EVERY_WRITE)
    ensures NewToSpool(ms[0].home, Q) && Q in ms[1].home.inbox
  {
    hide Enabled, Next, SENT_AGAIN, SPOOLED, DEPARTED, Received, NewToSpool, Introduces, Arrival, Departs;
    ms, steps := SpooledRun();
    AckNext();
    ResendNext();
    ms, steps := Extend(ms, steps, Ack(ASKER, FIRST, MOVED));
    ms, steps := Extend(ms, steps, Send(Q, SECOND, EVERY_WRITE));
  }

  /** Post, draft, a send that fails at the log, the asker's ack, and the send again: two envelopes
      signed for one request that arrived once. An envelope left while its request was open. */
  lemma SecondEnvelope() returns (ms: seq<Machine>, steps: seq<Step>)
    ensures Run(ms, steps) && |steps| == 5 && IntroducedOnce(steps, Q)
    ensures SignedCount(ms[5].home.hist, Q) == 2 && |ms[5].home.log| == 1
    ensures !NoEarlyDeparture(ms, steps, Q)
  {
    assert Q in SPOOLED.inbox;
    AckNext();
    SignsAgain();
    hide Enabled, Next, SignedCount, SENT_AGAIN, SPOOLED, DEPARTED, Departs, Received, NewToSpool, Run;
    ms, steps := SecondRun();
    assert Departs(ms[3].home, steps[3], Q);
  }

  // ---- a late reject ----

  lemma RejectNext()
    ensures var m := Start(OWNER).(home := SPOOLED); var s := Reject(Q, BOTH);
            && Enabled(m, s) && Next(m, s) == m.(home := RejectedOne(SPOOLED, Q, BOTH))
  {
    IdleIsNotBusy(Start(OWNER).(home := SPOOLED), Q);
    hide RejectedOne, Busy;
  }

  lemma LateAckNext()
    ensures var m := Start(OWNER).(home := RejectedOne(SPOOLED, Q, BOTH)); var s := Ack(ASKER, FIRST, MOVED);
            && Enabled(m, s) && Next(m, s) == m.(home := AckedOne(m.home, ASKER, FIRST, MOVED))
  {
    hide RejectedOne, AckedOne, Busy;
  }

  lemma SpooledIsTracked()
    ensures Sending.OutboxShape(SPOOLED, OWNER) && Sending.OneEnvelopeEach(SPOOLED) && Consent.Agrees(SPOOLED)
    ensures Tracked(SPOOLED, QUESTION)
  {
    var ms, steps := SpooledRun();
    Sending.EveryRunIsOrderly(ms, steps, 3);
    Consent.EveryRunAgrees(ms, steps, 3);
    hide SignedCount, Enabled, Next, Consent.Agrees;
  }

  lemma LateRejectRun() returns (ms: seq<Machine>, steps: seq<Step>)
    ensures Run(ms, steps) && |steps| == 5 && IntroducedOnce(steps, Q) && AcceptedAt(ms, steps, 0, QUESTION)
    ensures var h1 := RejectedOne(SPOOLED, Q, BOTH); ms[4].home == h1 && ms[5].home == AckedOne(h1, ASKER, FIRST, MOVED)
  {
    ms, steps := SpooledRun();
    RejectNext();
    LateAckNext();
    hide Enabled, Next, RejectedOne, AckedOne, SPOOLED, NewToSpool, WITH_DRAFT;
    ms, steps := Extend(ms, steps, Reject(Q, BOTH));
    ms, steps := Extend(ms, steps, Ack(ASKER, FIRST, MOVED));
  }

  /** Post, draft, a send that fails at the log, `owl reject`, and the asker's ack: the asker sees
      its task completed and then rejected. */
  lemma CompletedThenRejected() returns (ms: seq<Machine>, steps: seq<Step>)
    ensures Run(ms, steps) && |steps| == 5 && IntroducedOnce(steps, Q) && AcceptedAt(ms, steps, 0, QUESTION)
    ensures TaskAt(ms, 4, QUESTION) == Some(Completed) && TaskAt(ms, 5, QUESTION) == Some(Refused)
  {
    ms, steps := LateRejectRun();
    SpooledIsTracked();
    assert Q in SPOOLED.inbox && FIRST in SPOOLED.outbox && SPOOLED.outbox[FIRST].question == Some(Q);
    hide Enabled, Next, RejectedOne, AckedOne, FindTask, Tracked, Sending.OutboxShape, Consent.Agrees, AcceptedAt, Run, SPOOLED;
    LateRejectGoesBack(SPOOLED, OWNER, QUESTION, FIRST);
  }

  // ---- an ack inside an attempt ----

  /** The machine with at most the one attempt on the question. */
  function With(home: Home, running: map<TaskId, Task>): Machine {
    Start(OWNER).(home := home, running := running, inFlight := if running == map[] then {} else {Q})
  }

  lemma SpawnNext(home: Home, t: TaskId)
    ensures Enabled(With(home, map[]), Spawn(t, Q))
    ensures Next(With(home, map[]), Spawn(t, Q)) == With(home, map[t := Task(Q, Claimed)])
  {
  }

  predicate Waits(home: Home) {
    Q in home.inbox && home.inbox[Q].env == ASKED && home.inbox[Q].state == Pending
    && home.inbox[Q].(state := Drafted, draft := Some(TextDraft(5)), autoError := false) == DRAFTED
  }

  function AfterDraft(home: Home): Home {
    home.(inbox := home.inbox[Q := DRAFTED], hist := home.hist + [DraftStored(Q)])
  }

  lemma DraftLegNext(home: Home, t: TaskId)
    requires Waits(home)
    ensures var m := With(home, map[t := Task(Q, Claimed)]); var s := AutoDraft(t, Some(Auto), true, Some(5), true);
            Enabled(m, s) && Next(m, s) == With(AfterDraft(home), map[t := Task(Q, HasDraft(DRAFTED))])
  {
    hide Busy;
  }

  function AfterSign(home: Home, a: Id): Home {
    var out := OutboxRecord(OWNER, Q, DRAFTED, a);
    home.(outbox := map[a := out], cache := home.cache[0 := out],
          hist := home.hist + [Signed(a, Q, Question, ByScheduler)])
  }

  lemma SignLegNext(home: Home, t: TaskId, a: Id)
    requires home.outbox == map[] && NewToSpool(home, a)
    ensures var m := With(home, map[t := Task(Q, HasDraft(DRAFTED))]); var s := AutoSign(t, a, EVERY_WRITE, true);
            Enabled(m, s) && Next(m, s) == With(AfterSign(home, a), map[t := Task(Q, HasAnswer(DRAFTED, a))])
  {
    hide ExistingAnswer, NewToSpool, OutboxRecord, Busy, AfterFailedSend;
    NothingExists(Q);
    assert SignPart(home, OWNER, Q, DRAFTED, ByScheduler, a, EVERY_WRITE) == (AfterSign(home, a), Some(a)) by {
      NoThread(home);
    }
  }

  lemma NoThread(home: Home)
    ensures Cacheable(home, Q, QUESTION)
  {
  }

  function AfterAck(home: Home): Home {
    home.(outbox := map[], hist := home.hist + [Left(FIRST, Some(Q))],
          done := home.done[FIRST := OutboxRecord(OWNER, Q, DRAFTED, FIRST).(state := Acked)])
  }

  lemma AckInsideNext(home: Home, t: TaskId)
    requires home.outbox == map[FIRST := OutboxRecord(OWNER, Q, DRAFTED, FIRST)]
    ensures var m := With(home, map[t := Task(Q, HasAnswer(DRAFTED, FIRST))]); var s := Ack(ASKER, FIRST, MOVED);
            && Enabled(m, s) && Next(m, s) == m.(home := AfterAck(home)) && !Calm(m, s, Q)
  {
    var m := With(home, map[t := Task(Q, HasAnswer(DRAFTED, FIRST))]);
    assert t in m.running && m.running[t].id == Q && m.running[t].phase != Claimed;
  }

  function AfterFailure(home: Home): Home {
    home.(inbox := home.inbox[Q := FailedRecord(DRAFTED)])
  }

  lemma CloseLegNext(home: Home, t: TaskId)
    requires home.outbox == map[] && home.log == [] && Q in home.inbox && home.inbox[Q] == DRAFTED
    ensures var m := With(home, map[t := Task(Q, HasAnswer(DRAFTED, FIRST))]); var s := AutoClose(t, NO_LOG, true);
            Enabled(m, s) && Next(m, s) == With(AfterFailure(home), map[])
    ensures Waits(AfterFailure(home))
  {
    NothingExists(Q);
    hide ExistingAnswer, Busy;
  }

  function AfterFirst(): Home {
    AfterFailure(AfterAck(AfterSign(AfterDraft(Received(Auto)), FIRST)))
  }

  function AfterBoth(): Home {
    AfterSign(AfterDraft(AfterFirst()), SECOND)
  }

  /** Steps that lead from one machine to the next, from an empty home, are a run. */
  lemma IsRun(ms: seq<Machine>, steps: seq<Step>)
    requires |ms| == |steps| + 1 && ms[0] == Start(ms[0].own)
    requires forall i :: 0 <= i < |steps| ==> Leads(ms[i], steps[i], ms[i + 1])
    ensures Run(ms, steps)
  {
    forall i | 0 <= i < |steps| ensures Enabled(ms[i], steps[i]) && ms[i + 1] == Next(ms[i], steps[i]) {
      assert Leads(ms[i], steps[i], ms[i + 1]);
    }
  }

  ghost predicate Leads(m: Machine, s: Step, m': Machine) {
    Enabled(m, s) && Next(m, s) == m'
  }

  const TWO_ATTEMPTS: seq<Step> := [
    Arrival(Auto),
    Spawn(0, Q), AutoDraft(0, Some(Auto), true, Some(5), true), AutoSign(0, FIRST, EVERY_WRITE, true),
    Ack(ASKER, FIRST, MOVED), AutoClose(0, NO_LOG, true),
    Spawn(1, Q), AutoDraft(1, Some(Auto), true, Some(5), true), AutoSign(1, SECOND, EVERY_WRITE, true)]

  function Passed(): seq<Machine> {
    var h0 := Received(Auto);
    var h1 := AfterDraft(h0);
    var h2 := AfterSign(h1, FIRST);
    var h3 := AfterFirst();
    [Start(OWNER), With(h0, map[]),
     With(h0, map[0 := Task(Q, Claimed)]), With(h1, map[0 := Task(Q, HasDraft(DRAFTED))]),
     With(h2, map[0 := Task(Q, HasAnswer(DRAFTED, FIRST))]), With(AfterAck(h2), map[0 := Task(Q, HasAnswer(DRAFTED, FIRST))]),
     With(h3, map[]),
     With(h3, map[1 := Task(Q, Claimed)]), With(AfterDraft(h3), map[1 := Task(Q, HasDraft(DRAFTED))]),
     With(AfterBoth(), map[1 := Task(Q, HasAnswer(DRAFTED, SECOND))])]
  }

  lemma FirstLegs(i: nat)
    requires i < 3
    ensures Leads(Passed()[i], TWO_ATTEMPTS[i], Passed()[i + 1])
  {
    var h0 := Received(Auto);
    FirstHomes();
    hide Enabled, Next, AfterDraft, AfterSign, AfterAck, AfterFailure, AfterFirst, AfterBoth, Received, NewToSpool, Waits;
    if i == 0 {
      ArrivalNext(Auto);
    } else if i == 1 {
      SpawnNext(h0, 0);
    } else {
      DraftLegNext(h0, 0);
    }
  }

  lemma NextLegs(i: nat)
    requires 3 <= i < 6
    ensures Leads(Passed()[i], TWO_ATTEMPTS[i], Passed()[i + 1])
  {
    var h1 := AfterDraft(Received(Auto));
    var h2 := AfterSign(h1, FIRST);
    FirstHomes();
    FirstIs();
    hide Enabled, Next, AfterDraft, AfterSign, AfterAck, AfterFailure, AfterFirst, AfterBoth, Received, NewToSpool, Waits;
    if i == 3 {
      SignLegNext(h1, 0, FIRST);
    } else if i == 4 {
      AckInsideNext(h2, 0);
    } else {
      CloseLegNext(AfterAck(h2), 0);
    }
  }

  lemma FirstHomes()
    ensures var h0 := Received(Auto); var h1 := AfterDraft(h0); var h2 := AfterSign(h1, FIRST); var h3 := AfterAck(h2);
            && Waits(h0) && h1.outbox == map[] && NewToSpool(h1, FIRST)
            && h2.outbox == map[FIRST := OutboxRecord(OWNER, Q, DRAFTED, FIRST)]
            && h3.outbox == map[] && h3.log == [] && Q in h3.inbox && h3.inbox[Q] == DRAFTED
  {
    hide OutboxRecord;
  }

  lemma FirstIs()
    ensures AfterFirst() == AfterFailure(AfterAck(AfterSign(AfterDraft(Received(Auto)), FIRST)))
    ensures AfterBoth() == AfterSign(AfterDraft(AfterFirst()), SECOND)
  {
  }

  lemma SecondLegsLead(i: nat)
    requires 6 <= i < 9
    ensures Leads(Passed()[i], TWO_ATTEMPTS[i], Passed()[i + 1])
  {
    var h := AfterFirst();
    SecondLegs();
    hide Enabled, Next, AfterDraft, AfterSign, AfterAck, AfterFailure, AfterFirst, Received, NewToSpool, Waits;
    if i == 6 {
      SpawnNext(h, 1);
    } else if i == 7 {
      DraftLegNext(h, 1);
    } else {
      SignLegNext(AfterDraft(h), 1, SECOND);
    }
  }

  lemma SecondLegs()
    ensures Waits(AfterFirst()) && AfterDraft(AfterFirst()).outbox == map[] && NewToSpool(AfterDraft(AfterFirst()), SECOND)
    ensures AutoCount(AfterBoth().hist, Q) == 2
  {
    var h := Received(Auto).hist;
    assert h == [] + [Arrived(Q, Question, Some(Auto))];
    AutoCountStep([], Arrived(Q, Question, Some(Auto)), Q);
    AutoCountStep(h, DraftStored(Q), Q);
    AutoCountStep(h + [DraftStored(Q)], Signed(FIRST, Q, Question, ByScheduler), Q);
    var h3 := h + [DraftStored(Q)] + [Signed(FIRST, Q, Question, ByScheduler)];
    AutoCountStep(h3, Left(FIRST, Some(Q)), Q);
    AutoCountStep(h3 + [Left(FIRST, Some(Q))], DraftStored(Q), Q);
    AutoCountStep(h3 + [Left(FIRST, Some(Q))] + [DraftStored(Q)], Signed(SECOND, Q, Question, ByScheduler), Q);
    hide AutoCount;
  }

  lemma TwoAttemptsRun()
    ensures Run(Passed(), TWO_ATTEMPTS)
  {
    hide Leads, AfterDraft, AfterSign, AfterAck, AfterFailure, AfterFirst, AfterBoth, Received;
    forall i | 0 <= i < 9 ensures Leads(Passed()[i], TWO_ATTEMPTS[i], Passed()[i + 1]) {
      if i < 3 {
        FirstLegs(i);
      } else if i < 6 {
        NextLegs(i);
      } else {
        SecondLegsLead(i);
      }
    }
    IsRun(Passed(), TWO_ATTEMPTS);
  }

  lemma AckIsInside()
    ensures !Calm(Passed()[4], TWO_ATTEMPTS[4], Q)
  {
    var h2 := AfterSign(AfterDraft(Received(Auto)), FIRST);
    FirstHomes();
    AckInsideNext(h2, 0);
    hide AfterDraft, AfterSign, AfterAck, AfterFailure, AfterFirst, AfterBoth, Received, Calm, Enabled, Next, NewToSpool, Waits;
  }

  /** An ack between the second and the third leg of an attempt that then fails at the log puts the
      question back to pending without an envelope, and another attempt, from a scan that listed
      the record before, signs automatically a second time. */
  lemma SignedAutomaticallyTwice()
    ensures Run(Passed(), TWO_ATTEMPTS) && IntroducedOnce(TWO_ATTEMPTS, Q) && !CalmRun(Passed(), TWO_ATTEMPTS, Q)
    ensures AutoCount(Passed()[9].home.hist, Q) == 2
  {
    TwoAttemptsRun();
    AckIsInside();
    SecondLegs();
    hide Run, AfterDraft, AfterSign, AfterAck, AfterFailure, AfterFirst, AfterBoth, Received, Calm, AutoCount;
  }
}
