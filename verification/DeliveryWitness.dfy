/** A run of both homes in the order the commands take: the question reaches the responder before
    `owl ask` stores its ask (src/cli/ask.rs), and the answer is pulled and acked. */
module DeliveryWitness {
  import opened Prelude
  import opened Exchange
  import opened Machine
  import opened Witnesses
  import opened Delivery

  const ANSWER: Envelope := OutboxRecord(OWNER, Q, DRAFTED, FIRST).env

  const STORED := Record(Envelope(QUESTION, Some(ASKER)), Waiting, None, false, OWNER, None, None, false)

  const INGESTED := IngestWrites(true, true, MOVED)

  const STEPS: seq<NetStep> := [
    AtResponder(Arrival(Manual)),
    AtAsker(Ask(QUESTION, false, true), false),
    AtResponder(Step.Draft(Q, TextDraft(5), true)),
    AtResponder(Send(Q, FIRST, EVERY_WRITE)),
    AtAsker(Ingest(OWNER, ANSWER, map[Q := STORED], INGESTED), true),
    AtResponder(Ack(ASKER, FIRST, MOVED))]

  // ---- the homes passed through ----

  const ASKING := EMPTY.(asks := map[Q := STORED])

  ghost const ANSWERED := SentOne(WITH_DRAFT, OWNER, Q, FIRST, EVERY_WRITE)

  ghost const PULLED := IngestedFrom(ASKING, map[Q := STORED], OWNER, ANSWER, INGESTED).0

  function Asker(home: Home): Machine {
    Start(ASKER).(home := home)
  }

  function Responder(home: Home): Machine {
    Start(OWNER).(home := home)
  }

  ghost function Passed(): seq<Net> {
    [Begin(ASKER, OWNER),
     Net(Asker(EMPTY), Responder(Received(Manual)), {}, {}, {}, {}, {}),
     Net(Asker(ASKING), Responder(Received(Manual)), {}, {}, {}, {Q}, {}),
     Net(Asker(ASKING), Responder(WITH_DRAFT), {}, {}, {}, {Q}, {}),
     Net(Asker(ASKING), Responder(ANSWERED), {ANSWER}, {}, {}, {Q}, {}),
     Net(Asker(PULLED), Responder(ANSWERED), {ANSWER}, {FIRST}, {}, {Q}, {}),
     Net(Asker(PULLED), Responder(AckedOne(ANSWERED, ASKER, FIRST, MOVED)), {ANSWER}, {FIRST}, {ANSWER}, {Q}, {})]
  }

  ghost predicate Leads(n: Net, t: NetStep, n': Net) {
    NetEnabled(n, t) && NetNext(n, t) == n'
  }

  lemma NoEnvelopes(b: Machine)
    requires b.home.outbox == map[]
    ensures (set x | x in b.home.outbox :: b.home.outbox[x].env) == {}
  {
  }

  lemma QuietResponderStep(n: Net, s: Step, home: Home)
    requires s.Post? || s.Draft?
    requires ResponderEnabled(n, s) && Next(n.b, s) == n.b.(home := home) && home.outbox == map[]
    ensures Leads(n, AtResponder(s), n.(b := n.b.(home := home)))
  {
    NoEnvelopes(n.b.(home := home));
    hide Next, Enabled;
  }

  lemma Posts()
    ensures Leads(Passed()[0], STEPS[0], Passed()[1])
  {
    var n := Begin(ASKER, OWNER);
    ArrivalNext(Manual);
    assert Received(Manual).outbox == map[];
    hide Next, Enabled, Received;
    QuietResponderStep(n, Arrival(Manual), Received(Manual));
  }

  lemma Asks()
    ensures Leads(Passed()[1], STEPS[1], Passed()[2])
  {
    hide Received, SentUnder;
    NothingSent(Passed()[1], Q);
  }

  lemma NothingSent(n: Net, id: Id)
    requires n.sent == {}
    ensures !SentUnder(n, id)
  {
  }

  lemma Drafts()
    ensures Leads(Passed()[2], STEPS[2], Passed()[3])
  {
    DraftNext();
    assert WITH_DRAFT.outbox == map[];
    hide Next, Enabled, Received, WITH_DRAFT;
    QuietResponderStep(Passed()[2], Step.Draft(Q, TextDraft(5), true), WITH_DRAFT);
  }

  lemma AnsweredIs()
    ensures ANSWERED.outbox == map[FIRST := OutboxRecord(OWNER, Q, DRAFTED, FIRST)]
  {
    NothingExists(Q);
    hide ExistingAnswer, OutboxRecord;
  }

  lemma Sends()
    ensures Leads(Passed()[3], STEPS[3], Passed()[4])
  {
    var n, s := Passed()[3], Send(Q, FIRST, EVERY_WRITE);
    IdleIsNotBusy(n.b, Q);
    NothingSent(n, FIRST);
    AnsweredIs();
    assert NewToSpool(WITH_DRAFT, FIRST) && NewToSpool(ASKING, FIRST);
    hide SentOne, ANSWERED, Busy, SentUnder, NewToSpool;
    assert Next(n.b, s).home == ANSWERED;
    OneEnvelope(Next(n.b, s));
  }

  lemma OneEnvelope(b: Machine)
    requires b.home.outbox == map[FIRST := OutboxRecord(OWNER, Q, DRAFTED, FIRST)]
    ensures (set x | x in b.home.outbox :: b.home.outbox[x].env) == {ANSWER}
  {
    assert FIRST in b.home.outbox;
  }

  lemma Ingests()
    ensures Leads(Passed()[4], STEPS[4], Passed()[5])
    ensures Held(PULLED, ANSWER)
  {
    var n := Passed()[4];
    var s := Ingest(OWNER, ANSWER, map[Q := STORED], INGESTED);
    IdleIsNotBusy(n.a, FIRST);
    hide Busy, ANSWERED;
    assert ListedBefore(ASKING, map[Q := STORED]);
    assert IngestedFrom(ASKING, s.open, s.contact, s.env, s.ingest).1 == Ingested;
  }

  lemma Acks()
    ensures Leads(Passed()[5], STEPS[5], Passed()[6])
  {
    var n, s := Passed()[5], Ack(ASKER, FIRST, MOVED);
    AnsweredIs();
    NoEnvelopesLeft();
    hide ANSWERED, PULLED, Busy;
  }

  lemma NoEnvelopesLeft()
    ensures var b := Responder(AckedOne(ANSWERED, ASKER, FIRST, MOVED));
            (set x | x in b.home.outbox :: b.home.outbox[x].env) == {}
  {
    AnsweredIs();
    hide ANSWERED;
  }

  lemma IsNetRun(ns: seq<Net>, steps: seq<NetStep>)
    requires |ns| == |steps| + 1 && ns[0] == Begin(ns[0].a.own, ns[0].b.own)
    requires forall i :: 0 <= i < |steps| ==> Leads(ns[i], steps[i], ns[i + 1])
    ensures NetRun(ns, steps)
  {
    hide NetEnabled, NetNext;
    forall i | 0 <= i < |steps| ensures NetEnabled(ns[i], steps[i]) && ns[i + 1] == NetNext(ns[i], steps[i]) {
      assert Leads(ns[i], steps[i], ns[i + 1]);
    }
  }

  lemma StepsLead()
    ensures |STEPS| == 6 && |Passed()| == 7
    ensures forall i :: 0 <= i < |STEPS| ==> Leads(Passed()[i], STEPS[i], Passed()[i + 1])
  {
    hide Leads, Passed;
    PassedSeven();
    Posts();
    Asks();
    Drafts();
    Sends();
    Ingests();
    Acks();
  }

  lemma PassedSeven()
    ensures |Passed()| == 7
  {
    hide ANSWERED, PULLED;
  }

  lemma LastNet()
    ensures |Passed()| == 7 && Passed()[0] == Begin(ASKER, OWNER)
    ensures var n := Passed()[6];
            n.acked == {ANSWER} && n.asked == {Q} && Q !in n.a.home.asks && Held(n.a.home, ANSWER)
  {
    Ingests();
    assert Q !in PULLED.asks;
    hide ANSWERED, PULLED, Leads, Held;
  }

  /** Post, ask, draft, send, pull, ack: the answer is acked, held by the asker as it was sent, and
      the ask is closed by it. */
  lemma AskedAndAcked()
    ensures NetRun(Passed(), STEPS)
    ensures Passed()[6].acked == {ANSWER} && Q in Passed()[6].asked && Q !in Passed()[6].a.home.asks
    ensures Held(Passed()[6].a.home, ANSWER)
  {
    StepsLead();
    hide Passed, STEPS, Leads;
    LastNet();
    IsNetRun(Passed(), STEPS);
  }
}
