/** Who gets an answer: consent over whole runs (src/server.rs, src/auto.rs, src/cli/allow.rs,
    src/cli/draft.rs, src/answer.rs). */
module Consent {
  import opened Prelude
  import opened Exchange
  import opened Machine
  import Attempts
  import OneRequest

  // ---- reading a history ----

  /** Where the history of `id` stands since its last arrival: held, open to drafting, drafted. */
  datatype Stage = Unknown | Held | Open | Ready

  predicate OpensOnArrival(kind: Kind, mode: Option<Mode>) {
    kind == Question && MayReadCache(mode)
  }

  function StageAfter(stage: Stage, e: Event, id: Id): Stage {
    match e
    case Arrived(x, kind, mode) => if x != id then stage else if OpensOnArrival(kind, mode) then Open else Held
    case Allowed(x) => if x == id && stage == Held then Open else stage
    case DraftStored(x) => if x == id && stage == Open then Ready else stage
    case _ => stage
  }

  function StageOf(hist: seq<Event>, id: Id): Stage {
    if hist == [] then Unknown else StageAfter(StageOf(hist[..|hist| - 1], id), hist[|hist| - 1], id)
  }

  /** The kind of the last request that arrived under `id`. */
  function LastKind(hist: seq<Event>, id: Id): Option<Kind> {
    if hist == [] then None
    else
      var e := hist[|hist| - 1];
      if e.Arrived? && e.id == id then Some(e.kind) else LastKind(hist[..|hist| - 1], id)
  }

  predicate EventProper(hist: seq<Event>, e: Event) {
    match e
    case Signed(_, id, kind, via) =>
      StageOf(hist, id) == Ready && LastKind(hist, id) == Some(kind) && (kind != Question ==> via == ByHuman)
    case Logged(_, kind, via) => kind != Question ==> via == ByHuman
    case ServedFromCache(_, mode) => MayReadCache(mode)
    case _ => true
  }

  predicate HistoryProper(hist: seq<Event>) {
    hist == [] || (HistoryProper(hist[..|hist| - 1]) && EventProper(hist[..|hist| - 1], hist[|hist| - 1]))
  }

  lemma Append(hist: seq<Event>, e: Event, id: Id)
    ensures StageOf(hist + [e], id) == StageAfter(StageOf(hist, id), e, id)
    ensures LastKind(hist + [e], id) == if e.Arrived? && e.id == id then Some(e.kind) else LastKind(hist, id)
    ensures HistoryProper(hist + [e]) <==> HistoryProper(hist) && EventProper(hist, e)
  {
    assert (hist + [e])[..|hist|] == hist;
  }

  // ---- what the stage of a record says about its history ----

  predicate NoArrival(hist: seq<Event>, id: Id, from: nat) {
    forall i :: from <= i < |hist| ==> !(hist[i].Arrived? && hist[i].id == id)
  }

  /** `r` is the last arrival of `id`, and from there on the record may be drafted: at once, or
      since the owner allowed it at some point before `before`. */
  predicate OpenedBy(hist: seq<Event>, id: Id, r: nat, before: nat) {
    && r < |hist| && hist[r].Arrived? && hist[r].id == id && NoArrival(hist, id, r + 1)
    && (OpensOnArrival(hist[r].kind, hist[r].mode)
        || exists a :: r < a < before && a < |hist| && hist[a] == Allowed(id))
  }

  lemma {:induction false} OpenMeans(hist: seq<Event>, id: Id) returns (r: nat)
    requires StageOf(hist, id) == Open || StageOf(hist, id) == Ready
    ensures OpenedBy(hist, id, r, |hist|) && LastKind(hist, id) == Some(hist[r].kind)
  {
    var before, e := hist[..|hist| - 1], hist[|hist| - 1];
    if e.Arrived? && e.id == id {
      r := |hist| - 1;
    } else if StageOf(before, id) == Held {
      r := HeldMeans(before, id);
      assert hist[|hist| - 1] == Allowed(id);
    } else {
      r := OpenMeans(before, id);
      if a :| r < a < |before| && before[a] == Allowed(id) {
        assert hist[a] == Allowed(id);
      }
    }
  }

  lemma {:induction false} HeldMeans(hist: seq<Event>, id: Id) returns (r: nat)
    requires StageOf(hist, id) == Held
    ensures r < |hist| && hist[r].Arrived? && hist[r].id == id && NoArrival(hist, id, r + 1)
    ensures LastKind(hist, id) == Some(hist[r].kind)
  {
    var before, e := hist[..|hist| - 1], hist[|hist| - 1];
    if e.Arrived? && e.id == id {
      r := |hist| - 1;
    } else {
      r := HeldMeans(before, id);
    }
  }

  /** Arrival `r`, the owner's release where one is needed, then the draft `d`, in this order. */
  predicate DraftedWithConsent(hist: seq<Event>, id: Id, r: nat, d: nat) {
    && OpenedBy(hist, id, r, d) && r < d < |hist| && hist[d] == DraftStored(id)
    && LastKind(hist, id) == Some(hist[r].kind)
  }

  lemma {:induction false} ReadyMeans(hist: seq<Event>, id: Id) returns (r: nat, d: nat)
    requires StageOf(hist, id) == Ready
    ensures DraftedWithConsent(hist, id, r, d)
  {
    var before, e := hist[..|hist| - 1], hist[|hist| - 1];
    if StageOf(before, id) == Open {
      r := OpenMeans(before, id);
      d := |hist| - 1;
      if a :| r < a < |before| && before[a] == Allowed(id) {
        assert hist[a] == Allowed(id);
      }
    } else {
      r, d := ReadyMeans(before, id);
      if a :| r < a < d && a < |before| && before[a] == Allowed(id) {
        assert hist[a] == Allowed(id);
      }
    }
  }

  // ---- the records agree with the history ----

  ghost predicate RecordAgrees(hist: seq<Event>, id: Id, rec: Record) {
    IsRequest(rec.env.payload.kind) ==>
      && LastKind(hist, id) == Some(rec.env.payload.kind)
      && match rec.state
         case Consent => StageOf(hist, id) == Held
         case Pending => StageOf(hist, id) == Open || StageOf(hist, id) == Ready
         case Drafted => StageOf(hist, id) == Ready
         case _ => false
  }

  ghost predicate Agrees(h: Home) {
    && HistoryProper(h.hist)
    && forall id :: id in h.inbox ==>
         RecordAgrees(h.hist, id, h.inbox[id]) && (h.inbox[id].state == Consent ==> IsRequest(h.inbox[id].env.payload.kind))
  }

  /** One event that concerns `x`, and a record of `x` written or gone. */
  lemma EventStep(h: Home, h': Home, e: Event, x: Id)
    requires Agrees(h) && h'.hist == h.hist + [e] && EventProper(h.hist, e)
    requires forall id :: id in h'.inbox && id != x ==> id in h.inbox && h'.inbox[id] == h.inbox[id]
    requires x in h'.inbox ==>
      RecordAgrees(h'.hist, x, h'.inbox[x]) && (h'.inbox[x].state == Consent ==> IsRequest(h'.inbox[x].env.payload.kind))
    requires forall id :: id != x ==> StageAfter(StageOf(h.hist, id), e, id) == StageOf(h.hist, id)
    requires e.Arrived? ==> e.id == x
    ensures Agrees(h')
  {
    Append(h.hist, e, x);
    forall id | id in h'.inbox && id != x ensures RecordAgrees(h'.hist, id, h'.inbox[id]) {
      Append(h.hist, e, id);
    }
  }

  /** No event: the record of `x` is rewritten or gone. */
  lemma RecordStep(h: Home, h': Home, x: Id)
    requires Agrees(h) && h'.hist == h.hist
    requires forall id :: id in h'.inbox && id != x ==> id in h.inbox && h'.inbox[id] == h.inbox[id]
    requires x in h'.inbox ==>
      RecordAgrees(h.hist, x, h'.inbox[x]) && (h'.inbox[x].state == Consent ==> IsRequest(h'.inbox[x].env.payload.kind))
    ensures Agrees(h')
  {
  }

  lemma CachedAgrees(h: Home, id: Id, mode: Option<Mode>)
    requires Agrees(h) && MayReadCache(mode)
    ensures Agrees(h.(hist := h.hist + [ServedFromCache(id, mode)]))
  {
    var e := ServedFromCache(id, mode);
    Append(h.hist, e, id);
    assert id in h.inbox ==> RecordAgrees(h.hist, id, h.inbox[id]);
    hide HistoryProper, StageOf, LastKind, MayReadCache;
    EventStep(h, h.(hist := h.hist + [e]), e, id);
  }

  lemma SpooledAgrees(h: Home, env: Envelope, mode: Option<Mode>)
    requires Agrees(h) && IsRequest(env.payload.kind) && mode != Some(Never)
    ensures var p := env.payload;
            var rec := Record(env, RecordStateFor(p.kind, mode), None, false, p.from, None, None, false);
            Agrees(h.(inbox := h.inbox[p.id := rec], hist := h.hist + [Arrived(p.id, p.kind, mode)]))
  {
    var p := env.payload;
    var rec := Record(env, RecordStateFor(p.kind, mode), None, false, p.from, None, None, false);
    var e := Arrived(p.id, p.kind, mode);
    Append(h.hist, e, p.id);
    ArrivalAgrees(h.hist + [e], env, mode);
    hide HistoryProper, StageOf, LastKind, RecordStateFor, OpensOnArrival, RecordAgrees;
    EventStep(h, h.(inbox := h.inbox[p.id := rec], hist := h.hist + [e]), e, p.id);
  }

  lemma PostedAgrees(h: Home, own: Peer, env: Envelope, mode: Option<Mode>, enabled: bool, spooled: bool, remembered: bool)
    requires Agrees(h)
    ensures Agrees(Posted(h, own, env, mode, enabled, spooled, remembered))
  {
    hide Agrees, ThreadKnown, RecordStateFor, MayReadCache;
    if MayReadCache(mode) {
      CachedAgrees(h, env.payload.id, mode);
    }
    if IsRequest(env.payload.kind) && mode != Some(Never) {
      SpooledAgrees(h, env, mode);
    }
  }

  lemma ArrivalAgrees(hist: seq<Event>, env: Envelope, mode: Option<Mode>)
    requires IsRequest(env.payload.kind) && mode != Some(Never)
    requires LastKind(hist, env.payload.id) == Some(env.payload.kind)
    requires StageOf(hist, env.payload.id) == if OpensOnArrival(env.payload.kind, mode) then Open else Held
    ensures var p := env.payload;
            RecordAgrees(hist, p.id, Record(env, RecordStateFor(p.kind, mode), None, false, p.from, None, None, false))
  {
    if mode.Some? {
      assert mode.value == Manual || mode.value == Auto;
    }
  }

  lemma AllowAgrees(h: Home, id: Id, peer: Peer, ok: bool)
    requires Agrees(h)
    ensures Agrees(AllowedOne(h, id, peer, ok))
  {
    var h' := AllowedOne(h, id, peer, ok);
    if h'.hist != h.hist {
      assert RecordAgrees(h.hist, id, h.inbox[id]);
      Append(h.hist, Allowed(id), id);
      hide HistoryProper, StageOf, LastKind;
      EventStep(h, h', Allowed(id), id);
    }
  }

  lemma DraftAgrees(h: Home, id: Id, d: Exchange.Draft, ok: bool)
    requires Agrees(h)
    ensures Agrees(DraftedOne(h, id, d, ok))
  {
    var h' := DraftedOne(h, id, d, ok);
    hide ExistingAnswer;
    if h'.hist != h.hist {
      assert RecordAgrees(h.hist, id, h.inbox[id]);
      Append(h.hist, DraftStored(id), id);
      hide HistoryProper, StageOf, LastKind;
      EventStep(h, h', DraftStored(id), id);
    }
  }

  lemma EditAgrees(h: Home, id: Id, text: Option<Text>, ok: bool)
    requires Agrees(h)
    ensures Agrees(EditedOne(h, id, text, ok))
  {
    assert id in h.inbox ==> RecordAgrees(h.hist, id, h.inbox[id]);
    hide HistoryProper, StageOf, LastKind, ExistingAnswer;
    RecordStep(h, EditedOne(h, id, text, ok), id);
  }

  lemma CommandAgrees(h: Home, own: Peer, s: Step)
    requires Agrees(h) && (s.Allow? || s.Draft? || s.Edit?)
    ensures Agrees(Local(h, own, s))
  {
    hide Agrees, AllowedOne, DraftedOne, EditedOne;
    match s {
      case Allow(id, peer, ok) => AllowAgrees(h, id, peer, ok);
      case Draft(id, d, ok) => DraftAgrees(h, id, d, ok);
      case Edit(id, text, ok) => EditAgrees(h, id, text, ok);
    }
  }

  // ---- `send`, by hand or by the scheduler ----

  lemma SignPartAgrees(h: Home, own: Peer, id: Id, rec: Record, via: SendMode, newId: Id, w: SendWrites)
    requires Agrees(h) && id in h.inbox && h.inbox[id] == rec && (rec.env.payload.kind != Question ==> via == ByHuman)
    ensures var h' := SignPart(h, own, id, rec, via, newId, w).0; Agrees(h') && h'.inbox == h.inbox
  {
    var h' := SignPart(h, own, id, rec, via, newId, w).0;
    hide SignPart, ExistingAnswer;
    SignPartShape(h, own, id, rec, via, newId, w);
    if h'.hist != h.hist {
      var e := Signed(newId, id, rec.env.payload.kind, via);
      assert RecordAgrees(h.hist, id, rec);
      Append(h.hist, e, id);
      hide HistoryProper, StageOf, LastKind;
      EventStep(h, h', e, id);
    }
  }

  lemma FinishedAgrees(h: Home, id: Id, rec: Record, state: State, answer: Option<Id>, w: FinishWrites)
    requires Agrees(h)
    ensures Agrees(Finished(h, id, rec, state, answer, w).0)
  {
    hide HistoryProper, StageOf, LastKind, RecordAgrees;
  }

  lemma LoggedAgrees(h: Home, id: Id, kind: Kind, via: SendMode, line: LogLine)
    requires Agrees(h) && id in h.inbox && h.inbox[id].env.payload.kind == kind && (kind != Question ==> via == ByHuman)
    ensures Agrees(h.(log := h.log + [line], hist := h.hist + [Logged(id, kind, via)]))
  {
    assert RecordAgrees(h.hist, id, h.inbox[id]);
    Append(h.hist, Logged(id, kind, via), id);
    hide HistoryProper, StageOf, LastKind;
    EventStep(h, h.(log := h.log + [line], hist := h.hist + [Logged(id, kind, via)]), Logged(id, kind, via), id);
  }

  lemma ClosePartAgrees(h: Home, id: Id, rec: Record, via: SendMode, answer: Id, w: SendWrites)
    requires Agrees(h) && id in h.inbox && (rec.env.payload.kind != Question ==> via == ByHuman)
    requires h.inbox[id].env == rec.env
    ensures Agrees(ClosePart(h, id, rec, via, answer, w).0)
  {
    hide Agrees, Finished, HasLine;
    var line := LogLine(rec.env.payload.from, id, via);
    LoggedAgrees(h, id, rec.env.payload.kind, via, line);
    var logged := h.(log := h.log + [line], hist := h.hist + [Logged(id, rec.env.payload.kind, via)]);
    FinishedAgrees(h, id, rec, Answered, Some(answer), w.finish);
    FinishedAgrees(logged, id, rec, Answered, Some(answer), w.finish);
  }

  lemma SentAgrees(h: Home, own: Peer, s: Step)
    requires Agrees(h) && s.Send?
    ensures Agrees(Local(h, own, s))
  {
    hide Agrees, SignPart, ClosePart;
    if s.id in h.inbox {
      var rec := h.inbox[s.id];
      SignPartAgrees(h, own, s.id, rec, ByHuman, s.newId, s.send);
      var (signed, answer) := SignPart(h, own, s.id, rec, ByHuman, s.newId, s.send);
      if answer.Some? {
        ClosePartAgrees(signed, s.id, rec, ByHuman, answer.value, s.send);
      }
    }
  }

  // ---- the other commands ----

  lemma LeftAgrees(h: Home, h': Home, e: Event)
    requires Agrees(h) && h'.inbox == h.inbox && h'.hist == h.hist + [e] && e.Left?
    ensures Agrees(h')
  {
    forall id | id in h'.inbox ensures RecordAgrees(h'.hist, id, h'.inbox[id]) {
      Append(h.hist, e, id);
    }
    Append(h.hist, e, 0);
  }

  lemma MovedOutAgrees(h: Home, a: Id, state: State, w: MoveWrites)
    requires Agrees(h) && a in h.outbox
    ensures Agrees(MovedOut(h, a, state, w))
  {
    hide Agrees;
    if w.move {
      LeftAgrees(h, MovedOut(h, a, state, w), Left(a, h.outbox[a].question));
    }
  }

  lemma AskClosedAgrees(h: Home, id: Id, state: State, w: MoveWrites)
    requires Agrees(h) && id in h.asks
    ensures Agrees(AskClosed(h, id, state, w).0)
  {
    hide HistoryProper, StageOf, LastKind, RecordAgrees;
  }

  lemma StoredAgrees(h: Home, env: Envelope, rec: Record)
    requires Agrees(h) && !IsRequest(rec.env.payload.kind) && rec.state != Consent
    ensures Agrees(h.(inbox := h.inbox[env.payload.id := rec]))
  {
    hide HistoryProper, StageOf, LastKind;
    RecordStep(h, h.(inbox := h.inbox[env.payload.id := rec]), env.payload.id);
  }

  lemma SameInboxAgrees(h: Home, h': Home)
    requires Agrees(h) && h'.inbox == h.inbox && h'.hist == h.hist
    ensures Agrees(h')
  {
    hide HistoryProper, StageOf, LastKind, RecordAgrees;
  }

  lemma IngestedAgrees(h: Home, open: map<Id, Record>, contact: Peer, env: Envelope, w: IngestWrites)
    requires Agrees(h)
    ensures Agrees(IngestedFrom(h, open, contact, env, w).0)
  {
    var h' := IngestedFrom(h, open, contact, env, w).0;
    var rec := Record(env, Pending, None, false, contact, None, None, false);
    if VerdictOn(open, contact, env) == Ingested && w.inbox {
      StoredAgrees(h, env, rec);
      hide Agrees;
      SameInboxAgrees(h.(inbox := h.inbox[env.payload.id := rec]), h');
    }
  }

  lemma SameHistoryAgrees(h: Home, own: Peer, s: Step)
    requires Agrees(h) && (s.Deny? || s.Reject? || s.Ask? || s.Decline?)
    ensures Agrees(Local(h, own, s))
  {
    if s.Ask? {
      hide HistoryProper, StageOf, LastKind, RecordAgrees;
    } else {
      hide Agrees, Finished, AskClosed;
      match s {
        case Deny(id, _, w) => if id in h.inbox { FinishedAgrees(h, id, h.inbox[id], State.Denied, h.inbox[id].answer, w); }
        case Reject(id, w) => if id in h.inbox { FinishedAgrees(h, id, h.inbox[id], State.Rejected, h.inbox[id].answer, w); }
        case Decline(id, w) => if id in h.asks { AskClosedAgrees(h, id, State.Declined, w); }
      }
    }
  }

  lemma OtherAgrees(h: Home, own: Peer, s: Step)
    requires Agrees(h) && (s.Deny? || s.Reject? || s.Ack? || s.Expire? || s.Ask? || s.Ingest? || s.Decline?)
    ensures Agrees(Local(h, own, s))
  {
    hide Agrees, MovedOut, IngestedFrom;
    match s {
      case Ack(_, a, w) => if a in h.outbox { MovedOutAgrees(h, a, Acked, w); }
      case Expire(a, w) => if a in h.outbox { MovedOutAgrees(h, a, State.Expired, w); }
      case Ingest(contact, env, open, w) => IngestedAgrees(h, open, contact, env, w);
      case _ => SameHistoryAgrees(h, own, s);
    }
  }

  // ---- the attempts ----

  lemma FailedSendAgrees(h: Home, id: Id, ok: bool)
    requires Agrees(h) && (id in h.inbox ==> h.inbox[id].state == Drafted)
    ensures Agrees(AfterFailedSend(h, id, ok))
  {
    assert id in h.inbox ==> RecordAgrees(h.hist, id, h.inbox[id]);
    hide HistoryProper, StageOf, LastKind, ExistingAnswer;
    RecordStep(h, AfterFailedSend(h, id, ok), id);
  }

  lemma StoredDraftAgrees(h: Home, id: Id, rec: Record)
    requires Agrees(h) && id in h.inbox && h.inbox[id].state == Pending
    requires rec.env == h.inbox[id].env && rec.state == Drafted
    ensures Agrees(h.(inbox := h.inbox[id := rec], hist := h.hist + [DraftStored(id)]))
  {
    assert RecordAgrees(h.hist, id, h.inbox[id]);
    Append(h.hist, DraftStored(id), id);
    hide HistoryProper, StageOf, LastKind;
    EventStep(h, h.(inbox := h.inbox[id := rec], hist := h.hist + [DraftStored(id)]), DraftStored(id), id);
  }

  lemma NotedFailureAgrees(h: Home, id: Id, ok: bool)
    requires Agrees(h) && id in h.inbox && h.inbox[id].state == Pending
    ensures Agrees(Rewritten(h, id, FailedRecord(h.inbox[id]), ok))
  {
    assert RecordAgrees(h.hist, id, h.inbox[id]);
    hide HistoryProper, StageOf, LastKind;
    RecordStep(h, Rewritten(h, id, FailedRecord(h.inbox[id]), ok), id);
  }

  lemma AutoDraftedAgrees(m: Machine, s: Step)
    requires Agrees(m.home) && Enabled(m, s) && s.AutoDraft?
    ensures Agrees(Next(m, s).home)
  {
    var h, id := m.home, m.running[s.task].id;
    hide Agrees, Rewritten, FailedRecord;
    if id in h.inbox && h.inbox[id].state == Pending {
      NotedFailureAgrees(h, id, s.ok);
      if s.drafted.Some? {
        StoredDraftAgrees(h, id, WithDraft(h.inbox[id], TextDraft(s.drafted.value)));
      }
    }
  }

  lemma AutoSentAgrees(m: Machine, s: Step)
    requires Agrees(m.home) && Enabled(m, s) && (s.AutoSign? || s.AutoClose?) && Attempts.HoldsRecord(m, s.task)
    ensures Agrees(Next(m, s).home)
  {
    var h, t := m.home, m.running[s.task];
    var rec := t.phase.rec;
    hide Agrees, SignPart, AfterFailedSend;
    if s.AutoSign? {
      SignPartAgrees(h, m.own, t.id, rec, ByScheduler, s.newId, s.send);
      FailedSendAgrees(SignPart(h, m.own, t.id, rec, ByScheduler, s.newId, s.send).0, t.id, s.ok);
    } else {
      ClosePartAgrees(h, t.id, rec, ByScheduler, t.phase.answer, s.send);
      OneRequest.CloseMoves(h, t.id, rec, ByScheduler, t.phase.answer, s.send);
      hide ClosePart;
      FailedSendAgrees(ClosePart(h, t.id, rec, ByScheduler, t.phase.answer, s.send).0, t.id, s.ok);
    }
  }

  lemma StepAgrees(m: Machine, s: Step)
    requires Agrees(m.home) && Enabled(m, s) && Attempts.Scheduled(m)
    ensures Agrees(Next(m, s).home)
  {
    assert (s.AutoSign? || s.AutoClose?) ==> Attempts.HoldsRecord(m, s.task);
    hide Agrees, Attempts.HoldsRecord, Attempts.Scheduled;
    if s.Post? {
      PostedAgrees(m.home, m.own, s.env, s.mode, s.enabled, s.spooled, s.remembered);
    } else if s.Allow? || s.Draft? || s.Edit? {
      CommandAgrees(m.home, m.own, s);
    } else if s.Send? {
      SentAgrees(m.home, m.own, s);
    } else if s.AutoDraft? {
      AutoDraftedAgrees(m, s);
    } else if s.AutoSign? || s.AutoClose? {
      AutoSentAgrees(m, s);
    } else if !s.Spawn? {
      OtherAgrees(m.home, m.own, s);
    }
  }

  lemma {:induction false} EveryRunAgrees(ms: seq<Machine>, steps: seq<Step>, i: nat)
    requires Run(ms, steps) && i <= |steps|
    ensures Agrees(ms[i].home)
    decreases i
  {
    if i > 0 {
      EveryRunAgrees(ms, steps, i - 1);
      Attempts.AttemptsNeverOverlap(ms, steps, i - 1);
      StepAgrees(ms[i - 1], steps[i - 1]);
    }
  }

  // ---- the guarantee ----

  lemma {:induction false} EventWasProper(hist: seq<Event>, k: nat)
    requires HistoryProper(hist) && k < |hist|
    ensures EventProper(hist[..k], hist[k])
    decreases |hist|
  {
    var before := hist[..|hist| - 1];
    if k < |before| {
      EventWasProper(before, k);
      assert before[..k] == hist[..k];
    }
  }

  /** In every run: a request that is pending has its arrival in the history and, unless it opened
      on arrival, the owner's release after it; a drafted one also its draft after that. */
  lemma OpenWasConsented(ms: seq<Machine>, steps: seq<Step>, i: nat, id: Id)
    requires Run(ms, steps) && i <= |steps|
    requires id in ms[i].home.inbox && IsRequest(ms[i].home.inbox[id].env.payload.kind)
    ensures var hist, rec := ms[i].home.hist, ms[i].home.inbox[id];
            && (rec.state == Pending ==> exists r: nat :: OpenedBy(hist, id, r, |hist|) && hist[r].kind == rec.env.payload.kind)
            && (rec.state == Drafted ==>
                  exists r: nat, d: nat :: DraftedWithConsent(hist, id, r, d) && hist[r].kind == rec.env.payload.kind)
  {
    EveryRunAgrees(ms, steps, i);
    var hist := ms[i].home.hist;
    assert RecordAgrees(hist, id, ms[i].home.inbox[id]);
    if StageOf(hist, id) == Open || StageOf(hist, id) == Ready {
      var r := OpenMeans(hist, id);
      if StageOf(hist, id) == Ready {
        var r', d := ReadyMeans(hist, id);
      }
    }
  }

  /** In every run: each signed reply was preceded by the request's arrival, by `owl allow`
      after it unless the request is a question from a peer under policy manual or auto, and by
      a draft after that; a reply to a content or tool request is sent by hand and never logged
      as automatic; and a cached reply only goes to a peer under policy manual or auto. */
  lemma NoReplyWithoutConsent(ms: seq<Machine>, steps: seq<Step>, i: nat, k: nat)
    requires Run(ms, steps) && i <= |steps| && k < |ms[i].home.hist|
    ensures var hist := ms[i].home.hist;
            match hist[k]
            case Signed(_, id, kind, via) =>
              && (exists r: nat, d: nat :: DraftedWithConsent(hist[..k], id, r, d) && hist[r].kind == kind)
              && (kind != Question ==> via == ByHuman)
            case Logged(_, kind, via) => kind != Question ==> via == ByHuman
            case ServedFromCache(_, mode) => mode == Some(Manual) || mode == Some(Auto)
            case _ => true
  {
    var hist := ms[i].home.hist;
    EveryRunAgrees(ms, steps, i);
    EventWasProper(hist, k);
    if hist[k].Signed? {
      var r, d := ReadyMeans(hist[..k], hist[k].id);
      assert DraftedWithConsent(hist[..k], hist[k].id, r, d);
    }
  }
}
