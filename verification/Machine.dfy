/** One home with its daemon: the spool, the automatic attempts under way (src/auto.rs), and
    every step that can happen to them. */
module Machine {
  import opened Prelude
  import opened Exchange

  // ---- the auto-accept scheduler ----

  /** Where an attempt stands: spawned; its drafted record is in `inbox/`; its answer is chosen
      and, when new, in `outbox/`. */
  datatype Phase = Claimed | HasDraft(rec: Record) | HasAnswer(rec: Record, answer: Id)

  datatype Task = Task(id: Id, phase: Phase)

  type TaskId = nat

  /** `running`: the spawned attempts; `inFlight`: the scheduler's set of claimed records. */
  datatype Machine = Machine(own: Peer, home: Home, running: map<TaskId, Task>, inFlight: set<Id>)

  function Start(own: Peer): Machine {
    Machine(own, EMPTY, map[], {})
  }

  /** `not_a_candidate`, negated: pending, a question, and the peer's policy is auto now. */
  predicate Candidate(rec: Record, mode: Option<Mode>, enabled: bool) {
    rec.state == Pending && rec.env.payload.kind == Question && enabled && mode == Some(Auto)
  }

  /** A trigger or a scan: nothing happens when the record is claimed already. */
  function Spawned(m: Machine, t: TaskId, id: Id): Machine {
    if id in m.inFlight then m
    else m.(running := m.running[t := Task(id, Claimed)], inFlight := m.inFlight + {id})
  }

  function Ended(m: Machine, t: TaskId, home: Home): Machine
    requires t in m.running
  {
    Machine(m.own, home, m.running - {t}, m.inFlight - {m.running[t].id})
  }

  /** `fail`: pending again, without a draft, with the reason noted. */
  function FailedRecord(rec: Record): Record {
    rec.(state := Pending, draft := None, autoError := true)
  }

  function Rewritten(h: Home, id: Id, rec: Record, ok: bool): Home {
    if ok then h.(inbox := h.inbox[id := rec]) else h
  }

  /** The error path of `attempt` after `send` failed: an envelope in `outbox/` keeps the
      record drafted, otherwise it goes back to pending. */
  ghost function AfterFailedSend(h: Home, id: Id, ok: bool): Home {
    if id !in h.inbox then h
    else if ExistingAnswer(h.outbox, id).Some? then Rewritten(h, id, h.inbox[id].(autoError := true), ok)
    else Rewritten(h, id, FailedRecord(h.inbox[id]), ok)
  }

  /** First leg of an attempt: read the record, check it, draft (`None`: the runner failed or
      gave nothing usable), write the drafted record. */
  function AutoDrafted(m: Machine, t: TaskId, mode: Option<Mode>, enabled: bool, text: Option<Text>, ok: bool): Machine
    requires t in m.running
  {
    var h, id := m.home, m.running[t].id;
    if id !in h.inbox || !Candidate(h.inbox[id], mode, enabled) then Ended(m, t, h)
    else if text.None? then Ended(m, t, Rewritten(h, id, FailedRecord(h.inbox[id]), ok))
    else if !ok then Ended(m, t, h)
    else
      var rec := WithDraft(h.inbox[id], TextDraft(text.value));
      m.(home := h.(inbox := h.inbox[id := rec], hist := h.hist + [DraftStored(id)]),
         running := m.running[t := Task(id, HasDraft(rec))])
  }

  ghost function AutoSigned(m: Machine, t: TaskId, newId: Id, w: SendWrites, ok: bool): Machine
    requires t in m.running && m.running[t].phase.HasDraft?
  {
    var id, rec := m.running[t].id, m.running[t].phase.rec;
    var (h, answer) := SignPart(m.home, m.own, id, rec, ByScheduler, newId, w);
    if answer.None? then Ended(m, t, AfterFailedSend(h, id, ok))
    else m.(home := h, running := m.running[t := Task(id, HasAnswer(rec, answer.value))])
  }

  ghost function AutoClosed(m: Machine, t: TaskId, w: SendWrites, ok: bool): Machine
    requires t in m.running && m.running[t].phase.HasAnswer?
  {
    var id, rec := m.running[t].id, m.running[t].phase.rec;
    var (h, done) := ClosePart(m.home, id, rec, ByScheduler, m.running[t].phase.answer, w);
    Ended(m, t, if done then h else AfterFailedSend(h, id, ok))
  }

  // ---- every step ----

  datatype Step =
    | Post(env: Envelope, mode: Option<Mode>, enabled: bool, spooled: bool, remembered: bool)
    | Allow(id: Id, peer: Peer, ok: bool)
    | Deny(id: Id, peer: Peer, finish: FinishWrites)
    | Reject(id: Id, finish: FinishWrites)
    | Draft(id: Id, draft: Exchange.Draft, ok: bool)
    | Edit(id: Id, text: Option<Text>, ok: bool)
    | Send(id: Id, newId: Id, send: SendWrites)
    | Ack(caller: Peer, answer: Id, move: MoveWrites)
    | Expire(answer: Id, move: MoveWrites)
    | Ask(payload: Payload, threaded: bool, ok: bool)
    | Ingest(contact: Peer, env: Envelope, open: map<Id, Record>, ingest: IngestWrites)
    | Decline(id: Id, move: MoveWrites)
    | Spawn(task: TaskId, id: Id)
    | AutoDraft(task: TaskId, mode: Option<Mode>, enabled: bool, drafted: Option<Text>, ok: bool)
    | AutoSign(task: TaskId, newId: Id, send: SendWrites, ok: bool)
    | AutoClose(task: TaskId, send: SendWrites, ok: bool)

  ghost function Local(h: Home, own: Peer, s: Step): Home {
    match s
    case Post(env, mode, enabled, spooled, remembered) => Posted(h, own, env, mode, enabled, spooled, remembered)
    case Allow(id, peer, ok) => AllowedOne(h, id, peer, ok)
    case Deny(id, peer, w) => DeniedOne(h, id, peer, w)
    case Reject(id, w) => RejectedOne(h, id, w)
    case Draft(id, d, ok) => DraftedOne(h, id, d, ok)
    case Edit(id, text, ok) => EditedOne(h, id, text, ok)
    case Send(id, newId, w) => SentOne(h, own, id, newId, w)
    case Ack(caller, a, w) => AckedOne(h, caller, a, w)
    case Expire(a, w) => ExpiredOne(h, a, w)
    case Ask(p, threaded, ok) => Asked(h, own, p, threaded, ok)
    case Ingest(contact, env, open, w) => IngestedFrom(h, open, contact, env, w).0
    case Decline(id, w) => DeclinedOne(h, id, w)
    case _ => h
  }

  predicate IsAuto(s: Step) {
    s.Spawn? || s.AutoDraft? || s.AutoSign? || s.AutoClose?
  }

  ghost function Next(m: Machine, s: Step): Machine
    requires Enabled(m, s)
  {
    match s
    case Spawn(t, id) => Spawned(m, t, id)
    case AutoDraft(t, mode, enabled, text, ok) => AutoDrafted(m, t, mode, enabled, text, ok)
    case AutoSign(t, newId, w, ok) => AutoSigned(m, t, newId, w, ok)
    case AutoClose(t, w, ok) => AutoClosed(m, t, w, ok)
    case _ => m.(home := Local(m.home, m.own, s))
  }

  /** A record an attempt has read and not finished with. */
  ghost predicate Busy(m: Machine, id: Id) {
    exists t :: t in m.running && m.running[t].id == id && m.running[t].phase != Claimed
  }

  /** The record a command or a request works on. */
  function Subject(s: Step): Option<Id> {
    match s
    case Post(env, _, _, _, _) => Some(env.payload.id)
    case Allow(id, _, _) => Some(id)
    case Deny(id, _, _) => Some(id)
    case Reject(id, _) => Some(id)
    case Draft(id, _, _) => Some(id)
    case Edit(id, _, _) => Some(id)
    case Send(id, _, _) => Some(id)
    case Ingest(_, env, _, _) => Some(env.payload.id)
    case _ => None
  }

  /** Ids our own machine makes are new to the spool (version 7 UUIDs). */
  ghost predicate NewToSpool(h: Home, id: Id) {
    && id !in h.inbox && id !in h.outbox && id !in h.asks && id !in h.done
    && forall i :: 0 <= i < |h.hist| && h.hist[i].Signed? ==> h.hist[i].answer != id
  }

  /** A listing of `asks/` taken earlier: some may have gone since, the others are as they were. */
  predicate ListedBefore(h: Home, open: map<Id, Record>) {
    forall q :: q in open && q in h.asks ==> open[q] == h.asks[q]
  }

  /** What may happen: own ids are new, attempts follow their phases, and no other command
      works on a record in the middle of an attempt. */
  ghost predicate Enabled(m: Machine, s: Step) {
    && (Subject(s).Some? ==> !Busy(m, Subject(s).value))
    && match s
       case Send(_, newId, _) => NewToSpool(m.home, newId)
       case Ask(p, _, _) => NewToSpool(m.home, p.id)
       case Ingest(_, _, open, _) => ListedBefore(m.home, open)
       case Spawn(t, _) => t !in m.running
       case AutoDraft(t, _, _, _, _) => t in m.running && m.running[t].phase == Claimed
       case AutoSign(t, newId, _, _) => t in m.running && m.running[t].phase.HasDraft? && NewToSpool(m.home, newId)
       case AutoClose(t, _, _) => t in m.running && m.running[t].phase.HasAnswer?
       case _ => true
  }

  /** A run: the machines passed through, one more than the steps taken. */
  ghost predicate Run(ms: seq<Machine>, steps: seq<Step>) {
    && |ms| == |steps| + 1
    && ms[0] == Start(ms[0].own)
    && forall i :: 0 <= i < |steps| ==> Enabled(ms[i], steps[i]) && ms[i + 1] == Next(ms[i], steps[i])
  }
}
