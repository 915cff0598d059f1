/** The spool of one owlpost home and the commands that write to it, write by write.

    A write either happens or fails and changes nothing; each `bool` named after a write says
    which. What the source cannot decide itself (a drafted text, a peer's policy, an envelope
    from the network) is a parameter. Ids, keys, hashes and texts are opaque numbers. */
module Exchange {
  import opened Prelude

  type Id = nat
  type Peer = nat
  type Hash = nat
  type Text = nat

  // ---- records (src/envelope.rs, src/spool.rs) ----

  datatype Kind = Question | Answer | Content | ContentReply | ToolCall | ToolReply

  predicate IsRequest(k: Kind) { k == Question || k == Content || k == ToolCall }

  predicate IsReply(k: Kind) { k == Answer || k == ContentReply || k == ToolReply }

  /** `snippet`: the question carries a context snippet; `hash`: the hash of its text. */
  datatype Payload = Payload(id: Id, kind: Kind, from: Peer, to: Peer, inReplyTo: Option<Id>,
                             thread: Option<nat>, snippet: bool, hash: Hash, text: Text)

  /** A payload with a signature; `signer` is the key the signature verifies against, if any. */
  datatype Envelope = Envelope(payload: Payload, signer: Option<Peer>)

  datatype State =
    Consent | Pending | Drafted | Unacked | Acked | Expired | Answered | Denied | Rejected | Waiting | Declined

  /** The three shapes of `record.draft`: answer text, file content, tool run. */
  datatype Draft = TextDraft(text: Text) | ContentDraft(text: Text) | ToolDraft(text: Text)

  /** `peer`, `question`, `answer`, `threaded` and `autoError` are keys of `meta`. */
  datatype Record = Record(env: Envelope, state: State, draft: Option<Draft>, autoError: bool, peer: Peer,
                           question: Option<Id>, answer: Option<Id>, threaded: bool)

  datatype Mode = Manual | Auto | Never

  datatype SendMode = ByHuman | ByScheduler

  datatype LogLine = LogLine(to: Peer, question: Id, mode: SendMode)

  /** What happened so far, for stating properties of whole runs; the source keeps no such list. */
  datatype Event =
    | Arrived(id: Id, kind: Kind, mode: Option<Mode>)
    | ServedFromCache(id: Id, mode: Option<Mode>)
    | Allowed(id: Id)
    | DraftStored(id: Id)
    | Signed(answer: Id, id: Id, kind: Kind, via: SendMode)
    | Logged(id: Id, kind: Kind, via: SendMode)
    | Left(answer: Id, question: Option<Id>)

  datatype Home = Home(inbox: map<Id, Record>, outbox: map<Id, Record>, asks: map<Id, Record>,
                       done: map<Id, Record>, cache: map<Hash, Record>, log: seq<LogLine>, hist: seq<Event>)

  const EMPTY := Home(map[], map[], map[], map[], map[], [], [])

  // ---- lookups ----

  ghost predicate Replies(outbox: map<Id, Record>, id: Id, a: Id) {
    a in outbox && outbox[a].question == Some(id)
  }

  /** `existing_answer`: the first, in id order, of the envelopes in `outbox/` for `id`. */
  ghost predicate IsExisting(outbox: map<Id, Record>, id: Id, found: Option<Id>) {
    match found
    case None => forall a :: !Replies(outbox, id, a)
    case Some(a) => Replies(outbox, id, a) && forall b :: Replies(outbox, id, b) ==> a <= b
  }

  ghost function ExistingAnswer(outbox: map<Id, Record>, id: Id): (found: Option<Id>)
    ensures IsExisting(outbox, id, found)
  {
    if a: Id :| Replies(outbox, id, a) then Some(Least(outbox, id, a)) else None
  }

  ghost function Least(outbox: map<Id, Record>, id: Id, a: Id): (least: Id)
    requires Replies(outbox, id, a)
    ensures IsExisting(outbox, id, Some(least))
    decreases a
  {
    if b: Id :| Replies(outbox, id, b) && b < a then Least(outbox, id, b) else a
  }

  predicate HasLine(log: seq<LogLine>, id: Id) {
    exists i :: 0 <= i < |log| && log[i].question == id
  }

  predicate InThread(records: map<Id, Record>, thread: nat, except: Id) {
    exists id :: id in records && id != except && records[id].env.payload.thread == Some(thread)
  }

  predicate ThreadKnown(h: Home, p: Payload, id: Id) {
    p.thread.Some? && (InThread(h.done, p.thread.value, id) || InThread(h.inbox, p.thread.value, id))
  }

  // ---- arrival: the tail of `post_question` in src/server.rs ----

  function RecordState(mode: Option<Mode>): State {
    if mode.None? then Consent else Pending
  }

  function RecordStateFor(kind: Kind, mode: Option<Mode>): State {
    if kind == Content || kind == ToolCall then Consent else RecordState(mode)
  }

  predicate MayReadCache(mode: Option<Mode>) {
    mode == Some(Manual) || mode == Some(Auto)
  }

  predicate ServesCached(h: Home, p: Payload, mode: Option<Mode>) {
    && p.kind == Question && MayReadCache(mode)
    && !p.snippet && !ThreadKnown(h, p, p.id) && p.hash in h.cache
  }

  /** A verified, unseen request inside the window that passed the rate limit, from a peer with this
      policy. `remembered`: the id reached the table of seen ids, without which a cached
      answer is not sent. */
  function Posted(h: Home, own: Peer, env: Envelope, mode: Option<Mode>, enabled: bool, spooled: bool,
                  remembered: bool): Home {
    var p := env.payload;
    if !IsRequest(p.kind) || p.to != own || !enabled || mode == Some(Never) then h
    else if ServesCached(h, p, mode) then
      if remembered then h.(hist := h.hist + [ServedFromCache(p.id, mode)]) else h
    else if !spooled then h
    else
      var rec := Record(env, RecordStateFor(p.kind, mode), None, false, p.from, None, None, false);
      h.(inbox := h.inbox[p.id := rec], hist := h.hist + [Arrived(p.id, p.kind, mode)])
  }

  // ---- `finish`: a copy in done/ first, then the inbox file goes ----

  datatype FinishWrites = FinishWrites(done: bool, unlink: bool)

  function Finished(h: Home, id: Id, rec: Record, state: State, answer: Option<Id>, w: FinishWrites): (Home, bool) {
    if !w.done then (h, false)
    else
      var copied := h.(done := h.done[id := rec.(state := state, answer := answer)]);
      if !w.unlink then (copied, false) else (copied.(inbox := copied.inbox - {id}), true)
  }

  // ---- the owner's verdicts (src/cli/allow.rs, deny.rs, reject.rs), one record each ----

  predicate HeldFrom(h: Home, id: Id, peer: Peer) {
    id in h.inbox && h.inbox[id].state == Consent && h.inbox[id].env.payload.from == peer
  }

  function AllowedOne(h: Home, id: Id, peer: Peer, ok: bool): Home {
    if HeldFrom(h, id, peer) && ok then
      h.(inbox := h.inbox[id := h.inbox[id].(state := Pending)], hist := h.hist + [Allowed(id)])
    else h
  }

  function DeniedOne(h: Home, id: Id, peer: Peer, w: FinishWrites): Home {
    if HeldFrom(h, id, peer) then Finished(h, id, h.inbox[id], Denied, h.inbox[id].answer, w).0 else h
  }

  function RejectedOne(h: Home, id: Id, w: FinishWrites): Home {
    if id in h.inbox then Finished(h, id, h.inbox[id], Rejected, h.inbox[id].answer, w).0 else h
  }

  // ---- drafting (src/cli/draft.rs, src/cli/edit.rs) ----

  predicate DraftFits(kind: Kind, d: Draft) {
    match kind
    case Question => d.TextDraft?
    case Content => d.ContentDraft?
    case ToolCall => d.ToolDraft?
    case _ => false
  }

  /** The gates of `owl draft`: kind, state, and no envelope already spooled. */
  ghost predicate MayDraft(h: Home, id: Id) {
    && id in h.inbox && IsRequest(h.inbox[id].env.payload.kind)
    && (h.inbox[id].state == Pending || h.inbox[id].state == Drafted)
    && ExistingAnswer(h.outbox, id).None?
  }

  function WithDraft(rec: Record, d: Draft): Record {
    rec.(state := Drafted, draft := Some(d),
         autoError := if rec.env.payload.kind == Question then false else rec.autoError)
  }

  ghost function DraftedOne(h: Home, id: Id, d: Draft, ok: bool): Home {
    if MayDraft(h, id) && DraftFits(h.inbox[id].env.payload.kind, d) && ok then
      h.(inbox := h.inbox[id := WithDraft(h.inbox[id], d)], hist := h.hist + [DraftStored(id)])
    else h
  }

  /** `owl edit`: the stored text of a question's draft is replaced, whatever the state. `text`:
      what the editor left, `None` when it failed or left only blanks. */
  ghost function EditedOne(h: Home, id: Id, text: Option<Text>, ok: bool): Home {
    if id in h.inbox && h.inbox[id].env.payload.kind != Content && h.inbox[id].env.payload.kind != ToolCall
       && h.inbox[id].draft.Some? && ExistingAnswer(h.outbox, id).None? && text.Some? && ok
    then h.(inbox := h.inbox[id := h.inbox[id].(draft := Some(TextDraft(text.value)))])
    else h
  }

  // ---- `send` (src/answer.rs) ----

  datatype SendWrites = SendWrites(outbox: bool, cache: bool, log: bool, finish: FinishWrites)

  function Reply(own: Peer, question: Payload, answer: Id, text: Text): Envelope {
    var kind := match question.kind case Content => ContentReply case ToolCall => ToolReply case _ => Answer;
    Envelope(Payload(answer, kind, question.to, question.from, Some(question.id), question.thread, false, 0, text),
             Some(own))
  }

  /** The gates of `send` on the record it is given. */
  predicate Sendable(own: Peer, rec: Record) {
    && IsRequest(rec.env.payload.kind) && rec.state == Drafted && rec.draft.Some? && rec.env.payload.to == own
  }

  predicate Cacheable(h: Home, id: Id, p: Payload) {
    p.kind == Question && !p.snippet && !ThreadKnown(h, p, id)
  }

  /** A reply signed and put into `outbox/`. */
  function Spooled(h: Home, own: Peer, id: Id, rec: Record, via: SendMode, newId: Id): Home
    requires rec.draft.Some?
  {
    h.(outbox := h.outbox[newId := OutboxRecord(own, id, rec, newId)],
       hist := h.hist + [Signed(newId, id, rec.env.payload.kind, via)])
  }

  function OutboxRecord(own: Peer, id: Id, rec: Record, newId: Id): Record
    requires rec.draft.Some?
  {
    var p := rec.env.payload;
    Record(Reply(own, p, newId, rec.draft.value.text), Unacked, None, false, p.from, Some(id), None, false)
  }

  /** First part: the envelope already in `outbox/`, or a new one signed and spooled, plus the
      responder cache. The answer's id is `None` when a gate or a write fails. */
  ghost function SignPart(h: Home, own: Peer, id: Id, rec: Record, via: SendMode, newId: Id, w: SendWrites)
    : (Home, Option<Id>)
  {
    if !Sendable(own, rec) then (h, None)
    else if ExistingAnswer(h.outbox, id).Some? then (h, ExistingAnswer(h.outbox, id))
    else if rec.env.payload.kind != Question && !DraftFits(rec.env.payload.kind, rec.draft.value) then (h, None)
    else if !w.outbox then (h, None)
    else
      var p := rec.env.payload;
      var spooled := Spooled(h, own, id, rec, via, newId);
      if !Cacheable(h, id, p) then (spooled, Some(newId))
      else if !w.cache then (spooled, None)
      else (spooled.(cache := spooled.cache[p.hash := OutboxRecord(own, id, rec, newId)]), Some(newId))
  }

  /** Either nothing but the answer's name comes out of the first part, or a new envelope does. */
  lemma SignPartShape(h: Home, own: Peer, id: Id, rec: Record, via: SendMode, newId: Id, w: SendWrites)
    ensures var (h', answer) := SignPart(h, own, id, rec, via, newId, w);
            || (h' == h && (answer.Some? ==> answer == ExistingAnswer(h.outbox, id)))
            || (&& Sendable(own, rec) && ExistingAnswer(h.outbox, id).None? && (answer.Some? ==> answer == Some(newId))
                && h' == Spooled(h, own, id, rec, via, newId).(cache := h'.cache))
  {
    hide ExistingAnswer, ThreadKnown, OutboxRecord;
  }

  /** Second part: the log line, unless the log has one, then `finish`. */
  function ClosePart(h: Home, id: Id, rec: Record, via: SendMode, answer: Id, w: SendWrites): (Home, bool) {
    var kind := rec.env.payload.kind;
    if HasLine(h.log, id) then Finished(h, id, rec, Answered, Some(answer), w.finish)
    else if !w.log then (h, false)
    else
      var logged := h.(log := h.log + [LogLine(rec.env.payload.from, id, via)], hist := h.hist + [Logged(id, kind, via)]);
      Finished(logged, id, rec, Answered, Some(answer), w.finish)
  }

  ghost function SendOf(h: Home, own: Peer, id: Id, rec: Record, via: SendMode, newId: Id, w: SendWrites): (Home, bool) {
    var (signed, answer) := SignPart(h, own, id, rec, via, newId, w);
    if answer.None? then (signed, false) else ClosePart(signed, id, rec, via, answer.value, w)
  }

  /** `owl send`. */
  ghost function SentOne(h: Home, own: Peer, id: Id, newId: Id, w: SendWrites): Home {
    if id in h.inbox then SendOf(h, own, id, h.inbox[id], ByHuman, newId, w).0 else h
  }

  // ---- envelopes leave `outbox/`: ack (src/server.rs) and expiry (src/pull.rs) ----

  datatype MoveWrites = MoveWrites(move: bool, mark: bool)

  /** Move first, then set the state of the copy in `done/`. */
  function MovedOut(h: Home, a: Id, state: State, w: MoveWrites): Home
    requires a in h.outbox
  {
    if !w.move then h
    else
      var rec := h.outbox[a];
      h.(outbox := h.outbox - {a},
         done := h.done[a := if w.mark then rec.(state := state) else rec],
         hist := h.hist + [Left(a, rec.question)])
  }

  predicate MayAck(h: Home, caller: Peer, a: Id) {
    a in h.outbox && IsReply(h.outbox[a].env.payload.kind) && h.outbox[a].env.payload.to == caller
  }

  function AckedOne(h: Home, caller: Peer, a: Id, w: MoveWrites): Home {
    if MayAck(h, caller, a) then MovedOut(h, a, Acked, w) else h
  }

  /** An entry past its time to live; how old it is is decided elsewhere. */
  function ExpiredOne(h: Home, a: Id, w: MoveWrites): Home {
    if a in h.outbox then MovedOut(h, a, Expired, w) else h
  }

  // ---- the asker's side (src/cli/ask.rs, src/pull.rs) ----

  function Asked(h: Home, own: Peer, p: Payload, threaded: bool, ok: bool): Home {
    if IsRequest(p.kind) && p.from == own && ok then
      h.(asks := h.asks[p.id := Record(Envelope(p, Some(own)), Waiting, None, false, p.to, None, None, threaded)])
    else h
  }

  datatype Verdict = Ingested | Forged | Unrelated | Failed

  datatype IngestWrites = IngestWrites(inbox: bool, cache: bool, move: MoveWrites)

  /** `open`: the asks as listed when the pull began. */
  function VerdictOn(open: map<Id, Record>, contact: Peer, env: Envelope): Verdict {
    if env.signer != Some(contact) || !IsReply(env.payload.kind) then Forged
    else if env.payload.inReplyTo.None? || env.payload.inReplyTo.value !in open
            || open[env.payload.inReplyTo.value].peer != contact then Unrelated
    else Ingested
  }

  /** `move_to` from `asks/` to `done/`, then the new state. */
  function AskClosed(h: Home, id: Id, state: State, w: MoveWrites): (Home, bool) {
    if id !in h.asks || !w.move then (h, false)
    else
      var rec := h.asks[id];
      (h.(asks := h.asks - {id}, done := h.done[id := if w.mark then rec.(state := state) else rec]), w.mark)
  }

  /** `ingest_envelope` up to the ack: inbox, cache, then the ask moves. */
  function IngestedFrom(h: Home, open: map<Id, Record>, contact: Peer, env: Envelope, w: IngestWrites): (Home, Verdict) {
    var v := VerdictOn(open, contact, env);
    if v != Ingested then (h, v)
    else if !w.inbox then (h, Failed)
    else
      var ask := open[env.payload.inReplyTo.value];
      var rec := Record(env, Pending, None, false, contact, None, None, false);
      var stored := h.(inbox := h.inbox[env.payload.id := rec]);
      var cached := !ask.threaded && env.payload.kind == Answer && ask.env.payload.kind == Question;
      if cached && !w.cache then (stored, Failed)
      else
        var kept := if cached then stored.(cache := stored.cache[ask.env.payload.hash := rec]) else stored;
        var (closed, ok) := AskClosed(kept, env.payload.inReplyTo.value, Answered, w.move);
        (closed, if ok then Ingested else Failed)
  }

  /** `close_declined`, after the asked peer's task was seen as rejected. */
  function DeclinedOne(h: Home, id: Id, w: MoveWrites): Home {
    AskClosed(h, id, Declined, w).0
  }
}
