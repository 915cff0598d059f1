/** Two homes and the network between them: the asker `a` pulls from the responder `b`
    (src/pull.rs, `ack_outbox` and `get_task` of src/server.rs). Either side also takes every
    other step of its own; fetched envelopes may be stale, repeated, forged or unrelated, and
    acks may be lost. */
module Delivery {
  import opened Prelude
  import opened Exchange
  import opened Machine
  import opened TaskProgress
  import Attempts
  import Sending

  /** `sent`: every envelope `b` ever had in `outbox/`; `acks`: answer ids `a` has asked `b` to
      ack; `acked`: what `b` moved to `done/` on such an ack; `asked`: asks `a` made to `b`;
      `refused`: asks for which `b` was seen to answer with a REJECTED task. */
  datatype Net = Net(a: Machine, b: Machine, sent: set<Envelope>, acks: set<Id>, acked: set<Envelope>,
                     asked: set<Id>, refused: set<Id>)

  /** `ackSent`: the ack after an ingest reaches `b` sooner or later; `unavailable`: `b` does
      not answer `a` at all (policy never, responder off). */
  datatype NetStep =
    | AtAsker(s: Step, ackSent: bool)
    | AtResponder(s: Step)
    | Poll(id: Id, unavailable: bool)

  function Begin(a: Peer, b: Peer): Net {
    Net(Start(a), Start(b), {}, {}, {}, {}, {})
  }

  predicate SentUnder(n: Net, id: Id) {
    exists e :: e in n.sent && e.payload.id == id
  }

  /** An id made by either side is new to both (version 7 UUIDs). */
  ghost predicate NewToBoth(n: Net, id: Id) {
    NewToSpool(n.a.home, id) && NewToSpool(n.b.home, id) && !SentUnder(n, id)
  }

  /** Steps at `a`: only `b` signs with `b`'s key, requests and genuine replies of other contacts do
      not reuse an id of `b`'s answers, and an ask to `b` is only declined on a REJECTED task of
      `b`. An ask may be stored when `b` has its request already; anything may be forged. */
  ghost predicate AskerEnabled(n: Net, s: Step) {
    && Enabled(n.a, s)
    && match s
       case Post(env, _, _, _, _) => !SentUnder(n, env.payload.id)
       case Ingest(contact, env, _, _) =>
         (if env.signer == Some(n.b.own) && IsReply(env.payload.kind) then env in n.sent
          else if env.signer == Some(contact) && IsReply(env.payload.kind) then !SentUnder(n, env.payload.id)
          else true)
       case Send(_, newId, _) => NewToBoth(n, newId)
       case AutoSign(_, newId, _, _) => NewToBoth(n, newId)
       case Ask(p, _, _) => NewToSpool(n.a.home, p.id) && !SentUnder(n, p.id)
       case Decline(id, _) => id in n.a.home.asks && n.a.home.asks[id].peer == n.b.own ==> id in n.refused
       case _ => true
  }

  /** Steps at `b`: an ack in the name of `a` was sent by `a`. */
  ghost predicate ResponderEnabled(n: Net, s: Step) {
    && Enabled(n.b, s)
    && match s
       case Send(_, newId, _) => NewToBoth(n, newId)
       case AutoSign(_, newId, _, _) => NewToBoth(n, newId)
       case Ack(caller, id, _) => caller == n.a.own ==> id in n.acks
       case _ => true
  }

  ghost predicate NetEnabled(n: Net, t: NetStep) {
    match t
    case AtAsker(s, _) => AskerEnabled(n, s)
    case AtResponder(s) => ResponderEnabled(n, s)
    case Poll(_, _) => true
  }

  predicate AcksIngest(n: Net, s: Step) {
    s.Ingest? && s.contact == n.b.own && IngestedFrom(n.a.home, s.open, s.contact, s.env, s.ingest).1 == Ingested
  }

  predicate OpensAsk(n: Net, s: Step) {
    s.Ask? && s.payload.to == n.b.own && IsRequest(s.payload.kind) && s.payload.from == n.a.own && s.ok
  }

  ghost function AskerNext(n: Net, s: Step, ackSent: bool): Net
    requires AskerEnabled(n, s)
  {
    n.(a := Next(n.a, s),
       acks := if AcksIngest(n, s) && ackSent then n.acks + {s.env.payload.id} else n.acks,
       asked := if OpensAsk(n, s) then n.asked + {s.payload.id} else n.asked)
  }

  ghost function ResponderNext(n: Net, s: Step): Net
    requires ResponderEnabled(n, s)
  {
    var b' := Next(n.b, s);
    n.(b := b',
       sent := n.sent + (set x | x in b'.home.outbox :: b'.home.outbox[x].env),
       acked := if s.Ack? && s.caller == n.a.own && MayAck(n.b.home, s.caller, s.answer) && s.move.move
                then n.acked + {n.b.home.outbox[s.answer].env} else n.acked)
  }

  ghost predicate SeesRefusal(n: Net, id: Id, unavailable: bool) {
    var task := FindTask(n.b.home, n.a.own, id);
    task == Some(Refused) || (task.None? && unavailable)
  }

  ghost function NetNext(n: Net, t: NetStep): Net
    requires NetEnabled(n, t)
  {
    match t
    case AtAsker(s, ackSent) => AskerNext(n, s, ackSent)
    case AtResponder(s) => ResponderNext(n, s)
    case Poll(id, unavailable) => if SeesRefusal(n, id, unavailable) then n.(refused := n.refused + {id}) else n
  }

  ghost predicate NetRun(ns: seq<Net>, steps: seq<NetStep>) {
    && |ns| == |steps| + 1
    && ns[0] == Begin(ns[0].a.own, ns[0].b.own)
    && forall i :: 0 <= i < |steps| ==> NetEnabled(ns[i], steps[i]) && ns[i + 1] == NetNext(ns[i], steps[i])
  }

  // ---- one ingest ----

  /** Forged and unrelated envelopes change nothing: `ingest_envelope` writes exactly when the
      signature is the contact's, the payload is a reply to an open ask of that contact, and
      the first write succeeds; it then stores that envelope under its id. */
  lemma IngestWritesIffGenuine(h: Home, open: map<Id, Record>, contact: Peer, env: Envelope, w: IngestWrites)
    ensures var h' := IngestedFrom(h, open, contact, env, w).0;
            var genuine := && env.signer == Some(contact) && IsReply(env.payload.kind) && env.payload.inReplyTo.Some?
                           && env.payload.inReplyTo.value in open
                           && open[env.payload.inReplyTo.value].peer == contact;
            && (!genuine || !w.inbox ==> h' == h)
            && (genuine && w.inbox ==> env.payload.id in h'.inbox && h'.inbox[env.payload.id].env == env)
  {
  }

  /** An ask leaves `asks/` only for a stored, verified reply to it, or by `close_declined`. */
  ghost predicate AskStays(h: Home, h': Home, s: Step, id: Id)
    requires id in h.asks
  {
    || (id in h'.asks && h'.asks[id] == h.asks[id])
    || (&& s.Ingest? && s.env.signer == Some(h.asks[id].peer) && IsReply(s.env.payload.kind)
        && s.env.payload.inReplyTo == Some(id)
        && s.env.payload.id in h'.inbox && h'.inbox[s.env.payload.id].env == s.env)
    || (s.Decline? && s.id == id)
  }

  lemma IngestKeepsAsk(h: Home, own: Peer, s: Step, id: Id)
    requires id in h.asks && s.Ingest? && ListedBefore(h, s.open)
    ensures AskStays(h, Local(h, own, s), s, id)
  {
  }

  lemma LocalKeepsAsk(m: Machine, s: Step, id: Id)
    requires Enabled(m, s) && id in m.home.asks && !IsAuto(s)
    ensures AskStays(m.home, Local(m.home, m.own, s), s, id)
  {
    if s.Send? {
      SendKeepsAsks(m.home, m.own, s);
    } else if s.Ingest? {
      IngestKeepsAsk(m.home, m.own, s, id);
    } else {
      hide ExistingAnswer, ThreadKnown, Busy;
    }
  }

  lemma StepKeepsAsk(m: Machine, s: Step, id: Id)
    requires Enabled(m, s) && id in m.home.asks
    ensures AskStays(m.home, Next(m, s).home, s, id)
  {
    if IsAuto(s) {
      AutoKeepsAsks(m, s);
    } else {
      hide AskStays;
      LocalKeepsAsk(m, s, id);
    }
  }

  // ---- what a step does to one id ----

  /** The id a step may put into `outbox/`. */
  function SpooledId(s: Step): Option<Id> {
    match s
    case Send(_, newId, _) => Some(newId)
    case AutoSign(_, newId, _, _) => Some(newId)
    case _ => None
  }

  /** `outbox/` keeps what it has of `x`, loses it, or gets it as the step's own new id. */
  ghost predicate OutboxOnly(h: Home, h': Home, s: Step, x: Id) {
    x in h'.outbox ==> (x in h.outbox && h'.outbox[x] == h.outbox[x]) || SpooledId(s) == Some(x)
  }

  lemma SignPartOutbox(h: Home, own: Peer, id: Id, rec: Record, via: SendMode, newId: Id, w: SendWrites, x: Id)
    ensures var h' := SignPart(h, own, id, rec, via, newId, w).0;
            x in h'.outbox ==> (x in h.outbox && h'.outbox[x] == h.outbox[x]) || x == newId
  {
    hide SignPart, ExistingAnswer, OutboxRecord;
    SignPartShape(h, own, id, rec, via, newId, w);
  }

  lemma SendOutbox(h: Home, own: Peer, s: Step, x: Id)
    requires s.Send?
    ensures OutboxOnly(h, Local(h, own, s), s, x)
  {
    hide SignPart, ClosePart;
    if s.id in h.inbox {
      var rec := h.inbox[s.id];
      SignPartOutbox(h, own, s.id, rec, ByHuman, s.newId, s.send, x);
      var (signed, answer) := SignPart(h, own, s.id, rec, ByHuman, s.newId, s.send);
      if answer.Some? {
        CloseKeepsOutbox(signed, s.id, rec, ByHuman, answer.value, s.send);
      }
    }
  }

  lemma AutoOutbox(m: Machine, s: Step, x: Id)
    requires Enabled(m, s) && IsAuto(s)
    ensures OutboxOnly(m.home, Next(m, s).home, s, x)
  {
    hide SignPart, ClosePart, ExistingAnswer, NewToSpool, Busy;
    if s.AutoSign? {
      var t := m.running[s.task];
      SignPartOutbox(m.home, m.own, t.id, t.phase.rec, ByScheduler, s.newId, s.send, x);
    } else if s.AutoClose? {
      var t := m.running[s.task];
      CloseKeepsOutbox(m.home, t.id, t.phase.rec, ByScheduler, t.phase.answer, s.send);
    }
  }

  lemma OtherOutbox(h: Home, own: Peer, s: Step, x: Id)
    requires !IsAuto(s) && !s.Send?
    ensures OutboxOnly(h, Local(h, own, s), s, x)
  {
    hide Local;
    OthersAddNothing(h, own, s, x);
  }

  lemma StepOutbox(m: Machine, s: Step, x: Id)
    requires Enabled(m, s)
    ensures OutboxOnly(m.home, Next(m, s).home, s, x)
  {
    if IsAuto(s) {
      AutoOutbox(m, s, x);
    } else {
      hide OutboxOnly, Local;
      if s.Send? {
        SendOutbox(m.home, m.own, s, x);
      } else {
        OtherOutbox(m.home, m.own, s, x);
      }
    }
  }

  lemma StepAsks(m: Machine, s: Step, x: Id)
    requires Enabled(m, s) && x !in m.home.asks && x in Next(m, s).home.asks
    ensures s.Ask? && s.payload.id == x && Next(m, s).home.asks[x].peer == s.payload.to && OwnAsk(m, s)
  {
    if IsAuto(s) {
      AutoKeepsAsks(m, s);
    } else if s.Send? {
      SendKeepsAsks(m.home, m.own, s);
    } else if !s.Ask? {
      LocalKeepsAsks(m.home, m.own, s, x);
    }
    hide NewToSpool, Busy, ExistingAnswer, SignPart, ClosePart, ThreadKnown;
  }

  predicate OwnAsk(m: Machine, s: Step) {
    s.Ask? && IsRequest(s.payload.kind) && s.payload.from == m.own && s.ok
  }

  /** Only an arrival or an ingest under this id brings another envelope into `inbox/`. */
  ghost predicate SameEnvelope(h: Home, h': Home, s: Step, x: Id) {
    (x in h'.inbox && !(s.Post? && s.env.payload.id == x) && !(s.Ingest? && s.env.payload.id == x))
      ==> (x in h.inbox && h'.inbox[x].env == h.inbox[x].env)
  }

  lemma SendSameEnvelope(h: Home, own: Peer, s: Step, x: Id)
    requires s.Send?
    ensures SameEnvelope(h, Local(h, own, s), s, x)
  {
    hide SignPart, ClosePart;
    if s.id in h.inbox {
      var rec := h.inbox[s.id];
      SignPartDone(h, own, s.id, rec, ByHuman, s.newId, s.send);
      var (signed, answer) := SignPart(h, own, s.id, rec, ByHuman, s.newId, s.send);
      if answer.Some? {
        ClosePartDone(signed, s.id, rec, ByHuman, answer.value, s.send);
      }
    }
  }

  lemma FinishingSameEnvelope(h: Home, own: Peer, s: Step, x: Id)
    requires s.Deny? || s.Reject?
    ensures SameEnvelope(h, Local(h, own, s), s, x)
  {
  }

  lemma IngestSameEnvelope(h: Home, own: Peer, s: Step, x: Id)
    requires s.Ingest?
    ensures SameEnvelope(h, Local(h, own, s), s, x)
  {
    hide VerdictOn;
  }

  lemma OtherSameEnvelope(h: Home, own: Peer, s: Step, x: Id)
    requires !IsAuto(s) && !s.Send?
    ensures SameEnvelope(h, Local(h, own, s), s, x)
  {
    if s.Deny? || s.Reject? {
      FinishingSameEnvelope(h, own, s, x);
    } else if s.Ingest? {
      IngestSameEnvelope(h, own, s, x);
    } else {
      hide ExistingAnswer, ThreadKnown, ServesCached;
    }
  }

  lemma AutoSignSameEnvelope(m: Machine, s: Step, x: Id)
    requires Enabled(m, s) && s.AutoSign?
    ensures SameEnvelope(m.home, Next(m, s).home, s, x)
  {
    var t := m.running[s.task];
    var signed := SignPart(m.home, m.own, t.id, t.phase.rec, ByScheduler, s.newId, s.send).0;
    hide SignPart, AfterFailedSend, NewToSpool, Busy;
    SignPartDone(m.home, m.own, t.id, t.phase.rec, ByScheduler, s.newId, s.send);
    FailedSameEnvelope(signed, t.id, s.ok, x);
  }

  lemma FailedSameEnvelope(h: Home, id: Id, ok: bool, x: Id)
    ensures var h' := AfterFailedSend(h, id, ok);
            x in h'.inbox ==> x in h.inbox && h'.inbox[x].env == h.inbox[x].env
  {
    hide ExistingAnswer;
  }

  lemma AutoCloseSameEnvelope(m: Machine, s: Step, x: Id)
    requires Enabled(m, s) && s.AutoClose?
    ensures SameEnvelope(m.home, Next(m, s).home, s, x)
  {
    var t := m.running[s.task];
    var closed := ClosePart(m.home, t.id, t.phase.rec, ByScheduler, t.phase.answer, s.send).0;
    hide ClosePart, AfterFailedSend, NewToSpool, Busy;
    ClosePartDone(m.home, t.id, t.phase.rec, ByScheduler, t.phase.answer, s.send);
    FailedSameEnvelope(closed, t.id, s.ok, x);
  }

  lemma AutoSameEnvelope(m: Machine, s: Step, x: Id)
    requires Enabled(m, s) && IsAuto(s)
    ensures SameEnvelope(m.home, Next(m, s).home, s, x)
  {
    if s.AutoSign? {
      AutoSignSameEnvelope(m, s, x);
    } else if s.AutoClose? {
      AutoCloseSameEnvelope(m, s, x);
    } else {
      hide NewToSpool, Busy, ExistingAnswer;
    }
  }

  lemma StepSameEnvelope(m: Machine, s: Step, x: Id)
    requires Enabled(m, s)
    ensures SameEnvelope(m.home, Next(m, s).home, s, x)
  {
    if IsAuto(s) {
      AutoSameEnvelope(m, s, x);
    } else {
      hide SameEnvelope, Local;
      if s.Send? {
        SendSameEnvelope(m.home, m.own, s, x);
      } else {
        OtherSameEnvelope(m.home, m.own, s, x);
      }
    }
  }

  // ---- one envelope of `b` in the home of `a` ----

  /** The asker holds `e`. */
  predicate Held(h: Home, e: Envelope) {
    var x := e.payload.id;
    (x in h.inbox && h.inbox[x].env == e) || (x in h.done && h.done[x].env == e)
  }

  /** Nothing else is kept under the id of `e`. */
  predicate Clear(h: Home, e: Envelope) {
    var x := e.payload.id;
    && x !in h.outbox && x !in h.asks
    && (x in h.inbox ==> h.inbox[x].env == e)
    && (x in h.done ==> h.done[x].env == e)
  }

  /** An envelope that is no reply or not signed by the contact it was fetched from. */
  predicate IsForgery(s: Step) {
    s.Ingest? && (s.env.signer != Some(s.contact) || !IsReply(s.env.payload.kind))
  }

  /** A forgery leaves the whole machine as it is. */
  lemma ForgeryChangesNothing(m: Machine, s: Step)
    requires Enabled(m, s) && IsForgery(s)
    ensures Next(m, s) == m && IngestedFrom(m.home, s.open, s.contact, s.env, s.ingest).1 == Forged
  {
    hide Enabled, AskClosed;
  }

  /** What the step may do under the id of `e`: ingest `e` itself, or a forgery. */
  ghost predicate Respects(s: Step, e: Envelope) {
    var x := e.payload.id;
    && !(s.Post? && s.env.payload.id == x) && (s.Ingest? && s.env.payload.id == x ==> s.env == e || IsForgery(s))
    && SpooledId(s) != Some(x) && !(s.Ask? && s.payload.id == x)
  }

  lemma IngestInbox(h: Home, own: Peer, s: Step)
    requires s.Ingest?
    ensures var h', x := Local(h, own, s), s.env.payload.id;
            && (x in h'.inbox ==> (x in h.inbox && h'.inbox[x] == h.inbox[x]) || h'.inbox[x].env == s.env)
            && (x in h.inbox ==> x in h'.inbox)
  {
    hide VerdictOn;
  }

  lemma ClearStays(m: Machine, s: Step, e: Envelope)
    requires Enabled(m, s) && Attempts.Scheduled(m) && Clear(m.home, e) && Respects(s, e)
    ensures Clear(Next(m, s).home, e)
    ensures Held(m.home, e) ==> Held(Next(m, s).home, e)
  {
    if IsForgery(s) {
      ForgeryChangesNothing(m, s);
    } else {
      hide Enabled, Next, Clear, Held, Respects, Attempts.Scheduled;
      ClearStaysUnforged(m, s, e);
    }
  }

  lemma ClearStaysUnforged(m: Machine, s: Step, e: Envelope)
    requires Enabled(m, s) && Attempts.Scheduled(m) && Clear(m.home, e) && Respects(s, e) && !IsForgery(s)
    ensures Clear(Next(m, s).home, e)
    ensures Held(m.home, e) ==> Held(Next(m, s).home, e)
  {
    var x := e.payload.id;
    StepOutbox(m, s, x);
    if x in Next(m, s).home.asks {
      StepAsks(m, s, x);
    }
    StepSameEnvelope(m, s, x);
    if s.Ingest? {
      IngestInbox(m.home, m.own, s);
    }
    StepCloses(m, s, x);
    hide Enabled, ExistingAnswer, Attempts.Scheduled, Local, AutoDrafted, AutoSigned, AutoClosed, Spawned;
  }

  /** Why other contacts must not reuse the id: a genuine reply of another contact under the id of a
      stored answer takes its place. */
  lemma ReusedIdOverwrites(h: Home, open: map<Id, Record>, contact: Peer, e: Envelope, other: Envelope, w: IngestWrites)
    requires Clear(h, e) && e.payload.id !in h.done && Held(h, e)
    requires VerdictOn(open, contact, other) == Ingested && other.payload.id == e.payload.id && other != e
    ensures w.inbox <==> !Held(IngestedFrom(h, open, contact, other, w).0, e)
  {
  }

  // ---- both homes ----

  /** `e` came from `b` and is the only envelope with its id. */
  ghost predicate Genuine(n: Net, e: Envelope) {
    && e.signer == Some(n.b.own) && IsReply(e.payload.kind)
    && forall f :: f in n.sent && f.payload.id == e.payload.id ==> f == e
  }

  ghost predicate Delivered(n: Net, e: Envelope) {
    && (e.payload.id in n.acks ==> Held(n.a.home, e))
    && (e in n.acked ==> Held(n.a.home, e))
  }

  /** A verified reply to `q` from the asked peer is stored. */
  ghost predicate Replied(n: Net, q: Id) {
    exists e :: e in n.sent && e.signer == Some(n.b.own) && e.payload.inReplyTo == Some(q) && Held(n.a.home, e)
  }

  ghost predicate Accounted(n: Net, q: Id) {
    || (q in n.a.home.asks && n.a.home.asks[q].peer == n.b.own)
    || Replied(n, q)
    || q in n.refused
  }

  ghost predicate Good(n: Net) {
    && Attempts.Scheduled(n.a) && Sending.Inv(n.b)
    && (forall x :: x in n.b.home.outbox ==> n.b.home.outbox[x].env in n.sent)
    && (forall e :: e in n.sent ==> Genuine(n, e) && Clear(n.a.home, e) && Delivered(n, e))
    && (forall id :: id in n.acks ==> SentUnder(n, id))
    && n.acked <= n.sent
    && (forall q :: q in n.asked ==> Accounted(n, q))
  }

  // ---- steps at the asker ----

  lemma AskerRespects(n: Net, s: Step, e: Envelope)
    requires Good(n) && AskerEnabled(n, s) && e in n.sent
    ensures Respects(s, e)
  {
    assert SentUnder(n, e.payload.id);
    assert Genuine(n, e);
    hide Enabled, Good, NewToSpool;
  }

  /** An ack is sent only for an envelope of `b` that has just been stored. */
  lemma AckedIsStored(n: Net, s: Step)
    requires AskerEnabled(n, s) && AcksIngest(n, s)
    ensures s.env in n.sent && Held(Next(n.a, s).home, s.env)
  {
    hide Enabled, NewToBoth;
  }

  lemma AskerDelivered(n: Net, s: Step, ackSent: bool, e: Envelope)
    requires Good(n) && AskerEnabled(n, s) && e in n.sent
    ensures var n' := AskerNext(n, s, ackSent); Genuine(n', e) && Clear(n'.a.home, e) && Delivered(n', e)
  {
    AskerRespects(n, s, e);
    assert Genuine(n, e) && Clear(n.a.home, e) && Delivered(n, e);
    assert Attempts.Scheduled(n.a) && Enabled(n.a, s);
    if AcksIngest(n, s) {
      AckedIsStored(n, s);
    }
    assert Next(n.a, s).own == n.a.own;
    hide Good, Enabled, Attempts.Scheduled, AskerEnabled, AcksIngest, Clear, Held, Respects, Next, OpensAsk;
    ClearStays(n.a, s, e);
  }

  lemma RepliedStays(n: Net, s: Step, ackSent: bool, q: Id)
    requires Good(n) && AskerEnabled(n, s) && Replied(n, q)
    ensures Replied(AskerNext(n, s, ackSent), q)
  {
    var e :| e in n.sent && e.signer == Some(n.b.own) && e.payload.inReplyTo == Some(q) && Held(n.a.home, e);
    AskerRespects(n, s, e);
    assert Clear(n.a.home, e) && Attempts.Scheduled(n.a) && Enabled(n.a, s);
    hide Good, Enabled, Attempts.Scheduled, Clear, Held, Respects, Next, OpensAsk, AcksIngest;
    ClearStays(n.a, s, e);
    assert e in AskerNext(n, s, ackSent).sent;
  }

  lemma AskerAccounts(n: Net, s: Step, ackSent: bool, q: Id)
    requires Good(n) && AskerEnabled(n, s) && q in n.asked
    ensures Accounted(AskerNext(n, s, ackSent), q)
  {
    var n' := AskerNext(n, s, ackSent);
    assert Accounted(n, q);
    if Replied(n, q) {
      RepliedStays(n, s, ackSent, q);
    } else if q in n.a.home.asks && q !in n.refused {
      assert Enabled(n.a, s);
      StepKeepsAsk(n.a, s, q);
      assert s.Decline? && s.id == q ==> q in n.refused;
      hide Good, Enabled, Next, OpensAsk, AcksIngest, NewToBoth;
      if q !in n'.a.home.asks {
        assert s.env in n.sent && Held(n'.a.home, s.env);
        assert Replied(n', q);
      }
    }
  }

  lemma NewAskAccounted(n: Net, s: Step, ackSent: bool)
    requires AskerEnabled(n, s) && OpensAsk(n, s)
    ensures Accounted(AskerNext(n, s, ackSent), s.payload.id)
  {
  }

  lemma AskerStepGood(n: Net, s: Step, ackSent: bool)
    requires Good(n) && AskerEnabled(n, s)
    ensures Good(AskerNext(n, s, ackSent))
  {
    var n' := AskerNext(n, s, ackSent);
    forall e | e in n'.sent ensures Genuine(n', e) && Clear(n'.a.home, e) && Delivered(n', e) {
      AskerDelivered(n, s, ackSent, e);
    }
    forall q | q in n'.asked ensures Accounted(n', q) {
      if q in n.asked {
        AskerAccounts(n, s, ackSent, q);
      } else {
        NewAskAccounted(n, s, ackSent);
      }
    }
    forall id | id in n'.acks ensures SentUnder(n', id) {
      if id in n.acks {
        assert SentUnder(n, id);
      } else {
        AckedIsStored(n, s);
      }
    }
    Attempts.StepScheduled(n.a, s);
    hide Genuine, Clear, Delivered, Accounted, Attempts.Scheduled, Sending.Inv, Next, Enabled, AcksIngest, OpensAsk;
  }

  // ---- steps at the responder ----

  /** An envelope the step put into `b`'s `outbox/`. */
  lemma NewlySpooled(n: Net, s: Step, x: Id)
    requires Good(n) && ResponderEnabled(n, s)
    requires x in Next(n.b, s).home.outbox && Next(n.b, s).home.outbox[x].env !in n.sent
    ensures var e := Next(n.b, s).home.outbox[x].env;
            && e.payload.id == x && e.signer == Some(n.b.own) && IsReply(e.payload.kind)
            && SpooledId(s) == Some(x)
  {
    var b' := Next(n.b, s);
    assert Sending.Inv(n.b) && Enabled(n.b, s) && b'.own == n.b.own;
    assert x in n.b.home.outbox ==> n.b.home.outbox[x].env in n.sent;
    hide Next, Enabled, Good, Sending.SignedFor;
    StepOutbox(n.b, s, x);
    Sending.StepKeepsInv(n.b, s);
    assert Sending.WellSpooled(b'.home, b'.own, x, b'.home.outbox[x]);
  }

  /** What is new in `sent` has an id new to both homes and carries `b`'s signature. */
  lemma FreshlySent(n: Net, s: Step, e: Envelope)
    requires Good(n) && ResponderEnabled(n, s) && e in ResponderNext(n, s).sent && e !in n.sent
    ensures e.signer == Some(n.b.own) && IsReply(e.payload.kind) && NewToBoth(n, e.payload.id)
    ensures var x := e.payload.id; SpooledId(s) == Some(x) && x in Next(n.b, s).home.outbox && Next(n.b, s).home.outbox[x].env == e
  {
    hide Next, Enabled, Good, NewToBoth;
    var x :| x in Next(n.b, s).home.outbox && Next(n.b, s).home.outbox[x].env == e;
    NewlySpooled(n, s, x);
  }

  lemma NoneUnder(n: Net, id: Id)
    requires !SentUnder(n, id)
    ensures forall f :: f in n.sent ==> f.payload.id != id
  {
  }

  lemma NewlySentGood(n: Net, s: Step, e: Envelope)
    requires Good(n) && ResponderEnabled(n, s) && e in ResponderNext(n, s).sent && e !in n.sent
    ensures var n' := ResponderNext(n, s); Genuine(n', e) && Clear(n'.a.home, e) && Delivered(n', e)
  {
    var n' := ResponderNext(n, s);
    FreshlySent(n, s, e);
    assert forall id :: id in n.acks ==> SentUnder(n, id);
    assert n.acked <= n.sent && forall x :: x in n.b.home.outbox ==> n.b.home.outbox[x].env in n.sent;
    hide Next, Enabled, Good, ResponderEnabled, Held, NewToSpool;
    NoneUnder(n, e.payload.id);
    forall f | f in n'.sent && f.payload.id == e.payload.id ensures f == e {
      FreshlySent(n, s, f);
    }
    assert NewToSpool(n.a.home, e.payload.id);
    ClearWhenNew(n.a.home, e);
  }

  lemma ClearWhenNew(h: Home, e: Envelope)
    requires NewToSpool(h, e.payload.id)
    ensures Clear(h, e)
  {
  }

  /** `b` moves an answer out on `a`'s ack only after `a` has stored it. */
  lemma AckFindsItHeld(n: Net, s: Step)
    requires Good(n) && ResponderEnabled(n, s) && s.Ack? && s.caller == n.a.own && MayAck(n.b.home, s.caller, s.answer)
    ensures n.b.home.outbox[s.answer].env in n.sent && Held(n.a.home, n.b.home.outbox[s.answer].env)
  {
    var e := n.b.home.outbox[s.answer].env;
    assert Sending.WellSpooled(n.b.home, n.b.own, s.answer, n.b.home.outbox[s.answer]);
    assert e in n.sent && Delivered(n, e) && s.answer in n.acks;
  }

  lemma StillGenuine(n: Net, s: Step, e: Envelope)
    requires Good(n) && ResponderEnabled(n, s) && e in n.sent
    ensures Genuine(ResponderNext(n, s), e)
  {
    var n' := ResponderNext(n, s);
    assert Genuine(n, e) && n'.b.own == n.b.own;
    hide Next, Enabled, Good, ResponderEnabled, NewToSpool;
    forall f | f in n'.sent && f.payload.id == e.payload.id ensures f == e {
      if f !in n.sent {
        FreshlySent(n, s, f);
        NoneUnder(n, f.payload.id);
      }
    }
  }

  lemma StillGood(n: Net, s: Step, e: Envelope)
    requires Good(n) && ResponderEnabled(n, s) && e in n.sent
    ensures var n' := ResponderNext(n, s); Genuine(n', e) && Clear(n'.a.home, e) && Delivered(n', e)
  {
    assert Clear(n.a.home, e) && Delivered(n, e);
    hide Next, Enabled, Good, ResponderEnabled, Held, Clear, Genuine;
    StillGenuine(n, s, e);
    if s.Ack? && s.caller == n.a.own && MayAck(n.b.home, s.caller, s.answer) {
      AckFindsItHeld(n, s);
    }
  }

  lemma ResponderAccounts(n: Net, s: Step, q: Id)
    requires Good(n) && ResponderEnabled(n, s) && q in n.asked
    ensures Accounted(ResponderNext(n, s), q)
  {
    var n' := ResponderNext(n, s);
    assert Accounted(n, q);
    assert n'.b.own == n.b.own;
    hide Next, Enabled, Good, ResponderEnabled, Held;
    if Replied(n, q) {
      var e :| e in n.sent && e.signer == Some(n.b.own) && e.payload.inReplyTo == Some(q) && Held(n.a.home, e);
      assert e in n'.sent;
    }
  }

  lemma ResponderSent(n: Net, s: Step)
    requires Good(n) && ResponderEnabled(n, s)
    ensures var n' := ResponderNext(n, s);
            && (forall e :: e in n'.sent ==> Genuine(n', e) && Clear(n'.a.home, e) && Delivered(n', e))
            && (forall id :: id in n'.acks ==> SentUnder(n', id)) && n'.acked <= n'.sent
  {
    var n' := ResponderNext(n, s);
    forall id | id in n'.acks ensures SentUnder(n', id) {
      assert SentUnder(n, id);
    }
    assert n.acked <= n.sent;
    hide Genuine, Clear, Delivered, Next, Enabled, Good, Held, SentUnder, ResponderEnabled;
    forall e | e in n'.sent ensures Genuine(n', e) && Clear(n'.a.home, e) && Delivered(n', e) {
      if e in n.sent {
        StillGood(n, s, e);
      } else {
        NewlySentGood(n, s, e);
      }
    }
    if s.Ack? && s.caller == n.a.own && MayAck(n.b.home, s.caller, s.answer) {
      AckFindsItHeld(n, s);
    }
  }

  lemma ResponderStepGood(n: Net, s: Step)
    requires Good(n) && ResponderEnabled(n, s)
    ensures Good(ResponderNext(n, s))
  {
    var n' := ResponderNext(n, s);
    assert Attempts.Scheduled(n'.a) && Enabled(n.b, s);
    Sending.StepKeepsInv(n.b, s);
    hide Genuine, Clear, Delivered, Accounted, Attempts.Scheduled, Sending.Inv, Next, Enabled, SentUnder;
    ResponderSent(n, s);
    forall q | q in n'.asked ensures Accounted(n', q) {
      ResponderAccounts(n, s, q);
    }
  }

  // ---- whole runs ----

  lemma PollGood(n: Net, id: Id)
    requires Good(n)
    ensures Good(n.(refused := n.refused + {id}))
  {
    var n' := n.(refused := n.refused + {id});
    forall e | e in n'.sent ensures Genuine(n', e) && Delivered(n', e) {
      assert Genuine(n, e) && Delivered(n, e);
    }
    forall x | x in n'.acks ensures SentUnder(n', x) {
      assert SentUnder(n, x);
    }
    forall q | q in n'.asked ensures Accounted(n', q) {
      assert Accounted(n, q);
      if Replied(n, q) {
        assert Replied(n', q);
      }
    }
    hide Held, Clear;
  }

  lemma NetStepGood(n: Net, t: NetStep)
    requires Good(n) && NetEnabled(n, t)
    ensures Good(NetNext(n, t))
  {
    hide Good, AskerNext, ResponderNext, AskerEnabled, ResponderEnabled, FindTask;
    match t {
      case AtAsker(s, ackSent) => AskerStepGood(n, s, ackSent);
      case AtResponder(s) => ResponderStepGood(n, s);
      case Poll(id, _) => PollGood(n, id);
    }
  }

  lemma {:induction false} EveryNetRunIsGood(ns: seq<Net>, steps: seq<NetStep>, i: nat)
    requires NetRun(ns, steps) && i <= |steps|
    ensures Good(ns[i])
    decreases i
  {
    if i > 0 {
      EveryNetRunIsGood(ns, steps, i - 1);
      hide Good, NetNext, NetEnabled;
      NetStepGood(ns[i - 1], steps[i - 1]);
    }
  }

  /** Over every interleaving, with fetches repeated, acks lost and any write failing: what the
      responder moved to `done/` on an ack is in the asker's `inbox/` or `done/`, as it was sent. */
  lemma AckedIsHeld(ns: seq<Net>, steps: seq<NetStep>, i: nat, e: Envelope)
    requires NetRun(ns, steps) && i <= |steps| && e in ns[i].acked
    ensures Held(ns[i].a.home, e) && e.signer == Some(ns[i].b.own)
  {
    EveryNetRunIsGood(ns, steps, i);
    assert Genuine(ns[i], e) && Delivered(ns[i], e);
  }

  /** Before step `i` the asked peer answered for `q` with a REJECTED task. */
  ghost predicate RefusalSeen(ns: seq<Net>, steps: seq<NetStep>, i: nat, q: Id)
    requires |ns| == |steps| + 1
  {
    exists j :: 0 <= j < i && j < |steps| && steps[j].Poll? && steps[j].id == q
                && SeesRefusal(ns[j], q, steps[j].unavailable)
  }

  lemma {:induction false} RefusedWasSeen(ns: seq<Net>, steps: seq<NetStep>, i: nat, q: Id)
    requires NetRun(ns, steps) && i <= |steps| && q in ns[i].refused
    ensures RefusalSeen(ns, steps, i, q)
    decreases i
  {
    hide SeesRefusal, AskerEnabled, ResponderEnabled, Next;
    if i > 0 && q in ns[i - 1].refused {
      RefusedWasSeen(ns, steps, i - 1, q);
    }
  }

  /** An ask is never lost: it stays in `asks/` until a reply naming it, signed by the asked
      peer, is stored, or that peer was seen to reject it. */
  lemma AskIsNeverLost(ns: seq<Net>, steps: seq<NetStep>, i: nat, q: Id)
    requires NetRun(ns, steps) && i <= |steps| && q in ns[i].asked
    ensures q in ns[i].a.home.asks || Replied(ns[i], q) || RefusalSeen(ns, steps, i, q)
  {
    EveryNetRunIsGood(ns, steps, i);
    if q in ns[i].refused {
      RefusedWasSeen(ns, steps, i, q);
    }
  }
}
