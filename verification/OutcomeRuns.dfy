/** What the outcomes of single steps come to over whole runs: what is sent is what was drafted, what is
    answered without a human was allowed to be, and the asker is told how its request ended. */
module OutcomeRuns {
  import opened Prelude
  import opened Exchange
  import opened Machine
  import opened OneRequest
  import opened TaskProgress
  import opened Outcomes
  import opened Delivery
  import Attempts

  // ---- what is sent is what was drafted ----

  /** The step is a send of request `id`, by hand or by the scheduler, that may sign envelope `a`. */
  predicate SendsAs(m: Machine, s: Step, id: Id, a: Id) {
    || (s.Send? && s.id == id && s.newId == a)
    || (s.AutoSign? && s.newId == a && s.task in m.running && m.running[s.task].id == id)
  }

  /** At this step the record of `id` in `inbox/` was drafted, and its draft went into envelope `e`. */
  ghost predicate SignedFrom(m: Machine, s: Step, id: Id, e: Envelope) {
    && SendsAs(m, s, id, e.payload.id) && id in m.home.inbox
    && m.home.inbox[id].state == Drafted && Says(e, m.own, m.home.inbox[id], e.payload.id)
  }

  lemma SignSays(h: Home, own: Peer, id: Id, rec: Record, via: SendMode, newId: Id, w: SendWrites)
    requires newId !in h.outbox
    ensures var h' := SignPart(h, own, id, rec, via, newId, w).0;
            newId in h'.outbox ==> rec.state == Drafted && Carries(h'.outbox[newId], own, id, rec, newId)
  {
    SignOutcome(h, own, id, rec, via, newId, w);
    hide SignPart, Carries, HasEnvelope, ThreadGoesOn;
  }

  lemma SendSays(m: Machine, s: Step, a: Id)
    requires Enabled(m, s) && s.Send? && s.newId == a && a in Next(m, s).home.outbox
    ensures SignedFrom(m, s, s.id, Next(m, s).home.outbox[a].env)
  {
    var h, id := m.home, s.id;
    assert a !in h.outbox;
    hide SignPart, ClosePart, Busy, NewToSpool;
    if id in h.inbox {
      var rec := h.inbox[id];
      SignSays(h, m.own, id, rec, ByHuman, a, s.send);
      var (signed, answer) := SignPart(h, m.own, id, rec, ByHuman, a, s.send);
      if answer.Some? {
        CloseKeepsOutbox(signed, id, rec, ByHuman, answer.value, s.send);
      }
    }
  }

  lemma CarriesSays(out: Record, own: Peer, id: Id, rec: Record, a: Id)
    ensures Carries(out, own, id, rec, a) ==> Says(out.env, own, rec, out.env.payload.id) && out.env.payload.id == a
  {
  }

  lemma AutoSignSays(m: Machine, s: Step, a: Id)
    requires Enabled(m, s) && s.AutoSign? && s.newId == a && a in Next(m, s).home.outbox && Attempts.Scheduled(m)
    ensures SignedFrom(m, s, m.running[s.task].id, Next(m, s).home.outbox[a].env)
  {
    var t := m.running[s.task];
    assert a !in m.home.outbox;
    assert Attempts.HoldsRecord(m, s.task);
    hide SignPart, Busy, NewToSpool, HasEnvelope, Attempts.Scheduled, AutoSigned, Carries;
    SignSays(m.home, m.own, t.id, t.phase.rec, ByScheduler, a, s.send);
    AutoSignOutcome(m, s.task, a, s.send, s.ok);
    CarriesSays(Next(m, s).home.outbox[a], m.own, t.id, t.phase.rec, a);
  }

  /** An envelope that is in `outbox/` after a step was there before as it is, or was signed in it. */
  lemma SpooledInStep(m: Machine, s: Step, a: Id) returns (id: Id)
    requires Enabled(m, s) && Attempts.Scheduled(m) && a in Next(m, s).home.outbox
    ensures (a in m.home.outbox && m.home.outbox[a] == Next(m, s).home.outbox[a])
         || SignedFrom(m, s, id, Next(m, s).home.outbox[a].env)
  {
    StepOutbox(m, s, a);
    hide Next, Enabled, SignedFrom, Attempts.Scheduled;
    id := 0;
    if SpooledId(s) == Some(a) {
      if s.Send? {
        SendSays(m, s, a);
        id := s.id;
      } else {
        AutoSignSays(m, s, a);
        id := RequestOf(m, s);
      }
    }
  }

  function RequestOf(m: Machine, s: Step): Id {
    if s.AutoSign? && s.task in m.running then m.running[s.task].id else 0
  }

  /** At every moment of every run: an envelope in `outbox/` was signed by a send, by hand or by the
      scheduler, of a record that was drafted then, and says to its asker the text drafted then. */
  lemma {:induction false} SpooledIsWhatWasDrafted(ms: seq<Machine>, steps: seq<Step>, k: nat, a: Id)
    returns (j: nat, id: Id)
    requires Run(ms, steps) && k <= |steps| && a in ms[k].home.outbox
    ensures j < k && SignedFrom(ms[j], steps[j], id, ms[k].home.outbox[a].env)
    decreases k
  {
    hide Next, Enabled, SignedFrom;
    if k > 0 {
      Attempts.AttemptsNeverOverlap(ms, steps, k - 1);
      id := SpooledInStep(ms[k - 1], steps[k - 1], a);
      j := k - 1;
      if !SignedFrom(ms[j], steps[j], id, ms[k].home.outbox[a].env) {
        j, id := SpooledIsWhatWasDrafted(ms, steps, k - 1, a);
      }
    }
  }

  // ---- and between two homes ----

  lemma NewlySentWas(n: Net, s: Step, e: Envelope) returns (id: Id)
    requires ResponderEnabled(n, s) && Attempts.Scheduled(n.b) && e in ResponderNext(n, s).sent && e !in n.sent
    requires forall x :: x in n.b.home.outbox ==> n.b.home.outbox[x].env in n.sent
    ensures SignedFrom(n.b, s, id, e)
  {
    var b' := Next(n.b, s);
    var x :| x in b'.home.outbox && b'.home.outbox[x].env == e;
    hide Next, Enabled, SignedFrom, Attempts.Scheduled;
    id := SpooledInStep(n.b, s, x);
  }

  /** Over every run of two homes: whatever the responder ever had in `outbox/`, and so whatever the asker
      holds of it, says the text that was drafted for the request when it was signed. */
  lemma {:induction false} SentIsWhatWasDrafted(ns: seq<Net>, steps: seq<NetStep>, k: nat, e: Envelope)
    returns (j: nat, id: Id)
    requires NetRun(ns, steps) && k <= |steps| && e in ns[k].sent
    ensures j < k && steps[j].AtResponder? && SignedFrom(ns[j].b, steps[j].s, id, e)
    decreases k
  {
    hide SignedFrom, Next, Enabled, Attempts.Scheduled, FindTask, AskerEnabled;
    if k > 0 {
      assert NetEnabled(ns[k - 1], steps[k - 1]) && ns[k] == NetNext(ns[k - 1], steps[k - 1]);
      if e in ns[k - 1].sent {
        j, id := SentIsWhatWasDrafted(ns, steps, k - 1, e);
      } else {
        EveryNetRunIsGood(ns, steps, k - 1);
        j := k - 1;
        ResponderIsScheduled(ns, steps, k - 1);
        id := NewlySentWas(ns[j], steps[j].s, e);
      }
    }
  }

  lemma StartIsScheduled(own: Peer)
    ensures Attempts.Scheduled(Start(own))
  {
  }

  lemma NetStepSchedules(n: Net, t: NetStep)
    requires NetEnabled(n, t) && Attempts.Scheduled(n.b)
    ensures Attempts.Scheduled(NetNext(n, t).b)
  {
    hide Next, Enabled, Attempts.Scheduled, FindTask;
    if t.AtResponder? {
      Attempts.StepScheduled(n.b, t.s);
    }
  }

  lemma {:induction false} ResponderIsScheduled(ns: seq<Net>, steps: seq<NetStep>, k: nat)
    requires NetRun(ns, steps) && k <= |steps|
    ensures Attempts.Scheduled(ns[k].b)
    decreases k
  {
    hide NetEnabled, NetNext, Attempts.Scheduled;
    if k == 0 {
      StartIsScheduled(ns[0].b.own);
    } else {
      ResponderIsScheduled(ns, steps, k - 1);
      NetStepSchedules(ns[k - 1], steps[k - 1]);
    }
  }

  // ---- what is answered without a human was allowed to be ----

  /** Attempt `t` drafted request `id` at this step: a question, pending at the time, with the responder on
      and the peer under auto; `rec` is the record it wrote. */
  predicate DraftedUnderAuto(m: Machine, s: Step, id: Id, rec: Record) {
    && s.AutoDraft? && s.mode == Some(Auto) && s.enabled && s.drafted.Some?
    && s.task in m.running && m.running[s.task].id == id && id in m.home.inbox
    && m.home.inbox[id].state == Pending && m.home.inbox[id].env.payload.kind == Question
    && rec.env == m.home.inbox[id].env && rec.draft == Some(TextDraft(s.drafted.value))
  }

  /** The record an attempt works with was so drafted in this step, or the attempt had it already. */
  lemma PhaseStep(m: Machine, s: Step, t: TaskId)
    requires Enabled(m, s) && t in Next(m, s).running && Next(m, s).running[t].phase != Claimed
    ensures var task := Next(m, s).running[t];
            || DraftedUnderAuto(m, s, task.id, task.phase.rec)
            || (t in m.running && m.running[t].phase != Claimed && m.running[t].id == task.id
                && m.running[t].phase.rec == task.phase.rec)
  {
    hide SignPart, ClosePart, Busy, NewToSpool, AfterFailedSend, Local;
    match s {
      case AutoDraft(u, mode, enabled, text, ok) => AutoDraftOutcome(m, u, mode, enabled, text, ok);
      case AutoSign(u, newId, w, ok) => AutoSignOutcome(m, u, newId, w, ok);
      case AutoClose(u, w, ok) => AutoCloseOutcome(m, u, w, ok);
      case _ =>
    }
  }

  lemma {:induction false} PhaseWasDrafted(ms: seq<Machine>, steps: seq<Step>, k: nat, t: TaskId) returns (j: nat)
    requires Run(ms, steps) && k <= |steps| && t in ms[k].running && ms[k].running[t].phase != Claimed
    ensures j < k && DraftedUnderAuto(ms[j], steps[j], ms[k].running[t].id, ms[k].running[t].phase.rec)
    decreases k
  {
    if k > 0 {
      hide Next, Enabled, DraftedUnderAuto;
      PhaseStep(ms[k - 1], steps[k - 1], t);
      j := k - 1;
      if !DraftedUnderAuto(ms[j], steps[j], ms[k].running[t].id, ms[k].running[t].phase.rec) {
        j := PhaseWasDrafted(ms, steps, k - 1, t);
      }
    }
  }

  /** The event says that the scheduler signed or logged an answer to `id`. */
  predicate ByTheScheduler(e: Event, id: Id) {
    (e.Signed? && e.via == ByScheduler && e.id == id) || (e.Logged? && e.via == ByScheduler && e.id == id)
  }

  /** A leg of an attempt on `id` that has drafted. */
  predicate IsLeg(m: Machine, s: Step, id: Id) {
    (s.AutoSign? || s.AutoClose?) && s.task in m.running && m.running[s.task].id == id && m.running[s.task].phase != Claimed
  }

  /** A step adds to the history, and only a leg of an attempt adds such an event. */
  ghost predicate HistoryGrows(m: Machine, s: Step, hist: seq<Event>) {
    m.home.hist <= hist
    && forall i, id :: |m.home.hist| <= i < |hist| && ByTheScheduler(hist[i], id) ==> IsLeg(m, s, id)
  }

  lemma LegGrows(m: Machine, s: Step)
    requires Enabled(m, s) && (s.AutoSign? || s.AutoClose?)
    ensures HistoryGrows(m, s, Next(m, s).home.hist)
  {
    var id, rec := m.running[s.task].id, m.running[s.task].phase.rec;
    if s.AutoSign? {
      SignOutcome(m.home, m.own, id, rec, ByScheduler, s.newId, s.send);
      AutoSignOutcome(m, s.task, s.newId, s.send, s.ok);
    } else {
      CloseOutcome(m.home, id, rec, ByScheduler, m.running[s.task].phase.answer, s.send);
      AutoCloseOutcome(m, s.task, s.send, s.ok);
    }
    hide AutoSigned, AutoClosed, SignPart, ClosePart, Busy, NewToSpool, Carries, HasEnvelope, ThreadGoesOn, Ready, Shaped;
  }

  lemma SendGrows(m: Machine, s: Step)
    requires Enabled(m, s) && s.Send?
    ensures HistoryGrows(m, s, Next(m, s).home.hist)
  {
    hide SignPart, ClosePart, Busy, NewToSpool, Carries, HasEnvelope, ThreadGoesOn, Ready, Shaped;
    if s.id in m.home.inbox {
      var rec := m.home.inbox[s.id];
      SignOutcome(m.home, m.own, s.id, rec, ByHuman, s.newId, s.send);
      var (signed, answer) := SignPart(m.home, m.own, s.id, rec, ByHuman, s.newId, s.send);
      if answer.Some? {
        CloseOutcome(signed, s.id, rec, ByHuman, answer.value, s.send);
      }
    }
  }

  lemma DraftGrows(m: Machine, s: Step)
    requires Enabled(m, s) && (s.AutoDraft? || s.Spawn?)
    ensures HistoryGrows(m, s, Next(m, s).home.hist)
  {
    hide Busy;
  }

  /** The other commands and requests append at most one event, and none of the scheduler's. */
  lemma OtherAppends(h: Home, own: Peer, s: Step)
    requires !IsAuto(s) && !s.Send?
    ensures var hist := Local(h, own, s).hist;
            hist == h.hist || exists e :: hist == h.hist + [e] && forall id :: !ByTheScheduler(e, id)
  {
    if s.Ingest? {
      IngestOutcome(h, s.open, s.contact, s.env, s.ingest);
      hide IngestedFrom;
    } else {
      hide ThreadKnown, ExistingAnswer, ServesCached;
    }
  }

  lemma OtherGrows(m: Machine, s: Step)
    requires Enabled(m, s) && !IsAuto(s) && !s.Send?
    ensures HistoryGrows(m, s, Next(m, s).home.hist)
  {
    OtherAppends(m.home, m.own, s);
    hide Enabled, Local, ByTheScheduler, IsLeg;
  }

  lemma StepGrows(m: Machine, s: Step)
    requires Enabled(m, s)
    ensures HistoryGrows(m, s, Next(m, s).home.hist)
  {
    hide HistoryGrows, Enabled, Next;
    if s.AutoSign? || s.AutoClose? {
      LegGrows(m, s);
    } else if s.AutoDraft? || s.Spawn? {
      DraftGrows(m, s);
    } else if s.Send? {
      SendGrows(m, s);
    } else {
      OtherGrows(m, s);
    }
  }

  /** In every run: what the scheduler signs or logs in reply to a request, it does so with a record it
      drafted earlier in the run, a question that was pending then, of a peer that was under auto
      then, with the responder on. */
  lemma {:induction false} AutomaticNeedsAuto(ms: seq<Machine>, steps: seq<Step>, k: nat, i: nat, id: Id)
    returns (j: nat, l: nat)
    requires Run(ms, steps) && k <= |steps| && i < |ms[k].home.hist| && ByTheScheduler(ms[k].home.hist[i], id)
    ensures j < l < k && IsLeg(ms[l], steps[l], id)
    ensures DraftedUnderAuto(ms[j], steps[j], id, ms[l].running[steps[l].task].phase.rec)
    decreases k
  {
    hide Next, Enabled, DraftedUnderAuto;
    if k > 0 {
      StepGrows(ms[k - 1], steps[k - 1]);
      if i < |ms[k - 1].home.hist| {
        j, l := AutomaticNeedsAuto(ms, steps, k - 1, i, id);
      } else {
        l := k - 1;
        assert ms[k] == Next(ms[l], steps[l]) && IsLeg(ms[l], steps[l], id);
        j := PhaseWasDrafted(ms, steps, l, steps[l].task);
      }
    }
  }

  // ---- what the asker is told ----

  /** At every moment: submitted while the request is held, working while it is pending or drafted, and once
      it has left `inbox/` completed if it was answered and rejected if it was denied or rejected. */
  lemma TaskSays(ms: seq<Machine>, steps: seq<Step>, i: nat, k: nat, q: Payload)
    requires Run(ms, steps) && IntroducedOnce(steps, q.id) && NoLateRejects(ms, steps, q.id)
    requires i < k <= |steps| && AcceptedAt(ms, steps, i, q)
    ensures var h, task := ms[k].home, TaskAt(ms, k, q);
            if q.id in h.inbox then
              (h.inbox[q.id].state == Consent && task == Some(Submitted))
              || (h.inbox[q.id].state in {Pending, Drafted} && task == Some(Working))
            else
              && q.id in h.done
              && ((h.done[q.id].state == Answered && task == Some(Completed))
                  || (h.done[q.id].state in {Denied, Rejected} && task == Some(Refused)))
  {
    StaysTrackedInRun(ms, steps, i, k, q);
    RunIsSound(ms, steps, k, q);
    hide Run, AcceptedAt, NoLateRejects, IntroducedOnce;
    TaskOfTracked(ms[k].home, ms[k].own, q);
    if q.id in ms[k].home.inbox {
      InboxStates(ms[k].home, q.id);
    } else {
      SettledView(ms[k].home, q);
    }
    hide FindTask;
  }

  /** A poll shows a refusal exactly when the record that decides the task is in none of the states of an
      open or an answered request, or when there is none and the responder does not answer the asker. */
  lemma PollOutcome(n: Net, id: Id, unavailable: bool)
    ensures var h, caller := n.b.home, n.a.own;
            SeesRefusal(n, id, unavailable) <==>
              if OwnRequest(h.inbox, caller, id) then Refuses(h.inbox[id].state)
              else if exists a :: OwnReply(h.outbox, caller, id, a) then
                exists a :: OwnReply(h.outbox, caller, id, a) && (forall b :: OwnReply(h.outbox, caller, id, b) ==> a <= b)
                            && Refuses(h.outbox[a].state)
              else if OwnRequest(h.done, caller, id) then Refuses(h.done[id].state)
              else unavailable
  {
    TaskOutcome(n.b.home, n.a.own, id);
    hide FindTask, OwnRequest, OwnReply;
  }

  predicate Refuses(s: State) {
    s !in {Consent, Pending, Drafted, Unacked, Acked, State.Expired, Answered}
  }

  /** Only these steps take a record from `inbox/`, and each leaves its own state in `done/`. */
  ghost predicate EndsAs(m: Machine, s: Step, h': Home, id: Id) {
    id in m.home.inbox && id !in h'.inbox ==>
      && id in h'.done
      && match s
         case Deny(x, _, _) => x == id && h'.done[id].state == Denied
         case Reject(x, _) => x == id && h'.done[id].state == Rejected
         case Send(x, _, _) => x == id && h'.done[id].state == Answered
         case AutoClose(t, _, _) => t in m.running && m.running[t].id == id && h'.done[id].state == Answered
         case _ => false
  }

  lemma SendEnds(m: Machine, s: Step, id: Id)
    requires Enabled(m, s) && s.Send?
    ensures EndsAs(m, s, Next(m, s).home, id)
  {
    hide SignPart, ClosePart, Busy, NewToSpool, HasEnvelope, ThreadGoesOn, Carries, Ready, Shaped;
    if s.id in m.home.inbox {
      var rec := m.home.inbox[s.id];
      SignOutcome(m.home, m.own, s.id, rec, ByHuman, s.newId, s.send);
      var (signed, answer) := SignPart(m.home, m.own, s.id, rec, ByHuman, s.newId, s.send);
      if answer.Some? {
        CloseOutcome(signed, s.id, rec, ByHuman, answer.value, s.send);
      }
    }
  }

  lemma LegEnds(m: Machine, s: Step, id: Id)
    requires Enabled(m, s) && (s.AutoSign? || s.AutoClose?)
    ensures EndsAs(m, s, Next(m, s).home, id)
  {
    var t := m.running[s.task];
    if s.AutoSign? {
      SignOutcome(m.home, m.own, t.id, t.phase.rec, ByScheduler, s.newId, s.send);
      AutoSignOutcome(m, s.task, s.newId, s.send, s.ok);
    } else {
      CloseOutcome(m.home, t.id, t.phase.rec, ByScheduler, t.phase.answer, s.send);
      AutoCloseOutcome(m, s.task, s.send, s.ok);
    }
    hide AutoSigned, AutoClosed, SignPart, ClosePart, Busy, NewToSpool, HasEnvelope, ThreadGoesOn, Carries, Ready, Shaped;
  }

  lemma OtherKeepInbox(h: Home, own: Peer, s: Step, id: Id)
    requires !IsAuto(s) && !s.Send? && !s.Deny? && !s.Reject?
    ensures id in h.inbox ==> id in Local(h, own, s).inbox
  {
    if s.Ingest? {
      IngestOutcome(h, s.open, s.contact, s.env, s.ingest);
      hide IngestedFrom;
    } else {
      hide ThreadKnown, ExistingAnswer, ServesCached;
    }
  }

  lemma OtherEnds(m: Machine, s: Step, id: Id)
    requires Enabled(m, s) && !s.Send? && !s.AutoSign? && !s.AutoClose?
    ensures EndsAs(m, s, Next(m, s).home, id)
  {
    if s.Deny? {
      DenyOutcome(m.home, s.id, s.peer, s.finish);
      hide Enabled, DeniedOne;
    } else if s.Reject? {
      RejectOutcome(m.home, s.id, s.finish);
      hide Enabled, RejectedOne;
    } else if IsAuto(s) {
      hide Busy;
    } else {
      OtherKeepInbox(m.home, m.own, s, id);
      hide Enabled, Local;
    }
  }

  lemma StepEnds(m: Machine, s: Step, id: Id)
    requires Enabled(m, s)
    ensures EndsAs(m, s, Next(m, s).home, id)
  {
    hide EndsAs, Enabled, Next;
    if s.Send? {
      SendEnds(m, s, id);
    } else if s.AutoSign? || s.AutoClose? {
      LegEnds(m, s, id);
    } else {
      OtherEnds(m, s, id);
    }
  }

  /** However a request leaves `inbox/`, from then on, before and after acks and expiries, its asker sees it
      rejected if that was by `owl deny` or `owl reject`, and completed if it was by a send. */
  lemma FinalTask(ms: seq<Machine>, steps: seq<Step>, i: nat, k: nat, l: nat, q: Payload)
    requires Run(ms, steps) && IntroducedOnce(steps, q.id) && NoLateRejects(ms, steps, q.id)
    requires i < k < l <= |steps| && AcceptedAt(ms, steps, i, q)
    requires q.id in ms[k].home.inbox && q.id !in ms[k + 1].home.inbox
    ensures steps[k].Deny? || steps[k].Reject? || steps[k].Send? || steps[k].AutoClose?
    ensures TaskAt(ms, l, q) == Some(if steps[k].Deny? || steps[k].Reject? then Refused else Completed)
  {
    assert Enabled(ms[k], steps[k]) && ms[k + 1] == Next(ms[k], steps[k]);
    StepEnds(ms[k], steps[k], q.id);
    hide Next, Enabled, TaskAt, AcceptedAt, NoLateRejects, Run;
    TaskSays(ms, steps, i, k + 1, q);
    TaskNeverGoesBack(ms, steps, i, k + 1, l, q);
  }
}
