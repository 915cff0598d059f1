/** The auto-accept scheduler of src/auto.rs over every interleaving of arrivals, scans, attempts
    on other records and commands. */
module Attempts {
  import opened Prelude
  import opened Exchange
  import opened Machine

  // ---- attempts never overlap ----

  /** Claims and attempts agree, at most one attempt per record, and an attempt past its first
      leg still finds in `inbox/` the drafted record it wrote. */
  ghost predicate Scheduled(m: Machine) {
    && (forall t :: t in m.running ==> m.running[t].id in m.inFlight)
    && (forall id :: id in m.inFlight ==> exists t :: t in m.running && m.running[t].id == id)
    && NoOverlap(m)
    && (forall t :: t in m.running && m.running[t].phase != Claimed ==> HoldsRecord(m, t))
  }

  ghost predicate NoOverlap(m: Machine) {
    forall t, u :: t in m.running && u in m.running && m.running[t].id == m.running[u].id ==> t == u
  }

  ghost predicate HoldsRecord(m: Machine, t: TaskId)
    requires t in m.running && m.running[t].phase != Claimed
  {
    var id, rec := m.running[t].id, m.running[t].phase.rec;
    && id in m.home.inbox && m.home.inbox[id] == rec
    && rec.state == Drafted && rec.env.payload.kind == Question
  }

  /** `id` keeps its record in `inbox/`. */
  predicate KeepsRecord(h: Home, h': Home, id: Id) {
    id in h.inbox ==> id in h'.inbox && h'.inbox[id] == h.inbox[id]
  }

  lemma SignPartKeepsInbox(h: Home, own: Peer, id: Id, rec: Record, via: SendMode, newId: Id, w: SendWrites)
    ensures SignPart(h, own, id, rec, via, newId, w).0.inbox == h.inbox
  {
  }

  lemma ClosePartKeepsOthers(h: Home, id: Id, rec: Record, via: SendMode, answer: Id, w: SendWrites, other: Id)
    requires other != id
    ensures KeepsRecord(h, ClosePart(h, id, rec, via, answer, w).0, other)
  {
  }

  lemma SendKeepsOthers(h: Home, own: Peer, s: Step, id: Id)
    requires s.Send? && s.id != id
    ensures KeepsRecord(h, Local(h, own, s), id)
  {
    hide ExistingAnswer, SignPart, ClosePart;
    if s.id in h.inbox {
      SignPartKeepsInbox(h, own, s.id, h.inbox[s.id], ByHuman, s.newId, s.send);
      var (signed, answer) := SignPart(h, own, s.id, h.inbox[s.id], ByHuman, s.newId, s.send);
      if answer.Some? {
        ClosePartKeepsOthers(signed, s.id, h.inbox[s.id], ByHuman, answer.value, s.send, id);
      }
    }
  }

  lemma FinishingKeepsOthers(h: Home, own: Peer, s: Step, id: Id)
    requires (s.Deny? || s.Reject?) && s.id != id
    ensures KeepsRecord(h, Local(h, own, s), id)
  {
  }

  lemma LocalKeepsOthers(h: Home, own: Peer, s: Step, id: Id)
    requires Subject(s) != Some(id)
    ensures KeepsRecord(h, Local(h, own, s), id)
  {
    if s.Send? {
      SendKeepsOthers(h, own, s, id);
    } else if s.Deny? || s.Reject? {
      FinishingKeepsOthers(h, own, s, id);
    } else {
      hide ExistingAnswer, ThreadKnown, ServesCached, VerdictOn;
    }
  }

  lemma LocalScheduled(m: Machine, s: Step)
    requires Scheduled(m) && Enabled(m, s) && !IsAuto(s)
    ensures Scheduled(Next(m, s))
  {
    var m' := Next(m, s);
    forall t | t in m'.running && m'.running[t].phase != Claimed ensures HoldsRecord(m', t) {
      assert HoldsRecord(m, t);
      assert t in m.running && m.running[t].id == m.running[t].id && m.running[t].phase != Claimed;
      assert Busy(m, m.running[t].id);
      LocalKeepsOthers(m.home, m.own, s, m.running[t].id);
    }
  }

  /** A step of attempt `t` that ends it or moves it on. */
  lemma TaskStepScheduled(m: Machine, t: TaskId, m': Machine)
    requires Scheduled(m) && t in m.running && m'.own == m.own
    requires forall id :: id != m.running[t].id ==> KeepsRecord(m.home, m'.home, id)
    requires (m'.running == m.running - {t} && m'.inFlight == m.inFlight - {m.running[t].id})
          || (t in m'.running && m'.running == m.running[t := m'.running[t]] && m'.running[t].id == m.running[t].id
              && m'.running[t].phase != Claimed && HoldsRecord(m', t) && m'.inFlight == m.inFlight)
    ensures Scheduled(m')
  {
    forall u | u in m'.running && m'.running[u].phase != Claimed ensures HoldsRecord(m', u) {
      if u != t {
        assert HoldsRecord(m, u) && m.running[u].id != m.running[t].id;
        assert KeepsRecord(m.home, m'.home, m.running[u].id);
      }
    }
    forall u | u in m'.running ensures m'.running[u].id in m'.inFlight {
      if u != t {
        assert m.running[u].id != m.running[t].id;
      }
    }
    forall id | id in m'.inFlight ensures exists u :: u in m'.running && m'.running[u].id == id {
      var u :| u in m.running && m.running[u].id == id;
      assert u in m'.running && m'.running[u].id == id;
    }
  }

  lemma AutoDraftScheduled(m: Machine, s: Step)
    requires Scheduled(m) && Enabled(m, s) && s.AutoDraft?
    ensures Scheduled(Next(m, s))
  {
    hide Scheduled;
    TaskStepScheduled(m, s.task, Next(m, s));
  }

  lemma AutoSignScheduled(m: Machine, s: Step)
    requires Scheduled(m) && Enabled(m, s) && s.AutoSign?
    ensures Scheduled(Next(m, s))
  {
    var id, rec := m.running[s.task].id, m.running[s.task].phase.rec;
    assert HoldsRecord(m, s.task);
    SignPartKeepsInbox(m.home, m.own, id, rec, ByScheduler, s.newId, s.send);
    hide SignPart, ExistingAnswer, Scheduled;
    TaskStepScheduled(m, s.task, Next(m, s));
  }

  lemma AutoCloseScheduled(m: Machine, s: Step)
    requires Scheduled(m) && Enabled(m, s) && s.AutoClose?
    ensures Scheduled(Next(m, s))
  {
    var m', t := Next(m, s), m.running[s.task];
    hide ClosePart, ExistingAnswer, Scheduled;
    forall other | other != t.id ensures KeepsRecord(m.home, m'.home, other) {
      ClosePartKeepsOthers(m.home, t.id, t.phase.rec, ByScheduler, t.phase.answer, s.send, other);
    }
    TaskStepScheduled(m, s.task, m');
  }

  lemma AutoScheduled(m: Machine, s: Step)
    requires Scheduled(m) && Enabled(m, s) && IsAuto(s)
    ensures Scheduled(Next(m, s))
  {
    hide Scheduled;
    if s.AutoDraft? {
      AutoDraftScheduled(m, s);
    } else if s.AutoSign? {
      AutoSignScheduled(m, s);
    } else if s.AutoClose? {
      AutoCloseScheduled(m, s);
    } else if s.id !in m.inFlight {
      SpawnScheduled(m, s.task, s.id);
    }
  }

  lemma SpawnClaims(m: Machine, t: TaskId, id: Id)
    requires Scheduled(m) && t !in m.running && id !in m.inFlight
    ensures var m' := Spawned(m, t, id);
            && (forall u :: u in m'.running ==> m'.running[u].id in m'.inFlight) && NoOverlap(m')
            && (forall x :: x in m'.inFlight ==> exists u :: u in m'.running && m'.running[u].id == x)
  {
    var m' := Spawned(m, t, id);
    hide HoldsRecord;
    forall x | x in m'.inFlight ensures exists u :: u in m'.running && m'.running[u].id == x {
      if x == id {
        assert t in m'.running && m'.running[t].id == id;
      } else {
        var u :| u in m.running && m.running[u].id == x;
        assert u in m'.running && m'.running[u].id == x;
      }
    }
  }

  lemma SpawnScheduled(m: Machine, t: TaskId, id: Id)
    requires Scheduled(m) && t !in m.running && id !in m.inFlight
    ensures Scheduled(Spawned(m, t, id))
  {
    var m' := Spawned(m, t, id);
    SpawnClaims(m, t, id);
    hide NoOverlap;
    forall u | u in m'.running && m'.running[u].phase != Claimed ensures HoldsRecord(m', u) {
      assert u in m.running && m.running[u] == m'.running[u] && HoldsRecord(m, u);
    }
  }

  lemma StepScheduled(m: Machine, s: Step)
    requires Scheduled(m) && Enabled(m, s)
    ensures Scheduled(Next(m, s))
  {
    hide Scheduled;
    if IsAuto(s) {
      AutoScheduled(m, s);
    } else {
      LocalScheduled(m, s);
    }
  }

  /** Two attempts on one record never run at the same time, however triggers and scans fall. */
  lemma {:induction false} AttemptsNeverOverlap(ms: seq<Machine>, steps: seq<Step>, i: nat)
    requires Run(ms, steps) && i <= |steps|
    ensures Scheduled(ms[i])
    decreases i
  {
    if i > 0 {
      AttemptsNeverOverlap(ms, steps, i - 1);
      StepScheduled(ms[i - 1], steps[i - 1]);
    }
  }
}
