/** A pull lists the open asks once and works on that list while other commands run (`pull_once` of
    src/pull.rs). What it needs of the list holds in every run. */
module Listings {
  import opened Prelude
  import opened Exchange
  import opened Machine
  import opened TaskProgress

  // ---- `done/` loses nothing, and an ask that goes is there ----

  predicate DoneGrows(h: Home, h': Home) {
    h.done.Keys <= h'.done.Keys
  }

  lemma LocalDoneGrows(h: Home, own: Peer, s: Step)
    requires !IsAuto(s) && !s.Send?
    ensures DoneGrows(h, Local(h, own, s))
  {
    hide ExistingAnswer, ThreadKnown;
  }

  lemma SendDoneGrows(h: Home, own: Peer, s: Step)
    requires s.Send?
    ensures DoneGrows(h, Local(h, own, s))
  {
    hide SignPart, ClosePart;
    if s.id in h.inbox {
      var rec := h.inbox[s.id];
      SignPartDone(h, own, s.id, rec, ByHuman, s.newId, s.send);
      var (signed, answer) := SignPart(h, own, s.id, rec, ByHuman, s.newId, s.send);
      if answer.Some? {
        ClosePartDone(signed, s.id, rec, ByHuman, answer.value, s.send);
      }
    }
  }

  lemma AutoDoneGrows(m: Machine, s: Step)
    requires Enabled(m, s) && IsAuto(s)
    ensures DoneGrows(m.home, Next(m, s).home)
  {
    hide SignPart, ClosePart, ExistingAnswer, NewToSpool, Busy;
    if s.AutoSign? {
      var t := m.running[s.task];
      SignPartDone(m.home, m.own, t.id, t.phase.rec, ByScheduler, s.newId, s.send);
    } else if s.AutoClose? {
      var t := m.running[s.task];
      ClosePartDone(m.home, t.id, t.phase.rec, ByScheduler, t.phase.answer, s.send);
    }
  }

  lemma StepDoneGrows(m: Machine, s: Step)
    requires Enabled(m, s)
    ensures DoneGrows(m.home, Next(m, s).home)
  {
    hide DoneGrows, Local;
    if IsAuto(s) {
      AutoDoneGrows(m, s);
    } else if s.Send? {
      SendDoneGrows(m.home, m.own, s);
    } else {
      LocalDoneGrows(m.home, m.own, s);
    }
  }

  /** An ask stays as it is or goes to `done/`. */
  ghost predicate StaysOrDone(h: Home, h': Home, q: Id) {
    q in h.asks ==> if q in h'.asks then h'.asks[q] == h.asks[q] else q in h'.done
  }

  lemma LocalStaysOrDone(h: Home, own: Peer, s: Step, q: Id)
    requires !IsAuto(s) && !s.Send? && (s.Ask? ==> s.payload.id !in h.asks)
    ensures StaysOrDone(h, Local(h, own, s), q)
  {
    hide ExistingAnswer, ThreadKnown;
  }

  lemma StepStaysOrDone(m: Machine, s: Step, q: Id)
    requires Enabled(m, s)
    ensures StaysOrDone(m.home, Next(m, s).home, q)
  {
    if IsAuto(s) {
      AutoKeepsAsks(m, s);
    } else if s.Send? {
      SendKeepsAsks(m.home, m.own, s);
    } else {
      LocalStaysOrDone(m.home, m.own, s, q);
    }
    hide Local, AutoDrafted, AutoSigned, AutoClosed, Spawned, StaysOrDone, Busy, ListedBefore;
  }

  // ---- over runs ----

  /** What became of an ask that was listed: still as it was, or finished and never open again. */
  ghost predicate Followed(h: Home, q: Id, rec: Record) {
    if q in h.asks then h.asks[q] == rec else q in h.done
  }

  lemma StepFollows(m: Machine, s: Step, q: Id, rec: Record)
    requires Enabled(m, s) && Followed(m.home, q, rec)
    ensures Followed(Next(m, s).home, q, rec)
  {
    StepDoneGrows(m, s);
    StepStaysOrDone(m, s, q);
    if q !in m.home.asks && q in Next(m, s).home.asks {
      AsksAdd(m, s, q);
    }
    hide Next, Enabled;
  }

  lemma {:induction false} RunFollows(ms: seq<Machine>, steps: seq<Step>, j: nat, i: nat, q: Id)
    requires Run(ms, steps) && j <= i <= |steps| && q in ms[j].home.asks
    ensures Followed(ms[i].home, q, ms[j].home.asks[q])
    decreases i
  {
    hide Next, Enabled;
    if j < i {
      RunFollows(ms, steps, j, i - 1, q);
      hide Followed;
      StepFollows(ms[i - 1], steps[i - 1], q, ms[j].home.asks[q]);
    }
  }

  /** In every run, what is left of a listing of `asks/` taken at any earlier moment is at any later
      one what an ingest needs: each entry is still as listed, or gone, and then it is in `done/`. */
  lemma ListingStays(ms: seq<Machine>, steps: seq<Step>, j: nat, i: nat, open: map<Id, Record>)
    requires Run(ms, steps) && j <= i <= |steps|
    requires forall q :: q in open ==> q in ms[j].home.asks && open[q] == ms[j].home.asks[q]
    ensures ListedBefore(ms[i].home, open)
    ensures forall q :: q in open && q !in ms[i].home.asks ==> q in ms[i].home.done
  {
    forall q | q in open ensures Followed(ms[i].home, q, open[q]) {
      RunFollows(ms, steps, j, i, q);
    }
  }
}
