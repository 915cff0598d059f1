/** The loops of a pull as steps of the machine and of the two machines, from any moment of any run
    and on a listing of `asks/` taken at any earlier one. */
module PullRuns {
  import opened Prelude
  import opened Exchange
  import opened Machine
  import opened Batches
  import opened Pulls
  import opened Listings
  import opened Delivery

  /** Part of the listing, entry by entry. */
  predicate IsPart(left: map<Id, Record>, open: map<Id, Record>) {
    forall q :: q in left ==> q in open && left[q] == open[q]
  }

  ghost predicate NoneBusy(m: Machine, items: seq<Envelope>) {
    forall i :: 0 <= i < |items| ==> !Busy(m, items[i].payload.id)
  }

  /** From one machine to the next. */
  ghost predicate Leads(m: Machine, s: Step, m': Machine) {
    Enabled(m, s) && m' == Next(m, s)
  }

  ghost predicate Path(ms: seq<Machine>, steps: seq<Step>) {
    |ms| == |steps| + 1 && forall i :: 0 <= i < |steps| ==> Leads(ms[i], steps[i], ms[i + 1])
  }

  predicate IsTurn(s: Step, open: map<Id, Record>, contact: Peer, e: Envelope, w: IngestWrites) {
    s.Ingest? && s.contact == contact && s.env == e && s.ingest == w && IsPart(s.open, open)
  }

  /** After an ingest what is left of the listing is again part of it and as an ingest needs it. */
  lemma TurnKeepsListing(h: Home, open: map<Id, Record>, contact: Peer, e: Envelope, w: IngestWrites)
    requires ListedBefore(h, open)
    ensures var (h', v) := IngestedFrom(h, open, contact, e, w);
            ListedBefore(h', Unlisted(open, e, v)) && IsPart(Unlisted(open, e, v), open)
  {
    var (h', v) := IngestedFrom(h, open, contact, e, w);
    hide IngestedFrom, Answers;
    forall q | q in Unlisted(open, e, v) && q in h'.asks ensures Unlisted(open, e, v)[q] == h'.asks[q] {
      IngestHasFate(h, open, contact, e, w, q);
    }
  }

  lemma TurnEnabled(m: Machine, open: map<Id, Record>, contact: Peer, e: Envelope, w: IngestWrites)
    requires ListedBefore(m.home, open) && !Busy(m, e.payload.id)
    ensures Leads(m, Ingest(contact, e, open, w), m.(home := IngestedFrom(m.home, open, contact, e, w).0))
  {
    hide Busy, ListedBefore, IngestedFrom;
  }

  lemma StillNoneBusy(m: Machine, h: Home, items: seq<Envelope>)
    requires NoneBusy(m, items) && items != []
    ensures NoneBusy(m.(home := h), items[1..])
  {
    forall i | 0 <= i < |items[1..]| ensures !Busy(m.(home := h), items[1..][i].payload.id) {
      assert items[1..][i] == items[i + 1];
    }
  }

  /** A path of one `Ingest` for each item, on a part of the listing that meets what the machine asks
      of it. */
  ghost predicate Turns(ms: seq<Machine>, steps: seq<Step>, open: map<Id, Record>, contact: Peer, items: seq<Envelope>,
                        ws: seq<IngestWrites>) {
    && Path(ms, steps) && |steps| == |items| == |ws|
    && forall i :: 0 <= i < |items| ==> IsTurn(steps[i], open, contact, items[i], ws[i]) && ListedBefore(ms[i].home, steps[i].open)
  }

  lemma PathCons(m: Machine, s: Step, ms: seq<Machine>, steps: seq<Step>)
    requires Path(ms, steps) && Leads(m, s, ms[0])
    ensures Path([m] + ms, [s] + steps)
  {
    hide Leads;
    var all, every := [m] + ms, [s] + steps;
    forall i | 0 <= i < |every| ensures Leads(all[i], every[i], all[i + 1]) {
      assert i > 0 ==> all[i] == ms[i - 1] && all[i + 1] == ms[i] && every[i] == steps[i - 1];
    }
  }

  lemma TurnsCons(m: Machine, s: Step, ms: seq<Machine>, steps: seq<Step>, open: map<Id, Record>, open1: map<Id, Record>,
                  contact: Peer, items: seq<Envelope>, ws: seq<IngestWrites>)
    requires |ms| > 0 && items != [] && ws != [] && Leads(m, s, ms[0]) && ListedBefore(m.home, open) && IsPart(open1, open)
    requires s == Ingest(contact, items[0], open, ws[0]) && Turns(ms, steps, open1, contact, items[1..], ws[1..])
    ensures Turns([m] + ms, [s] + steps, open, contact, items, ws)
  {
    PathCons(m, s, ms, steps);
    hide Leads, Path, ListedBefore;
    var all, every := [m] + ms, [s] + steps;
    forall i | 0 <= i < |items|
      ensures IsTurn(every[i], open, contact, items[i], ws[i]) && ListedBefore(all[i].home, every[i].open)
    {
      if i > 0 {
        assert every[i] == steps[i - 1] && all[i] == ms[i - 1] && items[i] == items[1..][i - 1] && ws[i] == ws[1..][i - 1];
      }
    }
  }

  /** The first loop of a pull is such a path. */
  lemma {:induction false} ItemsAreSteps(m: Machine, open: map<Id, Record>, contact: Peer, items: seq<Envelope>,
                                         ws: seq<IngestWrites>) returns (ms: seq<Machine>, steps: seq<Step>)
    requires |ws| == |items| && ListedBefore(m.home, open) && NoneBusy(m, items)
    ensures Turns(ms, steps, open, contact, items, ws) && ms[0] == m
    ensures ms[|items|] == m.(home := PulledItems(m.home, open, contact, items, ws).0)
    decreases |items|
  {
    if items == [] {
      ms, steps := [m], [];
    } else {
      var (h1, v) := IngestedFrom(m.home, open, contact, items[0], ws[0]);
      var m1, open1 := m.(home := h1), Unlisted(open, items[0], v);
      TurnKeepsListing(m.home, open, contact, items[0], ws[0]);
      TurnEnabled(m, open, contact, items[0], ws[0]);
      StillNoneBusy(m, h1, items);
      hide IngestedFrom, Unlisted, NoneBusy, ListedBefore, Leads, IsPart;
      var ms1, steps1 := ItemsAreSteps(m1, open1, contact, items[1..], ws[1..]);
      TurnsCons(m, Ingest(contact, items[0], open, ws[0]), ms1, steps1, open, open1, contact, items, ws);
      ms, steps := [m] + ms1, [Ingest(contact, items[0], open, ws[0])] + steps1;
    }
  }

  /** The second loop is one `Decline` step for each ask seen as rejected. */
  lemma {:induction false} DeclinesAreSteps(m: Machine, open: map<Id, Record>, ids: seq<Id>, refused: set<Id>, w: Id -> MoveWrites)
    returns (ms: seq<Machine>, steps: seq<Step>)
    ensures Path(ms, steps) && ms[0] == m && ms[|steps|] == m.(home := DeclinedEach(m.home, open, ids, refused, w).0)
    ensures forall i :: 0 <= i < |steps| ==>
              steps[i].Decline? && steps[i].id in ids && steps[i].id in refused && steps[i].move == w(steps[i].id)
    decreases |ids|
  {
    if ids == [] {
      ms, steps := [m], [];
    } else if ids[0] !in refused {
      ms, steps := DeclinesAreSteps(m, open, ids[1..], refused, w);
    } else {
      var (h1, ok) := AskClosed(m.home, ids[0], Declined, w(ids[0]));
      var s := Decline(ids[0], w(ids[0]));
      assert Leads(m, s, m.(home := h1));
      hide AskClosed, Leads;
      var ms1, steps1 := DeclinesAreSteps(m.(home := h1), if ok then open - {ids[0]} else open, ids[1..], refused, w);
      PathCons(m, s, ms1, steps1);
      ms, steps := [m] + ms1, [s] + steps1;
    }
  }

  /** A run and then a path is a run. */
  lemma RunThenPath(ms: seq<Machine>, steps: seq<Step>, more: seq<Machine>, taken: seq<Step>)
    requires Run(ms, steps) && Path(more, taken) && more[0] == ms[|steps|]
    ensures Run(ms + more[1..], steps + taken)
  {
    var all, every := ms + more[1..], steps + taken;
    hide Enabled, Next;
    forall i | 0 <= i < |every| ensures Enabled(all[i], every[i]) && all[i + 1] == Next(all[i], every[i]) {
      if i >= |steps| {
        assert all[i] == more[i - |steps|] && all[i + 1] == more[i - |steps| + 1] && every[i] == taken[i - |steps|];
        assert Leads(more[i - |steps|], taken[i - |steps|], more[i - |steps| + 1]);
      }
    }
  }

  ghost predicate ListedAt(h: Home, open: map<Id, Record>) {
    forall q :: q in open ==> q in h.asks && open[q] == h.asks[q]
  }

  ghost predicate TurnsFrom(ms: seq<Machine>, steps: seq<Step>, n: nat, open: map<Id, Record>, contact: Peer,
                            items: seq<Envelope>, ws: seq<IngestWrites>)
    requires |ws| == |items|
  {
    && n + |items| <= |steps| && |ms| == |steps| + 1
    && forall i :: 0 <= i < |items| ==>
         IsTurn(steps[n + i], open, contact, items[i], ws[i]) && ListedBefore(ms[n + i].home, steps[n + i].open)
  }

  lemma ItemsContinueRun(ms: seq<Machine>, steps: seq<Step>, open: map<Id, Record>, contact: Peer,
                         items: seq<Envelope>, ws: seq<IngestWrites>)
    returns (ms': seq<Machine>, steps': seq<Step>)
    requires Run(ms, steps) && |ws| == |items|
    requires ListedBefore(ms[|steps|].home, open) && NoneBusy(ms[|steps|], items)
    ensures Run(ms', steps') && |steps'| == |steps| + |items| && ms <= ms' && steps <= steps'
    ensures TurnsFrom(ms', steps', |steps|, open, contact, items, ws)
    ensures var m := ms[|steps|]; ms'[|steps'|] == m.(home := PulledItems(m.home, open, contact, items, ws).0)
  {
    hide NoneBusy, ListedBefore, PulledItems, IsTurn, Enabled, Next;
    var ms1, steps1 := ItemsAreSteps(ms[|steps|], open, contact, items, ws);
    RunThenPath(ms, steps, ms1, steps1);
    hide Run, Path;
    ms', steps' := ms + ms1[1..], steps + steps1;
    forall i | 0 <= i < |items| ensures steps'[|steps| + i] == steps1[i] && ms'[|steps| + i] == ms1[i] {
    }
  }

  lemma DeclinesContinueRun(ms: seq<Machine>, steps: seq<Step>, open: map<Id, Record>, ids: seq<Id>, refused: set<Id>,
                            w: Id -> MoveWrites) returns (ms': seq<Machine>, steps': seq<Step>)
    requires Run(ms, steps)
    ensures Run(ms', steps') && ms <= ms' && steps <= steps'
    ensures forall i :: |steps| <= i < |steps'| ==> steps'[i].Decline? && steps'[i].id in refused
    ensures var m := ms[|steps|]; ms'[|steps'|] == m.(home := DeclinedEach(m.home, open, ids, refused, w).0)
  {
    hide DeclinedEach, Enabled, Next;
    var ms2, steps2 := DeclinesAreSteps(ms[|steps|], open, ids, refused, w);
    RunThenPath(ms, steps, ms2, steps2);
    hide Run, Path;
    ms', steps' := ms + ms2[1..], steps + steps2;
  }

  lemma TurnsStay(ms: seq<Machine>, steps: seq<Step>, ms': seq<Machine>, steps': seq<Step>, n: nat, open: map<Id, Record>,
                  contact: Peer, items: seq<Envelope>, ws: seq<IngestWrites>)
    requires |ws| == |items| && TurnsFrom(ms, steps, n, open, contact, items, ws)
    requires ms <= ms' && steps <= steps' && |ms'| == |steps'| + 1
    ensures TurnsFrom(ms', steps', n, open, contact, items, ws)
  {
    hide ListedBefore, IsPart;
    forall i | 0 <= i < |items|
      ensures IsTurn(steps'[n + i], open, contact, items[i], ws[i])
      ensures steps'[n + i].Ingest? && ListedBefore(ms'[n + i].home, steps'[n + i].open)
    {
      assert IsTurn(steps[n + i], open, contact, items[i], ws[i]);
      assert steps'[n + i] == steps[n + i] && ms'[n + i] == ms[n + i];
    }
  }

  /** From the end of any run, a pull on a listing taken at any earlier moment of it continues the run
      by its ingests and then its declines. */
  lemma PullContinuesRun(ms: seq<Machine>, steps: seq<Step>, j: nat, open: map<Id, Record>, contact: Peer,
                         items: seq<Envelope>, ws: seq<IngestWrites>, refused: set<Id>, w: Id -> MoveWrites)
    returns (ms': seq<Machine>, steps': seq<Step>)
    requires Run(ms, steps) && j <= |steps| && ListedAt(ms[j].home, open)
    requires |ws| == |items| && NoneBusy(ms[|steps|], items)
    ensures Run(ms', steps') && ms <= ms' && steps <= steps'
    ensures TurnsFrom(ms', steps', |steps|, open, contact, items, ws)
    ensures forall i :: |steps| + |items| <= i < |steps'| ==> steps'[i].Decline? && steps'[i].id in refused
    ensures var m := ms[|steps|];
            ms'[|steps'|] == m.(home := PulledPeer(m.home, open, contact, items, ws, refused, w).0)
  {
    var m := ms[|steps|];
    ListingStays(ms, steps, j, |steps|, open);
    hide NoneBusy, ListedBefore, ListedAt, PulledItems, DeclinedEach, StillOpen, TurnsFrom, Enabled, Next;
    var ms1, steps1 := ItemsContinueRun(ms, steps, open, contact, items, ws);
    var left := PulledItems(m.home, open, contact, items, ws).1;
    ms', steps' := DeclinesContinueRun(ms1, steps1, left, StillOpen(left, contact), refused, w);
    TurnsStay(ms1, steps1, ms', steps', |steps|, open, contact, items, ws);
  }

  // ---- between two machines ----

  ghost predicate NetLeads(n: Net, t: NetStep, n': Net) {
    NetEnabled(n, t) && n' == NetNext(n, t)
  }

  ghost predicate NetPath(ns: seq<Net>, ts: seq<NetStep>) {
    |ns| == |ts| + 1 && forall i :: 0 <= i < |ts| ==> NetLeads(ns[i], ts[i], ns[i + 1])
  }

  /** Whatever verifies with the responder's key it has sent. */
  predicate AllSent(n: Net, items: seq<Envelope>) {
    forall i :: 0 <= i < |items| && items[i].signer == Some(n.b.own) && IsReply(items[i].payload.kind) ==> items[i] in n.sent
  }

  ghost predicate NetTurns(ns: seq<Net>, ts: seq<NetStep>, open: map<Id, Record>, contact: Peer, items: seq<Envelope>,
                           ws: seq<IngestWrites>, acks: seq<bool>) {
    && NetPath(ns, ts) && |ts| == |items| == |ws| == |acks|
    && forall i :: 0 <= i < |items| ==>
         ts[i].AtAsker? && IsTurn(ts[i].s, open, contact, items[i], ws[i]) && ts[i].ackSent == acks[i]
  }

  lemma NetPathCons(n: Net, t: NetStep, ns: seq<Net>, ts: seq<NetStep>)
    requires NetPath(ns, ts) && NetLeads(n, t, ns[0])
    ensures NetPath([n] + ns, [t] + ts)
  {
    hide NetLeads;
    var all, every := [n] + ns, [t] + ts;
    forall i | 0 <= i < |every| ensures NetLeads(all[i], every[i], all[i + 1]) {
      assert i > 0 ==> all[i] == ns[i - 1] && all[i + 1] == ns[i] && every[i] == ts[i - 1];
    }
  }

  lemma NetTurnsCons(n: Net, s: Step, ns: seq<Net>, ts: seq<NetStep>, open: map<Id, Record>, open1: map<Id, Record>,
                     contact: Peer, items: seq<Envelope>, ws: seq<IngestWrites>, acks: seq<bool>)
    requires |ns| > 0 && items != [] && ws != [] && acks != [] && IsPart(open1, open)
    requires NetLeads(n, AtAsker(s, acks[0]), ns[0]) && s == Ingest(contact, items[0], open, ws[0])
    requires NetTurns(ns, ts, open1, contact, items[1..], ws[1..], acks[1..])
    ensures NetTurns([n] + ns, [AtAsker(s, acks[0])] + ts, open, contact, items, ws, acks)
  {
    NetPathCons(n, AtAsker(s, acks[0]), ns, ts);
    hide NetLeads, NetPath;
    var every := [AtAsker(s, acks[0])] + ts;
    forall i | 0 <= i < |items|
      ensures every[i].AtAsker? && IsTurn(every[i].s, open, contact, items[i], ws[i]) && every[i].ackSent == acks[i]
    {
      if i > 0 {
        assert every[i] == ts[i - 1] && items[i] == items[1..][i - 1] && ws[i] == ws[1..][i - 1] && acks[i] == acks[1..][i - 1];
      }
    }
  }

  /** Only the asker's home and the acks under way change. */
  ghost predicate AskerOnly(n: Net, n': Net, home: Home) {
    n' == n.(a := n.a.(home := home), acks := n'.acks) && n.acks <= n'.acks
  }

  lemma NetTurnEnabled(n: Net, open: map<Id, Record>, e: Envelope, w: IngestWrites, ackSent: bool)
    requires ListedBefore(n.a.home, open) && !Busy(n.a, e.payload.id)
    requires e.signer == Some(n.b.own) && IsReply(e.payload.kind) ==> e in n.sent
    ensures var t := AtAsker(Ingest(n.b.own, e, open, w), ackSent);
            NetEnabled(n, t) && AskerOnly(n, NetNext(n, t), IngestedFrom(n.a.home, open, n.b.own, e, w).0)
  {
    TurnEnabled(n.a, open, n.b.own, e, w);
    hide Busy, ListedBefore, IngestedFrom;
  }

  /** A pull from the responder of envelopes that may be old, repeated or forged is a path of the two
      machines. */
  lemma {:induction false} ItemsAreNetSteps(n: Net, open: map<Id, Record>, items: seq<Envelope>, ws: seq<IngestWrites>,
                                            acks: seq<bool>) returns (ns: seq<Net>, ts: seq<NetStep>)
    requires |ws| == |items| == |acks| && ListedBefore(n.a.home, open) && NoneBusy(n.a, items) && AllSent(n, items)
    ensures NetTurns(ns, ts, open, n.b.own, items, ws, acks) && ns[0] == n
    ensures AskerOnly(n, ns[|items|], PulledItems(n.a.home, open, n.b.own, items, ws).0)
    decreases |items|
  {
    if items == [] {
      ns, ts := [n], [];
    } else {
      var (h1, v) := IngestedFrom(n.a.home, open, n.b.own, items[0], ws[0]);
      var open1 := Unlisted(open, items[0], v);
      var s := Ingest(n.b.own, items[0], open, ws[0]);
      TurnKeepsListing(n.a.home, open, n.b.own, items[0], ws[0]);
      NetTurnEnabled(n, open, items[0], ws[0], acks[0]);
      StillNoneBusy(n.a, h1, items);
      assert forall i :: 0 <= i < |items[1..]| ==> items[1..][i] == items[i + 1];
      hide IngestedFrom, Unlisted, NoneBusy, ListedBefore, NetEnabled, NetNext, IsPart;
      var n1 := NetNext(n, AtAsker(s, acks[0]));
      var ns1, ts1 := ItemsAreNetSteps(n1, open1, items[1..], ws[1..], acks[1..]);
      NetTurnsCons(n, s, ns1, ts1, open, open1, n.b.own, items, ws, acks);
      ns, ts := [n] + ns1, [AtAsker(s, acks[0])] + ts1;
    }
  }

  lemma NetRunThenPath(ns: seq<Net>, steps: seq<NetStep>, more: seq<Net>, taken: seq<NetStep>)
    requires NetRun(ns, steps) && NetPath(more, taken) && more[0] == ns[|steps|]
    ensures NetRun(ns + more[1..], steps + taken)
  {
    var all, every := ns + more[1..], steps + taken;
    hide NetEnabled, NetNext;
    forall i | 0 <= i < |every| ensures NetEnabled(all[i], every[i]) && all[i + 1] == NetNext(all[i], every[i]) {
      if i >= |steps| {
        assert all[i] == more[i - |steps|] && all[i + 1] == more[i - |steps| + 1] && every[i] == taken[i - |steps|];
        assert NetLeads(more[i - |steps|], taken[i - |steps|], more[i - |steps| + 1]);
      }
    }
  }

  lemma NetStepFollows(n: Net, t: NetStep, q: Id, rec: Record)
    requires NetEnabled(n, t) && Followed(n.a.home, q, rec)
    ensures Followed(NetNext(n, t).a.home, q, rec)
  {
    hide Followed, Enabled, Next;
    if t.AtAsker? {
      StepFollows(n.a, t.s, q, rec);
    }
  }

  lemma {:induction false} NetRunFollows(ns: seq<Net>, steps: seq<NetStep>, j: nat, i: nat, q: Id)
    requires NetRun(ns, steps) && j <= i <= |steps| && q in ns[j].a.home.asks
    ensures Followed(ns[i].a.home, q, ns[j].a.home.asks[q])
    decreases i
  {
    hide NetNext, NetEnabled;
    if j < i {
      NetRunFollows(ns, steps, j, i - 1, q);
      hide Followed;
      NetStepFollows(ns[i - 1], steps[i - 1], q, ns[j].a.home.asks[q]);
    }
  }

  lemma NetListingStays(ns: seq<Net>, steps: seq<NetStep>, j: nat, i: nat, open: map<Id, Record>)
    requires NetRun(ns, steps) && j <= i <= |steps| && ListedAt(ns[j].a.home, open)
    ensures ListedBefore(ns[i].a.home, open)
  {
    hide NetNext, NetEnabled;
    forall q | q in open ensures Followed(ns[i].a.home, q, open[q]) {
      NetRunFollows(ns, steps, j, i, q);
    }
  }

  const ALL_WRITES := IngestWrites(true, true, MoveWrites(true, true))

  /** Pulling delivers: from the end of any run of the two machines, with the asks as listed at any
      earlier moment, a pull that meets a reply the responder sent to an open ask and whose writes for
      that ask succeed continues the run so that the ask is answered and a verified reply to it held. */
  lemma PullDelivers(ns: seq<Net>, steps: seq<NetStep>, j: nat, open: map<Id, Record>, items: seq<Envelope>,
                     ws: seq<IngestWrites>, acks: seq<bool>, q: Id, i: nat)
    returns (ns': seq<Net>, steps': seq<NetStep>)
    requires NetRun(ns, steps) && j <= |steps| && ListedAt(ns[j].a.home, open)
    requires |ws| == |items| == |acks| && NoneBusy(ns[|steps|].a, items) && AllSent(ns[|steps|], items)
    requires q in ns[|steps|].a.home.asks && q in open && open[q].peer == ns[|steps|].b.own
    requires i < |items| && items[i] in ns[|steps|].sent && items[i].payload.inReplyTo == Some(q)
    requires forall k :: 0 <= k < |items| && items[k].payload.inReplyTo == Some(q) ==> ws[k] == ALL_WRITES
    ensures NetRun(ns', steps') && |steps'| == |steps| + |items| && ns <= ns' && steps <= steps'
    ensures forall k :: |steps| <= k < |steps'| ==>
              && steps'[k].AtAsker? && steps'[k].ackSent == acks[k - |steps|]
              && IsTurn(steps'[k].s, open, ns[|steps|].b.own, items[k - |steps|], ws[k - |steps|])
    ensures var h, h' := ns[|steps|].a.home, ns'[|steps'|].a.home;
            q !in h'.asks && q in h'.done && h'.done[q] == h.asks[q].(state := Answered)
    ensures Replied(ns'[|steps'|], q)
  {
    var n := ns[|steps|];
    NetListingStays(ns, steps, j, |steps|, open);
    EveryNetRunIsGood(ns, steps, |steps|);
    var ms, ts := ItemsAreNetSteps(n, open, items, ws, acks);
    NetRunThenPath(ns, steps, ms, ts);
    ns', steps' := ns + ms[1..], steps + ts;
    assert ns'[|steps'|] == ms[|items|];
    PullAnswers(n, open, items, ws, q, i);
  }

  /** Among the items the first answer to `q` closes the ask, and is in `inbox/` at the end. */
  lemma PullAnswers(n: Net, open: map<Id, Record>, items: seq<Envelope>, ws: seq<IngestWrites>, q: Id, i: nat)
    requires Good(n) && |ws| == |items| && AllSent(n, items)
    requires q in n.a.home.asks && q in open && open[q].peer == n.b.own
    requires i < |items| && items[i] in n.sent && items[i].payload.inReplyTo == Some(q)
    requires forall k :: 0 <= k < |items| && items[k].payload.inReplyTo == Some(q) ==> ws[k] == ALL_WRITES
    ensures var h' := PulledItems(n.a.home, open, n.b.own, items, ws).0;
            && q !in h'.asks && q in h'.done && h'.done[q] == n.a.home.asks[q].(state := Answered)
            && exists e :: e in n.sent && e.signer == Some(n.b.own) && e.payload.inReplyTo == Some(q) && Held(h', e)
  {
    var h, contact := n.a.home, n.b.own;
    var h' := PulledItems(h, open, contact, items, ws).0;
    assert Genuine(n, items[i]);
    assert Answers(open, contact, items[i], ws[i], q);
    FirstIsThere(open, contact, items, ws, q, i);
    var k: nat :| FirstAnswer(open, contact, items, ws, q, k);
    AnsweredByFirst(h, open, contact, items, ws, q, k);
    assert items[k] in n.sent && Genuine(n, items[k]) && ws[k] == ALL_WRITES;
    assert Stores(h, open, contact, items, ws, k);
    forall j: nat | j < |items| && items[j].payload.id == items[k].payload.id && Stores(h, open, contact, items, ws, j)
      ensures items[j] == items[k]
    {
      assert items[j] in n.sent;
    }
    hide PulledItems, Stores, FirstAnswer, Answers;
    PullStores(h, open, contact, items, ws, k);
    assert Held(h', items[k]);
  }
}
