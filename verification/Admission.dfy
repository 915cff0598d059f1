/** Why a request's id arrives once: the checks of `post_question` in front of the spool
    (src/server.rs), joined with the machine behind them. */
module Admission {
  import opened Prelude
  import M = Machine
  import Exchange
  import opened Accounting
  import opened OneRequest
  import opened Replay

  /** What reaches one home: a request with the step it takes if it gets past the checks, a restart
      of the daemon, or any other step. */
  datatype Act = Incoming(r: Replay.Request, post: M.Step) | Restarted(now: nat) | Other(s: M.Step)

  predicate Matches(a: Act) {
    match a
    case Incoming(r, post) =>
      && post.Post? && post.env.payload.id == r.id && post.remembered == r.saves
      && (r.passes ==> post.enabled && post.mode != Some(Exchange.Never))
    case Restarted(_) => true
    case Other(s) => !s.Post?
  }

  /** Past the freshness and duplicate tests and the gates behind them, up to the spool. */
  predicate Passes(t: Table, r: Replay.Request, window: nat) {
    IsFresh(r.ts, r.now, window) && !Known(t.memory, r.id) && r.passes && r.spools
  }

  /** The steps the machine takes. */
  function Taken(t: Table, acts: seq<Act>, window: nat, ttl: nat): seq<M.Step>
    decreases |acts|
  {
    if acts == [] then []
    else
      match acts[0]
      case Incoming(r, post) =>
        (if Passes(t, r, window) then [post] else []) + Taken(Handled(t, r, window).0, acts[1..], window, ttl)
      case Restarted(now) => Taken(Table(Pruned(t.file, now, ttl), t.file), acts[1..], window, ttl)
      case Other(s) => [s] + Taken(t, acts[1..], window, ttl)
  }

  /** The same acts as the table of seen ids meets them. */
  function Asks(acts: seq<Act>): seq<Replay.Step> {
    if acts == [] then []
    else
      match acts[0]
      case Incoming(r, _) => [Ask(r)] + Asks(acts[1..])
      case Restarted(now) => [Restart(now)] + Asks(acts[1..])
      case Other(_) => Asks(acts[1..])
  }

  function Introductions(steps: seq<M.Step>, q: Id): nat {
    if steps == [] then 0 else (if Introduces(steps[0], q) then 1 else 0) + Introductions(steps[1..], q)
  }

  lemma {:induction false} NoneIntroduced(steps: seq<M.Step>, q: Id, i: nat)
    requires i < |steps| && Introduces(steps[i], q)
    ensures Introductions(steps, q) >= 1
  {
    if i > 0 {
      NoneIntroduced(steps[1..], q, i - 1);
    }
  }

  lemma {:induction false} AtMostOne(steps: seq<M.Step>, q: Id)
    requires Introductions(steps, q) <= 1
    ensures IntroducedOnce(steps, q)
  {
    if steps != [] {
      AtMostOne(steps[1..], q);
      forall i, j | 0 <= i < j < |steps| && Introduces(steps[i], q) ensures !Introduces(steps[j], q) {
        if Introduces(steps[j], q) {
          NoneIntroduced(steps[1..], q, j - 1);
        }
        if i > 0 {
          assert Introduces(steps[1..][i - 1], q) ==> !Introduces(steps[1..][j - 1], q);
        }
      }
    }
  }

  // ---- what senders and storage are asked for ----

  /** The sender of `q` puts one time stamp under the id, and no pulled answer uses it. */
  predicate OneStamp(acts: seq<Act>, q: Id, ts: nat) {
    forall a :: a in acts ==>
      && Matches(a)
      && (a.Incoming? && a.r.id == q ==> a.r.ts == Some(ts))
      && (a.Other? ==> !Introduces(a.s, q))
  }

  /** Every id is saved, as far as `q` goes. */
  predicate Saved(acts: seq<Act>, q: Id) {
    forall a :: a in acts && a.Incoming? && a.r.id == q ==> a.r.saves
  }

  predicate NeverRestarted(acts: seq<Act>) {
    forall a :: a in acts ==> !a.Restarted?
  }

  lemma Tail(acts: seq<Act>, q: Id, ts: nat)
    requires acts != [] && OneStamp(acts, q, ts)
    ensures OneStamp(acts[1..], q, ts) && Matches(acts[0])
    ensures Saved(acts, q) ==> Saved(acts[1..], q)
    ensures NeverRestarted(acts) ==> NeverRestarted(acts[1..])
  {
    assert acts[0] in acts;
    assert forall a :: a in acts[1..] ==> a in acts;
  }

  // ---- the table keeps the id out ----

  /** What the machine takes under `q` is what the table accepts. */
  lemma {:induction false} TakenIsAccepted(t: Table, acts: seq<Act>, q: Id, ts: nat, window: nat, ttl: nat)
    requires OneStamp(acts, q, ts) && Saved(acts, q)
    ensures Introductions(Taken(t, acts, window, ttl), q) == TimesAccepted(t, Asks(acts), q, ts, window, ttl)
    decreases |acts|
  {
    if acts != [] {
      Tail(acts, q, ts);
      var a := acts[0];
      assert a in acts;
      match a {
        case Incoming(r, post) =>
          TakenIsAccepted(Handled(t, r, window).0, acts[1..], q, ts, window, ttl);
          assert Asks(acts)[1..] == Asks(acts[1..]);
          var rest := Taken(Handled(t, r, window).0, acts[1..], window, ttl);
          assert ([post] + rest)[1..] == rest && [] + rest == rest;
        case Restarted(now) =>
          TakenIsAccepted(Table(Pruned(t.file, now, ttl), t.file), acts[1..], q, ts, window, ttl);
          assert Asks(acts)[1..] == Asks(acts[1..]);
        case Other(s) =>
          TakenIsAccepted(t, acts[1..], q, ts, window, ttl);
          assert ([s] + Taken(t, acts[1..], window, ttl))[1..] == Taken(t, acts[1..], window, ttl);
      }
    }
  }

  lemma InsertedIsKnown(ids: seq<Entry>, id: Replay.Id, now: nat, q: Replay.Id)
    requires Known(ids, q) || id == q
    ensures Known(Inserted(ids, id, now), q)
  {
    var all := Inserted(ids, id, now);
    if Known(ids, q) {
      var i :| 0 <= i < |ids| && ids[i].id == q;
      assert all[i].id == q;
    } else {
      assert all[|ids|].id == q;
    }
  }

  /** In memory an id stays known until the daemon restarts. */
  lemma {:induction false} KnownStaysOut(t: Table, acts: seq<Act>, q: Id, ts: nat, window: nat, ttl: nat)
    requires OneStamp(acts, q, ts) && NeverRestarted(acts)
    ensures Introductions(Taken(t, acts, window, ttl), q) <= if Known(t.memory, q) then 0 else 1
    decreases |acts|
  {
    if acts != [] {
      Tail(acts, q, ts);
      var a := acts[0];
      assert a in acts;
      match a {
        case Incoming(r, post) =>
          var t' := Handled(t, r, window).0;
          KnownStaysOut(t', acts[1..], q, ts, window, ttl);
          if Known(t.memory, q) || (r.id == q && Passes(t, r, window)) {
            InsertedIsKnown(t.memory, r.id, r.now, q);
          }
          var rest := Taken(t', acts[1..], window, ttl);
          assert ([post] + rest)[1..] == rest && [] + rest == rest;
        case Other(s) =>
          KnownStaysOut(t, acts[1..], q, ts, window, ttl);
          assert ([s] + Taken(t, acts[1..], window, ttl))[1..] == Taken(t, acts[1..], window, ttl);
        case _ =>
      }
    }
  }

  /** With the table in front, whatever is sent and resent and however often the daemon restarts, a
      request reaches the machine once, if its sender signed one time stamp under the id and
      either the id was saved or the daemon kept running. */
  lemma ArrivesOnce(t: Table, acts: seq<Act>, q: Id, ts: nat, clock: nat, window: nat, ttl: nat)
    requires OneStamp(acts, q, ts) && (Saved(acts, q) || NeverRestarted(acts))
    requires Replay.Chronological(Asks(acts), clock) && 2 * window <= ttl
    ensures IntroducedOnce(Taken(t, acts, window, ttl), q)
  {
    if Saved(acts, q) {
      TakenIsAccepted(t, acts, q, ts, window, ttl);
      AcceptedOnce(t, Asks(acts), q, ts, clock, window, ttl);
    } else {
      KnownStaysOut(t, acts, q, ts, window, ttl);
    }
    hide Taken, Introductions;
    AtMostOne(Taken(t, acts, window, ttl), q);
  }

  /** So behind the table a question is automatically signed for at most once, if no ack or expiry
      falls inside an attempt on it. */
  lemma AdmittedIsSignedOnce(ms: seq<M.Machine>, t: Table, acts: seq<Act>, q: Id, ts: nat, clock: nat, window: nat, ttl: nat)
    requires OneStamp(acts, q, ts) && (Saved(acts, q) || NeverRestarted(acts))
    requires Replay.Chronological(Asks(acts), clock) && 2 * window <= ttl
    requires var steps := Taken(t, acts, window, ttl); M.Run(ms, steps) && CalmRun(ms, steps, q)
    ensures forall i :: 0 <= i < |ms| ==> AutoCount(ms[i].home.hist, q) <= 1
  {
    ArrivesOnce(t, acts, q, ts, clock, window, ttl);
    hide Taken, OneStamp, Saved, NeverRestarted, CalmRun, IntroducedOnce;
    forall i | 0 <= i < |ms| ensures AutoCount(ms[i].home.hist, q) <= 1 {
      SignedAutomaticallyOnce(ms, Taken(t, acts, window, ttl), i, q);
    }
  }

  /** Neither saved nor kept running, the same request is taken twice: spooled, its id lost in a
      restart, and spooled again. */
  lemma UnsavedArrivesTwice(q: Id, post: M.Step, window: nat, ttl: nat)
    requires post.Post? && post.env.payload.id == q && !post.remembered && post.enabled && post.mode != Some(Exchange.Never)
    ensures var r := Replay.Request(q, Some(0), 0, true, true, false);
            var acts := [Incoming(r, post)] + ([Restarted(0)] + [Incoming(r, post)]);
            && OneStamp(acts, q, 0) && Replay.Chronological(Asks(acts), 0)
            && !IntroducedOnce(Taken(Table([], []), acts, window, ttl), q)
  {
    var r := Replay.Request(q, Some(0), 0, true, true, false);
    var last := [Incoming(r, post)];
    var rest := [Restarted(0)] + last;
    var acts := [Incoming(r, post)] + rest;
    var empty, held := Table([], []), Table([Entry(q, 0)], []);
    assert acts[1..] == rest && rest[1..] == last && last[1..] == [];
    assert acts[0] == Incoming(r, post) && rest[0] == Restarted(0);
    assert Asks(last) == [Ask(r)] && Asks(rest) == [Restart(0)] + Asks(last);
    assert Asks(acts) == [Ask(r)] + Asks(acts[1..]);
    assert Asks(acts)[1..] == Asks(rest) && Asks(rest)[1..] == Asks(last) && Asks(last)[1..] == [];
    assert Replay.Chronological(Asks(last), 0) && Replay.Chronological(Asks(rest), 0);
    assert Passes(empty, r, window) && Handled(empty, r, window).0 == held;
    assert Taken(empty, last, window, ttl) == [post];
    assert Taken(held, rest, window, ttl) == Taken(empty, last, window, ttl);
    var steps := Taken(empty, acts, window, ttl);
    assert steps == [post] + [post];
    assert Introduces(steps[0], q) && Introduces(steps[1], q);
  }
}
