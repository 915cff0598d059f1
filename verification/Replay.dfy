/** The replay window of src/envelope.rs and its use in `post_question` of src/server.rs:
    a two-sided freshness test and a table of seen ids that is pruned when the daemon starts. */
module Replay {
  import opened Prelude

  /** Payload ids are opaque names; only their equality matters here. */
  type Id = nat

  const REPLAY_WINDOW_SECS: nat := 300
  const SEEN_IDS_TTL_SECS: nat := 600

  datatype Entry = Entry(id: Id, at: nat)

  predicate IsFresh(ts: Option<nat>, now: nat, window: nat) {
    ts.Some? && (if now >= ts.value then now - ts.value else ts.value - now) <= window
  }

  predicate Known(ids: seq<Entry>, id: Id) {
    exists i :: 0 <= i < |ids| && ids[i].id == id
  }

  /** `now.saturating_sub(at) <= ttl` keeps an entry. */
  predicate Kept(e: Entry, now: nat, ttl: nat) {
    now <= e.at + ttl
  }

  function Pruned(ids: seq<Entry>, now: nat, ttl: nat): seq<Entry> {
    if ids == [] then []
    else (if Kept(ids[0], now, ttl) then [ids[0]] else []) + Pruned(ids[1..], now, ttl)
  }

  function Inserted(ids: seq<Entry>, id: Id, now: nat): seq<Entry> {
    if Known(ids, id) then ids else ids + [Entry(id, now)]
  }

  datatype Outcome = Accepted | Refused | StorageError

  /** What happens around one request, decided elsewhere: whether the gates between the
      duplicate test and the spool let it through, and which writes succeed. */
  datatype Request = Request(id: Id, ts: Option<nat>, now: nat, passes: bool, spools: bool, saves: bool)

  /** The table in memory and the file `seen-ids.txt`. */
  datatype Table = Table(memory: seq<Entry>, file: seq<Entry>)

  function Handled(t: Table, r: Request, window: nat): (Table, Outcome) {
    if !IsFresh(r.ts, r.now, window) || Known(t.memory, r.id) || !r.passes then (t, Refused)
    else if !r.spools then (t, StorageError)
    else
      var memory := Inserted(t.memory, r.id, r.now);
      if r.saves then (Table(memory, memory), Accepted) else (Table(memory, t.file), StorageError)
  }

  /** The daemon's state for this window; `window` and `ttl` are the two constants above in the
      source, and parameters here so that their relation can be studied. */
  class SeenIds {
    const window: nat
    const ttl: nat
    var ids: seq<Entry>
    var file: seq<Entry>

    ghost function Contents(): Table
      reads this
    {
      Table(ids, file)
    }

    /** An empty home: no file yet. */
    constructor (window: nat, ttl: nat)
      ensures this.window == window && this.ttl == ttl && Contents() == Table([], [])
    {
      this.window, this.ttl := window, ttl;
      ids, file := [], [];
    }

    /** `SeenIds::load` at daemon start. */
    method Load(now: nat)
      modifies this
      ensures Contents() == Table(Pruned(old(file), now, ttl), old(file))
    {
      ids := [];
      var i := 0;
      while i < |file|
        invariant i <= |file| && file == old(file)
        invariant ids + Pruned(file[i..], now, ttl) == Pruned(file, now, ttl)
      {
        assert file[i..][1..] == file[i + 1..];
        if now <= file[i].at + ttl {
          ids := ids + [file[i]];
        }
        i := i + 1;
      }
    }

    method Contains(id: Id) returns (found: bool)
      ensures found <==> Known(ids, id)
    {
      for i := 0 to |ids|
        invariant forall j :: 0 <= j < i ==> ids[j].id != id
      {
        if ids[i].id == id {
          return true;
        }
      }
      return false;
    }

    /** False, and nothing changes, when the id is already there. */
    method Insert(id: Id, now: nat) returns (added: bool)
      modifies this`ids
      ensures added <==> !Known(old(ids), id)
      ensures ids == Inserted(old(ids), id, now) && Known(ids, id)
    {
      var found := Contains(id);
      if found {
        return false;
      }
      ids := ids + [Entry(id, now)];
      assert ids[|ids| - 1].id == id;
      return true;
    }

    method Save(ok: bool)
      modifies this`file
      ensures file == if ok then ids else old(file)
    {
      if ok {
        file := ids;
      }
    }

    /** The checks of `post_question` that involve the window, in its order. */
    method PostQuestion(r: Request) returns (o: Outcome)
      modifies this
      ensures (Contents(), o) == Handled(old(Contents()), r, window)
    {
      if !IsFresh(r.ts, r.now, window) {
        return Refused;
      }
      var found := Contains(r.id);
      if found || !r.passes {
        return Refused;
      }
      if !r.spools {
        return StorageError;
      }
      var _ := Insert(r.id, r.now);
      Save(r.saves);
      o := if r.saves then Accepted else StorageError;
    }
  }

  // ---- one request, one restart ----

  /** What becomes of a request: refused when its time stamp is missing or more than the window away on
      either side, when its id is known, or at a later gate; otherwise accepted and its id kept in
      memory, and on disk if it can be saved. */
  lemma RequestOutcome(t: Table, r: Request, window: nat)
    ensures var (t', o) := Handled(t, r, window);
            if r.ts.None? || r.now > r.ts.value + window || r.ts.value > r.now + window
               || (exists i :: 0 <= i < |t.memory| && t.memory[i].id == r.id) || !r.passes then t' == t && o == Refused
            else if !r.spools then t' == t && o == StorageError
            else
              && t'.memory == t.memory + [Entry(r.id, r.now)] && t'.file == (if r.saves then t'.memory else t.file)
              && o == (if r.saves then Accepted else StorageError)
  {
  }

  /** A restart keeps exactly the entries no older than the retention, in their order. */
  lemma {:induction false} PruneOutcome(ids: seq<Entry>, e: Entry, now: nat, ttl: nat)
    ensures Pruned([], now, ttl) == []
    ensures Pruned(ids + [e], now, ttl) == Pruned(ids, now, ttl) + if now <= e.at + ttl then [e] else []
  {
    if ids == [] {
      assert ids + [e] == [e] && [e][1..] == [];
    } else {
      PruneOutcome(ids[1..], e, now, ttl);
      var kept := if now <= e.at + ttl then [e] else [];
      var first := if Kept(ids[0], now, ttl) then [ids[0]] else [];
      assert (ids + [e])[1..] == ids[1..] + [e] && (ids + [e])[0] == ids[0];
      assert first + (Pruned(ids[1..], now, ttl) + kept) == (first + Pruned(ids[1..], now, ttl)) + kept;
    }
  }

  // ---- whole runs ----

  datatype Step = Ask(r: Request) | Restart(now: nat)

  function Time(s: Step): nat {
    match s
    case Ask(r) => r.now
    case Restart(now) => now
  }

  predicate Chronological(steps: seq<Step>, from: nat) {
    steps == [] || (from <= Time(steps[0]) && Chronological(steps[1..], Time(steps[0])))
  }

  function After(t: Table, s: Step, window: nat, ttl: nat): Table {
    match s
    case Ask(r) => Handled(t, r, window).0
    case Restart(now) => Table(Pruned(t.file, now, ttl), t.file)
  }

  predicate Accepts(t: Table, s: Step, id: Id, ts: nat, window: nat) {
    s.Ask? && s.r.id == id && s.r.ts == Some(ts) && Handled(t, s.r, window).1 == Accepted
  }

  /** How often a run accepts the payload `(id, ts)`. */
  function TimesAccepted(t: Table, steps: seq<Step>, id: Id, ts: nat, window: nat, ttl: nat): nat
    decreases |steps|
  {
    if steps == [] then 0
    else (if Accepts(t, steps[0], id, ts, window) then 1 else 0)
         + TimesAccepted(After(t, steps[0], window, ttl), steps[1..], id, ts, window, ttl)
  }

  /** An entry that outlives the freshness of `(id, ts)`. */
  predicate Holds(ids: seq<Entry>, id: Id, ts: nat, window: nat, ttl: nat) {
    exists i :: 0 <= i < |ids| && ids[i].id == id && ts + window <= ids[i].at + ttl
  }

  /** The payload can never be accepted again: it is on record in memory and on disk, or stale. */
  predicate Spent(t: Table, id: Id, ts: nat, clock: nat, window: nat, ttl: nat) {
    || (Holds(t.memory, id, ts, window, ttl) && Holds(t.file, id, ts, window, ttl))
    || ts + window < clock
  }

  lemma {:induction false} PruneKeeps(ids: seq<Entry>, i: nat, now: nat, ttl: nat)
    requires i < |ids| && Kept(ids[i], now, ttl)
    ensures ids[i] in Pruned(ids, now, ttl)
  {
    if i > 0 {
      PruneKeeps(ids[1..], i - 1, now, ttl);
    }
  }

  lemma InsertKeeps(ids: seq<Entry>, other: Id, now: nat, id: Id, ts: nat, window: nat, ttl: nat)
    requires Holds(ids, id, ts, window, ttl)
    ensures Holds(Inserted(ids, other, now), id, ts, window, ttl)
  {
    var i :| 0 <= i < |ids| && ids[i].id == id && ts + window <= ids[i].at + ttl;
    assert Inserted(ids, other, now)[i] == ids[i];
  }

  lemma SpentStays(t: Table, s: Step, id: Id, ts: nat, clock: nat, window: nat, ttl: nat)
    requires Spent(t, id, ts, clock, window, ttl) && clock <= Time(s)
    ensures !Accepts(t, s, id, ts, window)
    ensures Spent(After(t, s, window, ttl), id, ts, Time(s), window, ttl)
  {
    if Holds(t.memory, id, ts, window, ttl) && Holds(t.file, id, ts, window, ttl) {
      match s {
        case Ask(r) => InsertKeeps(t.memory, r.id, r.now, id, ts, window, ttl);
        case Restart(now) =>
          var i :| 0 <= i < |t.file| && t.file[i].id == id && ts + window <= t.file[i].at + ttl;
          if now <= t.file[i].at + ttl {
            PruneKeeps(t.file, i, now, ttl);
            var j :| 0 <= j < |Pruned(t.file, now, ttl)| && Pruned(t.file, now, ttl)[j] == t.file[i];
          }
      }
    }
  }

  lemma {:induction false} SpentForEver(t: Table, steps: seq<Step>, id: Id, ts: nat, clock: nat, window: nat, ttl: nat)
    requires Chronological(steps, clock) && Spent(t, id, ts, clock, window, ttl)
    ensures TimesAccepted(t, steps, id, ts, window, ttl) == 0
    decreases |steps|
  {
    if steps != [] {
      SpentStays(t, steps[0], id, ts, clock, window, ttl);
      SpentForEver(After(t, steps[0], window, ttl), steps[1..], id, ts, Time(steps[0]), window, ttl);
    }
  }

  lemma AcceptanceSpends(t: Table, s: Step, id: Id, ts: nat, window: nat, ttl: nat)
    requires Accepts(t, s, id, ts, window) && 2 * window <= ttl
    ensures Spent(After(t, s, window, ttl), id, ts, Time(s), window, ttl)
  {
    var memory := Inserted(t.memory, id, s.r.now);
    assert memory[|memory| - 1] == Entry(id, s.r.now);
  }

  /** With a retention of at least twice the window no payload is accepted twice, whatever the
      requests, restarts and failing writes in between. */
  lemma {:induction false} AcceptedOnce(t: Table, steps: seq<Step>, id: Id, ts: nat, clock: nat, window: nat, ttl: nat)
    requires Chronological(steps, clock) && 2 * window <= ttl
    ensures TimesAccepted(t, steps, id, ts, window, ttl) <= 1
    decreases |steps|
  {
    if steps != [] {
      var next := After(t, steps[0], window, ttl);
      if Accepts(t, steps[0], id, ts, window) {
        AcceptanceSpends(t, steps[0], id, ts, window, ttl);
        SpentForEver(next, steps[1..], id, ts, Time(steps[0]), window, ttl);
      } else {
        AcceptedOnce(next, steps[1..], id, ts, Time(steps[0]), window, ttl);
      }
    }
  }

  /** A payload stamped at the far edge of the window, replayed at the near edge after a restart. */
  function EdgeReplay(window: nat): seq<Step> {
    var first := Request(0, Some(window), 0, true, true, true);
    [Ask(first), Restart(2 * window), Ask(first.(now := 2 * window))]
  }

  lemma ShortRetentionReplays(window: nat, ttl: nat)
    requires ttl < 2 * window
    ensures Chronological(EdgeReplay(window), 0)
    ensures TimesAccepted(Table([], []), EdgeReplay(window), 0, window, window, ttl) == 2
  {
    var steps := EdgeReplay(window);
    var t0 := Table([], []);
    var t1 := After(t0, steps[0], window, ttl);
    assert t1 == Table([Entry(0, 0)], [Entry(0, 0)]);
    assert Pruned(t1.file, 2 * window, ttl) == [] by { assert t1.file[1..] == []; }
    var t2 := After(t1, steps[1], window, ttl);
    assert Chronological(steps[2..], 2 * window) && steps[1..][1..] == steps[2..];
    assert steps[1..] == [steps[1], steps[2]] && steps[1..][1..] == [steps[2]] && [steps[2]][1..] == [];
    assert Accepts(t2, steps[2], 0, window, window);
    assert TimesAccepted(t2, [steps[2]], 0, window, window, ttl) == 1;
    assert TimesAccepted(t1, steps[1..], 0, window, window, ttl) == 1;
  }

  /** Twice the window is exactly enough: 600 s for 300 s. */
  lemma RetentionIsExact(window: nat, ttl: nat)
    ensures 2 * window <= ttl
       <==> forall steps, id, ts :: Chronological(steps, 0)
              ==> TimesAccepted(Table([], []), steps, id, ts, window, ttl) <= 1
    ensures REPLAY_WINDOW_SECS == 300 && SEEN_IDS_TTL_SECS == 600 && 2 * REPLAY_WINDOW_SECS <= SEEN_IDS_TTL_SECS
  {
    if 2 * window <= ttl {
      forall steps, id, ts | Chronological(steps, 0)
        ensures TimesAccepted(Table([], []), steps, id, ts, window, ttl) <= 1
      {
        AcceptedOnce(Table([], []), steps, id, ts, 0, window, ttl);
      }
    } else {
      ShortRetentionReplays(window, ttl);
    }
  }
}
