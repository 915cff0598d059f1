/** A run of session routing in which a pulled answer arrives twice and two sessions end up with a
    wake file for it, no write of the routing failing. */
module WakeWitness {
  import opened Prelude
  import opened Routing
  import opened WakeRuns
  import WakeTicks

  const ANSWER: RecId := 7
  const ITEM := Item(false, true, true, None)
  const FRESH := Marker(0, 0)

  /** The default limits, and no failing write. */
  function At(now: nat): World {
    World(now, 21_600, 600, {}, {}, {}, false)
  }

  const STEPS: seq<Step> := [
    Arrive(ANSWER, ITEM), SessionStart(1, 0), SessionStart(2, 0), SessionStart(3, 0), LeaseTick, Arrive(ANSWER, ITEM)]

  const TIMES: seq<nat> := [0, 0, 0, 0, 601, 602]

  // ---- the boards passed through ----

  const BACKLOG := Routing(Some(1), Some(0), [1])
  const MOVED_ON := Routing(Some(2), Some(601), [1, 2])
  const AGAIN := Routing(Some(3), Some(602), [1, 2, 3])

  const UNHELD := EMPTY_BOARD.(inbox := map[ANSWER := ITEM])
  const ONE := UNHELD.(sessions := map[1 := FRESH], routing := map[ANSWER := BACKLOG])
  const TWO := ONE.(sessions := map[1 := FRESH, 2 := FRESH])
  const THREE := ONE.(sessions := map[1 := FRESH, 2 := FRESH, 3 := FRESH])
  const WOKEN_ONCE := THREE.(wakes := {(2, ANSWER)}, routing := map[ANSWER := MOVED_ON], woken := map[ANSWER := [2]])
  const WOKEN_TWICE := THREE.(wakes := {(2, ANSWER), (3, ANSWER)}, routing := map[ANSWER := AGAIN],
                              woken := map[ANSWER := [2, 3]])

  const BOARDS: seq<Board> := [EMPTY_BOARD, UNHELD, ONE, TWO, THREE, WOKEN_ONCE, WOKEN_TWICE]

  lemma FirstArrival()
    ensures Next(At(0), EMPTY_BOARD, STEPS[0]) == UNHELD
  {
    assert Candidates(At(0), map[], []) == {};
  }

  /** A session starts while the others are live and the record is unclaimed or has a live holder. */
  lemma StartedOne(b: Board, b': Board, sid: Sid)
    requires b.inbox == UNHELD.inbox && b.wakes == {} && forall s :: s in b.sessions ==> b.sessions[s] == FRESH
    requires b' == b.(sessions := b.sessions[sid := FRESH], routing := b'.routing)
    requires b'.routing == if ANSWER in b.routing then b.routing else map[ANSWER := Routing(Some(sid), Some(0), [sid])]
    requires b.routing == map[] || (b.routing == map[ANSWER := BACKLOG] && 1 in b.sessions)
    ensures Started(At(0), b, sid, 0) == b'
  {
    var marked := Marked(At(0), b, sid, FRESH);
    assert Swept(At(0), marked) == marked by {
      assert marked.wakes == {} && forall s :: s in marked.sessions ==> IsLive(At(0), marked.sessions, s);
    }
    assert [] + [sid] == [sid];
    assert Assigned(At(0), marked, sid).routing == b'.routing;
  }

  lemma Starts()
    ensures Next(At(0), UNHELD, STEPS[1]) == ONE
    ensures Next(At(0), ONE, STEPS[2]) == TWO
    ensures Next(At(0), TWO, STEPS[3]) == THREE
  {
    hide Started;
    StartedOne(UNHELD, ONE, 1);
    StartedOne(ONE, TWO, 2);
    StartedOne(TWO, THREE, 3);
  }

  /** The first of the untried sessions at a moment when all three are live. */
  lemma NextTarget(w: World, tried: seq<Sid>, s: Sid)
    requires w == At(601) || w == At(602)
    requires s in THREE.sessions && s !in tried && forall t :: t in THREE.sessions && t < s ==> t in tried
    ensures Target(w, THREE.sessions, ITEM, tried) == Some(s)
  {
    assert IsTarget(w, THREE.sessions, ITEM, tried, Some(s));
    OneTarget(w, THREE.sessions, ITEM, tried, Some(s), Target(w, THREE.sessions, ITEM, tried));
  }

  lemma Tick()
    ensures Next(At(601), THREE, STEPS[4]) == WOKEN_ONCE
  {
    NextTarget(At(601), [1], 2);
    assert [1] + [2] == [1, 2];
    assert WithoutWake(THREE, ANSWER) == THREE;
    assert Expired(At(601), THREE.sessions, BACKLOG);
    hide Target, Expired, WithoutWake;
    assert Given(BACKLOG, 2, 601) == MOVED_ON && [] + [2] == [2];
    assert {} + {(2, ANSWER)} == {(2, ANSWER)};
    assert Routed(At(601), THREE, ANSWER) == WOKEN_ONCE;
    assert TickedOne(At(601), THREE, ANSWER) == WOKEN_ONCE;
    hide TickedOne;
    assert THREE.routing.Keys == {ANSWER} && LeastOf({ANSWER}) == ANSWER && {ANSWER} - {ANSWER} == {};
    assert TickedFrom(At(601), WOKEN_ONCE, {}) == WOKEN_ONCE;
  }

  lemma SecondArrival()
    ensures Next(At(602), WOKEN_ONCE, STEPS[5]) == WOKEN_TWICE
  {
    NextTarget(At(602), [1, 2], 3);
    assert WOKEN_ONCE.inbox[ANSWER := ITEM] == WOKEN_ONCE.inbox;
    assert [1, 2] + [3] == [1, 2, 3] && [2] + [3] == [2, 3];
    hide Target;
  }

  lemma BreaksIt()
    ensures !StepKeeps(At(602), WOKEN_ONCE, STEPS[5])
  {
    assert 3 in Candidates(At(602), THREE.sessions, [1, 2]);
    assert (2, ANSWER) in WOKEN_ONCE.wakes && WakeTicks.HasWake(WOKEN_ONCE, ANSWER);
  }

  /** An answer arrives while no session runs and its pull fails after the inbox write, three sessions
      start, the lease of the first runs out, and the pull is repeated: the second and the third
      session are both woken for it. */
  lemma RepeatedPullWakesTwo() returns (bs: seq<Board>, ws: seq<World>)
    ensures Run(bs, ws, STEPS) && forall i :: 0 <= i < |ws| ==> ws[i] == At(TIMES[i])
    ensures (2, ANSWER) in bs[6].wakes && (3, ANSWER) in bs[6].wakes && !StepKeeps(ws[5], bs[5], STEPS[5])
  {
    FirstArrival();
    Starts();
    Tick();
    SecondArrival();
    bs, ws := BOARDS, seq(6, i requires 0 <= i < 6 => At(TIMES[i]));
    hide Next;
    BreaksIt();
  }
}
