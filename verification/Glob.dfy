/** `glob_match` of src/cli/history.rs: the one-star backtracking matcher behind
    `owl history --path`. */
module Glob {

  /** What a pattern means: `*` is any run of characters, `?` any one, the rest themselves. */
  predicate Matches(p: string, t: string)
    decreases |p| + |t|
  {
    if p == "" then t == ""
    else if p[0] == '*' then Matches(p[1..], t) || (t != "" && Matches(p, t[1..]))
    else t != "" && (p[0] == '?' || p[0] == t[0]) && Matches(p[1..], t[1..])
  }

  /** The last star met and the text position its run is currently taken to end at. */
  datatype Star = NoStar | At(sp: nat, st: nat)

  predicate ScanState(p: string, t: string, pi: nat, ti: nat, star: Star) {
    pi <= |p| && ti <= |t| && (star.At? ==> star.sp < pi && star.st <= ti)
  }

  function StarsLeft(p: string, star: Star): nat {
    match star
    case NoStar => |p| + 1
    case At(sp, _) => if sp < |p| then |p| - sp else 0
  }

  function TextLeft(t: string, star: Star): nat {
    match star
    case NoStar => |t| + 1
    case At(_, st) => if st <= |t| then |t| - st else 0
  }

  /** The loop as a function of its variables: the source's branches in the source's order.
      Backtracking strictly advances the star, or its text position, or the text. */
  predicate Scan(p: string, t: string, pi: nat, ti: nat, star: Star)
    requires ScanState(p, t, pi, ti, star)
    decreases StarsLeft(p, star), TextLeft(t, star), |t| - ti
  {
    if ti < |t| then
      if pi < |p| && (p[pi] == '?' || p[pi] == t[ti]) then Scan(p, t, pi + 1, ti + 1, star)
      else if pi < |p| && p[pi] == '*' then Scan(p, t, pi + 1, ti, At(pi, ti))
      else if star.At? then Scan(p, t, star.sp + 1, star.st + 1, At(star.sp, star.st + 1))
      else false
    else OnlyStars(p[pi..])
  }

  predicate OnlyStars(p: string) {
    forall i :: 0 <= i < |p| ==> p[i] == '*'
  }

  /** The source's loop. */
  method GlobMatch(p: string, t: string) returns (r: bool)
    ensures r == Scan(p, t, 0, 0, NoStar)
    ensures '*' !in t || '*' !in p ==> r == Matches(p, t)
  {
    if '*' !in t || '*' !in p {
      ScanIsMatch(p, t);
    }
    var pi: nat, ti: nat, star := 0, 0, NoStar;
    while ti < |t|
      invariant ScanState(p, t, pi, ti, star)
      invariant Scan(p, t, pi, ti, star) == Scan(p, t, 0, 0, NoStar)
      decreases StarsLeft(p, star), TextLeft(t, star), |t| - ti
    {
      if pi < |p| && (p[pi] == '?' || p[pi] == t[ti]) {
        pi, ti := pi + 1, ti + 1;
      } else if pi < |p| && p[pi] == '*' {
        star, pi := At(pi, ti), pi + 1;
      } else if star.At? {
        pi, ti, star := star.sp + 1, star.st + 1, At(star.sp, star.st + 1);
      } else {
        return false;
      }
    }
    ghost var last := pi;
    while pi < |p| && p[pi] == '*'
      invariant last <= pi <= |p|
      invariant OnlyStars(p[last..]) <==> OnlyStars(p[pi..])
    {
      assert p[pi..][1..] == p[pi + 1..];
      StarsStep(p[pi..]);
      pi := pi + 1;
    }
    r := pi == |p|;
    if pi < |p| {
      assert p[pi..][0] != '*';
    }
  }

  lemma StarsStep(p: string)
    requires p != "" && p[0] == '*'
    ensures OnlyStars(p) <==> OnlyStars(p[1..])
  {
    if OnlyStars(p[1..]) {
      forall i | 0 <= i < |p| ensures p[i] == '*' {
        if i > 0 {
          assert p[i] == p[1..][i - 1];
        }
      }
    }
  }

  // ---- facts about the meaning ----

  /** The characters a pattern demands one by one. */
  function Fixed(p: string): nat {
    if p == "" then 0 else (if p[0] == '*' then 0 else 1) + Fixed(p[1..])
  }

  lemma {:induction false} FixedFits(p: string, t: string)
    requires Matches(p, t)
    ensures Fixed(p) <= |t|
    decreases |p| + |t|
  {
    if p != "" {
      if p[0] != '*' {
        FixedFits(p[1..], t[1..]);
      } else if Matches(p[1..], t) {
        FixedFits(p[1..], t);
      } else {
        FixedFits(p, t[1..]);
      }
    }
  }

  lemma {:induction false} NothingMatchesStars(p: string)
    ensures Matches(p, "") <==> OnlyStars(p)
    ensures Fixed(p) == 0 <==> OnlyStars(p)
  {
    if p != "" {
      NothingMatchesStars(p[1..]);
      if p[0] == '*' {
        StarsStep(p);
      }
    }
  }

  /** `p[a..a+n]` holds no star and agrees with `t[b..b+n]` character by character. */
  predicate Agrees(p: string, a: nat, t: string, b: nat, n: nat) {
    && a + n <= |p| && b + n <= |t|
    && forall j :: a <= j < a + n ==> p[j] != '*' && (p[j] == '?' || p[j] == t[b + (j - a)])
  }

  lemma {:induction false} AgreeingPrefix(p: string, a: nat, t: string, b: nat, n: nat)
    requires Agrees(p, a, t, b, n)
    ensures Matches(p[a..], t[b..]) <==> Matches(p[a + n..], t[b + n..])
    ensures Fixed(p[a..]) == n + Fixed(p[a + n..])
    decreases n
  {
    if n > 0 {
      assert p[a..][0] == p[a] && t[b..][0] == t[b];
      assert p[a..][1..] == p[a + 1..] && t[b..][1..] == t[b + 1..];
      AgreeingPrefix(p, a + 1, t, b + 1, n - 1);
    }
  }

  /** A pattern that starts with a star matches whatever it matches a suffix of. */
  lemma {:induction false} StarGrows(p: string, t: string, b: nat, c: nat)
    requires p != "" && p[0] == '*' && b <= c <= |t| && Matches(p, t[c..])
    ensures Matches(p, t[b..])
    decreases c - b
  {
    if b < c {
      StarGrows(p, t, b + 1, c);
      assert t[b..][1..] == t[b + 1..];
    }
  }

  /** Star-free pattern characters eat exactly as many text characters, wherever they start. */
  lemma {:induction false} StarFreeEats(p: string, a: nat, n: nat, t: string, b: nat)
    requires a + n <= |p| && b <= |t| && Matches(p[a..], t[b..])
    requires forall i :: a <= i < a + n ==> p[i] != '*'
    ensures b + n <= |t| && Matches(p[a + n..], t[b + n..])
    decreases n
  {
    if n > 0 {
      assert p[a..][0] == p[a] != '*';
      assert p[a..][1..] == p[a + 1..] && t[b..][1..] == t[b + 1..];
      StarFreeEats(p, a + 1, n - 1, t, b + 1);
    }
  }

  /** Once a later star is reached, the earlier one need not be reconsidered. */
  lemma {:induction false} LaterStarSuffices(p: string, sp: nat, pi: nat, t: string, b: nat)
    requires sp < pi < |p| && p[sp] == '*' && p[pi] == '*' && b <= |t|
    requires forall i :: sp < i < pi ==> p[i] != '*'
    requires Matches(p[sp..], t[b..])
    ensures b + (pi - sp - 1) <= |t| && Matches(p[pi..], t[b + (pi - sp - 1)..])
    decreases |t| - b
  {
    var n := pi - sp - 1;
    assert p[sp..][0] == '*' && p[sp..][1..] == p[sp + 1..];
    if Matches(p[sp + 1..], t[b..]) {
      StarFreeEats(p, sp + 1, n, t, b);
    } else {
      assert t[b..][1..] == t[b + 1..];
      LaterStarSuffices(p, sp, pi, t, b + 1);
      StarGrows(p[pi..], t, b + n, b + 1 + n);
    }
  }

  // ---- the loop computes the meaning ----

  /** What the variables of the loop stand for: the segment after the last star agrees with
      the text since its run. */
  predicate Tracks(p: string, t: string, pi: nat, ti: nat, star: Star)
    requires ScanState(p, t, pi, ti, star)
  {
    match star
    case NoStar => true
    case At(sp, st) => p[sp] == '*' && pi - sp - 1 == ti - st && Agrees(p, sp + 1, t, st, ti - st)
  }

  function Goal(p: string, t: string, pi: nat, ti: nat, star: Star): bool
    requires ScanState(p, t, pi, ti, star)
  {
    match star
    case NoStar => Matches(p[pi..], t[ti..])
    case At(sp, st) => Matches(p[sp..], t[st..])
  }

  lemma Mismatch(p: string, t: string, pi: nat, ti: nat)
    requires pi <= |p| && ti < |t| && (pi < |p| ==> p[pi] != '*' && p[pi] != '?' && p[pi] != t[ti])
    ensures !Matches(p[pi..], t[ti..])
  {
    assert pi < |p| ==> p[pi..][0] == p[pi];
  }

  lemma FixedStep(p: string, t: string, pi: nat, ti: nat)
    requires pi < |p| && ti < |t| && p[pi] != '*' && (p[pi] == '?' || p[pi] == t[ti])
    ensures Matches(p[pi..], t[ti..]) == Matches(p[pi + 1..], t[ti + 1..])
  {
    assert p[pi..][1..] == p[pi + 1..] && t[ti..][1..] == t[ti + 1..];
  }

  lemma {:induction false} ScanMeans(p: string, t: string, pi: nat, ti: nat, star: Star)
    requires ScanState(p, t, pi, ti, star) && Tracks(p, t, pi, ti, star)
    requires '*' !in t
    ensures Scan(p, t, pi, ti, star) == Goal(p, t, pi, ti, star)
    decreases StarsLeft(p, star), TextLeft(t, star), |t| - ti
  {
    hide Matches;
    if ti == |t| {
      EndOfText(p, t, pi, star);
    } else if pi < |p| && (p[pi] == '?' || p[pi] == t[ti]) {
      assert p[pi] != '*';
      ScanMeans(p, t, pi + 1, ti + 1, star);
      FixedStep(p, t, pi, ti);
    } else if pi < |p| && p[pi] == '*' {
      ScanMeans(p, t, pi + 1, ti, At(pi, ti));
      if star.At? {
        NewStar(p, t, pi, ti, star.sp, star.st);
      }
    } else if star.At? {
      ScanMeans(p, t, star.sp + 1, star.st + 1, At(star.sp, star.st + 1));
      Backtrack(p, t, pi, ti, star.sp, star.st);
    } else {
      Mismatch(p, t, pi, ti);
    }
  }

  lemma EndOfText(p: string, t: string, pi: nat, star: Star)
    requires ScanState(p, t, pi, |t|, star) && Tracks(p, t, pi, |t|, star)
    ensures OnlyStars(p[pi..]) == Goal(p, t, pi, |t|, star)
  {
    NothingMatchesStars(p[pi..]);
    match star {
      case NoStar =>
      case At(sp, st) =>
        AgreeingPrefix(p, sp + 1, t, st, |t| - st);
        assert p[sp..][1..] == p[sp + 1..];
        if Matches(p[sp..], t[st..]) {
          FixedFits(p[sp..], t[st..]);
        }
    }
  }

  lemma NewStar(p: string, t: string, pi: nat, ti: nat, sp: nat, st: nat)
    requires sp < pi < |p| && st <= ti <= |t| && p[sp] == '*' && p[pi] == '*'
    requires pi - sp - 1 == ti - st && Agrees(p, sp + 1, t, st, ti - st)
    ensures Matches(p[pi..], t[ti..]) <==> Matches(p[sp..], t[st..])
  {
    AgreeingPrefix(p, sp + 1, t, st, ti - st);
    assert p[sp..][1..] == p[sp + 1..];
    if Matches(p[sp..], t[st..]) {
      LaterStarSuffices(p, sp, pi, t, st);
    }
  }

  lemma Backtrack(p: string, t: string, pi: nat, ti: nat, sp: nat, st: nat)
    requires sp < pi <= |p| && st <= ti < |t| && p[sp] == '*'
    requires pi - sp - 1 == ti - st && Agrees(p, sp + 1, t, st, ti - st)
    requires pi < |p| ==> p[pi] != '*' && p[pi] != '?' && p[pi] != t[ti]
    ensures Matches(p[sp..], t[st + 1..]) <==> Matches(p[sp..], t[st..])
  {
    AgreeingPrefix(p, sp + 1, t, st, ti - st);
    assert p[sp..][1..] == p[sp + 1..] && t[st..][1..] == t[st + 1..];
    assert t[ti..][0] == t[ti] && (pi < |p| ==> p[pi..][0] == p[pi]);
  }

  lemma {:induction false} StarFreePattern(p: string, t: string, i: nat)
    requires '*' !in p && i <= |p| && i <= |t|
    ensures Scan(p, t, i, i, NoStar) == Matches(p[i..], t[i..])
    decreases |t| - i
  {
    if i == |t| {
      NothingMatchesStars(p[i..]);
    } else if i < |p| {
      assert p[i..][1..] == p[i + 1..] && t[i..][1..] == t[i + 1..];
      assert p[i] != '*';
      if p[i] == '?' || p[i] == t[i] {
        StarFreePattern(p, t, i + 1);
      }
    }
  }

  lemma ScanIsMatch(p: string, t: string)
    requires '*' !in t || '*' !in p
    ensures Scan(p, t, 0, 0, NoStar) == Matches(p, t)
  {
    assert p[0..] == p && t[0..] == t;
    if '*' !in t {
      ScanMeans(p, t, 0, 0, NoStar);
    } else {
      StarFreePattern(p, t, 0);
    }
  }

  // ---- a star in the text is taken literally first, and that is the only defect ----

  lemma {:induction false} LiteralRun(p: string, t: string, i: nat, n: nat)
    requires i <= n <= |p| && n <= |t| && forall j :: i <= j < n ==> p[j] == t[j]
    ensures Scan(p, t, i, i, NoStar) == Scan(p, t, n, n, NoStar)
    decreases n - i
  {
    if i < n {
      LiteralRun(p, t, i + 1, n);
    }
  }

  /** A pattern that a text with a star at `k` should match, but does not. */
  function Victim(t: string, k: nat): string
    requires k < |t|
  {
    t[..k] + (if k + 1 < |t| then "*" else "*?")
  }

  lemma VictimMatches(t: string, k: nat)
    requires k < |t| && t[k] == '*'
    ensures var p := Victim(t, k); Matches(p[k..], t[k..])
  {
    var p := Victim(t, k);
    if k + 1 < |t| {
      assert p[k..] == "*";
      NothingMatchesStars("");
      StarGrows("*", t, k, |t|);
    } else {
      assert p[k..] == "*?" && t[k..] == "*";
      assert p[k..][1..] == "?" && "?"[1..] == "" && "*"[1..] == "";
      assert Matches("?", "*");
    }
  }

  lemma VictimIsRefused(t: string, k: nat)
    requires k < |t| && t[k] == '*'
    ensures !Scan(Victim(t, k), t, 0, 0, NoStar)
  {
    var p := Victim(t, k);
    hide Matches;
    LiteralRun(p, t, 0, k + 1);
    if k + 1 == |t| {
      assert p[k + 1..][0] == '?';
    }
  }

  lemma StarInText(t: string, k: nat)
    requires k < |t| && t[k] == '*' && '*' !in t[..k]
    ensures Matches(Victim(t, k), t) && !Scan(Victim(t, k), t, 0, 0, NoStar)
  {
    var p := Victim(t, k);
    assert forall j :: 0 <= j < k ==> p[j] == t[..k][j] == t[j];
    assert p[0..] == p && t[0..] == t;
    hide Matches, Scan;
    VictimMatches(t, k);
    VictimIsRefused(t, k);
    AgreeingPrefix(p, 0, t, 0, k);
  }

  lemma FirstStar(t: string) returns (k: nat)
    requires '*' in t
    ensures k < |t| && t[k] == '*' && '*' !in t[..k]
  {
    k := 0;
    while t[k] != '*'
      invariant k < |t| && '*' !in t[..k]
      invariant exists i :: k <= i < |t| && t[i] == '*'
      decreases |t| - k
    {
      k := k + 1;
    }
  }

  /** Exactly the texts without a star are matched as the pattern language says. */
  lemma ExactForStarFreeTexts(t: string)
    ensures (forall p :: Scan(p, t, 0, 0, NoStar) == Matches(p, t)) <==> '*' !in t
  {
    if '*' in t {
      var k := FirstStar(t);
      StarInText(t, k);
    } else {
      forall p ensures Scan(p, t, 0, 0, NoStar) == Matches(p, t) {
        ScanIsMatch(p, t);
      }
    }
  }
}
