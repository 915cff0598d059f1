/** The token bucket of src/server.rs in exact arithmetic: times in seconds, tokens as reals. */
module RateLimit {
  import opened Prelude

  datatype Bucket = Bucket(tokens: real, last: real)

  datatype Verdict = Taken | RetryAfter(secs: nat)

  function Full(rate: nat, now: real): Bucket {
    Bucket(rate as real, now)
  }

  function Max(a: real, b: real): real { if a >= b then a else b }

  function Min(a: real, b: real): real { if a <= b then a else b }

  /** `f64::ceil`. */
  function Ceil(x: real): int {
    if x.Floor as real == x then x.Floor else x.Floor + 1
  }

  function PerSec(rate: nat): real { rate as real / 3600.0 }

  /** Tokens flowing in over a time. */
  function Flow(secs: real, rate: nat): real { secs * PerSec(rate) }

  function Refilled(b: Bucket, rate: nat, now: real): real {
    Min(b.tokens + Flow(Max(now - b.last, 0.0), rate), rate as real)
  }

  function TakeFrom(b: Bucket, rate: nat, now: real): (Bucket, Verdict)
  {
    if rate == 0 then (b, RetryAfter(3600))
    else
      var tokens := Refilled(b, rate, now);
      if tokens >= 1.0 then (Bucket(tokens - 1.0, now), Taken)
      else
        var secs := Ceil((1.0 - tokens) / PerSec(rate));
        (Bucket(tokens, now), RetryAfter(if secs >= 1 then secs else 1))
  }

  class TokenBucket {
    var tokens: real
    var last: real

    ghost function Contents(): Bucket
      reads this
    {
      Bucket(tokens, last)
    }

    constructor (rate: nat, now: real)
      ensures Contents() == Full(rate, now)
    {
      tokens, last := rate as real, now;
    }

    method Take(rate: nat, now: real) returns (v: Verdict)
      modifies this
      ensures (Contents(), v) == TakeFrom(old(Contents()), rate, now)
    {
      if rate == 0 {
        return RetryAfter(3600);
      }
      PerSecPositive(rate);
      hide PerSec, Max, Min, Ceil;
      var cap := rate as real;
      var perSec := PerSec(rate);
      var elapsed := Max(now - last, 0.0);
      tokens := Min(tokens + elapsed * perSec, cap);
      last := now;
      if tokens >= 1.0 {
        tokens := tokens - 1.0;
        return Taken;
      }
      var wait := (1.0 - tokens) / perSec;
      var secs := Ceil(wait);
      v := RetryAfter(if secs >= 1 then secs else 1);
    }
  }

  /** One take: what has flowed in since the last one, never more than the rate; a token goes if there is
      one. A clock that runs backwards adds nothing, and a rate of 0 never has a token. */
  lemma TakeOutcome(b: Bucket, rate: nat, now: real)
    ensures var (b', v) := TakeFrom(b, rate, now);
            if rate == 0 then b' == b && v == RetryAfter(3600)
            else
              var grown := b.tokens + (if now > b.last then (now - b.last) * (rate as real / 3600.0) else 0.0);
              var tokens := if grown > rate as real then rate as real else grown;
              if tokens >= 1.0 then b' == Bucket(tokens - 1.0, now) && v == Taken
              else b' == Bucket(tokens, now) && v.RetryAfter? && v.secs >= 1
  {
  }

  // ---- the rate bound ----

  predicate Sound(b: Bucket, rate: nat) {
    0.0 <= b.tokens <= rate as real
  }

  predicate Chronological(times: seq<real>, from: real) {
    times == [] || (from <= times[0] && Chronological(times[1..], times[0]))
  }

  /** Takes admitted at times in `[a, b]`. */
  function Admitted(bk: Bucket, rate: nat, times: seq<real>, a: real, b: real): nat
    decreases |times|
  {
    if times == [] then 0
    else
      var (next, v) := TakeFrom(bk, rate, times[0]);
      (if v.Taken? && a <= times[0] <= b then 1 else 0) + Admitted(next, rate, times[1..], a, b)
  }

  lemma PerSecPositive(rate: nat)
    requires rate > 0
    ensures PerSec(rate) > 0.0
  {
  }

  lemma RefillLinear(b: Bucket, rate: nat, now: real)
    requires rate > 0 && Sound(b, rate) && b.last <= now
    ensures b.tokens <= Refilled(b, rate, now) <= rate as real
    ensures Refilled(b, rate, now) <= b.tokens + Flow(now - b.last, rate)
    ensures 0.0 < PerSec(rate)
  {
    Nonnegative(now - b.last, PerSec(rate));
  }

  lemma Nonnegative(x: real, y: real)
    requires x >= 0.0 && y >= 0.0
    ensures x * y >= 0.0
  {
  }

  lemma Distribute(x: real, y: real, p: real)
    ensures (x + y) * p == x * p + y * p
  {
  }

  /** What flows in from `from` to `to` is what flows in up to `mid` and from there on. */
  lemma FlowSplits(from: real, mid: real, to: real, rate: nat)
    ensures Flow(to - from, rate) == Flow(to - mid, rate) + Flow(mid - from, rate)
  {
    Distribute(to - mid, mid - from, PerSec(rate));
  }

  lemma FlowNonnegative(secs: real, rate: nat)
    requires secs >= 0.0
    ensures Flow(secs, rate) >= 0.0
  {
    Nonnegative(secs, PerSec(rate));
  }

  lemma SoundStays(b: Bucket, rate: nat, now: real)
    requires rate > 0 && Sound(b, rate) && b.last <= now
    ensures var (next, v) := TakeFrom(b, rate, now);
            && Sound(next, rate) && next.last == now
            && next.tokens == Refilled(b, rate, now) - (if v.Taken? then 1.0 else 0.0)
  {
    RefillLinear(b, rate, now);
  }

  /** Tokens in hand plus tokens to come bound what is still admitted up to `b`. */
  lemma {:induction false} AdmittedByTokens(bk: Bucket, rate: nat, times: seq<real>, a: real, b: real)
    requires rate > 0 && Sound(bk, rate) && Chronological(times, bk.last) && bk.last <= b
    ensures Admitted(bk, rate, times, a, b) as real <= bk.tokens + Flow(b - bk.last, rate)
    decreases |times|
  {
    hide TakeFrom, Refilled, PerSec, Min, Max, Flow;
    FlowNonnegative(b - bk.last, rate);
    if times != [] {
      var t := times[0];
      SoundStays(bk, rate, t);
      var (next, v) := TakeFrom(bk, rate, t);
      var one := if v.Taken? && a <= t <= b then 1 else 0;
      assert Admitted(bk, rate, times, a, b) == one + Admitted(next, rate, times[1..], a, b);
      if t <= b {
        RefillLinear(bk, rate, t);
        AdmittedByTokens(next, rate, times[1..], a, b);
        assert Admitted(next, rate, times[1..], a, b) as real <= next.tokens + Flow(b - t, rate);
        FlowSplits(bk.last, t, b, rate);
      } else {
        NoneAfter(next, rate, times[1..], a, b);
      }
    }
  }

  lemma {:induction false} NoneAfter(bk: Bucket, rate: nat, times: seq<real>, a: real, b: real)
    requires Chronological(times, bk.last) && b < bk.last && rate > 0
    ensures Admitted(bk, rate, times, a, b) == 0
    decreases |times|
  {
    if times != [] {
      NoneAfter(TakeFrom(bk, rate, times[0]).0, rate, times[1..], a, b);
    }
  }

  /** In any interval of any sequence of calls at most a full bucket plus what flows in during
      the interval is admitted. */
  lemma {:induction false} RateBound(bk: Bucket, rate: nat, times: seq<real>, a: real, b: real)
    requires rate > 0 && Sound(bk, rate) && Chronological(times, bk.last) && a <= b
    ensures Admitted(bk, rate, times, a, b) as real <= rate as real + rate as real * (b - a) / 3600.0
  {
    hide *;
    AdmittedByFlow(bk, rate, times, a, b);
    FlowPerHour(rate, b - a);
  }

  lemma FlowPerHour(rate: nat, x: real)
    ensures rate as real * x / 3600.0 == Flow(x, rate)
  {
  }

  lemma FlowGrows(a: real, t: real, b: real, rate: nat)
    requires a <= t
    ensures Flow(b - t, rate) <= Flow(b - a, rate)
  {
    FlowNonnegative(t - a, rate);
    FlowSplits(a, t, b, rate);
  }

  lemma {:induction false} AdmittedByFlow(bk: Bucket, rate: nat, times: seq<real>, a: real, b: real)
    requires rate > 0 && Sound(bk, rate) && Chronological(times, bk.last) && a <= b
    ensures Admitted(bk, rate, times, a, b) as real <= rate as real + Flow(b - a, rate)
    decreases |times|
  {
    hide TakeFrom, Refilled, PerSec, Min, Max, Flow;
    FlowNonnegative(b - a, rate);
    if times != [] {
      var t := times[0];
      SoundStays(bk, rate, t);
      var (next, v) := TakeFrom(bk, rate, t);
      var one := if v.Taken? && a <= t <= b then 1 else 0;
      assert Admitted(bk, rate, times, a, b) == one + Admitted(next, rate, times[1..], a, b);
      if t < a {
        AdmittedByFlow(next, rate, times[1..], a, b);
      } else if t <= b {
        RefillLinear(bk, rate, t);
        AdmittedByTokens(next, rate, times[1..], a, b);
        assert Flow(b - next.last, rate) == Flow(b - t, rate);
        FlowGrows(a, t, b, rate);
      } else {
        NoneAfter(next, rate, times[1..], a, b);
      }
    }
  }

  // ---- the bound is reached ----

  /** `n` calls at time `t`, then one every `3600 / rate` seconds, `k` of them. */
  function Burst(n: nat, t: real): seq<real> {
    if n == 0 then [] else [t] + Burst(n - 1, t)
  }

  function Drip(k: nat, t: real, rate: nat): seq<real>
    requires rate > 0
  {
    if k == 0 then [] else [t + 3600.0 / rate as real] + Drip(k - 1, t + 3600.0 / rate as real, rate)
  }

  lemma GapFills(rate: nat, gap: real)
    requires rate > 0 && gap == 3600.0 / rate as real
    ensures gap > 0.0 && Flow(gap, rate) == 1.0
  {
  }

  /** One token flows in per gap, and is taken. */
  lemma TakesNext(rate: nat, t: real, next: real)
    requires rate > 0 && t <= next && Flow(next - t, rate) == 1.0
    ensures TakeFrom(Bucket(0.0, t), rate, next) == (Bucket(0.0, next), Taken)
  {
    hide Flow, PerSec, Ceil;
    assert Refilled(Bucket(0.0, t), rate, next) == 1.0;
  }

  lemma GapsAdd(k: nat, gap: real)
    requires k > 0 && gap > 0.0
    ensures k as real * gap == gap + (k - 1) as real * gap && (k - 1) as real * gap >= 0.0
  {
    Distribute(1.0, (k - 1) as real, gap);
    Nonnegative((k - 1) as real, gap);
  }

  lemma {:induction false} DripAdmitted(k: nat, t: real, rate: nat, a: real, b: real)
    requires rate > 0 && a <= t && t + k as real * (3600.0 / rate as real) <= b
    ensures Admitted(Bucket(0.0, t), rate, Drip(k, t, rate), a, b) == k
    ensures Chronological(Drip(k, t, rate), t)
  {
    hide TakeFrom, Flow, PerSec;
    if k > 0 {
      var gap := 3600.0 / rate as real;
      var next := t + gap;
      GapFills(rate, gap);
      GapsAdd(k, gap);
      TakesNext(rate, t, next);
      assert Drip(k, t, rate)[1..] == Drip(k - 1, next, rate);
      DripAdmitted(k - 1, next, rate, a, b);
    }
  }

  lemma {:induction false} BurstAdmitted(n: nat, t: real, rate: nat, tail: seq<real>, b: real)
    requires rate > 0 && n <= rate && t <= b && Chronological(tail, t)
    ensures Admitted(Bucket(n as real, t), rate, Burst(n, t) + tail, t, b)
         == n + Admitted(Bucket(0.0, t), rate, tail, t, b)
    ensures Chronological(Burst(n, t) + tail, t)
  {
    if n > 0 {
      assert TakeFrom(Bucket(n as real, t), rate, t) == (Bucket((n - 1) as real, t), Taken);
      var times := Burst(n, t) + tail;
      assert times[0] == t && times[1..] == Burst(n - 1, t) + tail;
      BurstAdmitted(n - 1, t, rate, tail, b);
    } else {
      assert Burst(0, t) + tail == tail;
    }
  }

  lemma BurstThenDrip(rate: nat, k: nat, t: real, b: real)
    requires rate > 0 && t <= b && t + k as real * (3600.0 / rate as real) <= b
    ensures exists times :: Chronological(times, t) && Admitted(Full(rate, t), rate, times, t, b) == rate + k
  {
    hide TakeFrom;
    DripAdmitted(k, t, rate, t, b);
    BurstAdmitted(rate, t, rate, Drip(k, t, rate), b);
    var times := Burst(rate, t) + Drip(k, t, rate);
    assert Chronological(times, t) && Admitted(Full(rate, t), rate, times, t, b) == rate + k;
  }

  /** A full bucket really admits the whole bound, for every whole number of tokens flowing in. */
  lemma RateBoundTight(rate: nat, k: nat, t: real)
    requires rate > 0
    ensures var flow := k as real * (3600.0 / rate as real);
            && (exists times :: Chronological(times, t) && Admitted(Full(rate, t), rate, times, t, t + flow) == rate + k)
            && (rate + k) as real == rate as real + rate as real * flow / 3600.0
  {
    hide Admitted, Chronological;
    var gap := 3600.0 / rate as real;
    FlowOfGaps(rate, k as real, gap);
    BurstThenDrip(rate, k, t, t + k as real * gap);
  }

  lemma FlowOfGaps(rate: nat, k: real, gap: real)
    requires rate > 0 && gap == 3600.0 / rate as real
    ensures rate as real * (k * gap) / 3600.0 == k
    ensures k >= 0.0 ==> k * gap >= 0.0
  {
    assert rate as real * gap == 3600.0;
    assert rate as real * (k * gap) == k * (rate as real * gap);
  }

  // ---- the retry hint ----

  /** The bucket after a series of takes that were all refused; `None` when one went through. */
  function AfterRefusals(b: Bucket, rate: nat, times: seq<real>): Option<Bucket>
    decreases |times|
  {
    if times == [] then Some(b)
    else
      var (next, v) := TakeFrom(b, rate, times[0]);
      if v.Taken? then None else AfterRefusals(next, rate, times[1..])
  }

  lemma RefusedTake(b: Bucket, rate: nat, t: real)
    requires rate > 0 && Sound(b, rate) && b.tokens < 1.0 && b.last <= t
    ensures var (next, v) := TakeFrom(b, rate, t);
            && (v.Taken? <==> b.tokens + Flow(t - b.last, rate) >= 1.0)
            && (!v.Taken? ==> next == Bucket(b.tokens + Flow(t - b.last, rate), t) && next.tokens < 1.0 && Sound(next, rate))
  {
    Nonnegative(t - b.last, PerSec(rate));
  }

  /** Refused takes only note the time: they do not change when the next token is there. */
  lemma {:induction false} RefusalsDoNotDelay(b: Bucket, rate: nat, times: seq<real>, at: real)
    requires rate > 0 && Sound(b, rate) && b.tokens < 1.0 && Chronological(times + [at], b.last)
    requires AfterRefusals(b, rate, times).Some?
    ensures var late := AfterRefusals(b, rate, times).value;
            TakeFrom(late, rate, at).1.Taken? <==> b.tokens + Flow(at - b.last, rate) >= 1.0
    decreases |times|
  {
    hide TakeFrom, Refilled, PerSec, Min, Max, Sound, Flow;
    if times == [] {
      assert times + [at] == [at];
      RefusedTake(b, rate, at);
    } else {
      var t := times[0];
      assert (times + [at])[0] == t && (times + [at])[1..] == times[1..] + [at];
      RefusedTake(b, rate, t);
      FlowSplits(b.last, t, at, rate);
      RefusalsDoNotDelay(TakeFrom(b, rate, t).0, rate, times[1..], at);
    }
  }

  lemma CeilIsLeast(x: real, n: int)
    ensures n >= Ceil(x) <==> n as real >= x
  {
  }

  lemma WaitForToken(rate: nat, tokens: real, n: nat)
    requires rate > 0
    ensures tokens + Flow(n as real, rate) >= 1.0 <==> n as real >= (1.0 - tokens) / PerSec(rate)
  {
    var p := PerSec(rate);
    var wait := (1.0 - tokens) / p;
    assert wait * p == 1.0 - tokens;
    Distribute(n as real - wait, wait, p);
    assert n as real * p == (n as real - wait) * p + (1.0 - tokens);
    SignOfProduct(n as real - wait, p);
  }

  lemma SignOfProduct(x: real, p: real)
    requires p > 0.0
    ensures x * p >= 0.0 <==> x >= 0.0
  {
  }

  lemma HintIsCeil(b: Bucket, rate: nat, now: real)
    requires rate > 0 && Sound(b, rate) && b.last <= now && TakeFrom(b, rate, now).1.RetryAfter?
    ensures var (next, v) := TakeFrom(b, rate, now);
            && next.tokens < 1.0 && v.secs == Ceil((1.0 - next.tokens) / PerSec(rate))
  {
    var tokens := Refilled(b, rate, now);
    RefillLinear(b, rate, now);
    var wait := (1.0 - tokens) / PerSec(rate);
    assert wait * PerSec(rate) == 1.0 - tokens;
    SignOfProduct(-wait, PerSec(rate));
    CeilIsLeast(wait, 0);
  }

  /** The hint is the least whole number of seconds to wait, and refused takes on the way do
      not change that. */
  lemma RetryHintExact(b: Bucket, rate: nat, now: real, times: seq<real>, n: nat)
    requires rate > 0 && Sound(b, rate) && b.last <= now
    requires TakeFrom(b, rate, now).1.RetryAfter?
    requires Chronological(times + [now + n as real], now)
    requires AfterRefusals(TakeFrom(b, rate, now).0, rate, times).Some?
    ensures var late := AfterRefusals(TakeFrom(b, rate, now).0, rate, times).value;
            TakeFrom(late, rate, now + n as real).1.Taken? <==> n >= TakeFrom(b, rate, now).1.secs
  {
    hide TakeFrom, PerSec, Refilled, Ceil, Min, Max, Flow;
    var (next, v) := TakeFrom(b, rate, now);
    PerSecPositive(rate);
    SoundStays(b, rate, now);
    HintIsCeil(b, rate, now);
    var wait := (1.0 - next.tokens) / PerSec(rate);
    RefusalsDoNotDelay(next, rate, times, now + n as real);
    WaitForToken(rate, next.tokens, n);
    CeilIsLeast(wait, n);
  }
}
