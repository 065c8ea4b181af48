/**
 vendor/golang.org/x/time/rate/rate.go: the token bucket behind every session, as far as
 Allow uses it. Times are nanoseconds since Go's zero time; tokens are reals where the
 library has floats.
 */
module RateLimiter {
  import Integers

  const NANOS := 1000000000.0

  /** rate.Limit; `Unlimited` is rate.Inf, the largest float. */
  datatype Limit = PerSecond(rps: real) | Unlimited

  predicate Positive(limit: Limit) {
    limit.Unlimited? || limit.rps > 0.0
  }

  datatype Bucket = Bucket(limit: Limit, burst: int, tokens: real, last: int)

  function NewBucket(limit: Limit, burst: int): Bucket {
    Bucket(limit, burst, burst as real, 0)
  }

  function TokensFromDuration(limit: Limit, d: int): real {
    if limit.Unlimited? || limit.rps <= 0.0 then 0.0 else (d as real / NANOS) * limit.rps
  }

  const INF_DURATION: int := 0x7FFF_FFFF_FFFF_FFFF

  /** Truncated to whole nanoseconds, so a debt worth less than one nanosecond costs no wait. */
  function DurationFromTokens(limit: Limit, tokens: real): int
    requires tokens >= 0.0
  {
    if limit.Unlimited? then 0
    else if limit.rps <= 0.0 then INF_DURATION
    else
      var duration := tokens / limit.rps * NANOS;
      if duration > INF_DURATION as real then INF_DURATION else duration.Floor
  }

  /** The tokens at time `t`; a reading older than the last update earns nothing. */
  function Advance(b: Bucket, t: int): real {
    var last := if t < b.last then t else b.last;
    var tokens := b.tokens + TokensFromDuration(b.limit, t - last);
    if tokens > b.burst as real then b.burst as real else tokens
  }

  datatype Verdict = Verdict(ok: bool, bucket: Bucket)

  function Allow(b: Bucket, t: int): Verdict {
    if b.limit.Unlimited? then Verdict(true, b)
    else
      var tokens := Advance(b, t) - 1.0;
      var wait := if tokens < 0.0 then DurationFromTokens(b.limit, -tokens) else 0;
      if 1 <= b.burst && wait <= 0 then Verdict(true, b.(tokens := tokens, last := t)) else Verdict(false, b)
  }

  class Limiter {
    const limit: Limit
    const burst: int
    var tokens: real
    var last: int

    function Abs(): Bucket
      reads this
    {
      Bucket(limit, burst, tokens, last)
    }

    constructor (limit: Limit, burst: int)
      ensures Abs() == NewBucket(limit, burst)
    {
      this.limit, this.burst, this.tokens, this.last := limit, burst, burst as real, 0;
    }

    method AllowAt(t: int) returns (ok: bool)
      modifies this
      ensures Verdict(ok, Abs()) == Allow(old(Abs()), t)
      ensures ok && limit.PerSecond? ==> last == t && tokens == Advance(old(Abs()), t) - 1.0
      ensures !ok || limit.Unlimited? ==> last == old(last) && tokens == old(tokens)
    {
      if limit.Unlimited? { return true; }
      var advanced := Advance(Abs(), t) - 1.0;
      var wait := 0;
      if advanced < 0.0 {
        wait := DurationFromTokens(limit, -advanced);
      }
      ok := 1 <= burst && wait <= 0;
      if ok {
        last, tokens := t, advanced;
      }
    }
  }

  // ---------------------------------------------------------------- arithmetic

  lemma EarnedAddsUp(limit: Limit, a: int, b: int)
    ensures TokensFromDuration(limit, a) + TokensFromDuration(limit, b) == TokensFromDuration(limit, a + b)
  {
    assert (a + b) as real == a as real + b as real;
    if limit.PerSecond? {
      assert (a as real / NANOS) * limit.rps + (b as real / NANOS) * limit.rps
          == (a as real / NANOS + b as real / NANOS) * limit.rps;
    }
  }

  lemma EarnedGrows(limit: Limit, d: int)
    requires d >= 0
    ensures TokensFromDuration(limit, d) >= 0.0
  {
  }

  lemma ScalingKeepsOrder(x: real, y: real, c: real)
    requires c > 0.0
    ensures x < y <==> x * c < y * c
  {
    assert x < y ==> (y - x) * c > 0.0;
    assert x >= y ==> (x - y) * c >= 0.0;
  }

  lemma NoWaitExactlyWhen(limit: Limit, tokens: real)
    requires limit.PerSecond? && limit.rps > 0.0 && tokens >= 0.0
    ensures DurationFromTokens(limit, tokens) <= 0 <==> tokens * NANOS < limit.rps
  {
    var q := tokens / limit.rps;
    assert q * limit.rps == tokens;
    ScalingKeepsOrder(q * NANOS, 1.0, limit.rps);
    assert q * NANOS * limit.rps == q * limit.rps * NANOS == tokens * NANOS;
    assert 1.0 * limit.rps == limit.rps;
    assert DurationFromTokens(limit, tokens) <= 0 <==> q * NANOS < 1.0;
  }

  /** Admitted exactly when a token is there, or will be within the nanosecond. */
  lemma AdmitsExactlyWhen(b: Bucket, t: int)
    requires b.limit.PerSecond? && b.limit.rps > 0.0
    ensures Allow(b, t).ok <==> b.burst >= 1 && (Advance(b, t) - 1.0) * NANOS > -b.limit.rps
  {
    var tokens := Advance(b, t) - 1.0;
    if tokens < 0.0 {
      NoWaitExactlyWhen(b.limit, -tokens);
    }
  }

  /** How far a reading moves forward; clocks that step back do not move it. */
  function Moved(from: int, to: int): nat {
    if to > from then to - from else 0
  }

  /** Between two readings, in either order, no more is earned than the second moves forward. */
  lemma AdvanceMoves(b: Bucket, t: int, u: int)
    ensures Advance(b, u) <= Advance(b, t) + TokensFromDuration(b.limit, Moved(t, u))
    ensures t <= u ==> Advance(b, t) <= Advance(b, u)
  {
    var atT, atU := Moved(b.last, t), Moved(b.last, u);
    EarnedAddsUp(b.limit, atT, Moved(t, u));
    EarnedAddsUp(b.limit, atU, atT + Moved(t, u) - atU);
    EarnedGrows(b.limit, atT + Moved(t, u) - atU);
    EarnedGrows(b.limit, Moved(t, u));
    if t <= u {
      EarnedAddsUp(b.limit, atT, atU - atT);
      EarnedGrows(b.limit, atU - atT);
    }
  }

  /** No bucket's debt ever reaches what it earns in a nanosecond. */
  predicate SmallDebt(b: Bucket) {
    b.limit.PerSecond? ==> b.tokens * NANOS > -b.limit.rps || b.tokens == b.burst as real
  }

  lemma AllowKeepsDebtSmall(b: Bucket, t: int)
    requires Positive(b.limit) && SmallDebt(b)
    ensures SmallDebt(Allow(b, t).bucket)
  {
    if b.limit.PerSecond? {
      AdmitsExactlyWhen(b, t);
    }
  }

  // ---------------------------------------------------------------- the rate bound

  /**
   The books of a bucket: admitted so far, plus what is left at the latest reading, is at most
   the tokens it had at first and what `moved` nanoseconds earn.
   */
  predicate Balanced(b: Bucket, start: real, admitted: nat, moved: nat, now: int) {
    admitted as real + Advance(b, now) <= start + TokensFromDuration(b.limit, moved)
  }

  lemma OpensBalanced(b: Bucket, moved: nat, now: int)
    ensures Balanced(b, Advance(b, now), 0, moved, now) && Balanced(b, b.burst as real, 0, moved, now)
  {
    EarnedGrows(b.limit, moved);
  }

  lemma BalancedNext(b: Bucket, start: real, admitted: nat, moved: nat, now: int, next: int)
    requires Balanced(b, start, admitted, moved, now)
    ensures Balanced(b, start, admitted, moved + Moved(now, next), next)
  {
    AdvanceMoves(b, now, next);
    EarnedAddsUp(b.limit, moved, Moved(now, next));
  }

  lemma AllowKeepsBalance(b: Bucket, start: real, admitted: nat, moved: nat, now: int)
    requires b.limit.PerSecond? && Balanced(b, start, admitted, moved, now)
    ensures Balanced(Allow(b, now).bucket, start, if Allow(b, now).ok then admitted + 1 else admitted, moved, now)
  {
    var v := Allow(b, now);
    assert v.ok ==> (admitted + 1) as real == admitted as real + 1.0;
    assert v.ok ==> Advance(v.bucket, now) <= Advance(b, now) - 1.0;
  }

  /** The answers to calls at these times, one after the other. */
  function Calls(b: Bucket, times: seq<int>): seq<Verdict>
    decreases |times|
  {
    if times == [] then []
    else
      var first := Allow(b, times[0]);
      [first] + Calls(first.bucket, times[1..])
  }

  predicate NonDecreasing(times: seq<int>) {
    forall i, j :: 0 <= i <= j < |times| ==> times[i] <= times[j]
  }

  function Admitted(verdicts: seq<Verdict>): nat {
    if verdicts == [] then 0 else (if verdicts[0].ok then 1 else 0) + Admitted(verdicts[1..])
  }

  lemma DebtIsBounded(b: Bucket, now: int)
    requires b.limit.PerSecond? && b.limit.rps > 0.0 && b.burst >= 0 && SmallDebt(b)
    ensures Advance(b, now) + TokensFromDuration(b.limit, 1) > 0.0
  {
    EarnedGrows(b.limit, Moved(b.last, now));
  }

  /** Balanced books bound what was admitted, by a nanosecond's worth more than first tokens and earnings. */
  lemma BalanceBoundsAdmitted(b: Bucket, start: real, admitted: nat, moved: nat, now: int)
    requires b.limit.PerSecond? && b.limit.rps > 0.0 && b.burst >= 0 && SmallDebt(b)
    requires Balanced(b, start, admitted, moved, now)
    ensures admitted as real < start + TokensFromDuration(b.limit, moved + 1)
  {
    DebtIsBounded(b, now);
    EarnedAddsUp(b.limit, moved, 1);
  }

  /** The forward movements of a series of readings, added up. */
  function Forward(now: int, times: seq<int>): nat
    decreases |times|
  {
    if times == [] then 0 else Moved(now, times[0]) + Forward(times[0], times[1..])
  }

  /** Readings in order move forward from the first to the last. */
  lemma {:induction false} ForwardInOrder(now: int, times: seq<int>)
    requires NonDecreasing(times) && (times != [] ==> now <= times[0])
    ensures Forward(now, times) == if times == [] then 0 else times[|times| - 1] - now
    decreases |times|
  {
    if times != [] {
      ForwardInOrder(times[0], times[1..]);
    }
  }

  lemma {:induction false} CallsStayBalanced(b: Bucket, times: seq<int>, start: real, admitted: nat, moved: nat, now: int)
    requires b.limit.PerSecond? && b.limit.rps > 0.0 && b.burst >= 0 && SmallDebt(b)
    requires Balanced(b, start, admitted, moved, now)
    ensures (admitted + Admitted(Calls(b, times))) as real
            < start + TokensFromDuration(b.limit, moved + Forward(now, times) + 1)
    decreases |times|
  {
    if times == [] {
      BalanceBoundsAdmitted(b, start, admitted, moved, now);
    } else {
      var t, v := times[0], Allow(b, times[0]);
      BalancedNext(b, start, admitted, moved, now, t);
      AllowKeepsBalance(b, start, admitted, moved + Moved(now, t), t);
      AllowKeepsDebtSmall(b, t);
      assert Calls(b, times)[1..] == Calls(v.bucket, times[1..]);
      CallsStayBalanced(v.bucket, times[1..], start, if v.ok then admitted + 1 else admitted, moved + Moved(now, t), t);
    }
  }

  /**
   In whatever order the readings reach a bucket, and however it was used before, fewer calls
   are admitted than the burst plus the rate times the forward movements of the readings and
   one nanosecond.
   */
  lemma {:induction false} RateBound(b: Bucket, times: seq<int>)
    requires b.limit.PerSecond? && b.limit.rps > 0.0 && b.burst >= 0 && SmallDebt(b) && times != []
    ensures Admitted(Calls(b, times)) as real
          < b.burst as real + TokensFromDuration(b.limit, Forward(times[0], times[1..]) + 1)
  {
    OpensBalanced(b, 0, times[0]);
    CallsStayBalanced(b, times, b.burst as real, 0, 0, times[0]);
  }

  /** With the readings in order these movements add up to the interval. */
  lemma {:induction false} RateBoundInOrder(b: Bucket, times: seq<int>)
    requires b.limit.PerSecond? && b.limit.rps > 0.0 && b.burst >= 0 && SmallDebt(b) && times != [] && NonDecreasing(times)
    ensures Admitted(Calls(b, times)) as real
          < b.burst as real + TokensFromDuration(b.limit, times[|times| - 1] - times[0] + 1)
  {
    RateBound(b, times);
    ForwardInOrder(times[0], times[1..]);
  }

  /**
   The nanosecond is real: at 0.3 requests per second a token takes 3 1/3 seconds, but a call
   after 3,333,333,333 nanoseconds is admitted, one more than burst and rate allow for that
   interval.
   */
  lemma NanosecondMatters()
    ensures var b, times := NewBucket(PerSecond(0.3), 1), [1_000_000_000, 4_333_333_333];
            && Admitted(Calls(b, times)) == 2
            && 2.0 > 1.0 + TokensFromDuration(PerSecond(0.3), times[1] - times[0])
  {
    var b, t, u := NewBucket(PerSecond(0.3), 1), 1_000_000_000, 4_333_333_333;
    var v1 := Allow(b, t);
    assert v1 == Verdict(true, Bucket(PerSecond(0.3), 1, 0.0, t));
    AdmitsExactlyWhen(v1.bucket, u);
    var v2 := Allow(v1.bucket, u);
    assert v2.ok;
    assert [t, u][1..] == [u] && [u][1..] == [];
    assert Calls(v1.bucket, [u]) == [v2] && Calls(b, [t, u]) == [v1, v2];
    assert [v1, v2][1..] == [v2] && Admitted([v2]) == 1;
  }

  /**
   The interval cannot take the place of the forward movements. A late call with an old reading
   moves the bucket's clock back, and the time in between is earned twice: here the last
   reading is the first one, and four calls are admitted on a burst of two.
   */
  lemma OutOfOrderBreaksBound()
    ensures var b, times := NewBucket(PerSecond(1.0), 2), [10_000_000_000, 0, 10_000_000_000, 10_000_000_000];
            && Admitted(Calls(b, times)) == 4
            && 4.0 > b.burst as real + TokensFromDuration(b.limit, times[3] - times[0] + 1)
  {
    var b := NewBucket(PerSecond(1.0), 2);
    var t := 10_000_000_000;
    var v1 := Allow(b, t);
    assert v1 == Verdict(true, Bucket(PerSecond(1.0), 2, 1.0, t));
    var v2 := Allow(v1.bucket, 0);
    assert v2 == Verdict(true, Bucket(PerSecond(1.0), 2, 0.0, 0));
    var v3 := Allow(v2.bucket, t);
    assert v3 == Verdict(true, Bucket(PerSecond(1.0), 2, 1.0, t));
    var v4 := Allow(v3.bucket, t);
    assert v4.ok;
    assert [t, 0, t, t][1..] == [0, t, t] && [0, t, t][1..] == [t, t] && [t, t][1..] == [t] && [t][1..] == [];
    assert Calls(v3.bucket, [t]) == [v4];
    assert Calls(v2.bucket, [t, t]) == [v3, v4];
    assert Calls(v1.bucket, [0, t, t]) == [v2, v3, v4];
    assert Calls(b, [t, 0, t, t]) == [v1, v2, v3, v4];
    assert Admitted([v4]) == 1 && Admitted([v3, v4]) == 2 && Admitted([v2, v3, v4]) == 3;
  }

  function Repeated(t: int, n: nat): seq<int> {
    if n == 0 then [] else [t] + Repeated(t, n - 1)
  }

  // ---------------------------------------------------------------- whole numbers

  /** A token takes p/q nanoseconds; for a limit that is a float there are always such p and q. */
  predicate TokenTakes(limit: Limit, p: int, q: int) {
    limit.PerSecond? && limit.rps > 0.0 && p > 0 && q > 0 && p as real * limit.rps == q as real * NANOS
  }

  lemma EarnedInNanos(limit: Limit, d: int)
    requires limit.PerSecond? && limit.rps > 0.0
    ensures TokensFromDuration(limit, d) * NANOS == d as real * limit.rps
  {
  }

  lemma Regroup(x: real, n: real, d: real, r: real, p: real, q: real)
    requires n > 0.0 && x * n == d * r && p * r == q * n
    ensures x * p == d * q
  {
    assert x * p * n == x * n * p == d * r * p == d * (p * r) == d * (q * n) == d * q * n;
    ScalingKeepsOrder(x * p, d * q, n);
    ScalingKeepsOrder(d * q, x * p, n);
  }

  /** These tokens are k units of 1/p token. */
  predicate Units(tokens: real, p: int, k: int) {
    tokens * p as real == k as real
  }

  /** In d nanoseconds d * q units are earned. */
  lemma EarnedInUnits(limit: Limit, p: int, q: int, d: int)
    requires TokenTakes(limit, p, q)
    ensures Units(TokensFromDuration(limit, d), p, d * q)
  {
    EarnedInNanos(limit, d);
    Regroup(TokensFromDuration(limit, d), NANOS, d as real, limit.rps, p as real, q as real);
    assert (d * q) as real == d as real * q as real;
  }

  lemma UnitsAdd(x: real, y: real, p: int, k: int, m: int)
    requires Units(x, p, k) && Units(y, p, m)
    ensures Units(x + y, p, k + m)
  {
    assert (x + y) * p as real == x * p as real + y * p as real;
  }

  lemma UnitsOfWhole(tokens: int, p: int)
    ensures Units(tokens as real, p, tokens * p)
  {
    assert tokens as real * p as real == (tokens * p) as real;
  }

  lemma UnitsInOrder(x: real, y: real, p: int, k: int, m: int)
    requires p > 0 && Units(x, p, k) && Units(y, p, m)
    ensures x < y <==> k < m
  {
    ScalingKeepsOrder(x, y, p as real);
  }

  /** A debt of less than a nanosecond's worth is less than q units. */
  lemma DebtInUnits(limit: Limit, p: int, q: int, tokens: real, k: int)
    requires TokenTakes(limit, p, q) && Units(tokens, p, k)
    ensures tokens * NANOS > -limit.rps <==> k > -q
  {
    ScaleDebt(tokens, limit.rps, p as real, q as real, k as real);
  }

  lemma ScaleDebt(x: real, r: real, p: real, q: real, k: real)
    requires p > 0.0 && p * r == q * NANOS && x * p == k
    ensures x * NANOS > -r <==> k > -q
  {
    ScalingKeepsOrder(-r, x * NANOS, p);
    assert x * NANOS * p == k * NANOS;
    assert -r * p == -q * NANOS;
  }

  /**
   The bound with the nanosecond, said in whole numbers: in units of 1/p token nothing is lost but
   the rounding.
   */
  lemma BoundInIntegers(limit: Limit, admitted: int, start: int, d: int, p: int, q: int)
    requires TokenTakes(limit, p, q)
    ensures admitted as real < start as real + TokensFromDuration(limit, d + 1)
       <==> admitted * p <= start * p + d * q + q - 1
  {
    EarnedInUnits(limit, p, q, d + 1);
    UnitsOfWhole(admitted, p);
    UnitsOfWhole(start, p);
    UnitsAdd(start as real, TokensFromDuration(limit, d + 1), p, start * p, (d + 1) * q);
    UnitsInOrder(admitted as real, start as real + TokensFromDuration(limit, d + 1), p, admitted * p, start * p + (d + 1) * q);
  }

  /** The rate bound in whole numbers, for any limit at which a token takes p/q nanoseconds. */
  lemma {:induction false} RateBoundInIntegers(b: Bucket, times: seq<int>, p: int, q: int)
    requires TokenTakes(b.limit, p, q) && b.burst >= 0 && SmallDebt(b) && times != []
    ensures Admitted(Calls(b, times)) * p <= b.burst * p + Forward(times[0], times[1..]) * q + q - 1
  {
    RateBound(b, times);
    BoundInIntegers(b.limit, Admitted(Calls(b, times)), b.burst, Forward(times[0], times[1..]), p, q);
  }

  // ---------------------------------------------------------------- calls one after the other

  function After(b: Bucket, times: seq<int>): Bucket
    decreases |times|
  {
    if times == [] then b else After(Allow(b, times[0]).bucket, times[1..])
  }

  lemma {:induction false} AfterKeepsDebtSmall(b: Bucket, times: seq<int>)
    requires Positive(b.limit) && SmallDebt(b)
    ensures SmallDebt(After(b, times)) && After(b, times).limit == b.limit && After(b, times).burst == b.burst
    decreases |times|
  {
    if times != [] {
      AllowKeepsDebtSmall(b, times[0]);
      AfterKeepsDebtSmall(Allow(b, times[0]).bucket, times[1..]);
    }
  }

  lemma {:induction false} CallsAppend(b: Bucket, times: seq<int>, t: int)
    ensures After(b, times + [t]) == Allow(After(b, times), t).bucket
    ensures Admitted(Calls(b, times + [t])) == Admitted(Calls(b, times)) + if Allow(After(b, times), t).ok then 1 else 0
    decreases |times|
  {
    var all := times + [t];
    if times == [] {
      assert all == [t] && all[1..] == [] && Calls(b, all)[1..] == [];
    } else {
      var next := Allow(b, times[0]).bucket;
      assert all[1..] == times[1..] + [t];
      assert Calls(b, all)[1..] == Calls(next, all[1..]) && Calls(b, times)[1..] == Calls(next, times[1..]);
      CallsAppend(next, times[1..], t);
    }
  }

  lemma {:induction false} RepeatedAppends(t: int, n: nat)
    ensures Repeated(t, n + 1) == Repeated(t, n) + [t]
  {
    if n > 0 {
      RepeatedAppends(t, n - 1);
    }
  }

  /** n calls at one moment take n tokens, when there are so many. */
  lemma {:induction false} SpendsAll(b: Bucket, t: int, n: nat)
    requires b.limit.PerSecond? && b.burst >= 1 && n >= 1 && Advance(b, t) >= n as real
    ensures After(b, Repeated(t, n)) == b.(tokens := Advance(b, t) - n as real, last := t)
    decreases n
  {
    var next := Allow(b, t).bucket;
    assert Repeated(t, n)[1..] == Repeated(t, n - 1);
    assert next == b.(tokens := Advance(b, t) - 1.0, last := t);
    if n > 1 {
      EarnedGrows(b.limit, 0);
      assert Advance(next, t) == Advance(b, t) - 1.0;
      SpendsAll(next, t, n - 1);
    }
  }

  lemma {:induction false} SpendsThenAsks(b: Bucket, n: nat, u: int)
    requires b.limit.PerSecond? && b.limit.rps > 0.0 && b.burst >= 1 && b.burst >= n && b.tokens == n as real && b.last <= u
    ensures Admitted(Calls(b, Repeated(b.last, n) + [u]))
         == n + if Allow(b.(tokens := 0.0), u).ok then 1 else 0
    decreases n
  {
    var times := Repeated(b.last, n) + [u];
    var v := Allow(b, times[0]);
    if n == 0 {
      assert times == [u] && times[1..] == [] && Calls(b, times) == [v];
      assert [v][1..] == [] && b == b.(tokens := 0.0);
    } else {
      EarnedGrows(b.limit, 0);
      assert v == Verdict(true, b.(tokens := (n - 1) as real));
      assert times[1..] == Repeated(b.last, n - 1) + [u];
      assert Calls(b, times)[1..] == Calls(v.bucket, times[1..]);
      SpendsThenAsks(v.bucket, n - 1, u);
    }
  }

  lemma {:induction false} RepeatedThenLater(t: int, n: nat, u: int)
    requires t <= u
    ensures var times := Repeated(t, n) + [u];
            NonDecreasing(times) && times[0] == (if n == 0 then u else t) && times[|times| - 1] == u
    ensures |Repeated(t, n)| == n && forall i :: 0 <= i < n ==> Repeated(t, n)[i] == t
    decreases n
  {
    if n > 0 {
      RepeatedThenLater(t, n - 1, u);
    }
  }

  lemma {:induction false} ForwardAppends(now: int, times: seq<int>, u: int)
    ensures Forward(now, times + [u]) == Forward(now, times) + Moved(if times == [] then now else times[|times| - 1], u)
    decreases |times|
  {
    if times != [] {
      assert (times + [u])[1..] == times[1..] + [u];
      ForwardAppends(times[0], times[1..], u);
    }
  }

  /** The last of several calls. */
  lemma {:induction false} LastCall(b: Bucket, times: seq<int>, t: int)
    ensures Calls(b, times + [t]) == Calls(b, times) + [Allow(After(b, times), t)]
    decreases |times|
  {
    var all := times + [t];
    if times == [] {
      assert all == [t] && all[1..] == [] && Calls(b, all) == [Allow(b, t)];
    } else {
      var first := Allow(b, times[0]);
      assert all[1..] == times[1..] + [t];
      LastCall(first.bucket, times[1..], t);
      assert Calls(b, all) == [first] + Calls(first.bucket, all[1..]);
    }
  }

  lemma {:induction false} CallsConcat(b: Bucket, xs: seq<int>, ys: seq<int>)
    ensures After(b, xs + ys) == After(After(b, xs), ys)
    ensures Admitted(Calls(b, xs + ys)) == Admitted(Calls(b, xs)) + Admitted(Calls(After(b, xs), ys))
    decreases |ys|
  {
    if ys == [] {
      assert xs + ys == xs;
    } else {
      var front, y := ys[..|ys| - 1], ys[|ys| - 1];
      CallsConcat(b, xs, front);
      assert xs + ys == (xs + front) + [y] && ys == front + [y];
      CallsAppend(b, xs + front, y);
      CallsAppend(After(b, xs), front, y);
    }
  }

  // ---------------------------------------------------------------- refused calls

  /** A call takes its token and moves the clock, or is refused and leaves no trace. */
  lemma RefusedLeavesNoTrace(b: Bucket, t: int)
    ensures var v := Allow(b, t);
            v.bucket == if v.ok && b.limit.PerSecond? then b.(tokens := Advance(b, t) - 1.0, last := t) else b
  {
  }

  /** The times of the calls that are admitted. */
  function AdmittedTimes(b: Bucket, times: seq<int>): seq<int>
    decreases |times|
  {
    if times == [] then []
    else
      var v := Allow(b, times[0]);
      (if v.ok then [times[0]] else []) + AdmittedTimes(v.bucket, times[1..])
  }

  /** Refused calls can be struck out of any run, all at once: those that are left are all admitted, and the bucket ends up the same. */
  lemma {:induction false} RefusedDoNotMatter(b: Bucket, times: seq<int>)
    ensures var kept := AdmittedTimes(b, times);
            && |kept| == Admitted(Calls(b, times))
            && After(b, kept) == After(b, times) && Admitted(Calls(b, kept)) == |kept|
    decreases |times|
  {
    if times != [] {
      var v, rest := Allow(b, times[0]), times[1..];
      RefusedLeavesNoTrace(b, times[0]);
      RefusedDoNotMatter(v.bucket, rest);
      assert Calls(b, times)[1..] == Calls(v.bucket, rest);
      if v.ok {
        var kept := [times[0]] + AdmittedTimes(v.bucket, rest);
        assert kept[1..] == AdmittedTimes(v.bucket, rest);
        assert Calls(b, kept)[1..] == Calls(v.bucket, kept[1..]);
      } else {
        assert [] + AdmittedTimes(b, rest) == AdmittedTimes(b, rest);
      }
    }
  }

  /** One refused call can be left out without any other answer changing. */
  lemma {:induction false} RefusedCanBeLeftOut(b: Bucket, times: seq<int>, i: nat)
    requires i < |times| == |Calls(b, times)| && !Calls(b, times)[i].ok
    ensures Calls(b, times[..i] + times[i + 1..]) == Calls(b, times)[..i] + Calls(b, times)[i + 1..]
    decreases |times|
  {
    var v, rest := Allow(b, times[0]), times[1..];
    CallsLength(v.bucket, rest);
    assert Calls(b, times) == [v] + Calls(v.bucket, rest);
    if i == 0 {
      RefusedLeavesNoTrace(b, times[0]);
      assert times[..0] + times[1..] == rest;
    } else {
      RefusedCanBeLeftOut(v.bucket, rest, i - 1);
      var fewer := times[..i] + times[i + 1..];
      assert fewer[0] == times[0] && fewer[1..] == rest[..i - 1] + rest[i..];
      assert Calls(b, fewer) == [v] + Calls(v.bucket, fewer[1..]);
    }
  }

  lemma {:induction false} CallsLength(b: Bucket, times: seq<int>)
    ensures |Calls(b, times)| == |times|
    decreases |times|
  {
    if times != [] {
      CallsLength(Allow(b, times[0]).bucket, times[1..]);
    }
  }

  // ---------------------------------------------------------------- what a bucket owes its callers

  /** A call that comes the time of a token or more after the last admission is admitted. */
  lemma TokenTimeAdmits(b: Bucket, t: int, p: int, q: int)
    requires TokenTakes(b.limit, p, q) && b.burst >= 1 && SmallDebt(b)
    requires (t - b.last) * q >= p && t >= b.last
    ensures Allow(b, t).ok
  {
    var earned := TokensFromDuration(b.limit, t - b.last);
    EarnedInUnits(b.limit, p, q, t - b.last);
    UnitsOfWhole(1, p);
    UnitsInOrder(earned, 1.0, p, (t - b.last) * q, 1 * p);
    AdmitsExactlyWhen(b, t);
  }

  /** Refused calls in between make no difference to that. */
  lemma {:induction false} TokenTimeAdmitsAfterRefusals(b: Bucket, refused: seq<int>, t: int, p: int, q: int)
    requires TokenTakes(b.limit, p, q) && b.burst >= 1 && SmallDebt(b)
    requires (t - b.last) * q >= p && t >= b.last && Admitted(Calls(b, refused)) == 0
    ensures After(b, refused) == b && Allow(After(b, refused), t).ok
    decreases |refused|
  {
    if refused == [] {
      TokenTimeAdmits(b, t, p, q);
    } else {
      assert Calls(b, refused)[1..] == Calls(Allow(b, refused[0]).bucket, refused[1..]);
      RefusedLeavesNoTrace(b, refused[0]);
      TokenTimeAdmitsAfterRefusals(b, refused[1..], t, p, q);
    }
  }

  /**
   In any run in order: a call that comes p/q nanoseconds or more after the last admitted one, at
   p/q nanoseconds to a token, is admitted, whatever was refused in between.
   */
  lemma {:induction false} NobodyStarves(b: Bucket, before: seq<int>, last: int, refused: seq<int>, t: int, p: int, q: int)
    requires TokenTakes(b.limit, p, q) && b.burst >= 1 && SmallDebt(b) && last <= t && (t - last) * q >= p
    requires Allow(After(b, before), last).ok
    requires Admitted(Calls(After(b, before + [last]), refused)) == 0
    ensures Allow(After(b, before + [last] + refused), t).ok
  {
    AfterKeepsDebtSmall(b, before + [last]);
    CallsAppend(b, before, last);
    RefusedLeavesNoTrace(After(b, before), last);
    AfterKeepsDebtSmall(b, before);
    TokenTimeAdmitsAfterRefusals(After(b, before + [last]), refused, t, p, q);
    CallsConcat(b, before + [last], refused);
  }

  /** Calls a token's time apart. */
  predicate Paced(times: seq<int>, p: int, q: int)
    decreases |times|
  {
    |times| < 2 || (times[0] <= times[1] && (times[1] - times[0]) * q >= p && Paced(times[1..], p, q))
  }

  /** A client that keeps that pace is never refused, once it has been admitted. */
  lemma {:induction false} PaceIsServed(b: Bucket, times: seq<int>, p: int, q: int)
    requires TokenTakes(b.limit, p, q) && b.burst >= 1 && SmallDebt(b) && Paced(times, p, q)
    requires times != [] ==> Allow(b, times[0]).ok
    ensures Admitted(Calls(b, times)) == |times|
    decreases |times|
  {
    if times != [] {
      var v, rest := Allow(b, times[0]), times[1..];
      RefusedLeavesNoTrace(b, times[0]);
      AllowKeepsDebtSmall(b, times[0]);
      assert Calls(b, times)[1..] == Calls(v.bucket, rest);
      if rest != [] {
        TokenTimeAdmits(v.bucket, rest[0], p, q);
      }
      PaceIsServed(v.bucket, rest, p, q);
    }
  }

  /** Without a limit every call is admitted and nothing is counted, whatever the burst. */
  lemma UnlimitedAdmits(b: Bucket, t: int)
    requires b.limit.Unlimited?
    ensures Allow(b, t) == Verdict(true, b)
  {
  }

  /** Without a rate nothing is earned: a call is admitted exactly for a token that is there. */
  lemma NothingEarned(b: Bucket, t: int)
    requires b.limit.PerSecond? && b.limit.rps <= 0.0
    ensures Allow(b, t).ok <==> b.burst >= 1 && b.tokens >= 1.0
    ensures Allow(b, t).ok && b.tokens <= b.burst as real ==> Allow(b, t).bucket.tokens == b.tokens - 1.0
  {
  }

  // ---------------------------------------------------------------- when the nanosecond is not needed

  function TokenTime(rps: real): (n: real)
    requires rps > 0.0
    ensures n > 0.0 && n * rps == NANOS
  {
    NANOS / rps
  }

  predicate IsWhole(x: real) {
    x == x.Floor as real
  }

  /** A token takes a whole number of nanoseconds, so that truncating a wait loses nothing. */
  predicate WholeNanoseconds(limit: Limit) {
    limit.PerSecond? && limit.rps > 0.0 && IsWhole(TokenTime(limit.rps))
  }

  /** The bound without the nanosecond, for the last `times` of any calls on a new bucket. */
  ghost predicate PlainBound(limit: Limit, burst: int) {
    forall before, times :: times != [] ==>
      Admitted(Calls(After(NewBucket(limit, burst), before), times)) as real
      <= burst as real + TokensFromDuration(limit, Forward(times[0], times[1..]))
  }

  lemma JustBelowOne(limit: Limit, n: real, u: int)
    requires limit.PerSecond? && limit.rps > 0.0 && n > 0.0 && n * limit.rps == NANOS
    requires u as real < n < u as real + 1.0
    ensures TokensFromDuration(limit, u) < 1.0
    ensures (TokensFromDuration(limit, u) - 1.0) * NANOS > -limit.rps
  {
    EarnedInNanos(limit, u);
    ScalingKeepsOrder(u as real, n, limit.rps);
    ScalingKeepsOrder(n, u as real + 1.0, limit.rps);
    assert (u as real + 1.0) * limit.rps == u as real * limit.rps + limit.rps;
  }

  lemma AlmostAToken(limit: Limit, burst: int, u: int)
    requires limit.PerSecond? && limit.rps > 0.0 && burst >= 1
    requires 0 <= u == TokenTime(limit.rps).Floor && !WholeNanoseconds(limit)
    ensures TokensFromDuration(limit, u) < 1.0
    ensures Allow(NewBucket(limit, burst).(tokens := 0.0), u).ok
  {
    var empty := NewBucket(limit, burst).(tokens := 0.0);
    JustBelowOne(limit, TokenTime(limit.rps), u);
    assert Advance(empty, u) == TokensFromDuration(limit, u);
    AdmitsExactlyWhen(empty, u);
  }

  lemma SpendSchedule(burst: int, u: int) returns (times: seq<int>)
    requires burst >= 1 && u >= 0
    ensures times != [] && times == Repeated(0, burst) + [u] && Forward(times[0], times[1..]) == u
  {
    times := Repeated(0, burst) + [u];
    RepeatedThenLater(0, burst, u);
    ForwardInOrder(times[0], times[1..]);
  }

  /** Empty the bucket, then ask in the last whole nanosecond before the next token. */
  lemma EarlyToken(limit: Limit, burst: int) returns (times: seq<int>)
    requires limit.PerSecond? && limit.rps > 0.0 && burst >= 1 && !WholeNanoseconds(limit)
    ensures times != [] && Admitted(Calls(NewBucket(limit, burst), times)) == burst + 1
    ensures TokensFromDuration(limit, Forward(times[0], times[1..])) < 1.0
  {
    var u := TokenTime(limit.rps).Floor;
    times := SpendSchedule(burst, u);
    AlmostAToken(limit, burst, u);
    SpendsThenAsks(NewBucket(limit, burst), burst, u);
  }

  lemma {:induction false} WholeNeedsNoMore(limit: Limit, burst: int, before: seq<int>, times: seq<int>)
    requires WholeNanoseconds(limit) && burst >= 0 && times != []
    ensures Admitted(Calls(After(NewBucket(limit, burst), before), times)) as real
         <= burst as real + TokensFromDuration(limit, Forward(times[0], times[1..]))
  {
    var b := NewBucket(limit, burst);
    AfterKeepsDebtSmall(b, before);
    RateBound(After(b, before), times);
    NoNanosecond(limit, Admitted(Calls(After(b, before), times)), burst, Forward(times[0], times[1..]));
  }

  lemma NoNanosecond(limit: Limit, admitted: int, burst: int, d: int)
    requires WholeNanoseconds(limit) && admitted as real < burst as real + TokensFromDuration(limit, d + 1)
    ensures admitted as real <= burst as real + TokensFromDuration(limit, d)
  {
    var p := TokenTime(limit.rps).Floor;
    EarnedInUnits(limit, p, 1, d);
    BoundInIntegers(limit, admitted, burst, d, p, 1);
    UnitsOfWhole(admitted, p);
    UnitsOfWhole(burst, p);
    UnitsAdd(burst as real, TokensFromDuration(limit, d), p, burst * p, d * 1);
    UnitsInOrder(burst as real + TokensFromDuration(limit, d), admitted as real, p, burst * p + d * 1, admitted * p);
  }

  /**
   The bound without the nanosecond holds for every run, in order or not, exactly when no
   request is ever admitted, or a token takes a whole number of nanoseconds: at 0.3 requests
   per second it fails, at 0.25 it holds.
   */
  lemma {:induction false} PlainBoundExactlyWhen(limit: Limit, burst: int)
    requires limit.PerSecond? && limit.rps > 0.0 && burst >= 0
    ensures PlainBound(limit, burst) <==> burst == 0 || WholeNanoseconds(limit)
  {
    if burst > 0 && !WholeNanoseconds(limit) {
      var times := EarlyToken(limit, burst);
      assert After(NewBucket(limit, burst), []) == NewBucket(limit, burst);
    } else {
      forall before, times: seq<int> | times != []
        ensures Admitted(Calls(After(NewBucket(limit, burst), before), times)) as real
             <= burst as real + TokensFromDuration(limit, Forward(times[0], times[1..]))
      {
        if WholeNanoseconds(limit) {
          WholeNeedsNoMore(limit, burst, before, times);
        } else {
          NothingOnZeroBurst(NewBucket(limit, burst), before);
          NothingOnZeroBurst(NewBucket(limit, burst), times);
          EarnedGrows(limit, Forward(times[0], times[1..]));
        }
      }
    }
  }

  lemma {:induction false} NothingOnZeroBurst(b: Bucket, times: seq<int>)
    requires b.limit.PerSecond? && b.burst == 0
    ensures After(b, times) == b && Admitted(Calls(b, times)) == 0
    decreases |times|
  {
    if times != [] {
      assert Calls(b, times)[1..] == Calls(b, times[1..]);
      NothingOnZeroBurst(b, times[1..]);
    }
  }

  // ---------------------------------------------------------------- the grid

  /** What a bucket holds is a whole number of units. */
  ghost predicate Gridded(b: Bucket) {
    forall p, q :: TokenTakes(b.limit, p, q) ==> InUnits(b.tokens, p)
  }

  ghost predicate InUnits(tokens: real, p: int) {
    exists k :: Units(tokens, p, k)
  }

  lemma NewIsGridded(limit: Limit, burst: int)
    ensures Gridded(NewBucket(limit, burst))
  {
    forall p, q | TokenTakes(limit, p, q) ensures InUnits(burst as real, p) {
      UnitsOfWhole(burst, p);
    }
  }

  lemma AdvanceOnGrid(b: Bucket, t: int, p: int, q: int) returns (k: int)
    requires Gridded(b) && TokenTakes(b.limit, p, q)
    ensures Units(Advance(b, t), p, k)
  {
    var waited := Moved(b.last, t);
    var earned := TokensFromDuration(b.limit, waited);
    var before :| Units(b.tokens, p, before);
    EarnedInUnits(b.limit, p, q, waited);
    UnitsAdd(b.tokens, earned, p, before, waited * q);
    UnitsOfWhole(b.burst, p);
    k := if b.tokens + earned > b.burst as real then b.burst * p else before + waited * q;
  }

  lemma AllowKeepsGridded(b: Bucket, t: int)
    requires Gridded(b)
    ensures Gridded(Allow(b, t).bucket)
  {
    if Allow(b, t).ok && b.limit.PerSecond? {
      forall p, q | TokenTakes(b.limit, p, q) ensures InUnits(Advance(b, t) - 1.0, p) {
        var k := AdvanceOnGrid(b, t, p, q);
        UnitsOfWhole(-1, p);
        UnitsAdd(Advance(b, t), -1.0, p, k, -1 * p);
      }
    }
  }

  /** On the grid a debt is at least one unit short of a nanosecond's worth. */
  lemma DebtOnGrid(b: Bucket, p: int, q: int) returns (k: int)
    requires b.burst >= 0 && SmallDebt(b) && Gridded(b) && TokenTakes(b.limit, p, q)
    ensures Units(b.tokens, p, k) && k >= 1 - q
  {
    k :| Units(b.tokens, p, k);
    if b.tokens == b.burst as real {
      UnitsOfWhole(0, p);
      UnitsInOrder(b.tokens, 0.0, p, k, 0 * p);
    } else {
      DebtInUnits(b.limit, p, q, b.tokens, k);
    }
  }

  // ---------------------------------------------------------------- the bound is met

  /** The burst at once, and then j calls, each in the last nanosecond before its token. */
  function Drain(t: int, burst: nat, p: int, q: int, j: nat): seq<int>
    requires q > 0
  {
    if j == 0 then Repeated(t, burst) else Drain(t, burst, p, q, j - 1) + [t + j * p / q]
  }

  lemma {:induction false} RepeatedStays(t: int, n: nat)
    ensures |Repeated(t, n)| == n && (forall i :: 0 <= i < n ==> Repeated(t, n)[i] == t) && Forward(t, Repeated(t, n)) == 0
    decreases n
  {
    if n > 0 {
      RepeatedStays(t, n - 1);
      assert Repeated(t, n)[1..] == Repeated(t, n - 1);
    }
  }

  lemma {:induction false} DrainForward(t: int, burst: nat, p: int, q: int, j: nat)
    requires p > 0 && q > 0 && burst >= 1
    ensures var times := Drain(t, burst, p, q, j);
            && times != [] && times[0] == t && times[|times| - 1] == t + j * p / q && Forward(t, times) == j * p / q >= 0
  {
    if j == 0 {
      RepeatedStays(t, burst);
    } else {
      DrainForward(t, burst, p, q, j - 1);
      LaterMultiple(p, q, j);
      ForwardAppends(t, Drain(t, burst, p, q, j - 1), t + j * p / q);
    }
  }

  lemma {:induction false} DrainInOrder(t: int, burst: nat, p: int, q: int, j: nat)
    requires p > 0 && q > 0 && burst >= 1
    ensures NonDecreasing(Drain(t, burst, p, q, j))
  {
    if j == 0 {
      RepeatedStays(t, burst);
    } else {
      DrainInOrder(t, burst, p, q, j - 1);
      DrainForward(t, burst, p, q, j - 1);
      LaterMultiple(p, q, j);
    }
  }

  lemma LaterMultiple(p: int, q: int, j: nat)
    requires p > 0 && q > 0 && j >= 1
    ensures 0 <= (j - 1) * p / q <= j * p / q
    ensures (j * p / q - (j - 1) * p / q) * q == p + ((j - 1) * p) % q - (j * p) % q
  {
    assert j * p == (j - 1) * p + p && (j - 1) * p >= 0;
    Integers.RoundedOff((j - 1) * p, p, q);
    Integers.DivisionGrows((j - 1) * p, p, q);
  }

  /** In debt by what was rounded off, the next call comes just in time again. */
  lemma DrainStep(b: Bucket, t: int, p: int, q: int, j: nat)
    requires TokenTakes(b.limit, p, q) && b.burst >= 1 && j >= 1
    requires Units(b.tokens, p, -(((j - 1) * p) % q)) && b.last == t + (j - 1) * p / q
    ensures var v := Allow(b, t + j * p / q);
            && v.ok && v.bucket == b.(tokens := v.bucket.tokens, last := t + j * p / q)
            && Units(v.bucket.tokens, p, -((j * p) % q))
  {
    var waited, before, left := j * p / q - (j - 1) * p / q, ((j - 1) * p) % q, (j * p) % q;
    LaterMultiple(p, q, j);
    var earned := TokensFromDuration(b.limit, waited);
    EarnedInUnits(b.limit, p, q, waited);
    UnitsAdd(b.tokens, earned, p, -before, waited * q);
    UnitsOfWhole(1, p);
    UnitsInOrder(1.0, b.tokens + earned, p, 1 * p, p - left);
    UnitsOfWhole(-1, p);
    UnitsAdd(b.tokens + earned, -1.0, p, p - left, -1 * p);
    DebtInUnits(b.limit, p, q, b.tokens + earned - 1.0, -left);
    AdmitsExactlyWhen(b, t + j * p / q);
  }

  /** A full bucket admits the burst at once. */
  lemma {:induction false} DrainsBurst(b: Bucket, t: int, p: int)
    requires b.limit.PerSecond? && b.limit.rps > 0.0 && b.burst >= 1 && b.last <= t && Advance(b, t) == b.burst as real
    ensures var times := Repeated(t, b.burst);
            Admitted(Calls(b, times)) == b.burst && After(b, times) == b.(tokens := 0.0, last := t) && Units(0.0, p, 0)
  {
    SpendsAll(b, t, b.burst);
    AllAdmittedExactlyWhen(b, t, b.burst);
    UnitsOfWhole(0, p);
  }

  /** A full bucket admits all of them, and then is in debt by what was rounded off last. */
  lemma {:induction false} DrainsFull(b: Bucket, t: int, p: int, q: int, j: nat)
    requires TokenTakes(b.limit, p, q) && b.burst >= 1 && b.last <= t && Advance(b, t) == b.burst as real
    ensures var times := Drain(t, b.burst, p, q, j);
            && Admitted(Calls(b, times)) == b.burst + j
            && After(b, times) == b.(tokens := After(b, times).tokens, last := t + j * p / q)
            && Units(After(b, times).tokens, p, -((j * p) % q))
  {
    if j == 0 {
      DrainsBurst(b, t, p);
    } else {
      var before := Drain(t, b.burst, p, q, j - 1);
      DrainsFull(b, t, p, q, j - 1);
      DrainOneMore(b, before, After(b, before), t, p, q, j);
    }
  }

  lemma {:induction false} DrainOneMore(b: Bucket, before: seq<int>, now: Bucket, t: int, p: int, q: int, j: nat)
    requires TokenTakes(b.limit, p, q) && b.burst >= 1 && j >= 1 && now == After(b, before)
    requires now == b.(tokens := now.tokens, last := t + (j - 1) * p / q) && Units(now.tokens, p, -(((j - 1) * p) % q))
    ensures var times := before + [t + j * p / q];
            && Admitted(Calls(b, times)) == Admitted(Calls(b, before)) + 1
            && After(b, times) == b.(tokens := After(b, times).tokens, last := t + j * p / q)
            && Units(After(b, times).tokens, p, -((j * p) % q))
  {
    CallsAppend(b, before, t + j * p / q);
    DrainStep(now, t, p, q, j);
  }

  /** When that is one unit less than a nanosecond's worth, a bucket one unit short of full does not. */
  lemma {:induction false} ShortIsNotDrained(b: Bucket, t: int, p: int, q: int, j: nat, k: int)
    requires TokenTakes(b.limit, p, q) && b.burst >= 1 && SmallDebt(b)
    requires Units(Advance(b, t), p, k) && k < b.burst * p && (j * p) % q == q - 1
    ensures Admitted(Calls(b, Drain(t, b.burst, p, q, j))) < b.burst + j
  {
    var times, start := Drain(t, b.burst, p, q, j), Advance(b, t);
    DrainForward(t, b.burst, p, q, j);
    OpensBalanced(b, 0, t);
    CallsStayBalanced(b, times, start, 0, 0, t);
    var d := j * p / q;
    EarnedInUnits(b.limit, p, q, d + 1);
    UnitsAdd(start, TokensFromDuration(b.limit, d + 1), p, k, (d + 1) * q);
    UnitsOfWhole(Admitted(Calls(b, times)), p);
    UnitsInOrder(Admitted(Calls(b, times)) as real, start + TokensFromDuration(b.limit, d + 1), p,
                 Admitted(Calls(b, times)) * p, k + (d + 1) * q);
    Integers.OneShortOfAll(Admitted(Calls(b, times)), b.burst, j, p, q, k);
  }

  /** A limit has p and q without a common divisor, if it has any. */
  lemma LowestTerms(limit: Limit, p: int, q: int) returns (p': int, q': int, u: int, v: int)
    requires TokenTakes(limit, p, q)
    ensures TokenTakes(limit, p', q') && u * p' + v * q' == 1
  {
    var g: int;
    g, p', q', u, v := Integers.Euclid(p, q);
    Integers.Cancels(g, p', q', u, v, p, q);
    CancelsInReal(g as real, p' as real, q' as real, limit.rps);
    assert p as real == g as real * p' as real && q as real == g as real * q' as real;
  }

  lemma CancelsInReal(g: real, p: real, q: real, r: real)
    requires g > 0.0 && g * p * r == g * q * NANOS
    ensures p * r == q * NANOS
  {
    ScalingKeepsOrder(p * r, q * NANOS, g);
    ScalingKeepsOrder(q * NANOS, p * r, g);
    assert p * r * g == g * p * r && q * NANOS * g == g * q * NANOS;
  }

  /** The bound cannot be improved: in lowest terms, a new bucket meets it. */
  lemma {:induction false} RateBoundIsMet(limit: Limit, burst: int, p: int, q: int, u: int, v: int) returns (times: seq<int>)
    requires TokenTakes(limit, p, q) && u * p + v * q == 1 && burst >= 1
    ensures times != []
    ensures Admitted(Calls(NewBucket(limit, burst), times)) * p == burst * p + Forward(times[0], times[1..]) * q + q - 1
  {
    var j := Integers.OneShort(p, q, u, v);
    times := DrainsNew(limit, burst, p, q, j);
    Integers.OneShortExactly(burst, j, p, q, Forward(times[0], times[1..]));
  }

  lemma DrainsNew(limit: Limit, burst: int, p: int, q: int, j: nat) returns (times: seq<int>)
    requires TokenTakes(limit, p, q) && burst >= 1
    ensures times != [] && Admitted(Calls(NewBucket(limit, burst), times)) == burst + j
    ensures Forward(times[0], times[1..]) == j * p / q
  {
    times := Drain(0, burst, p, q, j);
    DrainForward(0, burst, p, q, j);
    EarnedGrows(limit, 0);
    DrainsFull(NewBucket(limit, burst), 0, p, q, j);
  }

  // ---------------------------------------------------------------- full buckets

  /** Nothing more can be earned: the bucket is as good as new. */
  predicate FullAt(b: Bucket, t: int) {
    b.limit.Unlimited? || (b.last <= t && Advance(b, t) == b.burst as real)
  }

  /** From time `t` on, the two buckets cannot be told apart. */
  predicate SameFrom(a: Bucket, b: Bucket, t: int) {
    && a.limit == b.limit && a.burst == b.burst
    && ((a.tokens == b.tokens && a.last == b.last) || (FullAt(a, t) && FullAt(b, t)))
  }

  lemma FullStaysFull(b: Bucket, t: int, u: int)
    requires FullAt(b, t) && t <= u
    ensures FullAt(b, u)
  {
    if b.limit.PerSecond? {
      AdvanceMoves(b, t, u);
    }
  }

  lemma SameFromLater(a: Bucket, b: Bucket, t: int, u: int)
    requires SameFrom(a, b, t) && t <= u
    ensures SameFrom(a, b, u)
  {
    if FullAt(a, t) && FullAt(b, t) {
      FullStaysFull(a, t, u);
      FullStaysFull(b, t, u);
    }
  }

  lemma SameAnswer(a: Bucket, b: Bucket, t: int)
    requires SameFrom(a, b, t)
    ensures Allow(a, t).ok == Allow(b, t).ok
    ensures SameFrom(Allow(a, t).bucket, Allow(b, t).bucket, t)
  {
  }

  /** Two full buckets answer any future sequence of calls alike. */
  lemma {:induction false} FullBucketsAnswerAlike(a: Bucket, b: Bucket, t: int, times: seq<int>)
    requires SameFrom(a, b, t) && NonDecreasing(times) && (times != [] ==> t <= times[0])
    ensures |Calls(a, times)| == |Calls(b, times)| == |times|
    ensures forall i :: 0 <= i < |times| ==> Calls(a, times)[i].ok == Calls(b, times)[i].ok
    decreases |times|
  {
    if times != [] {
      SameFromLater(a, b, t, times[0]);
      SameAnswer(a, b, times[0]);
      FullBucketsAnswerAlike(Allow(a, times[0]).bucket, Allow(b, times[0]).bucket, times[0], times[1..]);
    }
  }

  /** `n` calls at one moment are all admitted exactly when the last one's token is there. */
  lemma {:induction false} AllAdmittedExactlyWhen(b: Bucket, t: int, n: nat)
    requires b.limit.PerSecond? && b.limit.rps > 0.0 && b.burst >= 1 && b.last <= t
    ensures Admitted(Calls(b, Repeated(t, n))) == n <==> n == 0 || (Advance(b, t) - n as real) * NANOS > -b.limit.rps
    ensures Admitted(Calls(b, Repeated(t, n))) <= n
    decreases n
  {
    if n > 0 {
      var v := Allow(b, t);
      AdmitsExactlyWhen(b, t);
      assert Repeated(t, n)[1..] == Repeated(t, n - 1);
      assert Calls(b, Repeated(t, n))[1..] == Calls(v.bucket, Repeated(t, n - 1));
      AllAdmittedExactlyWhen(v.bucket, t, n - 1);
      assert n as real == (n - 1) as real + 1.0;
      if v.ok {
        assert Advance(v.bucket, t) == Advance(b, t) - 1.0;
      }
    }
  }

  /** A bucket that is short of full by a nanosecond's worth or more can be told from a new one. */
  lemma {:induction false} ShortBucketIsObservable(b: Bucket, t: int)
    requires b.limit.PerSecond? && b.limit.rps > 0.0 && b.burst >= 1 && b.last <= t && 0 <= t
    requires Advance(b, t) * NANOS + b.limit.rps <= b.burst as real * NANOS
    ensures Admitted(Calls(NewBucket(b.limit, b.burst), Repeated(t, b.burst))) == b.burst
    ensures Admitted(Calls(b, Repeated(t, b.burst))) < b.burst
  {
    EarnedGrows(b.limit, t);
    AllAdmittedExactlyWhen(NewBucket(b.limit, b.burst), t, b.burst);
    AllAdmittedExactlyWhen(b, t, b.burst);
  }
}
