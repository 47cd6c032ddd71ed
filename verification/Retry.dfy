/** Retrying with exponential backoff and jitter.  Durations are whole nanoseconds; the random factor
    is any real the generator can give. */
module Retry {
  import opened Prelude

  datatype ExpoJitter = ExpoJitter(base: int, max: int, jitter: real)

  function Pow2(n: nat): (r: nat)
    ensures r > 0
  {
    if n == 0 then 1 else 2 * Pow2(n - 1)
  }

  /** The delay before jitter: doubling from the base up to the cap; no cap when `max` is not positive. */
  function Capped(b: ExpoJitter, attempt: int): int {
    var d := b.base * Pow2(if attempt < 0 then 0 else attempt);
    if b.max > 0 && d > b.max then b.max else d
  }

  /** Go's conversion of a float to an integer: toward zero. */
  function Truncate(x: real): int {
    if x >= 0.0 then x.Floor else -((-x).Floor)
  }

  /** One draw of `rand.Float64()`. */
  predicate Draw(u: real) {
    0.0 <= u < 1.0
  }

  function Factor(jitter: real, u: real): real {
    1.0 + (u * 2.0 - 1.0) * jitter
  }

  function Jittered(d: int, jitter: real, u: real): int {
    if jitter > 0.0 then Truncate(d as real * Factor(jitter, u)) else d
  }

  function Next(b: ExpoJitter, attempt: int, u: real): int {
    Jittered(Capped(b, attempt), b.jitter, u)
  }

  lemma CappedBounds(b: ExpoJitter, attempt: int)
    requires b.base >= 0
    ensures Capped(b, attempt) >= 0
    ensures b.base > 0 ==> Capped(b, attempt) > 0
    ensures b.max > 0 ==> Capped(b, attempt) <= b.max
  {
    var p := Pow2(if attempt < 0 then 0 else attempt);
    assert b.base * p >= b.base;
  }

  /** A negative attempt counts as the first. */
  lemma FirstAttempt(b: ExpoJitter, attempt: int, u: real)
    requires attempt <= 0
    ensures Next(b, attempt, u) == Next(b, 0, u)
    ensures b.jitter <= 0.0 ==> Next(b, attempt, u) == if b.max > 0 && b.base > b.max then b.max else b.base
  {
  }

  lemma FactorBounds(jitter: real, u: real)
    requires jitter > 0.0 && Draw(u)
    ensures 1.0 - jitter <= Factor(jitter, u) < 1.0 + jitter
  {
    FactorRange(u * 2.0 - 1.0, jitter);
  }

  lemma FactorRange(x: real, j: real)
    requires -1.0 <= x < 1.0 && j > 0.0
    ensures 1.0 - j <= 1.0 + x * j < 1.0 + j
  {
    ScaleReal(-1.0, x, j);
    ScaleStrictly(x, 1.0, j);
  }

  lemma ScaleReal(x: real, y: real, k: real)
    requires x <= y && k >= 0.0
    ensures x * k <= y * k
  {
  }

  lemma ScaleStrictly(x: real, y: real, k: real)
    requires x < y && k > 0.0
    ensures x * k < y * k
  {
  }

  lemma TruncateBounds(x: real)
    ensures x >= 0.0 ==> x - 1.0 < Truncate(x) as real <= x
    ensures x < 0.0 ==> x <= Truncate(x) as real <= 0.0
  {
  }

  /** The smallest and the largest that jitter can make of a delay. */
  function Low(d: int, jitter: real): real {
    (1.0 - jitter) * (d as real)
  }

  function High(d: int, jitter: real): real {
    (1.0 + jitter) * (d as real)
  }

  lemma ProductRange(c: real, f: real, low: real, high: real)
    requires c >= 0.0 && low <= f < high
    ensures low * c <= c * f <= high * c && (c > 0.0 ==> c * f < high * c)
  {
    ScaleReal(low, f, c);
    ScaleReal(f, high, c);
    if c > 0.0 {
      ScaleStrictly(f, high, c);
    }
  }

  lemma NotNegative(k: real, c: real)
    requires k >= 0.0 && c >= 0.0
    ensures k * c >= 0.0 && (k > 0.0 && c > 0.0 ==> k * c > 0.0)
  {
  }

  lemma ProductInRange(d: nat, jitter: real, u: real)
    requires jitter > 0.0 && Draw(u)
    ensures Low(d, jitter) <= d as real * Factor(jitter, u) <= High(d, jitter)
    ensures d > 0 ==> d as real * Factor(jitter, u) < High(d, jitter)
  {
    FactorBounds(jitter, u);
    ProductRange(d as real, Factor(jitter, u), 1.0 - jitter, 1.0 + jitter);
  }

  lemma TruncateBetween(x: real, low: real, high: real)
    requires low <= x <= high && high >= 0.0
    ensures low - 1.0 < Truncate(x) as real <= high
    ensures x < high && high > 0.0 ==> Truncate(x) as real < high
  {
    TruncateBounds(x);
  }

  /** A jittered delay lies within the jitter, up to the part of a nanosecond that truncation may
      take. */
  lemma JitterBounds(d: nat, jitter: real, u: real)
    requires jitter >= 0.0 && Draw(u)
    ensures Low(d, jitter) - 1.0 < Jittered(d, jitter, u) as real <= High(d, jitter)
    ensures d > 0 && jitter > 0.0 ==> Jittered(d, jitter, u) as real < High(d, jitter)
  {
    NotNegative(1.0 + jitter, d as real);
    if jitter > 0.0 {
      ProductInRange(d, jitter, u);
      TruncateBetween(d as real * Factor(jitter, u), Low(d, jitter), High(d, jitter));
    }
  }

  /** The bare lower bound holds for every draw exactly when it is a whole number of nanoseconds:
      otherwise truncation loses a fraction. */
  lemma LowerBoundExact(d: nat, jitter: real)
    requires 0.0 < jitter <= 1.0
    ensures (forall u :: Draw(u) ==> Low(d, jitter) <= Jittered(d, jitter, u) as real)
            <==> Low(d, jitter).Floor as real == Low(d, jitter)
  {
    if Low(d, jitter).Floor as real == Low(d, jitter) {
      forall u | Draw(u)
        ensures Low(d, jitter) <= Jittered(d, jitter, u) as real
      {
        WholeLow(d, jitter, u);
      }
    } else {
      LowestDraw(d, jitter);
      assert Draw(0.0);
    }
  }

  lemma WholeLow(d: nat, jitter: real, u: real)
    requires 0.0 < jitter <= 1.0 && Draw(u) && Low(d, jitter).Floor as real == Low(d, jitter)
    ensures Low(d, jitter) <= Jittered(d, jitter, u) as real
  {
    var x, low := d as real * Factor(jitter, u), Low(d, jitter);
    assert low >= 0.0 by {
      NotNegative(1.0 - jitter, d as real);
    }
    assert low <= x by {
      ProductInRange(d, jitter, u);
    }
    FloorAbove(x, low);
  }

  lemma LowestDraw(d: nat, jitter: real)
    requires 0.0 < jitter <= 1.0
    ensures Jittered(d, jitter, 0.0) == Low(d, jitter).Floor
  {
    NotNegative(1.0 - jitter, d as real);
    assert Factor(jitter, 0.0) == 1.0 - jitter;
  }

  lemma FloorAbove(x: real, whole: real)
    requires whole.Floor as real == whole && 0.0 <= whole <= x
    ensures whole <= Truncate(x) as real
  {
  }

  // ----- the retry loop

  datatype Error = Failure(code: int) | Canceled

  /** `retryable` None is the nil function of the policy: every error is retried. */
  datatype Policy = Policy(attempts: int, backoff: ExpoJitter, retryable: Option<Error -> bool>)

  function MaxCalls(p: Policy): nat {
    if p.attempts <= 0 then 1 else p.attempts
  }

  predicate Retryable(p: Policy, e: Error) {
    p.retryable.None? || p.retryable.value(e)
  }

  /** What the loop makes of its calls: see Do. */
  ghost predicate DoneRight(fn: nat -> Option<Error>, p: Policy, draw: nat -> real, canceled: nat -> bool,
                            err: Option<Error>, calls: nat, waits: seq<int>) {
    var most := if p.attempts <= 0 then 1 else p.attempts;
    && 1 <= calls <= most
    && (err == None <==> fn(calls - 1) == None)
    && (forall i :: 0 <= i < calls - 1 ==>
          fn(i).Some? && (p.retryable.None? || p.retryable.value(fn(i).value)) && !canceled(i))
    && |waits| == calls - 1 && (forall i :: 0 <= i < |waits| ==> waits[i] == Next(p.backoff, i, draw(i)))
    && if fn(calls - 1) == None || (p.retryable.Some? && !p.retryable.value(fn(calls - 1).value)) || calls == most
       then err == fn(calls - 1)
       else canceled(calls - 1) && err == Some(Canceled)
  }

  /** `fn(i)` is what the i-th call returns, `draw(i)` the random number of the i-th wait, and
      `canceled(i)` whether the context is cancelled during it.  Nil is returned exactly when the
      last call returned nil; every earlier call failed with an error worth retrying; and the loop
      stops for success, an error not to be retried, the call limit or cancellation, nothing else. */
  method Do(fn: nat -> Option<Error>, p: Policy, draw: nat -> real, canceled: nat -> bool)
    returns (err: Option<Error>, calls: nat, waits: seq<int>)
    ensures DoneRight(fn, p, draw, canceled, err, calls, waits)
  {
    var attempts := p.attempts;
    if attempts <= 0 {
      attempts := 1;
    }
    waits := [];
    var i := 0;
    while i < attempts
      invariant 0 <= i <= attempts == MaxCalls(p)
      invariant forall j :: 0 <= j < i ==> fn(j).Some? && Retryable(p, fn(j).value) && !canceled(j)
      invariant |waits| == i && forall j :: 0 <= j < i ==> waits[j] == Next(p.backoff, j, draw(j))
      invariant i < attempts
    {
      err := fn(i);
      if err == None {
        return None, i + 1, waits;
      }
      if !Retryable(p, err.value) || i == attempts - 1 {
        return err, i + 1, waits;
      }
      var wait := Next(p.backoff, i, draw(i));
      if canceled(i) {
        return Some(Canceled), i + 1, waits;
      }
      waits := waits + [wait];
      i := i + 1;
    }
  }

  // ----- how long the waits add up to

  function Sum(s: seq<int>): int {
    if s == [] then 0 else Sum(s[..|s| - 1]) + s[|s| - 1]
  }

  function SumCapped(b: ExpoJitter, n: nat): int {
    if n == 0 then 0 else SumCapped(b, n - 1) + Capped(b, n - 1)
  }

  /** How many of the first `n` delays are not cut by the cap. */
  function Uncapped(b: ExpoJitter, n: nat): (m: nat)
    ensures m <= n
  {
    if n == 0 then 0
    else if b.max > 0 && b.base * Pow2(n - 1) > b.max then Uncapped(b, n - 1)
    else n
  }

  lemma {:induction false} Doubling(b: ExpoJitter, i: nat, j: nat)
    requires b.base >= 0 && i <= j
    ensures b.base * Pow2(i) <= b.base * Pow2(j)
    decreases j
  {
    if i < j {
      Doubling(b, i, j - 1);
      assert b.base * Pow2(j) == 2 * (b.base * Pow2(j - 1));
      assert b.base * Pow2(j - 1) >= 0;
    }
  }

  /** In closed form: a geometric sum up to the cap, and the cap from there on. */
  lemma {:induction false} SumClosedForm(b: ExpoJitter, n: nat)
    requires b.base >= 0
    ensures SumCapped(b, n) == b.base * (Pow2(Uncapped(b, n)) - 1) + (n - Uncapped(b, n)) * b.max
    decreases n
  {
    if n > 0 {
      SumClosedForm(b, n - 1);
      if b.max > 0 && b.base * Pow2(n - 1) > b.max {
        assert Uncapped(b, n) == Uncapped(b, n - 1);
        Distribute(n - 1 - Uncapped(b, n), b.max);
      } else {
        AllUncapped(b, n);
        assert Capped(b, n - 1) == b.base * Pow2(n - 1);
        Geometric(b.base, Pow2(n - 1));
      }
    }
  }

  lemma Distribute(k: int, x: int)
    ensures (k + 1) * x == k * x + x
  {
  }

  lemma Geometric(x: int, p: int)
    ensures x * (p - 1) + x * p == x * (2 * p - 1)
  {
  }

  lemma AllUncapped(b: ExpoJitter, n: nat)
    requires b.base >= 0 && n > 0 && !(b.max > 0 && b.base * Pow2(n - 1) > b.max)
    ensures Uncapped(b, n - 1) == n - 1
  {
    if n > 1 {
      Doubling(b, n - 2, n - 1);
    }
  }

  /** The waits of `Do` against the sum of capped delays. */
  lemma {:induction false} TotalWait(b: ExpoJitter, waits: seq<int>, draw: nat -> real)
    requires b.base >= 0 && b.jitter >= 0.0
    requires forall i :: 0 <= i < |waits| ==> Draw(draw(i)) && waits[i] == Next(b, i, draw(i))
    ensures Low(SumCapped(b, |waits|), b.jitter) - |waits| as real <= Sum(waits) as real
    ensures Sum(waits) as real <= High(SumCapped(b, |waits|), b.jitter)
  {
    if waits != [] {
      var n := |waits| - 1;
      TotalWait(b, waits[..n], draw);
      CappedBounds(b, n);
      JitterBounds(Capped(b, n), b.jitter, draw(n));
      AddDelays(SumCapped(b, n), Capped(b, n), b.jitter);
    }
  }

  lemma AddDelays(c: int, d: int, jitter: real)
    ensures Low(c + d, jitter) == Low(c, jitter) + Low(d, jitter)
    ensures High(c + d, jitter) == High(c, jitter) + High(d, jitter)
  {
  }

  // ----- the Kafka policy

  const MILLISECOND: int := 1_000_000
  const LEASE: int := 30_000 * MILLISECOND

  const KAFKA_BACKOFF: ExpoJitter := ExpoJitter(200 * MILLISECOND, 30_000 * MILLISECOND, 0.2)

  function KafkaPolicy(): Policy {
    Policy(6, KAFKA_BACKOFF, Some(_ => true))
  }

  lemma KafkaDelays()
    ensures Capped(KAFKA_BACKOFF, 0) == 200 * MILLISECOND
    ensures Capped(KAFKA_BACKOFF, 1) == 400 * MILLISECOND
    ensures Capped(KAFKA_BACKOFF, 2) == 800 * MILLISECOND
    ensures Capped(KAFKA_BACKOFF, 3) == 1600 * MILLISECOND
    ensures Capped(KAFKA_BACKOFF, 4) == 3200 * MILLISECOND
    ensures SumCapped(KAFKA_BACKOFF, 5) == 6200 * MILLISECOND
  {
    assert Pow2(0) == 1 && Pow2(1) == 2 && Pow2(2) == 4 && Pow2(3) == 8 && Pow2(4) == 16;
    assert SumCapped(KAFKA_BACKOFF, 1) == 200 * MILLISECOND;
    assert SumCapped(KAFKA_BACKOFF, 2) == 600 * MILLISECOND;
    assert SumCapped(KAFKA_BACKOFF, 3) == 1400 * MILLISECOND;
    assert SumCapped(KAFKA_BACKOFF, 4) == 3000 * MILLISECOND;
  }

  lemma KafkaWait(i: nat, u: real)
    requires i < 5 && Draw(u)
    ensures var c := Capped(KAFKA_BACKOFF, i); 8 * c <= 10 * Next(KAFKA_BACKOFF, i, u) < 12 * c
  {
    KafkaDelays();
    var c := Capped(KAFKA_BACKOFF, i);
    JitterBounds(c, 0.2, u);
    assert Low(c, 0.2) == (8 * c / 10) as real;
    LowerBoundExact(c, 0.2);
  }

  predicate WaitsOf(waits: seq<int>, draw: nat -> real) {
    && |waits| == MaxCalls(KafkaPolicy()) - 1
    && forall i :: 0 <= i < |waits| ==> Draw(draw(i)) && waits[i] == Next(KAFKA_BACKOFF, i, draw(i))
  }

  /** A message whose six attempts all fail waits at least 4.96 s and less than 7.44 s in all. */
  lemma ExhaustedMessage(waits: seq<int>, draw: nat -> real)
    requires WaitsOf(waits, draw)
    ensures 4960 * MILLISECOND <= Sum(waits) < 7440 * MILLISECOND
  {
    KafkaDelays();
    forall i: nat | i < 5
      ensures 8 * Capped(KAFKA_BACKOFF, i) <= 10 * waits[i] < 12 * Capped(KAFKA_BACKOFF, i)
    {
      KafkaWait(i, draw(i));
    }
    SumFive(waits);
  }

  lemma SumFive(s: seq<int>)
    requires |s| == 5
    ensures Sum(s) == s[0] + s[1] + s[2] + s[3] + s[4]
  {
    assert s[..4][..3] == s[..3] && s[..3][..2] == s[..2] && s[..2][..1] == s[..1] && s[..1][..0] == [];
    assert Sum(s[..1]) == s[0];
    assert Sum(s[..2]) == s[0] + s[1];
    assert Sum(s[..3]) == s[0] + s[1] + s[2];
    assert Sum(s[..4]) == s[0] + s[1] + s[2] + s[3];
  }

  /** A handler's publish under the Kafka policy: at most six calls, whatever the errors.  If none of the
      six succeeds and nobody cancels, the last error is returned after 4.96 to 7.44 s of waiting; if
      one does, nothing is called after it. */
  method PublishWithRetry(fn: nat -> Option<Error>, draw: nat -> real, canceled: nat -> bool)
    returns (err: Option<Error>, calls: nat, waits: seq<int>)
    requires forall i :: Draw(draw(i))
    ensures 1 <= calls <= 6 && (forall i :: 0 <= i < calls - 1 ==> fn(i).Some?)
    ensures (forall i :: 0 <= i < 6 ==> fn(i).Some? && !canceled(i)) ==>
              calls == 6 && err == fn(5) && |waits| == 5 && 4_960_000_000 <= Sum(waits) < 7_440_000_000
    ensures forall k :: 0 <= k < 6 && fn(k) == None && (forall i :: 0 <= i < k ==> fn(i).Some? && !canceled(i)) ==>
              calls == k + 1 && err == None
  {
    err, calls, waits := Do(fn, KafkaPolicy(), draw, canceled);
    if forall i :: 0 <= i < 6 ==> fn(i).Some? && !canceled(i) {
      ExhaustedMessage(waits, draw);
    }
  }

  /** Total waits that a batch of exhausted messages can have. */
  ghost predicate PossibleTotals(totals: seq<int>) {
    forall i :: 0 <= i < |totals| ==> PossibleTotal(totals[i])
  }

  ghost predicate PossibleTotal(total: int) {
    exists waits, draw :: WaitsOf(waits, draw) && total == Sum(waits)
  }

  /** `n` exhausted messages of a batch are sure to wait less than the outbox lease exactly when
      there are at most four of them. */
  lemma ExhaustedBatch(n: nat)
    ensures (forall totals :: |totals| == n && PossibleTotals(totals) ==> Sum(totals) < LEASE) <==> n <= 4
  {
    if n <= 4 {
      forall totals | |totals| == n && PossibleTotals(totals)
        ensures Sum(totals) < LEASE
      {
        TotalsBounded(totals);
      }
    } else {
      var draw := (i: nat) => 0.9;
      var waits := seq(5, i requires 0 <= i < 5 => Next(KAFKA_BACKOFF, i, 0.9));
      SlowMessage(waits);
      assert WaitsOf(waits, draw) && PossibleTotal(Sum(waits));
      var totals := seq(n, _ => Sum(waits));
      assert PossibleTotals(totals);
      SumConstant(totals, Sum(waits));
    }
  }

  lemma {:induction false} TotalsBounded(totals: seq<int>)
    requires PossibleTotals(totals)
    ensures Sum(totals) <= |totals| * (7440 * MILLISECOND)
  {
    if totals != [] {
      var n := |totals| - 1;
      TotalsBounded(totals[..n]);
      assert PossibleTotal(totals[n]);
      var waits, draw :| WaitsOf(waits, draw) && totals[n] == Sum(waits);
      ExhaustedMessage(waits, draw);
    }
  }

  lemma SlowMessage(waits: seq<int>)
    requires |waits| == 5 && forall i :: 0 <= i < 5 ==> waits[i] == Next(KAFKA_BACKOFF, i, 0.9)
    ensures Sum(waits) == 7192 * MILLISECOND
  {
    KafkaDelays();
    assert Factor(0.2, 0.9) == 1.16;
    SumFive(waits);
  }

  lemma {:induction false} SumConstant(s: seq<int>, x: int)
    requires forall i :: 0 <= i < |s| ==> s[i] == x
    ensures Sum(s) == |s| * x
  {
    if s != [] {
      SumConstant(s[..|s| - 1], x);
      Distribute(|s| - 1, x);
    }
  }
}
