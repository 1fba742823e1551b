/** Scheduling arithmetic on int64 nanoseconds: backoff by shift and by doubling,
    and the adaptive interval. */
module Schedule {

  const SECOND: int := 1_000_000_000
  const HOUR: int := 3600 * SECOND
  const WEEK: int := 7 * 24 * HOUR
  const MAX_TTL_INFLUENCE: int := 30 * 24 * HOUR

  const TWO_TO_63: int := 0x8000_0000_0000_0000
  const TWO_TO_62: int := 0x4000_0000_0000_0000
  const TWO_TO_48: int := 0x1_0000_0000_0000

  /** The int64 that holds `x` modulo 2^64. */
  function Wrap(x: int): int {
    (x + TWO_TO_63) % (2 * TWO_TO_63) - TWO_TO_63
  }

  function Pow2(n: nat): nat {
    if n == 0 then 1 else 2 * Pow2(n - 1)
  }

  function Min(a: int, b: int): int { if a <= b then a else b }

  function Max(a: int, b: int): int { if a <= b then b else a }

  /** Time.Unix: whole seconds, rounded down. */
  function ToUnix(t: int): int { t / SECOND }

  /** A jitter adds between nothing and a quarter. */
  ghost predicate Jitters(jitter: int -> int) {
    forall d | 0 <= d :: 0 <= jitter(d) <= d / 4
  }

  // ---- PollReschedule ------------------------------------------------------

  datatype RescheduleConfig = RescheduleConfig(interval: int, maxBackoff: int)

  predicate GoodReschedule(cfg: RescheduleConfig) {
    0 < cfg.interval < TWO_TO_63 && 0 < cfg.maxBackoff <= TWO_TO_62
  }

  /** The cap both backoffs end with; it also absorbs what overflow made negative. */
  function Capped(d: int, cap: int): int {
    if d > cap || d <= 0 then cap else d
  }

  /** Interval << min(errorCount, 16) on int64, with the code's cap. */
  function Shifted(cfg: RescheduleConfig, errorCount: nat): int {
    Capped(Wrap(cfg.interval * Pow2(Min(errorCount, 16))), cfg.maxBackoff)
  }

  function RetryDelay(cfg: RescheduleConfig, errorCount: nat, retryAfter: int, jitter: int -> int): int {
    var d := Shifted(cfg, errorCount);
    var delay := if errorCount > 0 then Wrap(d + jitter(d)) else cfg.interval;
    if retryAfter > delay then Min(retryAfter, cfg.maxBackoff) else delay
  }

  function PollReschedule(now: int, cfg: RescheduleConfig, errorCount: nat, retryAfter: int, jitter: int -> int): int {
    now + RetryDelay(cfg, errorCount, retryAfter, jitter)
  }

  /** The backoff the design asks for, over the integers. */
  function Ideal(cfg: RescheduleConfig, n: nat): int {
    Min(cfg.interval * Pow2(Min(n, 16)), cfg.maxBackoff)
  }

  lemma {:induction false} Pow2Bound(n: nat, m: nat)
    requires n <= m
    ensures 1 <= Pow2(n) <= Pow2(m)
    decreases m
  {
    if n < m {
      Pow2Bound(n, m - 1);
    } else if n > 0 {
      Pow2Bound(n - 1, n - 1);
    }
  }

  lemma ShiftFits(interval: int, n: nat)
    requires 0 < interval <= TWO_TO_48
    ensures interval <= interval * Pow2(Min(n, 16)) <= 2 * TWO_TO_63
  {
    var s := Min(n, 16);
    Pow2Bound(s, 16);
    assert Pow2(16) == 65536 by {
      assert Pow2(4) == 16;
      assert Pow2(8) == 256;
      assert Pow2(12) == 4096;
    }
    Growing(interval, s);
    MulMono(interval, TWO_TO_48, Pow2(s), 65536);
  }

  lemma MulMono(a: int, b: int, x: int, y: int)
    requires 0 <= a <= b && 0 <= x <= y
    ensures a * x <= b * y
  {
    MulLess(a, x, y);
    MulLess(y, a, b);
  }

  lemma MulLess(a: int, x: int, y: int)
    requires 0 <= a && x <= y
    ensures a * x <= a * y
  {
    assert a * (y - x) >= 0;
    assert a * (y - x) == a * y - a * x;
  }

  lemma Growing(base: int, k: nat)
    requires 0 < base
    ensures base <= base * Pow2(k)
  {
    Pow2Bound(0, k);
    MulLess(base, 1, Pow2(k));
  }

  /** The shifted delay is the ideal one for every interval up to 2^48 ns (over
      three days): where the shift leaves int64 it wraps to a value that is not
      positive, and the cap that the code then takes is the ideal answer. */
  lemma ShiftedIsIdeal(cfg: RescheduleConfig, n: nat)
    requires GoodReschedule(cfg) && cfg.interval <= TWO_TO_48
    ensures Shifted(cfg, n) == Ideal(cfg, n)
    ensures 0 < Ideal(cfg, n) <= cfg.maxBackoff
  {
    ShiftFits(cfg.interval, n);
    CappedWrap(cfg.interval * Pow2(Min(n, 16)), cfg.maxBackoff);
  }

  lemma CappedWrap(product: int, cap: int)
    requires 0 < product <= 2 * TWO_TO_63 && 0 < cap < TWO_TO_63
    ensures Capped(Wrap(product), cap) == Min(product, cap)
  {
    CapIff(product, cap);
    if product == 2 * TWO_TO_63 {
      assert product % (2 * TWO_TO_63) == 0;
    }
  }

  /** For any interval: exact unless the bits that survive the shift form a
      positive value below both the cap and the true product. */
  lemma ShiftedIsIdealIff(cfg: RescheduleConfig, n: nat)
    requires 0 < cfg.interval < TWO_TO_63 && 0 < cfg.maxBackoff < TWO_TO_63
    ensures var product := cfg.interval * Pow2(Min(n, 16)); var low := product % (2 * TWO_TO_63);
            Shifted(cfg, n) == Ideal(cfg, n)
            <==> (product < 2 * TWO_TO_63 || low == 0 || low >= TWO_TO_63 || low >= cfg.maxBackoff)
  {
    Growing(cfg.interval, Min(n, 16));
    CapIff(cfg.interval * Pow2(Min(n, 16)), cfg.maxBackoff);
  }

  lemma CapIff(product: int, cap: int)
    requires 0 < product && 0 < cap < TWO_TO_63
    ensures var low := product % (2 * TWO_TO_63);
            Capped(Wrap(product), cap) == Min(product, cap)
            <==> (product < 2 * TWO_TO_63 || low == 0 || low >= TWO_TO_63 || low >= cap)
  {
    WrapLow(product);
    if product < 2 * TWO_TO_63 {
      assert product % (2 * TWO_TO_63) == product;
    }
  }

  lemma WrapLow(x: int)
    requires 0 <= x
    ensures var low := x % (2 * TWO_TO_63); Wrap(x) == if low < TWO_TO_63 then low else low - 2 * TWO_TO_63
  {
    var q, low := x / (2 * TWO_TO_63), x % (2 * TWO_TO_63);
    if low < TWO_TO_63 {
      assert x + TWO_TO_63 == q * (2 * TWO_TO_63) + (low + TWO_TO_63);
    } else {
      assert x + TWO_TO_63 == (q + 1) * (2 * TWO_TO_63) + (low - TWO_TO_63);
    }
  }

  /** One nanosecond past 2^48, sixteen failures are retried after 65 microseconds. */
  lemma ShiftCanCollapse(cfg: RescheduleConfig)
    requires cfg.interval == TWO_TO_48 + 1 && cfg.maxBackoff == 24 * HOUR
    ensures Shifted(cfg, 16) == 65536 && Ideal(cfg, 16) == 24 * HOUR
  {
    assert Pow2(16) == 65536 by {
      assert Pow2(4) == 16;
      assert Pow2(8) == 256;
      assert Pow2(12) == 4096;
    }
  }

  /** Whatever Retry-After and jitter are, a recorded failure is never retried at once
      nor later than a quarter beyond the cap, and for intervals up to 2^48 ns never
      before the ideal backoff. */
  lemma RetryDelayBounds(cfg: RescheduleConfig, n: nat, retryAfter: int, jitter: int -> int)
    requires GoodReschedule(cfg) && Jitters(jitter) && 0 < n
    ensures 0 < RetryDelay(cfg, n, retryAfter, jitter) <= cfg.maxBackoff + cfg.maxBackoff / 4
    ensures cfg.interval <= TWO_TO_48 ==> 0 < Ideal(cfg, n) <= RetryDelay(cfg, n, retryAfter, jitter)
  {
    if cfg.interval <= TWO_TO_48 {
      ShiftedIsIdeal(cfg, n);
    }
    var d := Shifted(cfg, n);
    assert 0 <= jitter(d) <= d / 4;
    WrapInRange(d + jitter(d));
  }

  /** The delay itself: without a Retry-After the ideal backoff and its jitter, for
      intervals up to 2^48 ns; one that asks for more gets what it asks for, up to the
      cap, and one that asks for less changes nothing. */
  lemma RetryDelayIs(cfg: RescheduleConfig, n: nat, retryAfter: int, jitter: int -> int)
    requires GoodReschedule(cfg) && Jitters(jitter) && 0 < n
    ensures cfg.interval <= TWO_TO_48 ==> var d := Min(cfg.interval * Pow2(Min(n, 16)), cfg.maxBackoff); RetryDelay(cfg, n, 0, jitter) == d + jitter(d)
    ensures var computed := RetryDelay(cfg, n, 0, jitter);
            RetryDelay(cfg, n, retryAfter, jitter) == if retryAfter <= computed then computed
                                                      else if retryAfter <= cfg.maxBackoff then retryAfter else cfg.maxBackoff
  {
    RetryDelayBounds(cfg, n, 0, jitter);
    if cfg.interval <= TWO_TO_48 {
      ShiftedIsIdeal(cfg, n);
    }
    var d := Shifted(cfg, n);
    assert 0 < d <= cfg.maxBackoff;
    assert 0 <= jitter(d) <= d / 4;
    WrapInRange(d + jitter(d));
  }

  lemma WrapInRange(x: int)
    requires -TWO_TO_63 <= x < TWO_TO_63
    ensures Wrap(x) == x
  {
  }

  datatype Failure = Failure(now: int, retryAfter: int, jitter: int -> int)

  /** next_check_at as stored after the k-th failure in a row. */
  function StoredNext(cfg: RescheduleConfig, fs: seq<Failure>, k: nat): int
    requires k < |fs|
  {
    ToUnix(PollReschedule(fs[k].now, cfg, k + 1, fs[k].retryAfter, fs[k].jitter))
  }

  /** Each poll was dispatched only once the stored time had come (ListDueFeeds). */
  ghost predicate Dispatched(cfg: RescheduleConfig, fs: seq<Failure>) {
    forall k | 0 <= k < |fs| - 1 :: StoredNext(cfg, fs, k) <= ToUnix(fs[k + 1].now)
  }

  function BackoffSeconds(cfg: RescheduleConfig, k: nat): int {
    if k == 0 then 0 else BackoffSeconds(cfg, k - 1) + ToUnix(Ideal(cfg, k))
  }

  /** k consecutive failures keep the scheduled polls apart by the sum of the ideal
      backoffs, in the whole seconds the database stores. */
  lemma {:induction false} FailuresSpread(cfg: RescheduleConfig, fs: seq<Failure>)
    requires GoodReschedule(cfg) && cfg.interval <= TWO_TO_48 && fs != [] && Dispatched(cfg, fs)
    requires forall k | 0 <= k < |fs| :: Jitters(fs[k].jitter)
    ensures StoredNext(cfg, fs, |fs| - 1) - ToUnix(fs[0].now) >= BackoffSeconds(cfg, |fs|)
  {
    var k := |fs| - 1;
    var f := fs[k];
    RetryDelayBounds(cfg, k + 1, f.retryAfter, f.jitter);
    assert ToUnix(PollReschedule(f.now, cfg, k + 1, f.retryAfter, f.jitter)) >= ToUnix(f.now) + ToUnix(Ideal(cfg, k + 1));
    if k > 0 {
      var front := fs[..k];
      forall j | 0 <= j < |front| - 1 ensures StoredNext(cfg, front, j) <= ToUnix(front[j + 1].now) {
        assert StoredNext(cfg, fs, j) <= ToUnix(fs[j + 1].now);
      }
      FailuresSpread(cfg, front);
      assert StoredNext(cfg, front, k - 1) == StoredNext(cfg, fs, k - 1);
    } else {
      assert BackoffSeconds(cfg, 1) == BackoffSeconds(cfg, 0) + ToUnix(Ideal(cfg, 1));
    }
  }

  // ---- ExtractBackoff ------------------------------------------------------

  /** The doubling loop on int64, `k` turns at most. */
  function DoublingLoop(d: int, cap: int, k: nat): int
    decreases k
  {
    if k == 0 || d >= cap then d else DoublingLoop(Wrap(d * 2), cap, k - 1)
  }

  method ExtractBackoff(base: int, cap: int, attempt: int, jitter: int -> int) returns (d: int)
    ensures var c := Capped(DoublingLoop(base, cap, Max(attempt - 1, 0)), cap); d == Wrap(c + jitter(c))
  {
    d := base;
    var i := 1;
    while i < attempt && d < cap
      invariant 1 <= i <= Max(attempt, 1)
      invariant DoublingLoop(base, cap, Max(attempt - 1, 0)) == DoublingLoop(d, cap, Max(attempt, 1) - i)
      decreases attempt - i
    {
      d := Wrap(d * 2);
      i := i + 1;
    }
    if d > cap || d <= 0 {
      d := cap;
    }
    d := Wrap(d + jitter(d));
  }

  /** The doubling loop computes min(base * 2^(attempt-1), cap) for every attempt. */
  lemma {:induction false} DoublingIsIdeal(base: int, cap: int, k: nat)
    requires 0 < base < TWO_TO_63 && 0 < cap <= TWO_TO_62
    ensures Capped(DoublingLoop(base, cap, k), cap) == Min(base * Pow2(k), cap)
    decreases k
  {
    Growing(base, k);
    if k > 0 && base < cap {
      WrapInRange(base * 2);
      DoublingIsIdeal(base * 2, cap, k - 1);
      Regroup(base, Pow2(k - 1));
    }
  }

  lemma Regroup(base: int, p: int)
    ensures base * 2 * p == base * (2 * p)
  {
  }

  /** Some turn of the loop reaches the cap, possibly after int64 has wrapped. */
  ghost predicate ReachesCap(x: int, cap: int, k: nat) {
    exists j: nat :: j <= k && Wrap(x * Pow2(j)) >= cap
  }

  lemma WrapTwice(x: int)
    ensures Wrap(Wrap(x) * 2) == Wrap(x * 2)
  {
    var q := (x + TWO_TO_63) / (2 * TWO_TO_63);
    assert Wrap(x) * 2 + TWO_TO_63 == x * 2 + TWO_TO_63 - 2 * q * (2 * TWO_TO_63);
    SameResidue(x * 2 + TWO_TO_63, Wrap(x) * 2 + TWO_TO_63, 2 * q);
  }

  lemma SameResidue(a: int, b: int, n: int)
    requires b == a - n * (2 * TWO_TO_63)
    ensures a % (2 * TWO_TO_63) == b % (2 * TWO_TO_63)
  {
    var q, r := b / (2 * TWO_TO_63), b % (2 * TWO_TO_63);
    assert a == (q + n) * (2 * TWO_TO_63) + r;
  }

  lemma {:induction false} LoopWraps(x: int, cap: int, k: nat)
    ensures var d := DoublingLoop(Wrap(x), cap, k); if ReachesCap(x, cap, k) then d >= cap else d == Wrap(x * Pow2(k))
    decreases k
  {
    assert x * Pow2(0) == x;
    if Wrap(x) >= cap {
      assert Wrap(x * Pow2(0)) >= cap;
    } else if k > 0 {
      WrapTwice(x);
      LoopWraps(x * 2, cap, k - 1);
      forall j: nat ensures x * 2 * Pow2(j) == x * Pow2(j + 1) {
        Regroup(x, Pow2(j));
      }
      if ReachesCap(x, cap, k) {
        var j: nat :| j <= k && Wrap(x * Pow2(j)) >= cap;
        assert j > 0 && Wrap(x * 2 * Pow2(j - 1)) >= cap;
      }
      if ReachesCap(x * 2, cap, k - 1) {
        var j: nat :| j <= k - 1 && Wrap(x * 2 * Pow2(j)) >= cap;
        assert Wrap(x * Pow2(j + 1)) >= cap;
      }
    }
  }

  lemma WrapShrinks(x: int)
    requires 0 <= x
    ensures Wrap(x) <= x
  {
    WrapLow(x);
  }

  /** CapIff, told by the sign of the value that survives. */
  lemma CapSignIff(product: int, cap: int)
    requires 0 < product && 0 < cap < TWO_TO_63
    ensures Capped(Wrap(product), cap) == Min(product, cap)
            <==> (product < 2 * TWO_TO_63 || Wrap(product) <= 0 || Wrap(product) >= cap)
  {
    CapIff(product, cap);
    WrapLow(product);
  }

  /** A turn at the cap means that the true product is there too. */
  lemma ReachedIsReal(base: int, cap: int, k: nat)
    requires 0 < base && ReachesCap(base, cap, k)
    ensures cap <= base * Pow2(k)
  {
    var j: nat :| j <= k && Wrap(base * Pow2(j)) >= cap;
    Pow2Bound(j, k);
    MulLess(base, Pow2(j), Pow2(k));
    Growing(base, j);
    WrapShrinks(base * Pow2(j));
  }

  /** For any int64 base and cap: exact unless the product leaves 64 bits, no turn
      reached the cap, and the bits that survive are positive. */
  lemma DoublingIsIdealIff(base: int, cap: int, k: nat)
    requires 0 < base < TWO_TO_63 && 0 < cap < TWO_TO_63
    ensures var product := base * Pow2(k);
            Capped(DoublingLoop(base, cap, k), cap) == Min(product, cap)
            <==> (product < 2 * TWO_TO_63 || Wrap(product) <= 0 || ReachesCap(base, cap, k))
  {
    var product := base * Pow2(k);
    WrapInRange(base);
    LoopWraps(base, cap, k);
    Growing(base, k);
    if ReachesCap(base, cap, k) {
      ReachedIsReal(base, cap, k);
    } else {
      assert Wrap(base * Pow2(k)) < cap;
      CapSignIff(product, cap);
    }
  }

  /** Past 2^62 the loop can run through int64 and return four nanoseconds. */
  lemma DoublingCanCollapse()
    ensures Capped(DoublingLoop(TWO_TO_62 + 1, TWO_TO_63 - 1, 2), TWO_TO_63 - 1) == 4
    ensures Min((TWO_TO_62 + 1) * Pow2(2), TWO_TO_63 - 1) == TWO_TO_63 - 1
  {
    assert Wrap((TWO_TO_62 + 1) * 2) == 2 - TWO_TO_63;
    assert Wrap((2 - TWO_TO_63) * 2) == 4;
    assert DoublingLoop(4, TWO_TO_63 - 1, 0) == 4;
    assert DoublingLoop(2 - TWO_TO_63, TWO_TO_63 - 1, 1) == 4;
  }

  // ---- AdaptiveInterval ----------------------------------------------------

  /** float64: how a real rounds, and what a float becomes as an int64, where the
      language leaves open what happens to an infinity and to what does not fit. */
  datatype Float = Float(round: real -> real, toInt: real -> int, infinite: int)

  /** What IEEE 754 promises of rounding, and Go of a conversion that fits. */
  ghost predicate Rounds(fl: Float) {
    && (forall x, y | x <= y :: fl.round(x) <= fl.round(y)) && fl.round(0.0) == 0.0
    && (forall x | 0.0 <= x < TWO_TO_63 as real :: fl.toInt(x) == x.Floor)
  }

  datatype ScheduleConfig = ScheduleConfig(minInterval: int, maxInterval: int, factor: real, fl: Float)

  predicate GoodSchedule(cfg: ScheduleConfig) {
    0 < cfg.minInterval < cfg.maxInterval <= TWO_TO_62 && 0.0 < cfg.factor
  }

  /** float64(weeklyCount) * Factor. */
  function Rate(weeklyCount: int, cfg: ScheduleConfig): real {
    cfg.fl.round(Times(cfg.fl.round(weeklyCount as real), cfg.factor))
  }

  function Times(a: real, b: real): real { a * b }

  function PerEntry(weeklyCount: int, cfg: ScheduleConfig): int {
    var rate := Rate(weeklyCount, cfg);
    if rate == 0.0 then cfg.fl.infinite else cfg.fl.toInt(cfg.fl.round(WEEK as real / rate))
  }

  /** The quotient is a duration: its rate does not vanish and it fits an int64. */
  predicate Fits(weeklyCount: int, cfg: ScheduleConfig) {
    0.0 < Rate(weeklyCount, cfg) && cfg.fl.round(WEEK as real / Rate(weeklyCount, cfg)) < TWO_TO_63 as real
  }

  /** WEEK / (weeklyCount * Factor), cut to whole nanoseconds and clamped. */
  function ClampedInterval(weeklyCount: int, cfg: ScheduleConfig): int {
    var iv := if weeklyCount <= 0 then cfg.maxInterval else PerEntry(weeklyCount, cfg);
    Min(Max(iv, cfg.minInterval), cfg.maxInterval)
  }

  function AdaptiveInterval(weeklyCount: int, cfg: ScheduleConfig, feedTTL: int, jitter: int -> int): int {
    var c := ClampedInterval(weeklyCount, cfg);
    var iv := c + jitter(c);
    if feedTTL > 0 then Max(iv, Min(feedTTL, MAX_TTL_INFLUENCE)) else iv
  }

  function NoJitter(d: int): int { 0 }

  lemma AdaptiveBounds(weeklyCount: int, cfg: ScheduleConfig, feedTTL: int, jitter: int -> int)
    requires GoodSchedule(cfg) && Jitters(jitter)
    ensures cfg.minInterval <= AdaptiveInterval(weeklyCount, cfg, feedTTL, jitter)
    ensures AdaptiveInterval(weeklyCount, cfg, feedTTL, jitter) <= Max(cfg.maxInterval + cfg.maxInterval / 4, MAX_TTL_INFLUENCE)
    ensures feedTTL > 0 ==> AdaptiveInterval(weeklyCount, cfg, feedTTL, jitter) >= Min(feedTTL, MAX_TTL_INFLUENCE)
  {
  }

  lemma DividesLess(x: real, a: real, b: real)
    requires 0.0 <= x && 0.0 < a <= b
    ensures x / b <= x / a
  {
    QuotientsOrdered(x / a, x / b, a, b);
  }

  lemma QuotientsOrdered(y: real, z: real, a: real, b: real)
    requires y * a == z * b && 0.0 <= y && 0.0 < a <= b
    ensures z <= y
  {
    assert y * (b - a) >= 0.0;
    assert (y - z) * b == y * (b - a);
    SameSign(y - z, b);
  }

  lemma SameSign(d: real, b: real)
    requires d * b >= 0.0 && 0.0 < b
    ensures d >= 0.0
  {
  }

  lemma TimesMono(a: real, b: real, factor: real)
    requires a <= b && 0.0 < factor
    ensures a * factor <= b * factor
  {
    assert (b - a) * factor >= 0.0;
    assert (b - a) * factor == b * factor - a * factor;
  }

  lemma RoundMono(fl: Float, x: real, y: real)
    requires Rounds(fl) && x <= y
    ensures fl.round(x) <= fl.round(y)
  {
  }

  lemma RateMono(few: int, many: int, cfg: ScheduleConfig)
    requires few <= many && 0.0 < cfg.factor && Rounds(cfg.fl)
    ensures Rate(few, cfg) <= Rate(many, cfg)
  {
    var a, b := cfg.fl.round(few as real), cfg.fl.round(many as real);
    RoundMono(cfg.fl, few as real, many as real);
    TimesMono(a, b, cfg.factor);
    RoundMono(cfg.fl, a * cfg.factor, b * cfg.factor);
  }

  lemma QuotientNonNegative(x: real, a: real)
    requires 0.0 <= x && 0.0 < a
    ensures 0.0 <= x / a
  {
  }

  lemma QuotientRounds(fl: Float, x: real, a: real, b: real)
    requires Rounds(fl) && 0.0 <= x && 0.0 < a <= b
    ensures 0.0 <= fl.round(x / b) <= fl.round(x / a)
  {
    DividesLess(x, a, b);
    QuotientNonNegative(x, b);
    var y, z := x / b, x / a;
    RoundMono(fl, 0.0, y);
    RoundMono(fl, y, z);
  }

  lemma FloorMono(y: real, z: real)
    requires y <= z
    ensures y.Floor <= z.Floor
  {
  }

  lemma ConvertMono(fl: Float, y: real, z: real)
    requires Rounds(fl) && 0.0 <= y <= z < TWO_TO_63 as real
    ensures fl.toInt(y) <= fl.toInt(z)
  {
    FloorMono(y, z);
  }

  /** Rounding or not, more entries a week never make the quotient larger. */
  lemma FewerPerWeek(few: int, many: int, cfg: ScheduleConfig)
    requires 0 < few <= many && 0.0 < cfg.factor && Rounds(cfg.fl) && Fits(few, cfg)
    ensures PerEntry(many, cfg) <= PerEntry(few, cfg)
  {
    var fl, a, b := cfg.fl, Rate(few, cfg), Rate(many, cfg);
    RateMono(few, many, cfg);
    QuotientRounds(fl, WEEK as real, a, b);
    ConvertMono(fl, fl.round(WEEK as real / b), fl.round(WEEK as real / a));
  }

  /** Busier feeds are never polled less often, wherever the quotient fits. */
  lemma AdaptiveMonotone(few: int, many: int, cfg: ScheduleConfig, feedTTL: int)
    requires GoodSchedule(cfg) && few <= many && Rounds(cfg.fl) && (0 < few ==> Fits(few, cfg))
    ensures AdaptiveInterval(many, cfg, feedTTL, NoJitter) <= AdaptiveInterval(few, cfg, feedTTL, NoJitter)
  {
    if 0 < few {
      FewerPerWeek(few, many, cfg);
    }
  }

  /** In exact arithmetic, between its two bounds, the interval is the time in which the
      feed brings one entry per factor: the week over count times factor, cut to a
      nanosecond. */
  lemma AdaptiveIsQuotient(n: int, cfg: ScheduleConfig)
    requires GoodSchedule(cfg) && 0 < n && Rounds(cfg.fl) && (forall x :: cfg.fl.round(x) == x) && Fits(n, cfg)
    ensures var iv, rate := AdaptiveInterval(n, cfg, 0, NoJitter), Times(n as real, cfg.factor);
            cfg.minInterval < iv < cfg.maxInterval ==> Times(iv as real, rate) <= WEEK as real < Times((iv + 1) as real, rate)
  {
    var rate := Times(n as real, cfg.factor);
    assert Rate(n, cfg) == rate;
    var q := WEEK as real / rate;
    FloorBounds(WEEK as real, rate, q.Floor);
  }

  /** Jitter comes on top of it, and then a declared lifetime of up to 30 days is its floor. */
  lemma AdaptiveIsFloored(n: int, cfg: ScheduleConfig, feedTTL: int, jitter: int -> int)
    ensures var c := AdaptiveInterval(n, cfg, 0, NoJitter); var floor := if feedTTL <= MAX_TTL_INFLUENCE then feedTTL else MAX_TTL_INFLUENCE;
            AdaptiveInterval(n, cfg, feedTTL, jitter) == if feedTTL > 0 && c + jitter(c) < floor then floor else c + jitter(c)
  {
  }

  lemma FloorBounds(x: real, rate: real, f: int)
    requires 0.0 < rate && f == (x / rate).Floor
    ensures Times(f as real, rate) <= x < Times((f + 1) as real, rate)
  {
    var q := x / rate;
    assert f as real <= q < (f + 1) as real;
    assert q * rate == x;
    TimesMono(f as real, q, rate);
    TimesStrict(q, (f + 1) as real, rate);
  }

  lemma TimesStrict(a: real, b: real, factor: real)
    requires a < b && 0.0 < factor
    ensures a * factor < Times(b, factor)
  {
    assert (b - a) * factor > 0.0;
    assert (b - a) * factor == b * factor - a * factor;
  }

  /** Binary floating point between the ends of its exponents: doubling is exact. */
  ghost predicate Binary(round: real -> real) {
    && (forall x, y | x <= y :: round(x) <= round(y)) && round(0.0) == 0.0
    && (forall x :: round(x + x) == round(x) + round(x))
    && (forall x | 0.0 < x :: 0.0 < round(x))
  }

  ghost predicate Converts(toInt: real -> int) {
    forall x | 0.0 <= x < TWO_TO_63 as real :: toInt(x) == x.Floor
  }

  /** The interval that an entry count alone asks for, under this conversion. */
  function Interval(weeklyCount: int, cfg: ScheduleConfig, toInt: real -> int, infinite: int): int {
    AdaptiveInterval(weeklyCount, With(cfg, toInt, infinite), 0, NoJitter)
  }

  /** A conversion that the language allows: 0 for one value that does not fit, and
      something long for the others. */
  function Truncating(odd: real): real -> int {
    x => if x == odd && x >= TWO_TO_63 as real then 0 else if x < TWO_TO_63 as real then x.Floor else TWO_TO_62
  }

  lemma HalfQuotient(x: real, a: real, b: real)
    requires 0.0 < a && b == a + a
    ensures x / a == x / b + x / b
  {
    SameFactor(x / a, x / b + x / b, a);
  }

  lemma SameFactor(y: real, z: real, a: real)
    requires y * a == z * a && 0.0 < a
    ensures y == z
  {
    assert (y - z) * a == 0.0;
  }

  function With(cfg: ScheduleConfig, toInt: real -> int, infinite: int): (r: ScheduleConfig)
    ensures r.fl.round == cfg.fl.round && r.fl.toInt == toInt && r.fl.infinite == infinite
    ensures r.factor == cfg.factor && r.minInterval == cfg.minInterval && r.maxInterval == cfg.maxInterval
  {
    cfg.(fl := cfg.fl.(toInt := toInt, infinite := infinite))
  }

  lemma SameRate(n: int, a: ScheduleConfig, b: ScheduleConfig)
    requires a.fl.round == b.fl.round && a.factor == b.factor
    ensures Rate(n, a) == Rate(n, b)
  {
    assert Times(a.fl.round(n as real), a.factor) == Times(b.fl.round(n as real), b.factor);
  }

  lemma IntervalOf(n: int, cfg: ScheduleConfig, toInt: real -> int, infinite: int)
    requires 0 < n && Rate(n, cfg) != 0.0
    ensures Interval(n, cfg, toInt, infinite)
            == Min(Max(toInt(cfg.fl.round(WEEK as real / Rate(n, cfg))), cfg.minInterval), cfg.maxInterval)
  {
    SameRate(n, cfg, With(cfg, toInt, infinite));
  }

  /** Twice the count is divided by twice as much, rounding included. */
  lemma RateDoubles(few: int, cfg: ScheduleConfig)
    requires 0 < few && 0.0 < cfg.factor && Binary(cfg.fl.round)
    ensures 0.0 < Rate(few, cfg) && Rate(2 * few, cfg) == Rate(few, cfg) + Rate(few, cfg)
  {
    var n := few as real;
    assert (2 * few) as real == n + n;
    var r := cfg.fl.round(n);
    PositiveProduct(r, cfg.factor);
    assert (r + r) * cfg.factor == r * cfg.factor + r * cfg.factor;
  }

  lemma PositiveProduct(a: real, b: real)
    requires 0.0 < a && 0.0 < b
    ensures 0.0 < a * b
  {
  }

  lemma QuotientHalves(x: real, rate: real, round: real -> real)
    requires 0.0 < rate && Binary(round)
    ensures round(x / rate) == round(x / (rate + rate)) + round(x / (rate + rate))
  {
    HalfQuotient(x, rate, rate + rate);
  }

  /** Where the quotient does not fit, twice as many entries may wait longer. */
  lemma AdaptiveCanInvert(few: int, cfg: ScheduleConfig)
    requires GoodSchedule(cfg) && 0 < few && Binary(cfg.fl.round) && !Fits(few, cfg)
    ensures exists toInt :: Converts(toInt) && Interval(few, cfg, toInt, 0) == cfg.minInterval && Interval(2 * few, cfg, toInt, 0) == cfg.maxInterval
  {
    RateDoubles(few, cfg);
    var rate := Rate(few, cfg);
    QuotientHalves(WEEK as real, rate, cfg.fl.round);
    Inverted(few, cfg, rate, cfg.fl.round(WEEK as real / rate), cfg.fl.round(WEEK as real / (rate + rate)));
  }

  lemma Inverted(few: int, cfg: ScheduleConfig, rate: real, x: real, y: real)
    requires GoodSchedule(cfg) && 0 < few && 0.0 < rate == Rate(few, cfg) && Rate(2 * few, cfg) == rate + rate
    requires x == cfg.fl.round(WEEK as real / rate) && y == cfg.fl.round(WEEK as real / (rate + rate))
    requires x == y + y && TWO_TO_63 as real <= x
    ensures Converts(Truncating(x))
    ensures Interval(few, cfg, Truncating(x), 0) == cfg.minInterval && Interval(2 * few, cfg, Truncating(x), 0) == cfg.maxInterval
  {
    IntervalOf(few, cfg, Truncating(x), 0);
    IntervalOf(2 * few, cfg, Truncating(x), 0);
    assert Truncating(x)(x) == 0;
    assert Truncating(x)(y) >= TWO_TO_62;
  }

  /** No busier feed waits longer, whatever a conversion makes of what does not fit. */
  ghost predicate BusierNotLonger(few: int, cfg: ScheduleConfig) {
    forall toInt, infinite, many | Converts(toInt) && few <= many ::
      Interval(many, cfg, toInt, infinite) <= Interval(few, cfg, toInt, infinite)
  }

  lemma BusierUnder(few: int, many: int, cfg: ScheduleConfig, toInt: real -> int, infinite: int)
    requires GoodSchedule(cfg) && 0 < few <= many && Binary(cfg.fl.round) && Fits(few, cfg) && Converts(toInt)
    ensures Interval(many, cfg, toInt, infinite) <= Interval(few, cfg, toInt, infinite)
  {
    SameRate(few, cfg, With(cfg, toInt, infinite));
    AdaptiveMonotone(few, many, With(cfg, toInt, infinite), 0);
  }

  /** Exactly where the rounded quotient of the quieter feed fits. */
  lemma AdaptiveMonotoneIff(few: int, cfg: ScheduleConfig)
    requires GoodSchedule(cfg) && 0 < few && Binary(cfg.fl.round)
    ensures BusierNotLonger(few, cfg) <==> Fits(few, cfg)
  {
    if Fits(few, cfg) {
      forall toInt, infinite, many | Converts(toInt) && few <= many
        ensures Interval(many, cfg, toInt, infinite) <= Interval(few, cfg, toInt, infinite)
      {
        BusierUnder(few, many, cfg, toInt, infinite);
      }
    } else {
      AdaptiveCanInvert(few, cfg);
      var toInt :| Converts(toInt) && Interval(few, cfg, toInt, 0) == cfg.minInterval && Interval(2 * few, cfg, toInt, 0) == cfg.maxInterval;
      assert Interval(2 * few, cfg, toInt, 0) > Interval(few, cfg, toInt, 0);
    }
  }
}
