/**
 Retrying chain operations with exponential backoff. Durations are integer
 milliseconds and the backoff multiplier is a real number. The operation being
 retried is a parameter: the outcome and duration of its i-th call, the random
 draw and the oversleeping before it.
 */
module Retry {
  import opened Basics

  const U64_MAX: nat := 0xFFFF_FFFF_FFFF_FFFF

  datatype Category = Transient | RateLimit | Auth | ConfigFault | Network | Permanent

  /** Errors of chain operations matter to the retry logic through their category alone. */
  datatype ChainError =
    | OperationFailed(kind: Category, message: string)
    | MaxRetriesExceeded(attempts: nat)
    | BackoffTimeoutReached(after: nat)
  {
    function Category(): Category {
      if OperationFailed? then kind else Permanent
    }

    predicate Retryable() {
      !(Category().ConfigFault? || Category().Permanent?)
    }
  }

  datatype RetryConfig =
    RetryConfig(maxAttempts: nat, initialDelay: nat, maxDelay: nat, multiplier: real, jitter: bool)

  const TRANSIENT := RetryConfig(5, 200, 10_000, 1.5, true)
  const RATE_LIMIT := RetryConfig(3, 1_000, 60_000, 2.0, false)
  const NETWORK := RetryConfig(4, 500, 30_000, 2.0, true)
  const AUTH := RetryConfig(2, 1_000, 5_000, 1.0, false)

  function Preset(e: ChainError): (c: Option<RetryConfig>)
    ensures c.Some? <==> e.Retryable()
  {
    match e.Category()
    case Transient => Some(TRANSIENT)
    case RateLimit => Some(RATE_LIMIT)
    case Network => Some(NETWORK)
    case Auth => Some(AUTH)
    case ConfigFault => None
    case Permanent => None
  }

  // ----- Delays -----

  /** The initial delay times the multiplier to the power of `attempt`. */
  function Scaled(c: RetryConfig, attempt: nat): real {
    if attempt == 0 then c.initialDelay as real else c.multiplier * Scaled(c, attempt - 1)
  }

  /** The saturating cast of a floating point number to 64 unsigned bits. */
  function ToU64(x: real): (n: nat)
    ensures n <= U64_MAX
  {
    if x < 0.0 then 0 else if x.Floor > U64_MAX then U64_MAX else x.Floor
  }

  /** The delay before retry number `attempt`, counted from zero, without jitter. */
  function BaseDelay(c: RetryConfig, attempt: nat): nat {
    var calculated := ToU64(Scaled(c, attempt));
    if calculated > c.maxDelay then c.maxDelay else calculated
  }

  /** A random amount of at most a quarter of the delay. */
  function Jitter(delay: nat, draw: nat): (j: nat)
    ensures j <= delay / 4
  {
    draw % (delay / 4 + 1)
  }

  function Delay(c: RetryConfig, attempt: nat, draw: nat): nat {
    var base := BaseDelay(c, attempt);
    if c.jitter then base + Jitter(base, draw) else base
  }

  /** The delay a backoff with this many attempts behind it hands out, if any is left. */
  function NextDelayAt(c: RetryConfig, attempts: nat, draw: nat): Option<nat> {
    if attempts >= c.maxAttempts then None else Some(Delay(c, attempts, draw))
  }

  lemma DelayBounds(c: RetryConfig, attempt: nat, draw: nat)
    ensures BaseDelay(c, attempt) <= c.maxDelay
    ensures BaseDelay(c, attempt) <= Delay(c, attempt, draw) <= BaseDelay(c, attempt) + BaseDelay(c, attempt) / 4
    ensures Delay(c, attempt, draw) <= c.maxDelay + c.maxDelay / 4
  {
  }

  function Power(m: real, n: nat): real {
    if n == 0 then 1.0 else m * Power(m, n - 1)
  }

  lemma {:induction false} ScaledIsPower(c: RetryConfig, attempt: nat)
    ensures Scaled(c, attempt) == c.initialDelay as real * Power(c.multiplier, attempt)
  {
    if attempt == 0 {
    } else {
      ScaledIsPower(c, attempt - 1);
    }
  }

  /** Before jitter the delay is initial delay times power of the multiplier, in whole milliseconds and up to the cap. */
  lemma DelayExact(c: RetryConfig, attempt: nat)
    requires c.maxDelay <= U64_MAX
    ensures var (exact, base) := (c.initialDelay as real * Power(c.multiplier, attempt), BaseDelay(c, attempt));
            && (exact < 0.0 ==> base == 0)
            && (0.0 <= exact <= c.maxDelay as real ==> base as real <= exact < base as real + 1.0)
            && (exact > c.maxDelay as real ==> base == c.maxDelay)
  {
    ScaledIsPower(c, attempt);
  }

  /** Every amount up to a quarter of the delay can be drawn. */
  lemma EveryJitterIsDrawn(delay: nat, j: nat)
    requires j <= delay / 4
    ensures exists draw :: Jitter(delay, draw) == j
  {
    assert Jitter(delay, j) == j;
  }

  lemma {:induction false} ScaledGrows(c: RetryConfig, attempt: nat)
    requires c.multiplier >= 1.0
    ensures 0.0 <= Scaled(c, attempt) <= Scaled(c, attempt + 1)
  {
    if attempt == 0 {
    } else {
      ScaledGrows(c, attempt - 1);
    }
    assert Scaled(c, attempt + 1) - Scaled(c, attempt) == (c.multiplier - 1.0) * Scaled(c, attempt);
  }

  lemma {:induction false} DelaysNeverShrink(c: RetryConfig, i: nat, j: nat)
    requires c.multiplier >= 1.0 && i <= j
    ensures BaseDelay(c, i) <= BaseDelay(c, j)
    decreases j
  {
    if i < j {
      DelaysNeverShrink(c, i, j - 1);
      ScaledGrows(c, j - 1);
    }
  }

  /** The first `n` delays before jitter, added up. */
  function BaseTotal(c: RetryConfig, n: nat): nat {
    if n == 0 then 0 else BaseTotal(c, n - 1) + BaseDelay(c, n - 1)
  }

  /** The delays each kind of error is retried after, before jitter. */
  lemma PresetSchedules()
    ensures BaseDelay(TRANSIENT, 0) == 200 && BaseDelay(TRANSIENT, 1) == 300 && BaseDelay(TRANSIENT, 2) == 450
    ensures BaseDelay(TRANSIENT, 3) == 675 && BaseDelay(TRANSIENT, 4) == 1012
    ensures BaseDelay(RATE_LIMIT, 0) == 1000 && BaseDelay(RATE_LIMIT, 1) == 2000 && BaseDelay(RATE_LIMIT, 2) == 4000
    ensures BaseDelay(NETWORK, 0) == 500 && BaseDelay(NETWORK, 1) == 1000
    ensures BaseDelay(NETWORK, 2) == 2000 && BaseDelay(NETWORK, 3) == 4000
    ensures BaseDelay(AUTH, 0) == 1000 && BaseDelay(AUTH, 1) == 1000
  {
    assert Scaled(TRANSIENT, 1) == 300.0 && Scaled(TRANSIENT, 2) == 450.0;
    assert Scaled(TRANSIENT, 3) == 675.0 && Scaled(TRANSIENT, 4) == 1012.5;
    assert Scaled(RATE_LIMIT, 1) == 2000.0 && Scaled(RATE_LIMIT, 2) == 4000.0;
    assert Scaled(NETWORK, 1) == 1000.0 && Scaled(NETWORK, 2) == 2000.0 && Scaled(NETWORK, 3) == 4000.0;
    assert Scaled(AUTH, 1) == 1000.0;
  }

  lemma PresetTotals()
    ensures BaseTotal(TRANSIENT, 5) == 2637 && BaseTotal(RATE_LIMIT, 3) == 7000
    ensures BaseTotal(NETWORK, 4) == 7500 && BaseTotal(AUTH, 2) == 2000
  {
    hide BaseDelay;
    PresetSchedules();
    assert BaseTotal(TRANSIENT, 2) == 500 && BaseTotal(TRANSIENT, 4) == 1625;
    assert BaseTotal(RATE_LIMIT, 2) == 3000;
    assert BaseTotal(NETWORK, 2) == 1500;
  }

  class ExponentialBackoff {
    const config: RetryConfig
    var currentAttempt: nat

    constructor (config: RetryConfig)
      ensures this.config == config && currentAttempt == 0
    {
      this.config := config;
      currentAttempt := 0;
    }

    method NextDelay(draw: nat) returns (delay: Option<nat>)
      modifies this
      ensures delay == NextDelayAt(config, old(currentAttempt), draw)
      ensures currentAttempt == if delay.Some? then old(currentAttempt) + 1 else old(currentAttempt)
    {
      if currentAttempt >= config.maxAttempts {
        return None;
      }
      var calculated := ToU64(Scaled(config, currentAttempt));
      var d := if calculated > config.maxDelay then config.maxDelay else calculated;
      if config.jitter {
        d := d + Jitter(d, draw);
      }
      currentAttempt := currentAttempt + 1;
      return Some(d);
    }

    method Reset()
      modifies this
      ensures currentAttempt == 0
    {
      currentAttempt := 0;
    }
  }

  // ----- What a retried operation does -----

  /** Call `i` ends with `Outcome(i)` after `Took(i)`; before it come the random draw and the oversleeping. */
  datatype World<!T> =
    World(outcomes: nat -> Result<T, ChainError>, durations: nat -> nat, draws: nat -> nat, oversleeps: nat -> nat)
  {
    function Outcome(i: nat): Result<T, ChainError> { outcomes(i) }
    function Took(i: nat): nat { durations(i) }
    function Draw(i: nat): nat { draws(i) }
    function Overslept(i: nat): nat { oversleeps(i) }
  }

  /** Time since the start when call `i` has ended, if every call up to it was made. */
  function Elapsed<T>(w: World<T>, c: RetryConfig, i: nat): nat {
    if i == 0 then w.Took(0)
    else Elapsed(w, c, i - 1) + Delay(c, i - 1, w.Draw(i)) + w.Overslept(i) + w.Took(i)
  }

  /** Call `i` is due strictly before the total timeout. */
  predicate InTime<T>(w: World<T>, c: RetryConfig, timeout: Option<nat>, i: nat)
    requires i > 0
  {
    timeout.Some? ==> Elapsed(w, c, i - 1) + Delay(c, i - 1, w.Draw(i)) < timeout.value
  }

  /** Whether an outcome is retried: any error under a custom configuration, else only retryable ones. */
  predicate GoesOn<T>(o: Result<T, ChainError>, anyError: bool) {
    o.Failure? && (anyError || o.error.Retryable())
  }

  ghost predicate AllRetried<T>(w: World<T>, anyError: bool, n: nat) {
    forall i :: 0 <= i < n ==> GoesOn(w.Outcome(i), anyError)
  }

  ghost predicate AllInTime<T>(w: World<T>, c: RetryConfig, timeout: Option<nat>, n: nat) {
    forall i :: 1 <= i < n ==> InTime(w, c, timeout, i)
  }

  /**
   The result after `calls` calls: all calls but the last met errors that are
   retried and every retry was due in time; the last call's outcome is handed
   on unless it too is retried, and then attempts or time have run out.
   */
  ghost predicate Explains<T>(w: World<T>, c: RetryConfig, timeout: Option<nat>, anyError: bool,
                             r: Result<T, ChainError>, calls: nat)
  {
    && 1 <= calls <= 1 + c.maxAttempts
    && AllRetried(w, anyError, calls - 1)
    && AllInTime(w, c, timeout, calls)
    && if !GoesOn(w.Outcome(calls - 1), anyError) then r == w.Outcome(calls - 1)
       else if calls == 1 + c.maxAttempts then r == Failure(MaxRetriesExceeded(c.maxAttempts))
       else !InTime(w, c, timeout, calls) && r == Failure(BackoffTimeoutReached(Elapsed(w, c, calls - 1)))
  }

  /** The description leaves no freedom: it fixes both the result and the number of calls. */
  lemma ResultUnique<T>(w: World<T>, c: RetryConfig, timeout: Option<nat>, anyError: bool,
                         r: Result<T, ChainError>, calls: nat, r': Result<T, ChainError>, calls': nat)
    requires Explains(w, c, timeout, anyError, r, calls) && Explains(w, c, timeout, anyError, r', calls')
    ensures r == r' && calls == calls'
  {
  }

  /** Without a total timeout the first call that is not retried decides, if it comes within the attempts. */
  lemma UntimedResult<T>(w: World<T>, c: RetryConfig, anyError: bool,
                         r: Result<T, ChainError>, calls: nat, first: nat)
    requires Explains(w, c, None, anyError, r, calls)
    requires AllRetried(w, anyError, first)
    requires !GoesOn(w.Outcome(first), anyError)
    ensures first <= c.maxAttempts ==> r == w.Outcome(first) && calls == first + 1
    ensures first > c.maxAttempts ==> r == Failure(MaxRetriesExceeded(c.maxAttempts)) && calls == c.maxAttempts + 1
  {
    if first <= c.maxAttempts {
      ResultUnique(w, c, None, anyError, r, calls, w.Outcome(first), first + 1);
    } else {
      ResultUnique(w, c, None, anyError, r, calls, Failure(MaxRetriesExceeded(c.maxAttempts)), c.maxAttempts + 1);
    }
  }

  /** The configuration of a plain retry: the preset for the first error, never changed afterwards. */
  function FirstConfig<T>(first: Result<T, ChainError>): RetryConfig {
    if first.Failure? && first.error.Retryable() then Preset(first.error).value else TRANSIENT
  }

  /** The time slept before the first `n` retries, oversleeping aside. */
  function Slept<T>(w: World<T>, c: RetryConfig, n: nat): nat {
    if n == 0 then 0 else Slept(w, c, n - 1) + Delay(c, n - 1, w.Draw(n))
  }

  /** The delays slept before the first `n` retries. */
  function Delays<T>(w: World<T>, c: RetryConfig, n: nat): (delays: seq<nat>)
    ensures |delays| == n
  {
    if n == 0 then [] else Delays(w, c, n - 1) + [Delay(c, n - 1, w.Draw(n))]
  }

  lemma {:induction false} DelayAt<T>(w: World<T>, c: RetryConfig, n: nat, i: nat)
    requires i < n
    ensures Delays(w, c, n)[i] == Delay(c, i, w.Draw(i + 1))
  {
    if i < n - 1 {
      DelayAt(w, c, n - 1, i);
    }
  }

  /** Jitter makes the sleeping longer by a quarter at most. */
  lemma {:induction false} SleepBounds<T>(w: World<T>, c: RetryConfig, n: nat)
    ensures BaseTotal(c, n) <= Slept(w, c, n) && 4 * Slept(w, c, n) <= 5 * BaseTotal(c, n)
    ensures !c.jitter ==> Slept(w, c, n) == BaseTotal(c, n)
  {
    if n == 0 {
    } else {
      hide BaseDelay;
      SleepBounds(w, c, n - 1);
    }
  }

  lemma {:induction false} BaseTotalGrows(c: RetryConfig, m: nat, n: nat)
    requires m <= n
    ensures BaseTotal(c, m) <= BaseTotal(c, n)
    decreases n
  {
    if m == n {
    } else {
      BaseTotalGrows(c, m, n - 1);
    }
  }

  /** The longest a preset can sleep for all its attempts together. */
  function LongestSleep(c: Category): nat {
    match c
    case RateLimit => 7000
    case Network => 9375
    case Auth => 2000
    case _ => 3296
  }

  /** Whatever the operation does, the first error bounds how long a plain retry sleeps in all. */
  lemma PlainRetrySleeps<T>(w: World<T>, timeout: Option<nat>, r: Result<T, ChainError>, calls: nat)
    requires w.Outcome(0).Failure?
    requires Explains(w, FirstConfig(w.Outcome(0)), timeout, false, r, calls)
    ensures Slept(w, FirstConfig(w.Outcome(0)), calls - 1) <= LongestSleep(w.Outcome(0).error.Category())
  {
    hide Slept, BaseTotal, AllRetried, AllInTime, InTime, Elapsed;
    var c := FirstConfig(w.Outcome(0));
    SleepBounds(w, c, calls - 1);
    BaseTotalGrows(c, calls - 1, c.maxAttempts);
    PresetTotals();
  }

  // ----- The schedule of each kind of error -----

  /** The delays before jitter after a first error of this kind; none if it is not retried. */
  function Schedule(kind: Category): seq<nat> {
    match kind
    case Transient => [200, 300, 450, 675, 1012]
    case RateLimit => [1000, 2000, 4000]
    case Network => [500, 1000, 2000, 4000]
    case Auth => [1000, 1000]
    case ConfigFault => []
    case Permanent => []
  }

  predicate Jittered(kind: Category) {
    kind.Transient? || kind.Network?
  }

  /** The delays keep to the schedule as far as they go, each longer by a quarter at most where there is jitter. */
  predicate Follows(kind: Category, delays: seq<nat>) {
    && |delays| <= |Schedule(kind)|
    && forall i :: 0 <= i < |delays| ==>
         Schedule(kind)[i] <= delays[i] <= Schedule(kind)[i] + if Jittered(kind) then Schedule(kind)[i] / 4 else 0
  }

  lemma PresetIsSchedule(e: ChainError)
    requires e.Retryable()
    ensures var (c, plan) := (Preset(e).value, Schedule(e.Category()));
            && c.maxAttempts == |plan| && c.jitter == Jittered(e.Category())
            && forall i :: 0 <= i < |plan| ==> BaseDelay(c, i) == plan[i]
  {
    hide BaseDelay;
    PresetSchedules();
  }

  lemma DelaysFollow<T>(w: World<T>, e: ChainError, n: nat)
    requires e.Retryable() && n <= Preset(e).value.maxAttempts
    ensures Follows(e.Category(), Delays(w, Preset(e).value, n))
  {
    hide BaseDelay, Preset, Schedule;
    PresetIsSchedule(e);
    var c := Preset(e).value;
    forall i | 0 <= i < n
      ensures BaseDelay(c, i) <= Delays(w, c, n)[i] <= BaseDelay(c, i) + if c.jitter then BaseDelay(c, i) / 4 else 0
    {
      DelayAt(w, c, n, i);
    }
  }

  function Sum(delays: seq<nat>): nat {
    if delays == [] then 0 else Sum(delays[..|delays| - 1]) + delays[|delays| - 1]
  }

  lemma SumSnoc(delays: seq<nat>, d: nat)
    ensures Sum(delays + [d]) == Sum(delays) + d
  {
    assert (delays + [d])[..|delays|] == delays;
  }

  lemma {:induction false} SumBetween(low: seq<nat>, delays: seq<nat>)
    requires |low| == |delays| && forall i :: 0 <= i < |low| ==> low[i] <= delays[i]
    ensures Sum(low) <= Sum(delays)
  {
    if low == [] {
    } else {
      SumBetween(low[..|low| - 1], delays[..|delays| - 1]);
    }
  }

  lemma SumOfTwo(a: nat, b: nat)
    ensures Sum([a, b]) == a + b
  {
    SumSnoc([], a);
    SumSnoc([a], b);
    assert [] + [a] == [a] && [a] + [b] == [a, b];
  }

  lemma ScheduleSum(kind: Category)
    ensures Sum(Schedule(kind)) ==
            match kind
            case Transient => 2637 case RateLimit => 7000 case Network => 7500 case Auth => 2000 case _ => 0
  {
    match kind
    case Transient =>
      SumOfTwo(200, 300);
      SumSnoc([200, 300], 450);
      SumSnoc([200, 300, 450], 675);
      SumSnoc([200, 300, 450, 675], 1012);
      assert [200, 300] + [450] == [200, 300, 450] && [200, 300, 450] + [675] == [200, 300, 450, 675];
      assert [200, 300, 450, 675] + [1012] == [200, 300, 450, 675, 1012];
    case RateLimit =>
      SumOfTwo(1000, 2000);
      SumSnoc([1000, 2000], 4000);
      assert [1000, 2000] + [4000] == [1000, 2000, 4000];
    case Network =>
      SumOfTwo(500, 1000);
      SumSnoc([500, 1000], 2000);
      SumSnoc([500, 1000, 2000], 4000);
      assert [500, 1000] + [2000] == [500, 1000, 2000] && [500, 1000, 2000] + [4000] == [500, 1000, 2000, 4000];
    case Auth => SumOfTwo(1000, 1000);
    case _ =>
  }

  /** How long a retry that uses all its attempts sleeps at least. */
  lemma FullScheduleSleeps(kind: Category, delays: seq<nat>)
    requires Follows(kind, delays) && |delays| == |Schedule(kind)|
    ensures kind.Transient? ==> Sum(delays) >= 2637
    ensures kind.RateLimit? ==> Sum(delays) == 7000
    ensures kind.Network? ==> Sum(delays) >= 7500
    ensures kind.Auth? ==> Sum(delays) == 2000
  {
    hide Sum, Schedule;
    SumBetween(Schedule(kind), delays);
    ScheduleSum(kind);
    if !Jittered(kind) {
      assert delays == Schedule(kind);
    }
  }

  /** What a plain retry without total timeout does, by the kind of the first error and the outcomes alone. */
  ghost predicate Untimed<T>(w: World<T>, r: Result<T, ChainError>, delays: seq<nat>)
    requires w.Outcome(0).Failure?
  {
    var plan := Schedule(w.Outcome(0).error.Category());
    && (AllRetried(w, false, |plan| + 1) && plan != [] ==>
          |delays| == |plan| && r == Failure(MaxRetriesExceeded(|plan|)))
    && (forall n :: 0 <= n <= |plan| && AllRetried(w, false, n) && !GoesOn(w.Outcome(n), false) ==>
          |delays| == n && r == w.Outcome(n))
  }

  lemma NoTimeout<T>(w: World<T>, c: RetryConfig, n: nat)
    ensures AllInTime(w, c, None, n)
  {
  }

  lemma PlainRetryUntimed<T>(w: World<T>, r: Result<T, ChainError>, calls: nat, delays: seq<nat>)
    requires w.Outcome(0).Failure? && |delays| == calls - 1
    requires Explains(w, FirstConfig(w.Outcome(0)), None, false, r, calls)
    ensures Untimed(w, r, delays)
  {
    hide BaseDelay, Elapsed, InTime;
    var e := w.Outcome(0).error;
    if e.Retryable() {
      PresetIsSchedule(e);
      var (c, plan) := (Preset(e).value, Schedule(e.Category()));
      if AllRetried(w, false, |plan| + 1) {
        ResultUnique(w, c, None, false, r, calls, Failure(MaxRetriesExceeded(|plan|)), |plan| + 1) by {
          NoTimeout(w, c, |plan| + 1);
        }
      }
      forall n | 0 <= n <= |plan| && AllRetried(w, false, n) && !GoesOn(w.Outcome(n), false)
        ensures |delays| == n && r == w.Outcome(n)
      {
        NoTimeout(w, c, n + 1);
        ResultUnique(w, c, None, false, r, calls, w.Outcome(n), n + 1);
      }
    }
  }

  // ----- How the retry loop goes on and ends -----

  lemma OneCall<T>(w: World<T>, c: RetryConfig, timeout: Option<nat>, anyError: bool)
    requires GoesOn(w.Outcome(0), anyError)
    ensures AllRetried(w, anyError, 1) && AllInTime(w, c, timeout, 1)
    ensures Elapsed(w, c, 0) == w.Took(0) && Delays(w, c, 0) == []
  {
  }

  lemma OneMoreCall<T>(w: World<T>, c: RetryConfig, timeout: Option<nat>, n: nat)
    requires n >= 1
    ensures var delay := Delay(c, n - 1, w.Draw(n));
            && Elapsed(w, c, n) == Elapsed(w, c, n - 1) + delay + w.Overslept(n) + w.Took(n)
            && Delays(w, c, n) == Delays(w, c, n - 1) + [delay]
            && (InTime(w, c, timeout, n) <==> (timeout.Some? ==> Elapsed(w, c, n - 1) + delay < timeout.value))
  {
  }

  lemma GoesOnOnce<T>(w: World<T>, c: RetryConfig, timeout: Option<nat>, anyError: bool, n: nat)
    requires n >= 1 && AllRetried(w, anyError, n) && AllInTime(w, c, timeout, n) && InTime(w, c, timeout, n)
    ensures AllInTime(w, c, timeout, n + 1)
    ensures GoesOn(w.Outcome(n), anyError) ==> AllRetried(w, anyError, n + 1)
    ensures !GoesOn(w.Outcome(n), anyError) && n <= c.maxAttempts ==>
              Explains(w, c, timeout, anyError, w.Outcome(n), n + 1)
  {
  }

  lemma EndsWithout<T>(w: World<T>, c: RetryConfig, timeout: Option<nat>, anyError: bool, n: nat)
    requires 1 <= n <= c.maxAttempts + 1 && AllRetried(w, anyError, n) && AllInTime(w, c, timeout, n)
    ensures n == c.maxAttempts + 1 ==> Explains(w, c, timeout, anyError, Failure(MaxRetriesExceeded(c.maxAttempts)), n)
    ensures n <= c.maxAttempts && !InTime(w, c, timeout, n) ==>
              Explains(w, c, timeout, anyError, Failure(BackoffTimeoutReached(Elapsed(w, c, n - 1))), n)
  {
    assert GoesOn(w.Outcome(n - 1), anyError);
  }

  class RetryExecutor {
    const totalTimeout: Option<nat>

    constructor (totalTimeout: Option<nat>)
      ensures this.totalTimeout == totalTimeout
    {
      this.totalTimeout := totalTimeout;
    }

    /** `delays` lists the delays slept. */
    method Execute<T>(w: World<T>) returns (r: Result<T, ChainError>, calls: nat, delays: seq<nat>)
      ensures Explains(w, FirstConfig(w.Outcome(0)), totalTimeout, false, r, calls)
      ensures |delays| == calls - 1
      ensures w.Outcome(0).Success? ==> r == w.Outcome(0) && delays == []
      ensures w.Outcome(0).Failure? ==> Follows(w.Outcome(0).error.Category(), delays)
      ensures w.Outcome(0).Failure? && totalTimeout.None? ==> Untimed(w, r, delays)
    {
      hide BaseDelay, Elapsed, InTime;
      r, calls, delays := w.Outcome(0), 1, [];
      if r.Failure? && r.error.Retryable() {
        var e := r.error;
        var config := Preset(e);
        r, calls, delays := RetryLoop(w, config.value, false);
        DelaysFollow(w, e, calls - 1);
      }
      if w.Outcome(0).Failure? && totalTimeout.None? {
        PlainRetryUntimed(w, r, calls, delays);
      }
    }

    method ExecuteWithConfig<T>(w: World<T>, config: RetryConfig)
      returns (r: Result<T, ChainError>, calls: nat, delays: seq<nat>)
      ensures Explains(w, config, totalTimeout, true, r, calls)
      ensures delays == Delays(w, config, calls - 1)
    {
      r, calls, delays := w.Outcome(0), 1, [];
      if r.Success? {
        return;
      }
      r, calls, delays := RetryLoop(w, config, true);
    }

    /** The loop after a first call that is to be retried; the backoff has handed out `calls - 1` delays. */
    method RetryLoop<T>(w: World<T>, config: RetryConfig, anyError: bool)
      returns (r: Result<T, ChainError>, calls: nat, delays: seq<nat>)
      requires GoesOn(w.Outcome(0), anyError)
      ensures Explains(w, config, totalTimeout, anyError, r, calls)
      ensures delays == Delays(w, config, calls - 1)
    {
      hide Delay, AllRetried, AllInTime, Explains, Elapsed, Delays, InTime;
      calls, delays := 1, [];
      OneCall(w, config, totalTimeout, anyError);
      var clock := w.Took(0);
      while true
        invariant 1 <= calls <= config.maxAttempts + 1
        invariant clock == Elapsed(w, config, calls - 1)
        invariant AllRetried(w, anyError, calls)
        invariant AllInTime(w, config, totalTimeout, calls)
        invariant delays == Delays(w, config, calls - 1)
        decreases config.maxAttempts + 1 - calls
      {
        EndsWithout(w, config, totalTimeout, anyError, calls);
        OneMoreCall(w, config, totalTimeout, calls);
        var delay := NextDelayAt(config, calls - 1, w.Draw(calls));
        if delay.None? {
          return Failure(MaxRetriesExceeded(config.maxAttempts)), calls, delays;
        }
        if totalTimeout.Some? && clock + delay.value >= totalTimeout.value {
          return Failure(BackoffTimeoutReached(clock)), calls, delays;
        }
        GoesOnOnce(w, config, totalTimeout, anyError, calls);
        delays := delays + [delay.value];
        clock := clock + delay.value + w.Overslept(calls) + w.Took(calls);
        r := w.Outcome(calls);
        calls := calls + 1;
        if !GoesOn(r, anyError) {
          return r, calls, delays;
        }
      }
    }
  }
}
