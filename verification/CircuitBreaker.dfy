/**
 The circuit breaker, alone and as the chain service shares it: a caller
 clones the stored breaker under the lock, runs its call through the clone
 without the lock, and stores the clone back. Instants are integers on a
 monotonic clock.
 */
module CircuitBreaker {
  import opened Basics

  /** The service's settings, the timeout in milliseconds. */
  const FAILURE_THRESHOLD: nat := 5
  const RECOVERY_TIMEOUT: nat := 60_000

  datatype CircuitState = Closed | Open | HalfOpen

  datatype Breaker = Breaker(
    threshold: nat, recovery: nat, failures: nat, state: CircuitState, lastFailure: Option<int>)

  function New(threshold: nat, recovery: nat): Breaker {
    Breaker(threshold, recovery, 0, Closed, None)
  }

  /** One use of the breaker: it arrives at an instant, and if admitted its operation ends at another. */
  datatype Call = Call(arrives: int, succeeds: bool, ends: int)

  /** The gate in front of the operation; None when the call is turned away. */
  function Gate(b: Breaker, now: int): Option<Breaker> {
    if !b.state.Open? then Some(b)
    else if b.lastFailure.Some? && now - b.lastFailure.value >= b.recovery then Some(b.(state := HalfOpen))
    else None
  }

  /** What the end of an admitted operation does. */
  function Settle(b: Breaker, succeeds: bool, now: int): Breaker {
    if succeeds then
      b.(state := if b.state.HalfOpen? then Closed else b.state, failures := 0, lastFailure := None)
    else
      var failures := b.failures + 1;
      b.(failures := failures, lastFailure := Some(now), state := if failures >= b.threshold then Open else b.state)
  }

  function After(b: Breaker, c: Call): Breaker {
    var gated := Gate(b, c.arrives);
    if gated.None? then b else Settle(gated.value, c.succeeds, c.ends)
  }

  function Run(b: Breaker, calls: seq<Call>): Breaker {
    if calls == [] then b else After(Run(b, calls[..|calls| - 1]), calls[|calls| - 1])
  }

  class CircuitBreakerCell {
    var failureThreshold: nat
    var recoveryTimeout: nat
    var currentFailures: nat
    var state: CircuitState
    var lastFailureTime: Option<int>

    constructor (failureThreshold: nat, recoveryTimeout: nat)
      ensures Value() == Breaker(failureThreshold, recoveryTimeout, 0, Closed, None)
    {
      this.failureThreshold, this.recoveryTimeout := failureThreshold, recoveryTimeout;
      currentFailures, state, lastFailureTime := 0, Closed, None;
    }

    constructor Clone(b: Breaker)
      ensures Value() == b
    {
      failureThreshold, recoveryTimeout := b.threshold, b.recovery;
      currentFailures, state, lastFailureTime := b.failures, b.state, b.lastFailure;
    }

    function Value(): Breaker
      reads this
    {
      Breaker(failureThreshold, recoveryTimeout, currentFailures, state, lastFailureTime)
    }

    /** `invoked` tells whether the operation was run at all. */
    method Execute(c: Call) returns (invoked: bool)
      modifies this
      ensures Value() == After(old(Value()), c)
      ensures invoked <==> Gate(old(Value()), c.arrives).Some?
    {
      if state.Open? {
        if lastFailureTime.Some? {
          if c.arrives - lastFailureTime.value >= recoveryTimeout {
            state := HalfOpen;
          } else {
            return false;
          }
        } else {
          return false;
        }
      }
      if c.succeeds {
        if state.HalfOpen? {
          state := Closed;
        }
        currentFailures := 0;
        lastFailureTime := None;
      } else {
        currentFailures := currentFailures + 1;
        lastFailureTime := Some(c.ends);
        if currentFailures >= failureThreshold {
          state := Open;
        }
      }
      return true;
    }
  }

  /** The chain service's use of its breaker when nobody else uses it meanwhile. */
  class BittensorService {
    var circuitBreaker: Breaker

    constructor ()
      ensures circuitBreaker == Breaker(5, 60_000, 0, Closed, None)
    {
      circuitBreaker := New(FAILURE_THRESHOLD, RECOVERY_TIMEOUT);
    }

    method GetMetagraph(c: Call) returns (invoked: bool)
      modifies this
      ensures circuitBreaker == After(old(circuitBreaker), c)
      ensures invoked <==> Gate(old(circuitBreaker), c.arrives).Some?
    {
      var clone := new CircuitBreakerCell.Clone(circuitBreaker);
      invoked := clone.Execute(c);
      circuitBreaker := clone.Value();
    }

    method ResetCircuitBreaker()
      modifies this
      ensures circuitBreaker == Breaker(5, 60_000, 0, Closed, None)
    {
      circuitBreaker := New(FAILURE_THRESHOLD, RECOVERY_TIMEOUT);
    }
  }

  // ----- The breaker as a function of its history -----

  /** A breaker opens at its threshold, and at the first failure if the threshold is zero. */
  function Limit(threshold: nat): nat {
    Max(1, threshold)
  }

  /** Length of the run of failures at the end. */
  function TrailingFailures(done: seq<Call>): nat {
    if done == [] || done[|done| - 1].succeeds then 0 else 1 + TrailingFailures(done[..|done| - 1])
  }

  /** Fewer than the limit of trailing failures, or the last of them a recovery period ago. */
  predicate Admits(threshold: nat, recovery: nat, done: seq<Call>, now: int) {
    || TrailingFailures(done) < Limit(threshold)
    || (done != [] && now - done[|done| - 1].ends >= recovery)
  }

  /** The calls whose operation was run, by a rule on the history alone. */
  function Invoked(threshold: nat, recovery: nat, calls: seq<Call>): seq<Call> {
    if calls == [] then []
    else
      var done := Invoked(threshold, recovery, calls[..|calls| - 1]);
      var c := calls[|calls| - 1];
      if Admits(threshold, recovery, done, c.arrives) then done + [c] else done
  }

  /** The breaker that a history of run operations stands for. */
  function FromHistory(threshold: nat, recovery: nat, done: seq<Call>): Breaker {
    var n := TrailingFailures(done);
    Breaker(threshold, recovery, n,
            if n >= Limit(threshold) then Open else Closed,
            if n == 0 then None else Some(done[|done| - 1].ends))
  }

  /** Between calls the breaker is the one its history of run operations stands for. */
  lemma {:induction false} BreakerIsItsHistory(threshold: nat, recovery: nat, calls: seq<Call>)
    ensures Run(New(threshold, recovery), calls)
            == FromHistory(threshold, recovery, Invoked(threshold, recovery, calls))
  {
    if calls == [] {
    } else {
      BreakerIsItsHistory(threshold, recovery, calls[..|calls| - 1]);
      var done := Invoked(threshold, recovery, calls[..|calls| - 1]);
      var c := calls[|calls| - 1];
      assert (done + [c])[..|done|] == done;
    }
  }

  /** So a call is turned away exactly when the history rule says so. */
  lemma GateFollowsHistory(threshold: nat, recovery: nat, calls: seq<Call>, now: int)
    ensures Gate(Run(New(threshold, recovery), calls), now).Some?
            <==> Admits(threshold, recovery, Invoked(threshold, recovery, calls), now)
  {
    BreakerIsItsHistory(threshold, recovery, calls);
  }

  // ----- How often a failing operation is run -----

  /** Each call ends no earlier than it arrives, and arrives no earlier than the one before ended. */
  ghost predicate Ordered(start: int, calls: seq<Call>) {
    && (forall i :: 0 <= i < |calls| ==> start <= calls[i].arrives <= calls[i].ends)
    && (forall i, j :: 0 <= i < j < |calls| ==> calls[i].ends <= calls[j].arrives)
  }

  ghost predicate AllFail(calls: seq<Call>) {
    forall i :: 0 <= i < |calls| ==> !calls[i].succeeds
  }

  lemma {:induction false} InvokedFailures(threshold: nat, recovery: nat, calls: seq<Call>)
    requires AllFail(calls)
    ensures var done := Invoked(threshold, recovery, calls);
            TrailingFailures(done) == |done| && (done != [] ==> done[|done| - 1] in calls)
  {
    if calls == [] {
    } else {
      var prior, c := calls[..|calls| - 1], calls[|calls| - 1];
      InvokedFailures(threshold, recovery, prior);
      var done := Invoked(threshold, recovery, prior);
      assert (done + [c])[..|done|] == done;
    }
  }

  /** The earliest end of the last of `runs` failed runs: those beyond the limit wait out a recovery each. */
  function Earliest(threshold: nat, recovery: nat, start: int, runs: nat): int {
    if runs <= Limit(threshold) then start else Earliest(threshold, recovery, start, runs - 1) + recovery
  }

  lemma {:induction false} FailuresTakeTime(threshold: nat, recovery: nat, start: int, calls: seq<Call>)
    requires Ordered(start, calls) && AllFail(calls)
    ensures var done := Invoked(threshold, recovery, calls);
            done != [] ==> done[|done| - 1].ends >= Earliest(threshold, recovery, start, |done|)
  {
    if calls == [] {
    } else {
      var prior, c := calls[..|calls| - 1], calls[|calls| - 1];
      InvokedFailures(threshold, recovery, prior);
      FailuresTakeTime(threshold, recovery, start, prior);
    }
  }

  lemma {:induction false} EarliestIsLinear(threshold: nat, recovery: nat, start: int, runs: nat)
    requires runs >= Limit(threshold)
    ensures Earliest(threshold, recovery, start, runs) == start + (runs - Limit(threshold)) * recovery
  {
    if runs > Limit(threshold) {
      EarliestIsLinear(threshold, recovery, start, runs - 1);
      assert (runs - Limit(threshold)) * recovery == (runs - 1 - Limit(threshold)) * recovery + recovery;
    }
  }

  lemma QuotientBound(n: nat, span: nat, recovery: nat)
    requires recovery > 0 && n * recovery <= span
    ensures n <= span / recovery
  {
    DivBounds(span, recovery);
    if n > span / recovery {
      MulMono(span / recovery + 1, n, recovery);
      assert false;
    }
  }

  /** While it only fails, an operation is run at most its limit plus once per recovery period. */
  lemma FailureRate(threshold: nat, recovery: nat, start: int, finish: int, calls: seq<Call>)
    requires recovery > 0 && start <= finish && Ordered(start, calls)
    requires AllFail(calls) && forall i :: 0 <= i < |calls| ==> calls[i].ends <= finish
    ensures |Invoked(threshold, recovery, calls)| <= Limit(threshold) + (finish - start) / recovery
  {
    hide Invoked, Earliest, TrailingFailures, Ordered;
    InvokedFailures(threshold, recovery, calls);
    FailuresTakeTime(threshold, recovery, start, calls);
    var n := |Invoked(threshold, recovery, calls)|;
    if n >= Limit(threshold) {
      EarliestIsLinear(threshold, recovery, start, n);
      QuotientBound(n - Limit(threshold), finish - start, recovery);
    }
  }

  // ----- The shared breaker -----

  /** A clone in a caller's hands: when it was taken, and which stored calls made it. */
  datatype Clone = Clone(breaker: Breaker, takenAt: int, chain: seq<nat>)

  /**
   `log` lists every call whose clone was stored back, in that order; `chain`
   is the part of it that the stored breaker has seen, by position; `since` is
   how much of it came before the last reset; `failed` counts the stored calls
   whose operation was run and failed.
   */
  datatype Shared = Shared(
    clock: int, stored: Breaker, chain: seq<nat>, clones: map<nat, Clone>, log: seq<Call>, since: nat, failed: nat)

  datatype Step =
    | Tick(elapsed: nat)
    | Take(caller: nat)
    | Store(caller: nat, call: Call)
    | Reset

  function InitShared(threshold: nat, recovery: nat, clock: int): Shared {
    Shared(clock, New(threshold, recovery), [], map[], [], 0, 0)
  }

  function Next(s: Shared, step: Step): Shared {
    match step
    case Tick(elapsed) => s.(clock := s.clock + elapsed)
    case Take(c) => s.(clones := s.clones[c := Clone(s.stored, s.clock, s.chain)])
    case Store(c, call) =>
      if c !in s.clones then s
      else
        var clone := s.clones[c];
        s.(stored := After(clone.breaker, call), chain := clone.chain + [|s.log|],
           clones := s.clones - {c}, log := s.log + [call],
           failed := s.failed + if Gate(clone.breaker, call.arrives).Some? && !call.succeeds then 1 else 0)
    case Reset => s.(stored := New(s.stored.threshold, s.stored.recovery), chain := [], since := |s.log|)
  }

  /** A call arrives after its clone was taken and is over by the time the clone is stored. */
  predicate Possible(s: Shared, step: Step) {
    step.Store? && step.caller in s.clones ==>
      s.clones[step.caller].takenAt <= step.call.arrives <= step.call.ends <= s.clock
  }

  function RunShared(s: Shared, steps: seq<Step>): Shared
    decreases |steps|
  {
    if steps == [] then s else RunShared(Next(s, steps[0]), steps[1..])
  }

  predicate PossibleRun(s: Shared, steps: seq<Step>)
    decreases |steps|
  {
    steps == [] || (Possible(s, steps[0]) && PossibleRun(Next(s, steps[0]), steps[1..]))
  }

  /** The calls at the given positions of the log. */
  function Pick(log: seq<Call>, at: seq<nat>): (picked: seq<Call>)
    requires forall k :: 0 <= k < |at| ==> at[k] < |log|
    ensures |picked| == |at|
    ensures forall k :: 0 <= k < |at| ==> picked[k] == log[at[k]]
  {
    seq(|at|, k requires 0 <= k < |at| => log[at[k]])
  }

  ghost predicate Increasing(at: seq<nat>, bound: nat) {
    && (forall k :: 0 <= k < |at| ==> at[k] < bound)
    && (forall i, j :: 0 <= i < j < |at| ==> at[i] < at[j])
  }

  /** The breaker is what the sequential breaker becomes on the picked calls, and those are in time order. */
  ghost predicate Explained(threshold: nat, recovery: nat, start: int, log: seq<Call>,
                            b: Breaker, chain: seq<nat>, latest: int)
  {
    && Increasing(chain, |log|)
    && b == Run(New(threshold, recovery), Pick(log, chain))
    && Ordered(start, Pick(log, chain))
    && (forall k :: 0 <= k < |chain| ==> log[chain[k]].ends <= latest)
  }

  ghost predicate Inv(threshold: nat, recovery: nat, start: int, s: Shared) {
    && start <= s.clock
    && Explained(threshold, recovery, start, s.log, s.stored, s.chain, s.clock)
    && s.stored.failures <= s.failed
    && forall c :: c in s.clones ==>
         && start <= s.clones[c].takenAt <= s.clock
         && s.clones[c].breaker.failures <= s.failed
         && Explained(threshold, recovery, start, s.log, s.clones[c].breaker, s.clones[c].chain, s.clones[c].takenAt)
  }

  lemma LogGrows(threshold: nat, recovery: nat, start: int, log: seq<Call>, call: Call,
                 b: Breaker, chain: seq<nat>, latest: int)
    requires Explained(threshold, recovery, start, log, b, chain, latest)
    ensures Explained(threshold, recovery, start, log + [call], b, chain, latest)
  {
    assert Pick(log + [call], chain) == Pick(log, chain);
  }

  lemma OrderedSnoc(start: int, calls: seq<Call>, call: Call)
    requires Ordered(start, calls) && start <= call.arrives <= call.ends
    requires forall i :: 0 <= i < |calls| ==> calls[i].ends <= call.arrives
    ensures Ordered(start, calls + [call])
  {
  }

  lemma RunSnoc(b: Breaker, calls: seq<Call>, call: Call)
    ensures Run(b, calls + [call]) == After(Run(b, calls), call)
  {
    assert (calls + [call])[..|calls|] == calls;
  }

  lemma ChainGrows(threshold: nat, recovery: nat, start: int, log: seq<Call>, call: Call,
                   b: Breaker, chain: seq<nat>, latest: int)
    requires Explained(threshold, recovery, start, log, b, chain, latest)
    requires start <= latest <= call.arrives <= call.ends
    ensures Explained(threshold, recovery, start, log + [call], After(b, call), chain + [|log|], call.ends)
  {
    hide Run, After;
    var picked := Pick(log, chain);
    assert Pick(log + [call], chain + [|log|]) == picked + [call];
    OrderedSnoc(start, picked, call);
    RunSnoc(New(threshold, recovery), picked, call);
  }

  lemma ThresholdsStay(b: Breaker, calls: seq<Call>)
    ensures Run(b, calls).threshold == b.threshold && Run(b, calls).recovery == b.recovery
  {
  }

  lemma SharedStep(threshold: nat, recovery: nat, start: int, s: Shared, step: Step)
    requires Inv(threshold, recovery, start, s) && Possible(s, step)
    ensures Inv(threshold, recovery, start, Next(s, step))
  {
    if step.Store? && step.caller in s.clones {
      var clone := s.clones[step.caller];
      ChainGrows(threshold, recovery, start, s.log, step.call, clone.breaker, clone.chain, clone.takenAt);
      forall c | c in s.clones
        ensures Explained(threshold, recovery, start, s.log + [step.call],
                          s.clones[c].breaker, s.clones[c].chain, s.clones[c].takenAt)
      {
        LogGrows(threshold, recovery, start, s.log, step.call, s.clones[c].breaker, s.clones[c].chain, s.clones[c].takenAt);
      }
    } else if step.Reset? {
      ThresholdsStay(New(threshold, recovery), Pick(s.log, s.chain));
    }
  }

  /**
   However calls and resets overlap, the stored breaker is what the sequential
   breaker becomes on some of the stored calls, in the order they were stored
   and none overlapping the next; overlapping calls lose updates and nothing else.
   */
  lemma {:induction false} SharedRunsAreExplained(threshold: nat, recovery: nat, start: int, s: Shared, steps: seq<Step>)
    requires Inv(threshold, recovery, start, s) && PossibleRun(s, steps)
    ensures Inv(threshold, recovery, start, RunShared(s, steps))
    decreases |steps|
  {
    if steps == [] {
    } else {
      SharedStep(threshold, recovery, start, s, steps[0]);
      SharedRunsAreExplained(threshold, recovery, start, Next(s, steps[0]), steps[1..]);
    }
  }

  lemma InitExplained(threshold: nat, recovery: nat, start: int)
    ensures Inv(threshold, recovery, start, InitShared(threshold, recovery, start))
  {
  }

  /** The stored breaker is never half open, is open just at its limit, and counts no failure that was not stored. */
  lemma SharedBreakerShape(threshold: nat, recovery: nat, start: int, steps: seq<Step>)
    requires PossibleRun(InitShared(threshold, recovery, start), steps)
    ensures var s := RunShared(InitShared(threshold, recovery, start), steps);
            && !s.stored.state.HalfOpen?
            && (s.stored.state.Open? <==> s.stored.failures >= Limit(threshold))
            && s.stored.failures <= s.failed
  {
    hide Run, Invoked, RunShared;
    var s0 := InitShared(threshold, recovery, start);
    InitExplained(threshold, recovery, start);
    SharedRunsAreExplained(threshold, recovery, start, s0, steps);
    var s := RunShared(s0, steps);
    BreakerIsItsHistory(threshold, recovery, Pick(s.log, s.chain));
  }

  // ----- Calls that do not overlap -----

  /** The positions from `lo` up to `hi`. */
  function Positions(lo: nat, hi: nat): seq<nat>
    requires lo <= hi
  {
    seq(hi - lo, k requires 0 <= k => lo + k)
  }

  /** A clone is stored back only while the stored breaker has still seen the calls that the clone has. */
  predicate Undisturbed(s: Shared, step: Step) {
    step.Store? && step.caller in s.clones ==> s.clones[step.caller].chain == s.chain
  }

  predicate UndisturbedRun(s: Shared, steps: seq<Step>)
    decreases |steps|
  {
    steps == [] || (Undisturbed(s, steps[0]) && UndisturbedRun(Next(s, steps[0]), steps[1..]))
  }

  /** The stored breaker has seen every call since the last reset. */
  predicate SeenAll(s: Shared) {
    s.since <= |s.log| && s.chain == Positions(s.since, |s.log|)
  }

  lemma UndisturbedStep(s: Shared, step: Step)
    requires SeenAll(s) && Undisturbed(s, step)
    ensures SeenAll(Next(s, step))
  {
  }

  /**
   Without overlap no update is lost: whatever resets come in between, the
   stored breaker is the sequential one on all the calls since the last reset.
   */
  lemma {:induction false} NonOverlappingRefines(threshold: nat, recovery: nat, start: int, s: Shared, steps: seq<Step>)
    requires Inv(threshold, recovery, start, s) && SeenAll(s)
    requires PossibleRun(s, steps) && UndisturbedRun(s, steps)
    ensures var s' := RunShared(s, steps);
            s'.since <= |s'.log| && s'.stored == Run(New(threshold, recovery), s'.log[s'.since..])
    decreases |steps|
  {
    if steps == [] {
      assert Pick(s.log, s.chain) == s.log[s.since..];
    } else {
      SharedStep(threshold, recovery, start, s, steps[0]);
      UndisturbedStep(s, steps[0]);
      NonOverlappingRefines(threshold, recovery, start, Next(s, steps[0]), steps[1..]);
    }
  }
}
