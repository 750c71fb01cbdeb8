/**
 The replay guard of the executor's miner authentication, and of its twin on
 the miner's request verification. A verification reads the clock first and
 takes the nonce table's lock later, so any number of verifications and
 cleanups may happen in between. The wall clock is assumed never to go back.
 Instants and durations are integer nanoseconds.
 */
module NonceGuard {
  import opened Basics

  const MINUTE: int := 60_000_000_000
  const HOUR: int := 60 * MINUTE

  type Nonce = string

  /** `hotkey` is the one miner that may call; None on the twin, which filters callers after the nonce check. */
  datatype Config = Config(hotkey: Option<string>, maxAge: int, verifySignatures: bool)

  /** `timestamp` is None when it does not decode to an instant, `nonce` is None when it is no UUID. */
  datatype Message = Message(hotkey: string, timestamp: Option<int>, nonce: Option<Nonce>)

  datatype Refusal = UnauthorizedMiner | InvalidTimestamp | TooOld | FromFuture | BadNonce | NonceUsed | BadSignature

  /** What a caller holds between its clock read and the lock. */
  datatype Ticket = Ticket(nonce: Nonce, timestamp: int, readAt: int)

  predicate Fresh(cfg: Config, timestamp: int, now: int) {
    -MINUTE <= now - timestamp <= cfg.maxAge
  }

  predicate IsManager(cfg: Config, m: Message) {
    cfg.hotkey.Some? ==> m.hotkey == cfg.hotkey.value
  }

  /** Every check made before the lock, in the order they are made. */
  function Precheck(cfg: Config, m: Message, now: int): (r: Result<Ticket, Refusal>)
    ensures r.Success? <==>
            && IsManager(cfg, m)
            && m.timestamp.Some? && m.nonce.Some?
            && Fresh(cfg, m.timestamp.value, now)
    ensures r.Success? ==> r.value == Ticket(m.nonce.value, m.timestamp.value, now)
    ensures r == Failure(UnauthorizedMiner) <==> cfg.hotkey.Some? && m.hotkey != cfg.hotkey.value
    ensures r == Failure(InvalidTimestamp) <==> IsManager(cfg, m) && m.timestamp.None?
    ensures r == Failure(TooOld) <==> IsManager(cfg, m) && m.timestamp.Some? && now > m.timestamp.value + cfg.maxAge
    ensures r == Failure(FromFuture) <==>
            && IsManager(cfg, m) && m.timestamp.Some?
            && now < m.timestamp.value - MINUTE && now <= m.timestamp.value + cfg.maxAge
    ensures r == Failure(BadNonce) <==>
            IsManager(cfg, m) && m.timestamp.Some? && Fresh(cfg, m.timestamp.value, now) && m.nonce.None?
    ensures r.Failure? ==> r.error !in {NonceUsed, BadSignature}
  {
    if cfg.hotkey.Some? && m.hotkey != cfg.hotkey.value then Failure(UnauthorizedMiner)
    else if m.timestamp.None? then Failure(InvalidTimestamp)
    else
      var age := now - m.timestamp.value;
      if age > cfg.maxAge then Failure(TooOld)
      else if age < 0 && -age > MINUTE then Failure(FromFuture)
      else if m.nonce.None? then Failure(BadNonce)
      else Success(Ticket(m.nonce.value, m.timestamp.value, now))
  }

  /** Drops every nonce at least `maxAge` plus one hour old at `now`. */
  function Prune(cfg: Config, used: map<Nonce, int>, now: int): map<Nonce, int> {
    var cutoff := now - cfg.maxAge - HOUR;
    map n | n in used && used[n] > cutoff :: used[n]
  }

  /** The table after a ticket whose nonce was free has gone through the locked section. */
  function Consumed(cfg: Config, used: map<Nonce, int>, t: Ticket): map<Nonce, int> {
    Prune(cfg, used[t.nonce := t.readAt], t.readAt)
  }

  class MinerAuthService {
    const cfg: Config
    var usedNonces: map<Nonce, int>

    constructor (cfg: Config)
      ensures this.cfg == cfg && usedNonces == map[]
    {
      this.cfg := cfg;
      usedNonces := map[];
    }

    /** The locked section. */
    method Admit(t: Ticket) returns (admitted: bool)
      modifies this
      ensures admitted <==> t.nonce !in old(usedNonces)
      ensures usedNonces == if admitted then Consumed(cfg, old(usedNonces), t) else old(usedNonces)
    {
      if t.nonce in usedNonces {
        return false;
      }
      usedNonces := usedNonces[t.nonce := t.readAt];
      var cutoff := t.readAt - cfg.maxAge - HOUR;
      usedNonces := map n | n in usedNonces && usedNonces[n] > cutoff :: usedNonces[n];
      admitted := true;
    }

    /** A whole verification. A bad signature still uses the nonce up. */
    method VerifyAuth(m: Message, now: int, signatureValid: bool) returns (r: Result<(), Refusal>)
      modifies this
      ensures r.Success? <==>
              && Precheck(cfg, m, now).Success?
              && m.nonce.value !in old(usedNonces)
              && (cfg.verifySignatures ==> signatureValid)
      ensures Precheck(cfg, m, now).Failure? ==> r == Failure(Precheck(cfg, m, now).error)
      ensures r == Failure(NonceUsed) <==> Precheck(cfg, m, now).Success? && m.nonce.value in old(usedNonces)
      ensures usedNonces ==
              if r.Success? || r.error.BadSignature?
              then Consumed(cfg, old(usedNonces), Precheck(cfg, m, now).value)
              else old(usedNonces)
    {
      var checked := Precheck(cfg, m, now);
      if checked.Failure? {
        return Failure(checked.error);
      }
      var admitted := Admit(checked.value);
      if !admitted {
        return Failure(NonceUsed);
      }
      if cfg.verifySignatures && !signatureValid {
        return Failure(BadSignature);
      }
      return Success(());
    }

    method CleanupExpiredNonces(now: int)
      modifies this
      ensures usedNonces == Prune(cfg, old(usedNonces), now)
    {
      var cutoff := now - cfg.maxAge - HOUR;
      usedNonces := map n | n in usedNonces && usedNonces[n] > cutoff :: usedNonces[n];
    }
  }

  // ----- Interleaved runs -----

  /** `waiting` holds the callers between clock read and lock; `passed` is the history of admitted tickets. */
  datatype State = State(clock: int, used: map<Nonce, int>, waiting: map<nat, Ticket>, passed: seq<Ticket>)

  datatype Step = Tick(elapsed: nat) | Arrive(caller: nat, m: Message) | Lock(caller: nat) | Cleanup

  function Init(clock: int): State {
    State(clock, map[], map[], [])
  }

  function Next(cfg: Config, s: State, step: Step): State {
    match step
    case Tick(elapsed) => s.(clock := s.clock + elapsed)
    case Arrive(c, m) =>
      var checked := Precheck(cfg, m, s.clock);
      if c in s.waiting || checked.Failure? then s
      else s.(waiting := s.waiting[c := checked.value])
    case Lock(c) =>
      if c !in s.waiting then s
      else
        var t := s.waiting[c];
        var rest := s.waiting - {c};
        if t.nonce in s.used then s.(waiting := rest)
        else s.(waiting := rest, used := Consumed(cfg, s.used, t), passed := s.passed + [t])
    case Cleanup => s.(used := Prune(cfg, s.used, s.clock))
  }

  function Run(cfg: Config, s: State, steps: seq<Step>): State
    decreases |steps|
  {
    if steps == [] then s else Run(cfg, Next(cfg, s, steps[0]), steps[1..])
  }

  /** A waiting caller takes the lock at most `maxDelay` after its clock read. */
  predicate Prompt(s: State, step: Step, maxDelay: int) {
    step.Lock? && step.caller in s.waiting ==> s.clock - s.waiting[step.caller].readAt <= maxDelay
  }

  predicate PromptRun(cfg: Config, s: State, steps: seq<Step>, maxDelay: int)
    decreases |steps|
  {
    steps == [] || (Prompt(s, steps[0], maxDelay) && PromptRun(cfg, Next(cfg, s, steps[0]), steps[1..], maxDelay))
  }

  /** No two admitted tickets carry the same nonce and timestamp. */
  ghost predicate AtMostOnce(passed: seq<Ticket>) {
    forall i, j :: 0 <= i < j < |passed| ==>
      passed[i].nonce != passed[j].nonce || passed[i].timestamp != passed[j].timestamp
  }

  ghost predicate ReplaySafe(cfg: Config, maxDelay: int) {
    forall start: int, steps: seq<Step> ::
      PromptRun(cfg, Init(start), steps, maxDelay) ==> AtMostOnce(Run(cfg, Init(start), steps).passed)
  }

  ghost predicate Timely(cfg: Config, s: State, t: Ticket) {
    t.readAt <= s.clock && Fresh(cfg, t.timestamp, t.readAt)
  }

  /** An admitted nonce is still stored, or the clock has moved past its retention. */
  ghost predicate Remembered(cfg: Config, s: State, t: Ticket) {
    (t.nonce in s.used && s.used[t.nonce] == t.readAt) || s.clock >= t.readAt + cfg.maxAge + HOUR
  }

  ghost predicate Inv(cfg: Config, s: State) {
    && (forall c :: c in s.waiting ==> Timely(cfg, s, s.waiting[c]))
    && (forall i :: 0 <= i < |s.passed| ==> Timely(cfg, s, s.passed[i]) && Remembered(cfg, s, s.passed[i]))
    && (forall n :: n in s.used ==> exists i :: 0 <= i < |s.passed| && s.passed[i].nonce == n)
  }

  lemma PassKeepsHistory(cfg: Config, s: State, c: nat)
    requires Inv(cfg, s) && c in s.waiting && s.waiting[c].nonce !in s.used
    ensures Inv(cfg, Next(cfg, s, Lock(c)))
  {
    var t, s' := s.waiting[c], Next(cfg, s, Lock(c));
    forall n | n in s'.used
      ensures exists i :: 0 <= i < |s'.passed| && s'.passed[i].nonce == n
    {
      if n == t.nonce {
        assert s'.passed[|s.passed|].nonce == n;
      } else {
        var i :| 0 <= i < |s.passed| && s.passed[i].nonce == n;
        assert s'.passed[i].nonce == n;
      }
    }
    forall i | 0 <= i < |s'.passed|
      ensures Timely(cfg, s', s'.passed[i]) && Remembered(cfg, s', s'.passed[i])
    {
      if i < |s.passed| {
        assert Timely(cfg, s, s.passed[i]) && Remembered(cfg, s, s.passed[i]);
      }
    }
  }

  lemma StepKeepsInv(cfg: Config, s: State, step: Step)
    requires Inv(cfg, s)
    ensures Inv(cfg, Next(cfg, s, step))
  {
    if step.Lock? && step.caller in s.waiting && s.waiting[step.caller].nonce !in s.used {
      PassKeepsHistory(cfg, s, step.caller);
    }
  }

  /** A prompt step admits no ticket that was admitted before: it goes stale before its nonce can be pruned. */
  lemma PromptStepAdmitsNoReplay(cfg: Config, s: State, step: Step, maxDelay: int)
    requires Inv(cfg, s) && AtMostOnce(s.passed)
    requires Prompt(s, step, maxDelay) && maxDelay < 59 * MINUTE
    ensures AtMostOnce(Next(cfg, s, step).passed)
  {
    if step.Lock? && step.caller in s.waiting && s.waiting[step.caller].nonce !in s.used {
      var t := s.waiting[step.caller];
      forall i | 0 <= i < |s.passed|
        ensures s.passed[i].nonce != t.nonce || s.passed[i].timestamp != t.timestamp
      {
        assert Remembered(cfg, s, s.passed[i]) && Timely(cfg, s, s.passed[i]) && Timely(cfg, s, t);
      }
    }
  }

  lemma {:induction false} PromptRunsAdmitOnce(cfg: Config, s: State, steps: seq<Step>, maxDelay: int)
    requires Inv(cfg, s) && AtMostOnce(s.passed)
    requires PromptRun(cfg, s, steps, maxDelay) && maxDelay < 59 * MINUTE
    ensures AtMostOnce(Run(cfg, s, steps).passed)
    decreases |steps|
  {
    if steps == [] {
    } else {
      StepKeepsInv(cfg, s, steps[0]);
      PromptStepAdmitsNoReplay(cfg, s, steps[0], maxDelay);
      PromptRunsAdmitOnce(cfg, Next(cfg, s, steps[0]), steps[1..], maxDelay);
    }
  }

  /** With a window that admits nothing, nothing is ever admitted twice. */
  lemma {:induction false} EmptyWindowAdmitsNothing(cfg: Config, s: State, steps: seq<Step>)
    requires cfg.maxAge < -MINUTE && s.waiting == map[] && s.passed == []
    ensures Run(cfg, s, steps).passed == []
    decreases |steps|
  {
    if steps == [] {
    } else {
      EmptyWindowAdmitsNothing(cfg, Next(cfg, s, steps[0]), steps[1..]);
    }
  }

  /** The run that replays a message when a caller may wait 59 minutes for the lock. */
  function SlowReplay(cfg: Config, m: Message): seq<Step> {
    [ Arrive(0, m), Lock(0),
      Tick(if cfg.maxAge < -MINUTE then 0 else MINUTE + cfg.maxAge), Arrive(1, m),
      Tick(59 * MINUTE), Cleanup, Lock(1) ]
  }

  lemma RunStep(cfg: Config, s: State, steps: seq<Step>, maxDelay: int)
    requires steps != []
    ensures Run(cfg, s, steps) == Run(cfg, Next(cfg, s, steps[0]), steps[1..])
    ensures PromptRun(cfg, s, steps, maxDelay) ==
            (Prompt(s, steps[0], maxDelay) && PromptRun(cfg, Next(cfg, s, steps[0]), steps[1..], maxDelay))
  {
  }

  lemma UnrollSeven(cfg: Config, s: State, steps: seq<Step>, maxDelay: int)
    requires |steps| == 7
    ensures
      var s1 := Next(cfg, s, steps[0]); var s2 := Next(cfg, s1, steps[1]);
      var s3 := Next(cfg, s2, steps[2]); var s4 := Next(cfg, s3, steps[3]);
      var s5 := Next(cfg, s4, steps[4]); var s6 := Next(cfg, s5, steps[5]);
      && Run(cfg, s, steps) == Next(cfg, s6, steps[6])
      && (PromptRun(cfg, s, steps, maxDelay) <==>
          && Prompt(s, steps[0], maxDelay) && Prompt(s1, steps[1], maxDelay)
          && Prompt(s2, steps[2], maxDelay) && Prompt(s3, steps[3], maxDelay)
          && Prompt(s4, steps[4], maxDelay) && Prompt(s5, steps[5], maxDelay)
          && Prompt(s6, steps[6], maxDelay))
  {
    RunStep(cfg, s, steps, maxDelay);
    var s1 := Next(cfg, s, steps[0]);
    RunStep(cfg, s1, steps[1..], maxDelay);
    assert steps[1..][1..] == steps[2..];
    var s2 := Next(cfg, s1, steps[1]);
    RunStep(cfg, s2, steps[2..], maxDelay);
    assert steps[2..][1..] == steps[3..];
    var s3 := Next(cfg, s2, steps[2]);
    RunStep(cfg, s3, steps[3..], maxDelay);
    assert steps[3..][1..] == steps[4..];
    var s4 := Next(cfg, s3, steps[3]);
    RunStep(cfg, s4, steps[4..], maxDelay);
    assert steps[4..][1..] == steps[5..];
    var s5 := Next(cfg, s4, steps[4]);
    RunStep(cfg, s5, steps[5..], maxDelay);
    assert steps[5..][1..] == steps[6..];
    var s6 := Next(cfg, s5, steps[5]);
    RunStep(cfg, s6, steps[6..], maxDelay);
    assert steps[6..][1..] == [];
  }

  lemma SlowLockReplays(cfg: Config, maxDelay: int)
    requires cfg.maxAge >= -MINUTE && maxDelay >= 59 * MINUTE
    ensures !ReplaySafe(cfg, maxDelay)
  {
    var m := Message(if cfg.hotkey.Some? then cfg.hotkey.value else "", Some(MINUTE), Some("n"));
    var steps := SlowReplay(cfg, m);
    var t0, t1 := Ticket("n", MINUTE, 0), Ticket("n", MINUTE, MINUTE + cfg.maxAge);
    var s0 := Init(0);
    var s1 := Next(cfg, s0, steps[0]);
    assert s1 == State(0, map[], map[0 := t0], []);
    var s2 := Next(cfg, s1, steps[1]);
    assert s2 == State(0, map["n" := 0], map[], [t0]);
    var s3 := Next(cfg, s2, steps[2]);
    var s4 := Next(cfg, s3, steps[3]);
    assert s4 == State(MINUTE + cfg.maxAge, map["n" := 0], map[1 := t1], [t0]);
    var s5 := Next(cfg, s4, steps[4]);
    var s6 := Next(cfg, s5, steps[5]);
    assert s6.used == map[];
    var s7 := Next(cfg, s6, steps[6]);
    assert s7.passed == [t0, t1];
    UnrollSeven(cfg, s0, steps, maxDelay);
    assert s7.passed[0].nonce == s7.passed[1].nonce && s7.passed[0].timestamp == s7.passed[1].timestamp;
    assert !AtMostOnce(s7.passed);
    assert PromptRun(cfg, Init(0), steps, maxDelay);
  }

  /** The exact bound: replay is impossible in every interleaving just when no caller may wait 59 minutes. */
  lemma ReplaySafeExactly(cfg: Config, maxDelay: int)
    ensures ReplaySafe(cfg, maxDelay) <==> maxDelay < 59 * MINUTE || cfg.maxAge < -MINUTE
  {
    if maxDelay >= 59 * MINUTE && cfg.maxAge >= -MINUTE {
      SlowLockReplays(cfg, maxDelay);
    } else {
      forall start: int, steps: seq<Step> | PromptRun(cfg, Init(start), steps, maxDelay)
        ensures AtMostOnce(Run(cfg, Init(start), steps).passed)
      {
        if maxDelay < 59 * MINUTE {
          PromptRunsAdmitOnce(cfg, Init(start), steps, maxDelay);
        } else {
          EmptyWindowAdmitsNothing(cfg, Init(start), steps);
        }
      }
    }
  }

  /** The guard never cries wolf: in every run, a nonce that no admitted ticket carries is not refused. */
  lemma {:induction false} UnseenNonceIsAdmitted(cfg: Config, s: State, steps: seq<Step>, c: nat)
    requires Inv(cfg, s)
    requires var s' := Run(cfg, s, steps);
             && c in s'.waiting
             && forall i :: 0 <= i < |s'.passed| ==> s'.passed[i].nonce != s'.waiting[c].nonce
    ensures var s' := Run(cfg, s, steps);
            Next(cfg, s', Lock(c)).passed == s'.passed + [s'.waiting[c]]
    decreases |steps|
  {
    if steps == [] {
    } else {
      StepKeepsInv(cfg, s, steps[0]);
      UnseenNonceIsAdmitted(cfg, Next(cfg, s, steps[0]), steps[1..], c);
    }
  }
}
