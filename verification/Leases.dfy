/**
 Executor leases: assignment rounds replace the stored table while health
 checks change what is listed, and a lease request is offered the listed
 executors that the table assigns to the requesting validator.
 */
module Leases {
  import opened Basics
  import Health = HealthMonitor
  import Jwt = JwtSessions
  import opened Allocation

  datatype Strategy =
    | RoundRobinStrategy
    | StakeBasedStrategy(minStake: nat, perTao: real)
    | BusinessLogicStrategy(preferred: seq<Hotkey>, cap: nat)
    | HighestStakeStrategy(stakes: Option<map<Hotkey, real>>, threshold: real, configured: Option<Hotkey>)

  /** The tables a strategy may come up with. */
  ghost predicate Produces(strategy: Strategy, vs: seq<Validator>, xs: seq<ExecutorId>, t: Table) {
    match strategy
    case RoundRobinStrategy => IsRoundRobin(WithEndpoint(vs), xs, t)
    case StakeBasedStrategy(minStake, perTao) => t == Served(StakeClaims(StakeOrder(vs, minStake), perTao), xs)
    case BusinessLogicStrategy(preferred, cap) => t == Served(BusinessClaims(vs, preferred, cap, xs), xs)
    case HighestStakeStrategy(stakes, threshold, configured) =>
      if stakes.None? then t == map[]
      else IsHighestStake(vs, xs, stakes.value, threshold, configured, t)
  }

  datatype Status = Unauthenticated | PermissionDenied

  /** The listed executors that are among `ids`, in listing order. */
  function Among(listing: seq<ExecutorId>, ids: seq<ExecutorId>): seq<ExecutorId> {
    if listing == [] then []
    else
      var n := |listing| - 1;
      Among(listing[..n], ids) + if listing[n] in ids then [listing[n]] else []
  }

  lemma {:induction false} InAmong(listing: seq<ExecutorId>, ids: seq<ExecutorId>, x: ExecutorId)
    ensures x in Among(listing, ids) <==> x in listing && x in ids
  {
    if listing == [] {
    } else {
      InAmong(listing[..|listing| - 1], ids, x);
    }
  }

  lemma AmongSnoc(listing: seq<ExecutorId>, x: ExecutorId, ids: seq<ExecutorId>)
    ensures Among(listing + [x], ids) == Among(listing, ids) + if x in ids then [x] else []
  {
    assert (listing + [x])[..|listing|] == listing;
  }

  /** What is offered keeps the listing's order and repetitions. */
  lemma {:induction false} AmongInOrder(front: seq<ExecutorId>, back: seq<ExecutorId>, ids: seq<ExecutorId>)
    ensures Among(front + back, ids) == Among(front, ids) + Among(back, ids)
    ensures |back| == 1 ==> Among(back, ids) == if back[0] in ids then back else []
  {
    assert Among([], ids) == [];
    hide Among;
    if back == [] {
      assert front + back == front && Among(front, ids) + [] == Among(front, ids);
    } else {
      var (rest, last) := (back[..|back| - 1], back[|back| - 1]);
      var added := if last in ids then [last] else [];
      assert rest + [last] == back;
      ConcatAssociates(front, rest, [last]);
      calc {
        Among(front + back, ids);
        { AmongSnoc(front + rest, last, ids); }
        Among(front + rest, ids) + added;
        { AmongInOrder(front, rest, ids); }
        Among(front, ids) + Among(rest, ids) + added;
        { ConcatAssociates(Among(front, ids), Among(rest, ids), added); }
        Among(front, ids) + (Among(rest, ids) + added);
        { AmongSnoc(rest, last, ids); }
        Among(front, ids) + Among(back, ids);
      }
      if |back| == 1 {
        assert rest == [];
        AmongSnoc(rest, last, ids);
      }
    }
  }

  lemma {:induction false} NothingAmongNothing(listing: seq<ExecutorId>)
    ensures Among(listing, []) == []
  {
    if listing == [] {
    } else {
      NothingAmongNothing(listing[..|listing| - 1]);
    }
  }

  class MinerComms {
    const strategy: Strategy
    const discoveryEnabled: bool
    var assignments: Table

    constructor (strategy: Strategy, discoveryEnabled: bool)
      ensures this.strategy == strategy && this.discoveryEnabled == discoveryEnabled && assignments == map[]
    {
      this.strategy, this.discoveryEnabled, assignments := strategy, discoveryEnabled, map[];
    }

    /** `vs` and `listing` are None when the chain or the executor manager cannot be asked. */
    method DiscoverAndAssign(vs: Option<seq<Validator>>, listing: Option<seq<ExecutorId>>) returns (ok: bool)
      modifies this
      ensures ok <==> vs.Some? && listing.Some?
      ensures if ok then Produces(strategy, vs.value, listing.value, assignments) else assignments == old(assignments)
    {
      if vs.None? || listing.None? {
        return false;
      }
      var t: Table;
      match strategy {
        case RoundRobinStrategy =>
          t := RoundRobin(vs.value, listing.value);
        case StakeBasedStrategy(minStake, perTao) =>
          t := StakeBased(vs.value, listing.value, minStake, perTao);
        case BusinessLogicStrategy(preferred, cap) =>
          t := BusinessLogic(vs.value, listing.value, preferred, cap);
        case HighestStakeStrategy(stakes, threshold, configured) =>
          t := HighestStake(vs.value, listing.value, stakes, threshold, configured);
      }
      assignments := t;
      return true;
    }

    /** `token` holds the claims of the session token, or None when its validation failed. */
    method RequestExecutorLease(token: Option<Jwt.Claims>, listing: seq<ExecutorId>)
      returns (r: Result<seq<ExecutorId>, Status>)
      ensures r.Failure? ==> r.error == if token.None? then Unauthenticated else PermissionDenied
      ensures r.Success? <==> token.Some? && "executor.list" in token.value.permissions
      ensures r.Success? && discoveryEnabled ==> r.value == Among(listing, ShareOf(assignments, token.value.sub))
      ensures r.Success? && !discoveryEnabled ==> r.value == listing
    {
      if token.None? {
        return Failure(Unauthenticated);
      }
      if "executor.list" !in token.value.permissions {
        return Failure(PermissionDenied);
      }
      if !discoveryEnabled {
        return Success(listing);
      }
      if token.value.sub !in assignments {
        NothingAmongNothing(listing);
        return Success([]);
      }
      return Success(Among(listing, assignments[token.value.sub]));
    }
  }

  // ----- Runs -----

  datatype Miner = Miner(maxAttempts: nat, fleet: Health.Fleet, table: Table)

  datatype Step =
    | CheckStep(id: ExecutorId, probe: Health.Probe)
    | AssignStep(strategy: Strategy, validators: seq<Validator>, listing: seq<ExecutorId>, table: Table)

  function Next(s: Miner, step: Step): Miner {
    match step
    case CheckStep(id, probe) => s.(fleet := Health.Check(s.maxAttempts, s.fleet, id, probe))
    case AssignStep(_, _, _, table) => s.(table := table)
  }

  /** An assignment round works on a current listing and stores what its strategy produced. */
  ghost predicate Possible(s: Miner, step: Step) {
    step.AssignStep? ==>
      Health.IsListing(s.fleet, step.listing) && Produces(step.strategy, step.validators, step.listing, step.table)
  }

  function Run(s: Miner, steps: seq<Step>): Miner
    decreases |steps|
  {
    if steps == [] then s else Run(Next(s, steps[0]), steps[1..])
  }

  ghost predicate PossibleRun(s: Miner, steps: seq<Step>)
    decreases |steps|
  {
    steps == [] || (Possible(s, steps[0]) && PossibleRun(Next(s, steps[0]), steps[1..]))
  }

  /** Every strategy hands out each executor at most once. */
  lemma EveryStrategyExclusive(strategy: Strategy, vs: seq<Validator>, xs: seq<ExecutorId>, t: Table)
    requires Distinct(xs) && Produces(strategy, vs, xs, t)
    ensures Exclusive(t)
  {
    match strategy
    case RoundRobinStrategy => RoundRobinExclusive(WithEndpoint(vs), xs, t);
    case StakeBasedStrategy(minStake, perTao) => ServedExclusive(StakeClaims(StakeOrder(vs, minStake), perTao), xs);
    case BusinessLogicStrategy(preferred, cap) => ServedExclusive(BusinessClaims(vs, preferred, cap, xs), xs);
    case HighestStakeStrategy(_, _, _) =>
  }

  lemma {:induction false} TableStaysExclusive(s: Miner, steps: seq<Step>)
    requires Exclusive(s.table) && PossibleRun(s, steps)
    ensures Exclusive(Run(s, steps).table)
    decreases |steps|
  {
    if steps == [] {
    } else {
      if steps[0].AssignStep? {
        EveryStrategyExclusive(steps[0].strategy, steps[0].validators, steps[0].listing, steps[0].table);
      }
      TableStaysExclusive(Next(s, steps[0]), steps[1..]);
    }
  }

  /**
   After any rounds and health checks, no executor is offered to two
   validators against one table, even if they ask against different listings,
   and whatever is offered is healthy in the listing used.
   */
  lemma LeasesAreExclusive(s: Miner, steps: seq<Step>, g: Hotkey, h: Hotkey,
                           listing: seq<ExecutorId>, other: seq<ExecutorId>, x: ExecutorId)
    requires Exclusive(s.table) && PossibleRun(s, steps) && g != h
    requires Health.IsListing(Run(s, steps).fleet, listing)
    ensures var s' := Run(s, steps);
            && (x in Among(listing, ShareOf(s'.table, g)) ==> x !in Among(other, ShareOf(s'.table, h)))
            && (x in Among(listing, ShareOf(s'.table, g)) ==> Health.Listed(s'.fleet, x))
  {
    TableStaysExclusive(s, steps);
    var s' := Run(s, steps);
    InAmong(listing, ShareOf(s'.table, g), x);
    InAmong(other, ShareOf(s'.table, h), x);
  }
}
