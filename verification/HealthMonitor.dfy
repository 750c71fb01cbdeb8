/**
 The miner's executor health monitor: what one health check does to an
 executor's entry in memory and to the health flag in the database. Database
 writes succeed, and checks of one executor follow one another.
 */
module HealthMonitor {
  import opened Basics

  type ExecutorId = string

  /** `client` tells whether the connection slot is filled. */
  datatype Executor = Executor(isHealthy: bool, failedChecks: nat, client: bool)

  const FRESH := Executor(true, 0, false)

  /** What the executor does with a call: it answers, its trimmed status being "healthy" or not, or the call fails. */
  datatype Reply = Answers(healthy: bool) | Fails

  /** What a check would meet: whether connecting works, and the reply. */
  datatype Probe = Probe(connects: bool, reply: Reply)

  datatype Seen = ConnectFailed | CallFailed | Answered(healthy: bool)

  function SeenBy(x: Executor, p: Probe): Seen {
    if !x.client && !p.connects then ConnectFailed
    else if p.reply.Answers? then Answered(p.reply.healthy)
    else CallFailed
  }

  function OnSeen(maxAttempts: nat, x: Executor, seen: Seen): Executor {
    match seen
    case ConnectFailed => x.(failedChecks := x.failedChecks + 1, isHealthy := false)
    case Answered(healthy) => Executor(healthy, 0, true)
    case CallFailed =>
      var failed := x.failedChecks + 1;
      if failed >= maxAttempts then Executor(false, failed, false) else Executor(x.isHealthy, failed, true)
  }

  /** The health flag written to the database, if any: a failed connection writes nothing. */
  function Written(seen: Seen): Option<bool> {
    match seen
    case ConnectFailed => None
    case Answered(healthy) => Some(healthy)
    case CallFailed => Some(false)
  }

  /** All executors in memory, and the health column of the database. */
  datatype Fleet = Fleet(executors: map<ExecutorId, Executor>, database: map<ExecutorId, bool>)

  function Check(maxAttempts: nat, f: Fleet, id: ExecutorId, p: Probe): Fleet {
    if id !in f.executors then f
    else
      var seen := SeenBy(f.executors[id], p);
      var written := Written(seen);
      Fleet(f.executors[id := OnSeen(maxAttempts, f.executors[id], seen)],
            if written.Some? then f.database[id := written.value] else f.database)
  }

  predicate Listed(f: Fleet, id: ExecutorId) {
    id in f.executors && f.executors[id].isHealthy
  }

  /** Every healthy executor exactly once, and nothing else. */
  ghost predicate IsListing(f: Fleet, ids: seq<ExecutorId>) {
    && (forall id :: id in ids <==> Listed(f, id))
    && (forall i, j :: 0 <= i < j < |ids| ==> ids[i] != ids[j])
  }

  class ExecutorManager {
    const maxRetryAttempts: nat
    var state: map<ExecutorId, Executor>
    var database: map<ExecutorId, bool>

    /** Every configured machine starts out as healthy and unconnected. */
    constructor (machines: seq<ExecutorId>, maxRetryAttempts: nat, database: map<ExecutorId, bool>)
      ensures Contents() == Fleet(map id | id in machines :: FRESH, database)
      ensures this.maxRetryAttempts == maxRetryAttempts
    {
      this.maxRetryAttempts := maxRetryAttempts;
      this.database := database;
      var entries: map<ExecutorId, Executor> := map[];
      for k := 0 to |machines|
        invariant entries == map id | id in machines[..k] :: FRESH
      {
        entries := entries[machines[k] := FRESH];
      }
      assert machines[..|machines|] == machines;
      state := entries;
    }

    /** A configuration without machines is refused. */
    static method Create(machines: seq<ExecutorId>, maxRetryAttempts: nat, database: map<ExecutorId, bool>)
      returns (manager: Option<ExecutorManager>)
      ensures manager.None? <==> machines == []
      ensures manager.Some? ==> manager.value.Contents() == Fleet(map id | id in machines :: FRESH, database)
      ensures manager.Some? ==> manager.value.maxRetryAttempts == maxRetryAttempts
    {
      if machines == [] {
        return None;
      }
      var m := new ExecutorManager(machines, maxRetryAttempts, database);
      return Some(m);
    }

    function Contents(): Fleet
      reads this
    {
      Fleet(state, database)
    }

    method CheckHealth(id: ExecutorId, p: Probe) returns (ok: bool)
      modifies this
      ensures Contents() == Check(maxRetryAttempts, old(Contents()), id, p)
      ensures ok <==> id in old(state) && SeenBy(old(state)[id], p).Answered?
    {
      if id !in state {
        return false;
      }
      if !state[id].client {
        if p.connects {
          state := state[id := state[id].(client := true)];
        } else {
          state := state[id := state[id].(failedChecks := state[id].failedChecks + 1, isHealthy := false)];
          return false;
        }
      }
      match p.reply {
        case Answers(healthy) =>
          HandleHealthSuccess(id, healthy);
          return true;
        case Fails =>
          HandleHealthFailure(id);
          return false;
      }
    }

    method HandleHealthSuccess(id: ExecutorId, healthy: bool)
      requires id in state
      modifies this
      ensures state == old(state)[id := Executor(healthy, 0, old(state)[id].client)]
      ensures database == old(database)[id := healthy]
    {
      state := state[id := state[id].(isHealthy := healthy, failedChecks := 0)];
      database := database[id := state[id].isHealthy];
    }

    method HandleHealthFailure(id: ExecutorId)
      requires id in state
      modifies this
      ensures var x := old(state)[id].(failedChecks := old(state)[id].failedChecks + 1);
              state == old(state)[id := if x.failedChecks >= maxRetryAttempts
                                        then x.(isHealthy := false, client := false) else x]
      ensures database == old(database)[id := false]
    {
      state := state[id := state[id].(failedChecks := state[id].failedChecks + 1)];
      if state[id].failedChecks >= maxRetryAttempts {
        state := state[id := state[id].(isHealthy := false, client := false)];
      }
      database := database[id := false];
    }

    /** The healthy executors, each once, in the table's own order. */
    method ListAvailable() returns (ids: seq<ExecutorId>)
      ensures IsListing(Contents(), ids)
    {
      ids := [];
      var left := set id | id in state && state[id].isHealthy;
      while left != {}
        invariant forall id :: id in state && state[id].isHealthy <==> id in left || id in ids
        invariant forall id :: id in left ==> id !in ids
        invariant forall i, j :: 0 <= i < j < |ids| ==> ids[i] != ids[j]
        decreases left
      {
        var id :| id in left;
        left := left - {id};
        ids := ids + [id];
      }
    }
  }

  // ----- Memory and database agree -----

  predicate Agrees(f: Fleet, id: ExecutorId) {
    id in f.executors && id in f.database && f.database[id] ==> f.executors[id] == Executor(true, 0, true)
  }

  datatype Checked = Checked(id: ExecutorId, probe: Probe)

  function RunChecks(maxAttempts: nat, f: Fleet, checks: seq<Checked>): Fleet {
    if checks == [] then f
    else
      var n := |checks| - 1;
      Check(maxAttempts, RunChecks(maxAttempts, f, checks[..n]), checks[n].id, checks[n].probe)
  }

  /** Some check finds this executor connected from the start, or connects to it. */
  predicate GotThrough(f: Fleet, checks: seq<Checked>, id: ExecutorId) {
    && id in f.executors
    && exists k :: 0 <= k < |checks| && checks[k].id == id && (f.executors[id].client || checks[k].probe.connects)
  }

  /** Until then an executor stays unconnected. */
  lemma {:induction false} NothingGetsThrough(maxAttempts: nat, f: Fleet, checks: seq<Checked>, id: ExecutorId)
    requires id in f.executors && !GotThrough(f, checks, id)
    ensures var f' := RunChecks(maxAttempts, f, checks);
            id in f'.executors && f'.executors[id].client == f.executors[id].client
  {
    if checks == [] {
    } else {
      var n := |checks| - 1;
      assert !GotThrough(f, checks[..n], id);
      NothingGetsThrough(maxAttempts, f, checks[..n], id);
      assert checks[n].id == id ==> !f.executors[id].client && !checks[n].probe.connects;
    }
  }

  lemma {:induction false} ExecutorsStay(maxAttempts: nat, f: Fleet, checks: seq<Checked>)
    ensures RunChecks(maxAttempts, f, checks).executors.Keys == f.executors.Keys
  {
    if checks == [] {
    } else {
      ExecutorsStay(maxAttempts, f, checks[..|checks| - 1]);
    }
  }

  lemma GotThroughStep(f: Fleet, checks: seq<Checked>, id: ExecutorId)
    requires checks != []
    ensures var n := |checks| - 1;
            GotThrough(f, checks, id) <==>
            || GotThrough(f, checks[..n], id)
            || (id in f.executors && checks[n].id == id && (f.executors[id].client || checks[n].probe.connects))
  {
    var n := |checks| - 1;
    if GotThrough(f, checks[..n], id) {
      var k :| 0 <= k < n && checks[..n][k].id == id && (f.executors[id].client || checks[..n][k].probe.connects);
      assert checks[k].id == id;
    }
  }

  /**
   In every run, an executor the database calls healthy is healthy in memory,
   connected and without a failed check, just when that was so at the start or
   a check could get through, although a failed connection never reaches the
   database.
   */
  lemma {:induction false} AgreesExactly(maxAttempts: nat, f: Fleet, checks: seq<Checked>, id: ExecutorId)
    ensures Agrees(RunChecks(maxAttempts, f, checks), id) <==> Agrees(f, id) || GotThrough(f, checks, id)
  {
    if checks == [] {
    } else {
      var n := |checks| - 1;
      AgreesExactly(maxAttempts, f, checks[..n], id);
      ExecutorsStay(maxAttempts, f, checks[..n]);
      GotThroughStep(f, checks, id);
      if checks[n].id == id && id in f.executors && !GotThrough(f, checks[..n], id) {
        NothingGetsThrough(maxAttempts, f, checks[..n], id);
      }
    }
  }

  /** A row left healthy by an earlier process stays so while connecting to the new process's entry fails. */
  lemma StaleRowOverstates(maxAttempts: nat)
    ensures var f := Fleet(map["x" := FRESH], map["x" := true]);
            var f' := RunChecks(maxAttempts, f, [Checked("x", Probe(false, Fails))]);
            && f'.database == map["x" := true] && !Listed(f', "x") && !Agrees(f', "x")
  {
    var f := Fleet(map["x" := FRESH], map["x" := true]);
    var checks := [Checked("x", Probe(false, Fails))];
    assert checks[..0] == [] && RunChecks(maxAttempts, f, checks[..0]) == f;
  }

  // ----- Health as a function of what the checks saw -----

  function Limit(maxAttempts: nat): nat {
    Max(1, maxAttempts)
  }

  function Probed(maxAttempts: nat, x: Executor, probes: seq<Probe>): Executor {
    if probes == [] then x
    else
      var n := |probes| - 1;
      var before := Probed(maxAttempts, x, probes[..n]);
      OnSeen(maxAttempts, before, SeenBy(before, probes[n]))
  }

  function History(maxAttempts: nat, x: Executor, probes: seq<Probe>): (history: seq<Seen>)
    ensures |history| == |probes|
  {
    if probes == [] then []
    else
      var n := |probes| - 1;
      History(maxAttempts, x, probes[..n]) + [SeenBy(Probed(maxAttempts, x, probes[..n]), probes[n])]
  }

  /** Failures since the last answer. */
  function Failures(history: seq<Seen>): nat {
    if history == [] || history[|history| - 1].Answered? then 0 else 1 + Failures(history[..|history| - 1])
  }

  /** The last answer was healthy, or there was none, and no connection failed since. */
  predicate Sound(history: seq<Seen>) {
    history == [] ||
    match history[|history| - 1]
    case Answered(healthy) => healthy
    case ConnectFailed => false
    case CallFailed => Sound(history[..|history| - 1])
  }

  lemma OneMoreSeen(history: seq<Seen>, seen: Seen)
    ensures Failures(history + [seen]) == if seen.Answered? then 0 else Failures(history) + 1
    ensures Sound(history + [seen]) <==> seen == Answered(true) || (seen.CallFailed? && Sound(history))
  {
    assert (history + [seen])[..|history|] == history;
  }

  /** An entry is what the checks saw: sound and short of the limit of failures makes it healthy. */
  lemma {:induction false} EntryIsItsHistory(maxAttempts: nat, probes: seq<Probe>)
    ensures var h, x := History(maxAttempts, FRESH, probes), Probed(maxAttempts, FRESH, probes);
            && x.failedChecks == Failures(h)
            && (x.isHealthy <==> Sound(h) && Failures(h) < Limit(maxAttempts))
  {
    if probes == [] {
    } else {
      hide Failures, Sound;
      var n := |probes| - 1;
      EntryIsItsHistory(maxAttempts, probes[..n]);
      OneMoreSeen(History(maxAttempts, FRESH, probes[..n]), SeenBy(Probed(maxAttempts, FRESH, probes[..n]), probes[n]));
    }
  }

  /** The probes that met this executor, in order. */
  function ProbesOf(checks: seq<Checked>, id: ExecutorId): seq<Probe> {
    if checks == [] then []
    else
      var n := |checks| - 1;
      ProbesOf(checks[..n], id) + if checks[n].id == id then [checks[n].probe] else []
  }

  lemma {:induction false} FleetRunsPerExecutor(maxAttempts: nat, f: Fleet, checks: seq<Checked>, id: ExecutorId)
    requires id in f.executors
    ensures var f' := RunChecks(maxAttempts, f, checks);
            id in f'.executors && f'.executors[id] == Probed(maxAttempts, f.executors[id], ProbesOf(checks, id))
  {
    if checks == [] {
    } else {
      var n := |checks| - 1;
      FleetRunsPerExecutor(maxAttempts, f, checks[..n], id);
      var probes := ProbesOf(checks[..n], id);
      if checks[n].id == id {
        assert (probes + [checks[n].probe])[..|probes|] == probes;
      } else {
        assert probes + [] == probes;
      }
    }
  }

  /** Whatever the other executors do, one is listed exactly by what its own checks saw. */
  lemma ListedByOwnHistory(maxAttempts: nat, f: Fleet, checks: seq<Checked>, id: ExecutorId)
    requires id in f.executors && f.executors[id] == FRESH
    ensures var h := History(maxAttempts, FRESH, ProbesOf(checks, id));
            Listed(RunChecks(maxAttempts, f, checks), id) <==> Sound(h) && Failures(h) < Limit(maxAttempts)
  {
    FleetRunsPerExecutor(maxAttempts, f, checks, id);
    EntryIsItsHistory(maxAttempts, ProbesOf(checks, id));
  }

  predicate NoAnswer(history: seq<Seen>) {
    forall k :: 0 <= k < |history| ==> !history[k].Answered?
  }

  /** An executor that just answered healthy drops out and loses its connection exactly at the limit of failures in a row. */
  lemma {:induction false} DropsOutExactlyAtLimit(maxAttempts: nat, probes: seq<Probe>)
    requires NoAnswer(History(maxAttempts, Executor(true, 0, true), probes))
    ensures var x := Probed(maxAttempts, Executor(true, 0, true), probes);
            && x.failedChecks == |probes|
            && (x.isHealthy <==> |probes| < Limit(maxAttempts))
            && (x.client <==> |probes| < Limit(maxAttempts))
  {
    if probes == [] {
    } else {
      var n := |probes| - 1;
      var h := History(maxAttempts, Executor(true, 0, true), probes);
      assert h[..n] == History(maxAttempts, Executor(true, 0, true), probes[..n]);
      assert !h[n].Answered?;
      DropsOutExactlyAtLimit(maxAttempts, probes[..n]);
    }
  }
}
