/**
 The collateral contract. Paying a miner out runs the miner's own code, which
 may call the contract again before the payment is over, to any depth: a
 payout carries the calls made inside it. Every call is made in one block, so
 inner calls share the outer call's timestamp.
 */
module Collateral {
  import opened Basics

  type Address = nat
  const NOBODY: Address := 0
  const U64: nat := 0x1_0000_0000_0000_0000
  const U256: nat := 0x1_0000_0000_0000_0000_0000_0000_0000_0000_0000_0000_0000_0000_0000_0000_0000_0000

  datatype Key = Key(hotkey: string, executor: string)

  datatype Reclaim = Reclaim(key: Key, miner: Address, amount: nat, denyTimeout: nat)

  datatype Payment = Payment(id: nat, miner: Address, amount: nat)

  datatype Contract = Contract(
    trustee: Address, decisionTimeout: nat, minIncrease: nat,
    owners: map<Key, Address>, collaterals: map<Key, nat>, pending: map<Key, nat>,
    reclaims: map<nat, Reclaim>, nextReclaimId: nat,
    // money: held by the contract now, and moved in, paid out and burned so far
    balance: nat, deposited: nat, paid: nat, burned: nat,
    // the payouts made, in order
    payouts: seq<Payment>)

  datatype Call =
    | Deposit(sender: Address, key: Key, value: nat)
    | ReclaimCollateral(sender: Address, key: Key)
    | FinalizeReclaim(id: nat, inner: seq<Call>, accepts: bool)
    | DenyReclaim(sender: Address, id: nat)
    | Slash(sender: Address, key: Key, burns: bool)
    | UpdateTrustee(isAdmin: bool, trustee: Address)
    | UpdateDecisionTimeout(isAdmin: bool, timeout: nat)
    | UpdateMinIncrease(isAdmin: bool, minimum: nat)

  function Get(m: map<Key, nat>, k: Key): nat {
    if k in m then m[k] else 0
  }

  // ----- The functions of the contract; None is a revert -----

  function DoDeposit(s: Contract, sender: Address, k: Key, value: nat): Option<Contract> {
    var owner := Get(s.owners, k);
    if value < s.minIncrease then None
    else if owner != NOBODY && owner != sender then None
    else if Get(s.collaterals, k) + value >= U256 then None
    else Some(s.(
      owners := if owner == NOBODY then s.owners[k := sender] else s.owners,
      collaterals := s.collaterals[k := Get(s.collaterals, k) + value],
      balance := s.balance + value, deposited := s.deposited + value))
  }

  function DoReclaim(s: Contract, now: nat, sender: Address, k: Key): Option<Contract> {
    var available := Get(s.collaterals, k) - Get(s.pending, k);
    if sender != Get(s.owners, k) || available <= 0 || now % U64 + s.decisionTimeout >= U64 then None
    else Some(s.(
      reclaims := s.reclaims[s.nextReclaimId := Reclaim(k, sender, available, now % U64 + s.decisionTimeout)],
      pending := s.pending[k := Get(s.pending, k) + available],
      nextReclaimId := s.nextReclaimId + 1))
  }

  /** What a payout does before it hands over control; None when it reverts by then. */
  function StartPayout(s: Contract, now: nat, id: nat): Option<Contract> {
    if id !in s.reclaims || s.reclaims[id].denyTimeout >= now then None
    else
      var r := s.reclaims[id];
      if Get(s.pending, r.key) < r.amount || Get(s.collaterals, r.key) < r.amount || s.balance < r.amount then None
      else Some(s.(
        reclaims := s.reclaims - {id},
        pending := s.pending[r.key := Get(s.pending, r.key) - r.amount],
        collaterals := s.collaterals[r.key := Get(s.collaterals, r.key) - r.amount],
        owners := s.owners[r.key := NOBODY],
        balance := s.balance - r.amount, paid := s.paid + r.amount, payouts := s.payouts + [Payment(id, r.miner, r.amount)]))
  }

  function DoDeny(s: Contract, now: nat, sender: Address, id: nat): Option<Contract> {
    if sender != s.trustee || id !in s.reclaims || s.reclaims[id].denyTimeout < now then None
    else
      var r := s.reclaims[id];
      if Get(s.pending, r.key) < r.amount then None
      else Some(s.(pending := s.pending[r.key := Get(s.pending, r.key) - r.amount], reclaims := s.reclaims - {id}))
  }

  function DoSlash(s: Contract, sender: Address, k: Key, burns: bool): Option<Contract> {
    var amount := Get(s.collaterals, k);
    if sender != s.trustee || amount == 0 || !burns || s.balance < amount then None
    else Some(s.(collaterals := s.collaterals[k := 0], owners := s.owners[k := NOBODY],
                 balance := s.balance - amount, burned := s.burned + amount))
  }

  /** One call with everything that happens inside it. */
  function Execute(s: Contract, now: nat, call: Call): Option<Contract>
    decreases call
  {
    match call
    case Deposit(sender, k, value) => DoDeposit(s, sender, k, value)
    case ReclaimCollateral(sender, k) => DoReclaim(s, now, sender, k)
    case FinalizeReclaim(id, inner, accepts) =>
      var started := StartPayout(s, now, id);
      if started.None? then None
      else
        var after := ExecuteAll(started.value, now, inner);
        if accepts then Some(after) else None
    case DenyReclaim(sender, id) => DoDeny(s, now, sender, id)
    case Slash(sender, k, burns) => DoSlash(s, sender, k, burns)
    case UpdateTrustee(isAdmin, trustee) => if isAdmin && trustee != NOBODY then Some(s.(trustee := trustee)) else None
    case UpdateDecisionTimeout(isAdmin, timeout) =>
      if isAdmin && timeout > 0 then Some(s.(decisionTimeout := timeout)) else None
    case UpdateMinIncrease(isAdmin, minimum) => if isAdmin && minimum > 0 then Some(s.(minIncrease := minimum)) else None
  }

  /** Calls in order; one that reverts leaves no trace. */
  function ExecuteAll(s: Contract, now: nat, calls: seq<Call>): Contract
    decreases calls
  {
    if calls == [] then s
    else
      var first := Execute(s, now, calls[0]);
      ExecuteAll(if first.Some? then first.value else s, now, calls[1..])
  }

  datatype Transaction = Transaction(now: nat, call: Call)

  function Run(s: Contract, transactions: seq<Transaction>): Contract
    decreases |transactions|
  {
    if transactions == [] then s
    else Run(ExecuteAll(s, transactions[0].now, [transactions[0].call]), transactions[1..])
  }

  function Init(trustee: Address, decisionTimeout: nat, minIncrease: nat): Contract {
    Contract(trustee, decisionTimeout, minIncrease, map[], map[], map[], map[], 0, 0, 0, 0, 0, [])
  }

  // ----- What every call keeps -----

  /** The amounts of the open reclaims on one key. */
  ghost function Claimed(reclaims: map<nat, Reclaim>, k: Key): map<nat, nat> {
    map id | id in reclaims && reclaims[id].key == k :: reclaims[id].amount
  }

  function TotalPaid(payouts: seq<Payment>): nat {
    if payouts == [] then 0 else TotalPaid(payouts[..|payouts| - 1]) + payouts[|payouts| - 1].amount
  }

  ghost predicate Inv(s: Contract) {
    && s.balance == Sum(s.collaterals)
    && s.deposited == s.balance + s.paid + s.burned
    && (forall k :: Get(s.pending, k) == Sum(Claimed(s.reclaims, k)))
    && (forall id :: id in s.reclaims ==> id < s.nextReclaimId && s.reclaims[id].amount > 0)
    && s.paid == TotalPaid(s.payouts)
    && (forall i :: 0 <= i < |s.payouts| ==> s.payouts[i].id < s.nextReclaimId && s.payouts[i].id !in s.reclaims)
    && (forall i, j :: 0 <= i < j < |s.payouts| ==> s.payouts[i].id != s.payouts[j].id)
  }

  lemma ClaimedAdds(s: Contract, id: nat, r: Reclaim, k: Key)
    requires id !in s.reclaims
    ensures Sum(Claimed(s.reclaims[id := r], k)) == Sum(Claimed(s.reclaims, k)) + if r.key == k then r.amount else 0
  {
    var before, after := Claimed(s.reclaims, k), Claimed(s.reclaims[id := r], k);
    if r.key == k {
      assert after == before[id := r.amount];
      SumUpdates(before, id, r.amount);
    } else {
      assert after == before;
    }
  }

  lemma ClaimedRemoves(s: Contract, id: nat, k: Key)
    requires id in s.reclaims
    ensures Sum(Claimed(s.reclaims, k)) ==
            Sum(Claimed(s.reclaims - {id}, k)) + if s.reclaims[id].key == k then s.reclaims[id].amount else 0
  {
    var before, after := Claimed(s.reclaims, k), Claimed(s.reclaims - {id}, k);
    if s.reclaims[id].key == k {
      assert after == before - {id};
      SumTakesOut(before, id);
    } else {
      assert after == before;
    }
  }

  lemma ReclaimKeeps(s: Contract, now: nat, sender: Address, k: Key)
    requires Inv(s) && DoReclaim(s, now, sender, k).Some?
    ensures Inv(DoReclaim(s, now, sender, k).value)
  {
    var s' := DoReclaim(s, now, sender, k).value;
    forall key
      ensures Get(s'.pending, key) == Sum(Claimed(s'.reclaims, key))
    {
      ClaimedAdds(s, s.nextReclaimId, s'.reclaims[s.nextReclaimId], key);
    }
  }

  lemma PayoutKeeps(s: Contract, now: nat, id: nat)
    requires Inv(s) && StartPayout(s, now, id).Some?
    ensures Inv(StartPayout(s, now, id).value)
  {
    var s' := StartPayout(s, now, id).value;
    var r := s.reclaims[id];
    SumUpdates(s.collaterals, r.key, Get(s.collaterals, r.key) - r.amount);
    assert s'.payouts[..|s.payouts|] == s.payouts;
    forall key
      ensures Get(s'.pending, key) == Sum(Claimed(s'.reclaims, key))
    {
      ClaimedRemoves(s, id, key);
    }
  }

  lemma DenyKeeps(s: Contract, now: nat, sender: Address, id: nat)
    requires Inv(s) && DoDeny(s, now, sender, id).Some?
    ensures Inv(DoDeny(s, now, sender, id).value)
  {
    var s' := DoDeny(s, now, sender, id).value;
    forall key
      ensures Get(s'.pending, key) == Sum(Claimed(s'.reclaims, key))
    {
      ClaimedRemoves(s, id, key);
    }
  }

  lemma DepositKeeps(s: Contract, sender: Address, k: Key, value: nat)
    requires Inv(s) && DoDeposit(s, sender, k, value).Some?
    ensures Inv(DoDeposit(s, sender, k, value).value)
  {
    SumUpdates(s.collaterals, k, Get(s.collaterals, k) + value);
  }

  lemma SlashKeeps(s: Contract, sender: Address, k: Key, burns: bool)
    requires Inv(s) && DoSlash(s, sender, k, burns).Some?
    ensures Inv(DoSlash(s, sender, k, burns).value)
  {
    SumUpdates(s.collaterals, k, 0);
  }

  /** Every call keeps the books, whatever it calls from inside. */
  lemma {:induction false} CallKeeps(s: Contract, now: nat, call: Call)
    requires Inv(s) && Execute(s, now, call).Some?
    ensures Inv(Execute(s, now, call).value)
    decreases call
  {
    hide DoDeposit, DoReclaim, StartPayout, DoDeny, DoSlash, ExecuteAll, Sum;
    match call
    case Deposit(sender, k, value) => DepositKeeps(s, sender, k, value);
    case ReclaimCollateral(sender, k) => ReclaimKeeps(s, now, sender, k);
    case FinalizeReclaim(id, inner, accepts) =>
      PayoutKeeps(s, now, id);
      CallsKeep(StartPayout(s, now, id).value, now, inner);
    case DenyReclaim(sender, id) => DenyKeeps(s, now, sender, id);
    case Slash(sender, k, burns) => SlashKeeps(s, sender, k, burns);
    case _ =>
  }

  lemma {:induction false} CallsKeep(s: Contract, now: nat, calls: seq<Call>)
    requires Inv(s)
    ensures Inv(ExecuteAll(s, now, calls))
    decreases calls
  {
    if calls == [] {
    } else {
      var first := Execute(s, now, calls[0]);
      if first.Some? {
        CallKeeps(s, now, calls[0]);
      }
      CallsKeep(if first.Some? then first.value else s, now, calls[1..]);
    }
  }

  /**
   In every run, re-entrant payouts included: the contract holds exactly the
   recorded collateral, every deposit is held, paid out or burned, what is
   pending on a key is what its open reclaims claim, and the money paid out is
   that of the reclaims paid, none of them twice.
   */
  lemma {:induction false} BooksAlwaysBalance(s: Contract, transactions: seq<Transaction>)
    requires Inv(s)
    ensures Inv(Run(s, transactions))
    decreases |transactions|
  {
    if transactions == [] {
    } else {
      CallsKeep(s, transactions[0].now, [transactions[0].call]);
      BooksAlwaysBalance(ExecuteAll(s, transactions[0].now, [transactions[0].call]), transactions[1..]);
    }
  }

  lemma InitialBooks(trustee: Address, decisionTimeout: nat, minIncrease: nat)
    ensures Inv(Init(trustee, decisionTimeout, minIncrease))
  {
    var s := Init(trustee, decisionTimeout, minIncrease);
    forall k
      ensures Sum(Claimed(s.reclaims, k)) == 0
    {
      assert Claimed(s.reclaims, k) == map[];
    }
  }

  /** With balanced books no subtraction underflows and no payment lacks funds, so these are the only reverts. */
  lemma PayoutSucceedsExactly(s: Contract, now: nat, id: nat)
    requires Inv(s)
    ensures StartPayout(s, now, id).Some? <==>
            && id in s.reclaims && s.reclaims[id].denyTimeout < now
            && Get(s.collaterals, s.reclaims[id].key) >= s.reclaims[id].amount
    ensures StartPayout(s, now, id).Some? ==>
              var (s', r) := (StartPayout(s, now, id).value, s.reclaims[id]);
              && s'.reclaims == s.reclaims - {id} && s'.payouts == s.payouts + [Payment(id, r.miner, r.amount)]
              && s'.balance == s.balance - r.amount
              && Get(s'.collaterals, r.key) == Get(s.collaterals, r.key) - r.amount && Get(s'.owners, r.key) == NOBODY
              && (forall k :: k != r.key ==>
                    Get(s'.collaterals, k) == Get(s.collaterals, k) && Get(s'.owners, k) == Get(s.owners, k))
  {
    if id in s.reclaims {
      var r := s.reclaims[id];
      SumAtLeast(Claimed(s.reclaims, r.key), id);
      if r.key in s.collaterals {
        SumAtLeast(s.collaterals, r.key);
      }
    }
  }

  lemma DenySucceedsExactly(s: Contract, now: nat, sender: Address, id: nat)
    requires Inv(s)
    ensures DoDeny(s, now, sender, id).Some? <==>
            sender == s.trustee && id in s.reclaims && now <= s.reclaims[id].denyTimeout
    ensures DoDeny(s, now, sender, id).Some? ==>
              var s' := DoDeny(s, now, sender, id).value;
              && s'.reclaims == s.reclaims - {id} && s'.payouts == s.payouts && s'.balance == s.balance
              && s'.collaterals == s.collaterals && s'.owners == s.owners
              && Get(s'.pending, s.reclaims[id].key) == Get(s.pending, s.reclaims[id].key) - s.reclaims[id].amount
  {
    if id in s.reclaims {
      SumAtLeast(Claimed(s.reclaims, s.reclaims[id].key), id);
    }
  }

  lemma SlashSucceedsExactly(s: Contract, sender: Address, k: Key, burns: bool)
    requires Inv(s)
    ensures DoSlash(s, sender, k, burns).Some? <==> sender == s.trustee && Get(s.collaterals, k) > 0 && burns
    ensures DoSlash(s, sender, k, burns).Some? ==>
              var s' := DoSlash(s, sender, k, burns).value;
              && Get(s'.collaterals, k) == 0 && Get(s'.owners, k) == NOBODY
              && s'.burned == s.burned + Get(s.collaterals, k) && s'.balance == s.balance - Get(s.collaterals, k)
              && (forall j :: j != k ==>
                    Get(s'.collaterals, j) == Get(s.collaterals, j) && Get(s'.owners, j) == Get(s.owners, j))
              && s'.reclaims == s.reclaims && s'.pending == s.pending && s'.payouts == s.payouts
  {
    if k in s.collaterals {
      SumAtLeast(s.collaterals, k);
    }
  }

  /** Only the owner reclaims, and always everything: nothing is left to reclaim until more comes in. */
  lemma ReclaimTakesAll(s: Contract, now: nat, sender: Address, k: Key)
    requires DoReclaim(s, now, sender, k).Some?
    ensures var s' := DoReclaim(s, now, sender, k).value;
            && sender == Get(s.owners, k)
            && Get(s'.pending, k) == Get(s'.collaterals, k)
            && forall t: nat, who: Address :: DoReclaim(s', t, who, k).None?
  {
  }

  /** A reclaim that is denied in time leaves no trace but its number. */
  lemma DeniedReclaimIsUndone(s: Contract, asked: nat, sender: Address, k: Key, denied: nat)
    requires Inv(s) && DoReclaim(s, asked, sender, k).Some?
    ensures var s1 := DoReclaim(s, asked, sender, k).value;
            var s2 := DoDeny(s1, denied, s.trustee, s.nextReclaimId);
            && (s2.Some? <==> denied <= asked % U64 + s.decisionTimeout)
            && (s2.Some? ==>
                && s2.value.reclaims == s.reclaims && s2.value.collaterals == s.collaterals && s2.value.owners == s.owners
                && (forall j :: Get(s2.value.pending, j) == Get(s.pending, j)))
  {
    assert s.nextReclaimId !in s.reclaims;
    var s1 := DoReclaim(s, asked, sender, k).value;
    assert s1.reclaims - {s.nextReclaimId} == s.reclaims;
  }

  /** Administrators change one setting each, to a value that is not zero, and nothing else. */
  lemma SettingsChangeAlone(s: Contract, now: nat, isAdmin: bool, value: nat)
    ensures Execute(s, now, UpdateTrustee(isAdmin, value)) ==
            if isAdmin && value != 0 then Some(s.(trustee := value)) else None
    ensures Execute(s, now, UpdateDecisionTimeout(isAdmin, value)) ==
            if isAdmin && value != 0 then Some(s.(decisionTimeout := value)) else None
    ensures Execute(s, now, UpdateMinIncrease(isAdmin, value)) ==
            if isAdmin && value != 0 then Some(s.(minIncrease := value)) else None
  {
  }

  // ----- Whether open reclaims are covered -----

  /** On every key there is at least as much collateral as its open reclaims claim. */
  ghost predicate Covered(s: Contract) {
    forall k :: Get(s.pending, k) <= Get(s.collaterals, k)
  }

  /** The contract is covered after the call and at every point inside it; a call that reverts has no such point. */
  ghost predicate StaysCovered(s: Contract, now: nat, call: Call)
    decreases call
  {
    var after := Execute(s, now, call);
    after.Some? ==>
      && Covered(after.value)
      && (call.FinalizeReclaim? ==>
            var started := StartPayout(s, now, call.id).value;
            Covered(started) && AllStayCovered(started, now, call.inner))
  }

  ghost predicate AllStayCovered(s: Contract, now: nat, calls: seq<Call>)
    decreases calls
  {
    calls != [] ==>
      var first := Execute(s, now, calls[0]);
      && StaysCovered(s, now, calls[0])
      && AllStayCovered(if first.Some? then first.value else s, now, calls[1..])
  }

  /** No slash takes effect on a key with open reclaims, not even one from inside. */
  predicate Spares(s: Contract, now: nat, call: Call)
    decreases call
  {
    Execute(s, now, call).Some? ==>
      && (call.Slash? ==> Get(s.pending, call.key) == 0)
      && (call.FinalizeReclaim? ==> AllSpare(StartPayout(s, now, call.id).value, now, call.inner))
  }

  predicate AllSpare(s: Contract, now: nat, calls: seq<Call>)
    decreases calls
  {
    calls != [] ==>
      var first := Execute(s, now, calls[0]);
      && Spares(s, now, calls[0])
      && AllSpare(if first.Some? then first.value else s, now, calls[1..])
  }

  /** One call other than a payout. */
  lemma SimpleCallCovers(s: Contract, now: nat, call: Call)
    requires Inv(s) && Covered(s) && !call.FinalizeReclaim? && Execute(s, now, call).Some?
    ensures Covered(Execute(s, now, call).value) <==> (call.Slash? ==> Get(s.pending, call.key) == 0)
  {
    var s' := Execute(s, now, call).value;
    if call.Slash? {
      assert Get(s'.pending, call.key) == Get(s.pending, call.key) && Get(s'.collaterals, call.key) == 0;
    }
  }

  lemma PayoutCovers(s: Contract, now: nat, id: nat)
    requires Covered(s) && StartPayout(s, now, id).Some?
    ensures Covered(StartPayout(s, now, id).value)
  {
    var s' := StartPayout(s, now, id).value;
    forall k
      ensures Get(s'.pending, k) <= Get(s'.collaterals, k)
    {
      assert Get(s.pending, k) <= Get(s.collaterals, k);
    }
  }

  lemma {:induction false} CallStaysCovered(s: Contract, now: nat, call: Call)
    requires Inv(s) && Covered(s)
    ensures StaysCovered(s, now, call) <==> Spares(s, now, call)
    decreases call
  {
    if Execute(s, now, call).Some? {
      if call.FinalizeReclaim? {
        var started := StartPayout(s, now, call.id).value;
        PayoutKeeps(s, now, call.id);
        PayoutCovers(s, now, call.id);
        CallsStayCovered(started, now, call.inner);
      } else {
        SimpleCallCovers(s, now, call);
      }
    }
  }

  lemma {:induction false} CallsStayCovered(s: Contract, now: nat, calls: seq<Call>)
    requires Inv(s) && Covered(s)
    ensures AllStayCovered(s, now, calls) <==> AllSpare(s, now, calls)
    ensures AllStayCovered(s, now, calls) ==> Covered(ExecuteAll(s, now, calls))
    decreases calls
  {
    if calls == [] {
    } else {
      var first := Execute(s, now, calls[0]);
      CallStaysCovered(s, now, calls[0]);
      if StaysCovered(s, now, calls[0]) {
        if first.Some? {
          CallKeeps(s, now, calls[0]);
        }
        CallsStayCovered(if first.Some? then first.value else s, now, calls[1..]);
      }
    }
  }

  ghost predicate RunStaysCovered(s: Contract, transactions: seq<Transaction>)
    decreases |transactions|
  {
    transactions != [] ==>
      var t := transactions[0];
      AllStayCovered(s, t.now, [t.call]) && RunStaysCovered(ExecuteAll(s, t.now, [t.call]), transactions[1..])
  }

  predicate RunSpares(s: Contract, transactions: seq<Transaction>)
    decreases |transactions|
  {
    transactions != [] ==>
      var t := transactions[0];
      AllSpare(s, t.now, [t.call]) && RunSpares(ExecuteAll(s, t.now, [t.call]), transactions[1..])
  }

  /** Throughout every run open reclaims are covered if and only if no slash takes effect on a key that has any. */
  lemma {:induction false} CoveredExactlyWhenSpared(s: Contract, transactions: seq<Transaction>)
    requires Inv(s) && Covered(s)
    ensures RunStaysCovered(s, transactions) <==> RunSpares(s, transactions)
    ensures RunSpares(s, transactions) ==> Covered(Run(s, transactions))
    decreases |transactions|
  {
    if transactions == [] {
    } else {
      var t := transactions[0];
      CallsStayCovered(s, t.now, [t.call]);
      CallsKeep(s, t.now, [t.call]);
      if AllSpare(s, t.now, [t.call]) {
        CoveredExactlyWhenSpared(ExecuteAll(s, t.now, [t.call]), transactions[1..]);
      }
    }
  }

  /** A slash that takes effect on a key with an open reclaim leaves the reclaim uncovered and unpayable. */
  lemma SlashUncovers(s: Contract, k: Key, id: nat, now: nat)
    requires Inv(s) && id in s.reclaims && s.reclaims[id].key == k && Get(s.collaterals, k) > 0
    ensures var s' := DoSlash(s, s.trustee, k, true);
            s'.Some? && !Covered(s'.value) && StartPayout(s'.value, now, id).None?
  {
    SlashSucceedsExactly(s, s.trustee, k, true);
    SumAtLeast(Claimed(s.reclaims, k), id);
    var s' := DoSlash(s, s.trustee, k, true).value;
    assert Get(s'.pending, k) > 0 && Get(s'.collaterals, k) == 0;
  }

  /** So after such a run a payout gets as far as the transfer just when the reclaim is open and its timeout past. */
  lemma SparedReclaimsPay(s: Contract, transactions: seq<Transaction>, now: nat, id: nat)
    requires Inv(s) && Covered(s) && RunSpares(s, transactions)
    ensures var s' := Run(s, transactions);
            StartPayout(s', now, id).Some? <==> id in s'.reclaims && s'.reclaims[id].denyTimeout < now
  {
    var s' := Run(s, transactions);
    BooksAlwaysBalance(s, transactions);
    CoveredExactlyWhenSpared(s, transactions);
    PayoutSucceedsExactly(s', now, id);
    if id in s'.reclaims {
      SumAtLeast(Claimed(s'.reclaims, s'.reclaims[id].key), id);
    }
  }

  // ----- A deposit comes back -----

  function DepositAndReclaim(s: Contract, sender: Address, k: Key, value: nat, asked: nat): Option<Contract> {
    var deposited := Execute(s, asked, Deposit(sender, k, value));
    if deposited.None? then None else Execute(deposited.value, asked, ReclaimCollateral(sender, k))
  }

  /** Deposit, reclaim and, after the timeout, payout. */
  function RoundTrip(s: Contract, sender: Address, k: Key, value: nat, asked: nat, later: nat): Option<Contract> {
    var claimed := DepositAndReclaim(s, sender, k, value, asked);
    if claimed.None? then None else Execute(claimed.value, later, FinalizeReclaim(s.nextReclaimId, [], true))
  }

  lemma DepositIsClaimed(s: Contract, sender: Address, k: Key, value: nat, asked: nat)
    requires Get(s.collaterals, k) == 0 && Get(s.pending, k) == 0
    ensures var claimed, timeout := DepositAndReclaim(s, sender, k, value, asked), asked % U64 + s.decisionTimeout;
            && (claimed.Some? <==>
                0 < value < U256 && s.minIncrease <= value && Get(s.owners, k) in {NOBODY, sender} && timeout < U64)
            && (claimed.Some? ==>
                && claimed.value.reclaims == s.reclaims[s.nextReclaimId := Reclaim(k, sender, value, timeout)]
                && claimed.value.collaterals == s.collaterals[k := value]
                && claimed.value.pending == s.pending[k := value]
                && claimed.value.balance == s.balance + value && claimed.value.payouts == s.payouts)
  {
  }

  lemma SimplePayout(s: Contract, now: nat, id: nat)
    ensures Execute(s, now, FinalizeReclaim(id, [], true)) == StartPayout(s, now, id)
  {
    if StartPayout(s, now, id).Some? {
      assert ExecuteAll(StartPayout(s, now, id).value, now, []) == StartPayout(s, now, id).value;
    }
  }

  /** Paying the one reclaim that a contract has over another one. */
  lemma PaysBack(s: Contract, claimed: Contract, r: Reclaim, now: nat)
    requires Get(s.collaterals, r.key) == 0 && Get(s.pending, r.key) == 0 && s.nextReclaimId !in s.reclaims
    requires claimed.reclaims == s.reclaims[s.nextReclaimId := r] && claimed.balance == s.balance + r.amount
    requires claimed.collaterals == s.collaterals[r.key := r.amount] && claimed.pending == s.pending[r.key := r.amount]
    ensures var paid := StartPayout(claimed, now, s.nextReclaimId);
            && (paid.Some? <==> r.denyTimeout < now)
            && (paid.Some? ==>
                && paid.value.payouts == claimed.payouts + [Payment(s.nextReclaimId, r.miner, r.amount)]
                && paid.value.balance == s.balance && paid.value.reclaims == s.reclaims
                && (forall j :: Get(paid.value.collaterals, j) == Get(s.collaterals, j))
                && (forall j :: Get(paid.value.pending, j) == Get(s.pending, j)))
  {
    assert claimed.reclaims - {s.nextReclaimId} == s.reclaims;
  }

  /**
   On a key that holds nothing, a deposit comes back in full to its sender and
   leaves every key as it was, exactly when the amount is allowed, nobody else
   owns the key, and the payout waits for the end of the decision time.
   */
  lemma DepositRoundTrip(s: Contract, sender: Address, k: Key, value: nat, asked: nat, later: nat)
    requires Inv(s) && Get(s.collaterals, k) == 0 && Get(s.pending, k) == 0
    ensures var r := RoundTrip(s, sender, k, value, asked, later);
            && (r.Some? <==>
                && 0 < value < U256 && s.minIncrease <= value && Get(s.owners, k) in {NOBODY, sender}
                && asked % U64 + s.decisionTimeout < U64 && asked % U64 + s.decisionTimeout < later)
            && (r.Some? ==>
                && r.value.payouts == s.payouts + [Payment(s.nextReclaimId, sender, value)]
                && r.value.balance == s.balance && r.value.reclaims == s.reclaims
                && (forall j :: Get(r.value.collaterals, j) == Get(s.collaterals, j))
                && (forall j :: Get(r.value.pending, j) == Get(s.pending, j)))
  {
    assert s.nextReclaimId !in s.reclaims;
    hide Inv, DepositAndReclaim, Execute, StartPayout;
    DepositIsClaimed(s, sender, k, value, asked);
    var claimed := DepositAndReclaim(s, sender, k, value, asked);
    if claimed.Some? {
      SimplePayout(claimed.value, later, s.nextReclaimId);
      PaysBack(s, claimed.value, Reclaim(k, sender, value, asked % U64 + s.decisionTimeout), later);
    }
  }
}
