/**
 The strategies that assign executors to validators, and who may be offered
 what. Stakes are natural numbers in RAO, and a number of executors per TAO is a
 real number.
 */
module Allocation {
  import opened Basics

  type Hotkey = string
  type ExecutorId = string
  type Table = map<Hotkey, seq<ExecutorId>>

  datatype Validator = Validator(hotkey: Hotkey, stake: nat, hasEndpoint: bool)

  predicate Distinct<T(==)>(xs: seq<T>) {
    forall i, j :: 0 <= i < j < |xs| ==> xs[i] != xs[j]
  }

  /** No executor stands in the shares of two validators. */
  ghost predicate Exclusive(t: Table) {
    forall g, h, x :: g in t && h in t && x in t[g] && x in t[h] ==> g == h
  }

  function ShareOf(t: Table, h: Hotkey): seq<ExecutorId> {
    if h in t then t[h] else []
  }

  predicate DistinctKeys(vs: seq<Validator>) {
    forall a, b :: 0 <= a < b < |vs| ==> vs[a].hotkey != vs[b].hotkey
  }

  function Filter(vs: seq<Validator>, p: Validator -> bool): seq<Validator> {
    if vs == [] then []
    else
      var n := |vs| - 1;
      Filter(vs[..n], p) + if p(vs[n]) then [vs[n]] else []
  }

  /** The positions, in order, of all validators with the property. */
  ghost predicate Lists(vs: seq<Validator>, p: Validator -> bool, at: seq<nat>) {
    && (forall k :: 0 <= k < |at| ==> at[k] < |vs| && p(vs[at[k]]))
    && (forall k, l :: 0 <= k < l < |at| ==> at[k] < at[l])
    && (forall i :: 0 <= i < |vs| && p(vs[i]) ==> i in at)
  }

  lemma ListsLonger(vs: seq<Validator>, v: Validator, p: Validator -> bool, at: seq<nat>)
    requires Lists(vs, p, at)
    ensures Lists(vs + [v], p, if p(v) then at + [|vs|] else at)
  {
    var (vs', at') := (vs + [v], if p(v) then at + [|vs|] else at);
    forall k | 0 <= k < |at'|
      ensures at'[k] < |vs'| && p(vs'[at'[k]])
    {
      if k < |at| {
        assert at'[k] == at[k] && vs'[at[k]] == vs[at[k]];
      }
    }
    forall i | 0 <= i < |vs'| && p(vs'[i])
      ensures i in at'
    {
      if i < |vs| {
        assert vs'[i] == vs[i];
        var k :| 0 <= k < |at| && at[k] == i;
        assert at'[k] == i;
      } else {
        assert at'[|at|] == i;
      }
    }
  }

  /** These are the validators at these positions. */
  ghost predicate Picks(vs: seq<Validator>, at: seq<nat>, picked: seq<Validator>) {
    |at| == |picked| && forall k :: 0 <= k < |at| ==> at[k] < |vs| && picked[k] == vs[at[k]]
  }

  lemma PicksLonger(vs: seq<Validator>, v: Validator, at: seq<nat>, picked: seq<Validator>)
    requires Picks(vs, at, picked)
    ensures Picks(vs + [v], at, picked) && Picks(vs + [v], at + [|vs|], picked + [v])
  {
  }

  lemma FilterLonger(vs: seq<Validator>, v: Validator, p: Validator -> bool)
    ensures Filter(vs + [v], p) == if p(v) then Filter(vs, p) + [v] else Filter(vs, p)
  {
    assert (vs + [v])[..|vs|] == vs;
  }

  lemma NothingPicked(p: Validator -> bool)
    ensures Lists([], p, []) && Picks([], [], Filter([], p))
  {
  }

  /** Filtering keeps exactly the validators with the property, each where it was among them. */
  lemma {:induction false} FilterPicks(vs: seq<Validator>, p: Validator -> bool) returns (at: seq<nat>)
    ensures Lists(vs, p, at) && Picks(vs, at, Filter(vs, p))
  {
    hide Lists, Picks, Filter;
    if vs == [] {
      at := [];
      NothingPicked(p);
    } else {
      var (rest, last) := (vs[..|vs| - 1], vs[|vs| - 1]);
      var before := FilterPicks(rest, p);
      ListsLonger(rest, last, p, before);
      PicksLonger(rest, last, before, Filter(rest, p));
      FilterLonger(rest, last, p);
      assert rest + [last] == vs;
      at := if p(last) then before + [|rest|] else before;
    }
  }

  lemma InFilter(vs: seq<Validator>, p: Validator -> bool, v: Validator)
    ensures v in Filter(vs, p) <==> v in vs && p(v)
  {
    var at := FilterPicks(vs, p);
    if v in vs && p(v) {
      var i :| 0 <= i < |vs| && vs[i] == v;
      var k :| 0 <= k < |at| && at[k] == i;
      assert Filter(vs, p)[k] == v;
    }
    if v in Filter(vs, p) {
      var k :| 0 <= k < |at| && Filter(vs, p)[k] == v;
      assert vs[at[k]] == v;
    }
  }

  lemma FilterKeepsKeysDistinct(vs: seq<Validator>, p: Validator -> bool)
    requires DistinctKeys(vs)
    ensures DistinctKeys(Filter(vs, p))
  {
    var at := FilterPicks(vs, p);
  }

  predicate Reachable(v: Validator) {
    v.hasEndpoint
  }

  function WithEndpoint(vs: seq<Validator>): seq<Validator> {
    Filter(vs, Reachable)
  }

  // ----- Round robin -----

  /** The executors dealt to a hotkey when executor `j` goes to validator `j` modulo their number. */
  function Dealt(eligible: seq<Validator>, xs: seq<ExecutorId>, h: Hotkey): seq<ExecutorId>
    requires eligible != []
  {
    if xs == [] then []
    else
      var n := |xs| - 1;
      Dealt(eligible, xs[..n], h) + if eligible[n % |eligible|].hotkey == h then [xs[n]] else []
  }

  /** Exactly the hotkeys with a non-empty share are in the table, with that share. */
  ghost predicate IsRoundRobin(eligible: seq<Validator>, xs: seq<ExecutorId>, t: Table) {
    if eligible == [] then t == map[]
    else forall h :: ShareOf(t, h) == Dealt(eligible, xs, h) && (h in t <==> Dealt(eligible, xs, h) != [])
  }

  lemma DealtStep(eligible: seq<Validator>, xs: seq<ExecutorId>, j: nat, h: Hotkey)
    requires eligible != [] && j < |xs|
    ensures var before := Dealt(eligible, xs[..j], h);
            Dealt(eligible, xs[..j + 1], h) == if eligible[j % |eligible|].hotkey == h then before + [xs[j]] else before
  {
    assert xs[..j + 1][..j] == xs[..j];
  }

  method RoundRobin(vs: seq<Validator>, xs: seq<ExecutorId>) returns (t: Table)
    ensures IsRoundRobin(WithEndpoint(vs), xs, t)
  {
    t := map[];
    var eligible := WithEndpoint(vs);
    if eligible == [] {
      return;
    }
    for i := 0 to |eligible|
      invariant forall k :: 0 <= k < i ==> eligible[k].hotkey in t
      invariant forall h :: h in t ==> t[h] == []
    {
      t := t[eligible[i].hotkey := []];
    }
    for j := 0 to |xs|
      invariant forall k :: 0 <= k < |eligible| ==> eligible[k].hotkey in t
      invariant forall h :: ShareOf(t, h) == Dealt(eligible, xs[..j], h)
    {
      var owner := eligible[j % |eligible|].hotkey;
      ghost var before := t;
      t := t[owner := t[owner] + [xs[j]]];
      forall h
        ensures ShareOf(t, h) == Dealt(eligible, xs[..j + 1], h)
      {
        hide Dealt;
        DealtStep(eligible, xs, j, h);
        assert ShareOf(before, h) == Dealt(eligible, xs[..j], h);
      }
    }
    assert xs[..|xs|] == xs;
    t := map h | h in t && t[h] != [] :: t[h];
  }

  lemma DivUnique(n: nat, m: nat, q: nat, r: nat)
    requires m > 0 && r < m && n == q * m + r
    ensures n / m == q && n % m == r
  {
    DivBounds(n, m);
    if n / m < q {
      MulMono(n / m + 1, q, m);
      assert false;
    } else if n / m > q {
      MulMono(q + 1, n / m, m);
      assert false;
    }
  }

  lemma DivStep(n: nat, m: nat)
    requires n > 0 && m > 0
    ensures n / m == (n - 1) / m + (if (n - 1) % m == m - 1 then 1 else 0)
    ensures n % m == if (n - 1) % m == m - 1 then 0 else (n - 1) % m + 1
  {
    var q, r := (n - 1) / m, (n - 1) % m;
    assert n == q * m + r + 1;
    if r == m - 1 {
      assert n == (q + 1) * m;
      DivUnique(n, m, q + 1, 0);
    } else {
      DivUnique(n, m, q, r + 1);
    }
  }

  /** How many of the positions below `n` are `i` modulo `m`. */
  function Portion(n: nat, m: nat, i: nat): nat
    requires m > 0
  {
    n / m + if i < n % m then 1 else 0
  }

  lemma PortionStep(n: nat, m: nat, i: nat)
    requires i < m
    ensures Portion(n + 1, m, i) == Portion(n, m, i) + if n % m == i then 1 else 0
  {
    DivStep(n + 1, m);
  }

  /** With distinct hotkeys validator `i` gets its portion of the executors. */
  lemma {:induction false} DealtPortion(eligible: seq<Validator>, xs: seq<ExecutorId>, i: nat)
    requires i < |eligible| && DistinctKeys(eligible)
    ensures |Dealt(eligible, xs, eligible[i].hotkey)| == Portion(|xs|, |eligible|, i)
  {
    if xs == [] {
      DivUnique(0, |eligible|, 0, 0);
    } else {
      var n := |xs| - 1;
      DealtPortion(eligible, xs[..n], i);
      PortionStep(n, |eligible|, i);
      assert 0 <= n % |eligible| < |eligible|;
    }
  }

  /** With distinct hotkeys executor `j` is number `j / m` in the share of validator `j % m`. */
  lemma {:induction false} DealtInTurn(eligible: seq<Validator>, xs: seq<ExecutorId>, j: nat)
    requires eligible != [] && DistinctKeys(eligible) && j < |xs|
    ensures var (m, share) := (|eligible|, Dealt(eligible, xs, eligible[j % |eligible|].hotkey));
            j / m < |share| && share[j / m] == xs[j]
  {
    var n := |xs| - 1;
    if j < n {
      DealtInTurn(eligible, xs[..n], j);
    } else {
      DealtPortion(eligible, xs[..n], n % |eligible|);
    }
  }

  /** Shares of two validators differ by at most one. */
  lemma SharesDifferByAtMostOne(eligible: seq<Validator>, xs: seq<ExecutorId>, t: Table, a: nat, b: nat)
    requires IsRoundRobin(eligible, xs, t) && a < |eligible| && b < |eligible|
    requires DistinctKeys(eligible)
    ensures |ShareOf(t, eligible[a].hotkey)| <= |ShareOf(t, eligible[b].hotkey)| + 1
  {
    DealtPortion(eligible, xs, a);
    DealtPortion(eligible, xs, b);
  }

  lemma {:induction false} DealtOwner(eligible: seq<Validator>, xs: seq<ExecutorId>, h: Hotkey, x: ExecutorId) returns (j: nat)
    requires eligible != [] && x in Dealt(eligible, xs, h)
    ensures j < |xs| && xs[j] == x && eligible[j % |eligible|].hotkey == h
  {
    var n := |xs| - 1;
    if x in Dealt(eligible, xs[..n], h) {
      j := DealtOwner(eligible, xs[..n], h, x);
    } else {
      j := n;
    }
  }

  lemma RoundRobinExclusive(eligible: seq<Validator>, xs: seq<ExecutorId>, t: Table)
    requires Distinct(xs) && IsRoundRobin(eligible, xs, t)
    ensures Exclusive(t)
  {
    forall g, h, x | g in t && h in t && x in t[g] && x in t[h]
      ensures g == h
    {
      assert ShareOf(t, g) == Dealt(eligible, xs, g) && ShareOf(t, h) == Dealt(eligible, xs, h);
      var i := DealtOwner(eligible, xs, g, x);
      var j := DealtOwner(eligible, xs, h, x);
    }
  }

  /** The positions, in order, of all validators with an endpoint. */
  ghost predicate ListsReachable(vs: seq<Validator>, at: seq<nat>) {
    && (forall k :: 0 <= k < |at| ==> at[k] < |vs| && vs[at[k]].hasEndpoint)
    && (forall k, l :: 0 <= k < l < |at| ==> at[k] < at[l])
    && (forall i :: 0 <= i < |vs| && vs[i].hasEndpoint ==> i in at)
  }

  /** Executor `j` is number `j / m` of the validator whose turn it is. */
  ghost predicate InTurn(vs: seq<Validator>, at: seq<nat>, xs: seq<ExecutorId>, t: Table, j: nat)
    requires ListsReachable(vs, at) && at != [] && j < |xs|
  {
    var share := ShareOf(t, vs[at[j % |at|]].hotkey);
    j / |at| < |share| && share[j / |at|] == xs[j]
  }

  lemma DealtInTurnOf(vs: seq<Validator>, at: seq<nat>, xs: seq<ExecutorId>, t: Table, j: nat)
    requires ListsReachable(vs, at) && at != [] && j < |xs| && |at| == |WithEndpoint(vs)|
    requires forall k :: 0 <= k < |at| ==> WithEndpoint(vs)[k] == vs[at[k]]
    requires DistinctKeys(WithEndpoint(vs)) && IsRoundRobin(WithEndpoint(vs), xs, t)
    ensures InTurn(vs, at, xs, t, j)
  {
    hide WithEndpoint, Dealt;
    DealtInTurn(WithEndpoint(vs), xs, j);
  }

  lemma HolderIsReachable(vs: seq<Validator>, xs: seq<ExecutorId>, t: Table, h: Hotkey)
    requires IsRoundRobin(WithEndpoint(vs), xs, t) && h in t
    ensures exists v :: v in vs && v.hotkey == h && v.hasEndpoint
  {
    hide Filter, Dealt;
    var eligible := WithEndpoint(vs);
    assert ShareOf(t, h) == Dealt(eligible, xs, h) != [];
    var j := DealtOwner(eligible, xs, h, Dealt(eligible, xs, h)[0]);
    InFilter(vs, Reachable, eligible[j % |eligible|]);
  }

  /** Every executor is dealt in turn to the reachable validators in order, and no other hotkey holds anything. */
  lemma RoundRobinDeals(vs: seq<Validator>, xs: seq<ExecutorId>, t: Table) returns (at: seq<nat>)
    requires DistinctKeys(vs) && IsRoundRobin(WithEndpoint(vs), xs, t)
    ensures ListsReachable(vs, at)
    ensures at == [] ==> t == map[]
    ensures at != [] ==> forall j :: 0 <= j < |xs| ==> InTurn(vs, at, xs, t, j)
    ensures forall h :: h in t ==> exists v :: v in vs && v.hotkey == h && v.hasEndpoint
  {
    at := FilterPicks(vs, Reachable);
    FilterKeepsKeysDistinct(vs, Reachable);
    forall j | 0 <= j < |xs| && at != []
      ensures InTurn(vs, at, xs, t, j)
    {
      DealtInTurnOf(vs, at, xs, t, j);
    }
    forall h | h in t
      ensures exists v :: v in vs && v.hotkey == h && v.hasEndpoint
    {
      HolderIsReachable(vs, xs, t, h);
    }
  }

  // ----- Greedy strategies -----

  /** A validator in service order with the number of executors it may take. */
  datatype Claim = Claim(hotkey: Hotkey, quota: nat)

  /** How many of `n` executors are gone once these claims were served. */
  function Taken(claims: seq<Claim>, n: nat): (k: nat)
    ensures k <= n
  {
    if claims == [] then 0 else Min(n, Taken(claims[..|claims| - 1], n) + claims[|claims| - 1].quota)
  }

  lemma TakenStep(claims: seq<Claim>, n: nat, k: nat)
    requires k < |claims|
    ensures Taken(claims[..k + 1], n) == Min(n, Taken(claims[..k], n) + claims[k].quota)
    ensures Taken(claims[..k], n) <= Taken(claims[..k + 1], n)
  {
    assert claims[..k + 1][..k] == claims[..k];
  }

  /** The slice of the executors that claim `k` gets. */
  function Slice(claims: seq<Claim>, xs: seq<ExecutorId>, k: nat): seq<ExecutorId>
    requires k < |claims|
  {
    TakenStep(claims, |xs|, k);
    xs[Taken(claims[..k], |xs|)..Taken(claims[..k + 1], |xs|)]
  }

  /** The table after serving the claims in order: every non-empty slice under its hotkey. */
  function Served(claims: seq<Claim>, xs: seq<ExecutorId>): Table {
    if claims == [] then map[]
    else
      var n := |claims| - 1;
      var prior, slice := Served(claims[..n], xs), Slice(claims, xs, n);
      if slice == [] then prior else prior[claims[n].hotkey := slice]
  }

  lemma {:induction false} ServedSnoc(claims: seq<Claim>, c: Claim, xs: seq<ExecutorId>)
    ensures var lo := Taken(claims, |xs|);
            var hi := Min(|xs|, lo + c.quota);
            && Taken(claims + [c], |xs|) == hi
            && Served(claims + [c], xs) ==
               if lo == hi then Served(claims, xs) else Served(claims, xs)[c.hotkey := xs[lo..hi]]
  {
    var all, n := claims + [c], |claims|;
    assert all[..n] == claims && all[..n + 1] == all && all[n] == c;
    TakenStep(all, |xs|, n);
    assert Slice(all, xs, n) == xs[Taken(claims, |xs|)..Taken(all, |xs|)];
  }

  /** One turn of a strategy: the next `quota` executors, if any are left. */
  method Serve(t: Table, xs: seq<ExecutorId>, next: nat, c: Claim, ghost claims: seq<Claim>)
    returns (t': Table, next': nat)
    requires t == Served(claims, xs) && next == Taken(claims, |xs|)
    ensures t' == Served(claims + [c], xs) && next' == Taken(claims + [c], |xs|)
  {
    ServedSnoc(claims, c, xs);
    next' := Min(|xs|, next + c.quota);
    var share := xs[next..next'];
    t' := t;
    if share != [] {
      t' := t'[c.hotkey := share];
    }
  }

  /** What a validator holds is one of its own slices, so within that claim's quota. */
  lemma {:induction false} ShareIsASlice(claims: seq<Claim>, xs: seq<ExecutorId>, h: Hotkey) returns (k: nat)
    requires h in Served(claims, xs)
    ensures k < |claims| && claims[k].hotkey == h
    ensures Served(claims, xs)[h] == Slice(claims, xs, k) != []
    ensures |Slice(claims, xs, k)| <= claims[k].quota
  {
    var n := |claims| - 1;
    var slice := Slice(claims, xs, n);
    if slice != [] && claims[n].hotkey == h {
      k := n;
    } else {
      k := ShareIsASlice(claims[..n], xs, h);
      assert claims[..n][..k] == claims[..k] && claims[..n][..k + 1] == claims[..k + 1];
    }
    TakenStep(claims, |xs|, k);
  }

  lemma {:induction false} TakenGrows(claims: seq<Claim>, n: nat, i: nat, j: nat)
    requires i <= j <= |claims|
    ensures Taken(claims[..i], n) <= Taken(claims[..j], n)
    decreases j
  {
    if i < j {
      TakenGrows(claims, n, i, j - 1);
      TakenStep(claims, n, j - 1);
    }
  }

  lemma SlicesDisjoint(claims: seq<Claim>, xs: seq<ExecutorId>, i: nat, j: nat, x: ExecutorId)
    requires Distinct(xs) && i < |claims| && j < |claims| && x in Slice(claims, xs, i) && x in Slice(claims, xs, j)
    ensures i == j
  {
    if i < j {
      TakenGrows(claims, |xs|, i + 1, j);
    } else if j < i {
      TakenGrows(claims, |xs|, j + 1, i);
    }
  }

  lemma ServedExclusive(claims: seq<Claim>, xs: seq<ExecutorId>)
    requires Distinct(xs)
    ensures Exclusive(Served(claims, xs))
  {
    var t := Served(claims, xs);
    forall g, h, x | g in t && h in t && x in t[g] && x in t[h]
      ensures g == h
    {
      var i := ShareIsASlice(claims, xs, g);
      var j := ShareIsASlice(claims, xs, h);
      SlicesDisjoint(claims, xs, i, j, x);
    }
  }

  /** No validator gets two non-empty slices. */
  predicate Apart(claims: seq<Claim>, xs: seq<ExecutorId>) {
    forall i, j :: 0 <= i < j < |claims| && claims[i].hotkey == claims[j].hotkey ==>
      Slice(claims, xs, i) == [] || Slice(claims, xs, j) == []
  }

  lemma SliceOfPrefix(claims: seq<Claim>, xs: seq<ExecutorId>, n: nat, k: nat)
    requires k < n <= |claims|
    ensures Slice(claims[..n], xs, k) == Slice(claims, xs, k)
  {
    assert claims[..n][..k] == claims[..k] && claims[..n][..k + 1] == claims[..k + 1];
  }

  lemma ApartPrefix(claims: seq<Claim>, xs: seq<ExecutorId>, n: nat)
    requires n <= |claims| && Apart(claims, xs)
    ensures Apart(claims[..n], xs)
  {
    forall i, j | 0 <= i < j < n && claims[i].hotkey == claims[j].hotkey
      ensures Slice(claims[..n], xs, i) == [] || Slice(claims[..n], xs, j) == []
    {
      SliceOfPrefix(claims, xs, n, i);
      SliceOfPrefix(claims, xs, n, j);
    }
  }

  /** Then whoever gets a slice holds exactly that slice. */
  lemma {:induction false} SliceIsTheShare(claims: seq<Claim>, xs: seq<ExecutorId>, k: nat)
    requires k < |claims| && Apart(claims, xs) && Slice(claims, xs, k) != []
    ensures ShareOf(Served(claims, xs), claims[k].hotkey) == Slice(claims, xs, k)
  {
    hide Slice, Taken;
    var n := |claims| - 1;
    if k < n {
      ApartPrefix(claims, xs, n);
      SliceOfPrefix(claims, xs, n, k);
      SliceIsTheShare(claims[..n], xs, k);
    }
  }

  /** The shares of the first `k` claims that got anything, joined in service order. */
  function Joined(claims: seq<Claim>, xs: seq<ExecutorId>, t: Table, k: nat): seq<ExecutorId>
    requires k <= |claims|
  {
    if k == 0 then []
    else
      Joined(claims, xs, t, k - 1)
      + if Slice(claims, xs, k - 1) == [] then [] else ShareOf(t, claims[k - 1].hotkey)
  }

  lemma JoinedStep(claims: seq<Claim>, xs: seq<ExecutorId>, k: nat)
    requires k < |claims| && Apart(claims, xs)
    ensures var t := Served(claims, xs);
            Joined(claims, xs, t, k + 1) == Joined(claims, xs, t, k) + Slice(claims, xs, k)
  {
    hide Slice, Served, Apart;
    if Slice(claims, xs, k) != [] {
      SliceIsTheShare(claims, xs, k);
    }
  }

  lemma SliceExtendsPrefix(claims: seq<Claim>, xs: seq<ExecutorId>, k: nat)
    requires k < |claims|
    ensures xs[..Taken(claims[..k], |xs|)] + Slice(claims, xs, k) == xs[..Taken(claims[..k + 1], |xs|)]
  {
    hide Taken;
    TakenStep(claims, |xs|, k);
  }

  /** The shares in service order, joined, are a prefix of the executor list. */
  lemma {:induction false} SharesArePrefix(claims: seq<Claim>, xs: seq<ExecutorId>, k: nat)
    requires k <= |claims| && Apart(claims, xs)
    ensures Joined(claims, xs, Served(claims, xs), k) == xs[..Taken(claims[..k], |xs|)]
    decreases k
  {
    if k == 0 {
      assert claims[..0] == [];
    } else {
      hide Taken, Served, Apart, Joined, Slice;
      SharesArePrefix(claims, xs, k - 1);
      JoinedStep(claims, xs, k - 1);
      SliceExtendsPrefix(claims, xs, k - 1);
    }
  }

  /** Who gets less than the quota was the last to get anything. */
  lemma ShortShareIsLast(claims: seq<Claim>, xs: seq<ExecutorId>, k: nat, later: nat)
    requires k < later < |claims| && |Slice(claims, xs, k)| < claims[k].quota
    ensures Slice(claims, xs, later) == []
  {
    TakenStep(claims, |xs|, k);
    TakenGrows(claims, |xs|, k + 1, later);
    TakenStep(claims, |xs|, later);
  }

  /** Every executor is in somebody's share. */
  ghost predicate AllAssigned(t: Table, xs: seq<ExecutorId>) {
    forall x :: x in xs ==> exists h :: h in t && x in t[h]
  }

  lemma {:induction false} JoinedAreHeld(claims: seq<Claim>, xs: seq<ExecutorId>, t: Table, k: nat, x: ExecutorId)
    returns (h: Hotkey)
    requires k <= |claims| && x in Joined(claims, xs, t, k)
    ensures h in t && x in t[h]
    decreases k
  {
    if x in Joined(claims, xs, t, k - 1) {
      h := JoinedAreHeld(claims, xs, t, k - 1, x);
    } else {
      h := claims[k - 1].hotkey;
    }
  }

  /** A claim gets its quota, or less because every executor is gone. */
  lemma ClaimIsMet(claims: seq<Claim>, xs: seq<ExecutorId>, k: nat)
    requires k < |claims| && Apart(claims, xs)
    ensures |Slice(claims, xs, k)| <= claims[k].quota
    ensures |Slice(claims, xs, k)| < claims[k].quota ==> AllAssigned(Served(claims, xs), xs)
  {
    TakenStep(claims, |xs|, k);
    if |Slice(claims, xs, k)| < claims[k].quota {
      TakenGrows(claims, |xs|, k + 1, |claims|);
      SharesArePrefix(claims, xs, |claims|);
      hide Slice, Served, Taken, Joined;
      assert claims[..|claims|] == claims;
      forall x | x in xs
        ensures exists h :: h in Served(claims, xs) && x in Served(claims, xs)[h]
      {
        var h := JoinedAreHeld(claims, xs, Served(claims, xs), |claims|, x);
      }
    }
  }

  // ----- Sorting by stake -----

  /** Puts `v` before the first validator of no greater key. */
  function Insert(v: Validator, vs: seq<Validator>, key: Validator -> real): seq<Validator> {
    if vs == [] || key(v) >= key(vs[0]) then [v] + vs else [vs[0]] + Insert(v, vs[1..], key)
  }

  /** The stable sort by descending key. */
  function SortDescending(vs: seq<Validator>, key: Validator -> real): seq<Validator> {
    if vs == [] then [] else Insert(vs[0], SortDescending(vs[1..], key), key)
  }

  predicate Descending(vs: seq<Validator>, key: Validator -> real) {
    forall i, j :: 0 <= i < j < |vs| ==> key(vs[i]) >= key(vs[j])
  }

  lemma {:induction false} InsertAdds(v: Validator, vs: seq<Validator>, key: Validator -> real)
    ensures multiset(Insert(v, vs, key)) == multiset(vs) + multiset{v}
    ensures forall x :: x in Insert(v, vs, key) ==> x == v || x in vs
  {
    if vs != [] && key(v) < key(vs[0]) {
      InsertAdds(v, vs[1..], key);
      assert vs == [vs[0]] + vs[1..];
    }
  }

  lemma DescendingCons(v: Validator, vs: seq<Validator>, key: Validator -> real)
    requires Descending(vs, key) && forall x :: x in vs ==> key(v) >= key(x)
    ensures Descending([v] + vs, key)
  {
  }

  lemma {:induction false} InsertSorts(v: Validator, vs: seq<Validator>, key: Validator -> real)
    requires Descending(vs, key)
    ensures Descending(Insert(v, vs, key), key)
  {
    if vs == [] || key(v) >= key(vs[0]) {
      assert forall x :: x in vs ==> key(vs[0]) >= key(x);
      DescendingCons(v, vs, key);
    } else {
      InsertSorts(v, vs[1..], key);
      InsertAdds(v, vs[1..], key);
      assert forall x :: x in vs[1..] ==> key(vs[0]) >= key(x);
      DescendingCons(vs[0], Insert(v, vs[1..], key), key);
    }
  }

  lemma {:induction false} SortSorts(vs: seq<Validator>, key: Validator -> real)
    ensures Descending(SortDescending(vs, key), key)
    ensures multiset(SortDescending(vs, key)) == multiset(vs)
  {
    if vs == [] {
    } else {
      SortSorts(vs[1..], key);
      InsertSorts(vs[0], SortDescending(vs[1..], key), key);
      InsertAdds(vs[0], SortDescending(vs[1..], key), key);
      assert vs == [vs[0]] + vs[1..];
    }
  }

  /** The validators of one key, in order. */
  function WithKey(vs: seq<Validator>, key: Validator -> real, x: real): seq<Validator> {
    if vs == [] then [] else (if key(vs[0]) == x then [vs[0]] else []) + WithKey(vs[1..], key, x)
  }

  lemma WithKeyCons(v: Validator, vs: seq<Validator>, key: Validator -> real, x: real)
    ensures WithKey([v] + vs, key, x) == (if key(v) == x then [v] else []) + WithKey(vs, key, x)
  {
    assert ([v] + vs)[1..] == vs;
  }

  lemma {:induction false} InsertIsStable(v: Validator, vs: seq<Validator>, key: Validator -> real, x: real)
    ensures WithKey(Insert(v, vs, key), key, x) == (if key(v) == x then [v] else []) + WithKey(vs, key, x)
  {
    hide WithKey;
    if vs == [] || key(v) >= key(vs[0]) {
      WithKeyCons(v, vs, key, x);
    } else {
      assert vs == [vs[0]] + vs[1..];
      WithKeyCons(vs[0], vs[1..], key, x);
      WithKeyCons(vs[0], Insert(v, vs[1..], key), key, x);
      InsertIsStable(v, vs[1..], key, x);
    }
  }

  /** The sort is stable: validators of one key stay in the order they were in. */
  lemma {:induction false} SortIsStable(vs: seq<Validator>, key: Validator -> real, x: real)
    ensures WithKey(SortDescending(vs, key), key, x) == WithKey(vs, key, x)
  {
    if vs == [] {
    } else {
      SortIsStable(vs[1..], key, x);
      InsertIsStable(vs[0], SortDescending(vs[1..], key), key, x);
    }
  }

  /** What is sorted to the front is the first validator of the highest key. */
  lemma {:induction false} SortedHead(vs: seq<Validator>, key: Validator -> real) returns (i: nat)
    requires vs != []
    ensures i < |vs| && SortDescending(vs, key) != [] && SortDescending(vs, key)[0] == vs[i]
    ensures forall j :: 0 <= j < |vs| ==> key(vs[i]) >= key(vs[j])
    ensures forall j :: 0 <= j < i ==> key(vs[i]) > key(vs[j])
  {
    var rest := vs[1..];
    if rest == [] {
      i := 0;
    } else {
      var k := SortedHead(rest, key);
      i := if key(vs[0]) >= key(rest[k]) then 0 else k + 1;
      assert forall j :: 1 <= j < |vs| ==> vs[j] == rest[j - 1];
    }
  }

  // ----- Stake-based assignment -----

  function Qualifies(minStake: nat): Validator -> bool {
    (v: Validator) => v.stake >= minStake && v.hasEndpoint
  }

  function StakeEligible(vs: seq<Validator>, minStake: nat): seq<Validator> {
    Filter(vs, Qualifies(minStake))
  }

  function StakeKey(v: Validator): real {
    v.stake as real
  }

  const RAO_PER_TAO := 1_000_000_000.0
  const USIZE_MAX: nat := 0xFFFF_FFFF_FFFF_FFFF

  /** A real number rounded half up, as a 64-bit number; a negative one counts as zero. */
  function Rounded(count: real): nat {
    if count <= 0.0 then 0 else Min((count + 0.5).Floor, USIZE_MAX)
  }

  function Times(x: real, factor: real): real {
    x * factor
  }

  /** The stake in TAO times the factor. */
  function ExecutorCount(perTao: real, stake: nat): nat {
    Rounded(Times(stake as real / RAO_PER_TAO, perTao))
  }

  /** An eligible validator may take at least one executor. */
  function Quota(perTao: real, v: Validator): nat {
    Max(1, ExecutorCount(perTao, v.stake))
  }

  function StakeClaims(order: seq<Validator>, perTao: real): (claims: seq<Claim>)
    ensures |claims| == |order|
    ensures forall k :: 0 <= k < |order| ==> claims[k] == Claim(order[k].hotkey, Quota(perTao, order[k]))
  {
    seq(|order|, k requires 0 <= k < |order| => Claim(order[k].hotkey, Quota(perTao, order[k])))
  }

  function StakeOrder(vs: seq<Validator>, minStake: nat): seq<Validator> {
    SortDescending(StakeEligible(vs, minStake), StakeKey)
  }

  lemma {:induction false} InsertKeepsKeysDistinct(v: Validator, vs: seq<Validator>, key: Validator -> real)
    requires DistinctKeys(vs) && forall w :: w in vs ==> w.hotkey != v.hotkey
    ensures DistinctKeys(Insert(v, vs, key))
    ensures forall w :: w in Insert(v, vs, key) <==> w == v || w in vs
  {
    if vs != [] && key(v) < key(vs[0]) {
      InsertKeepsKeysDistinct(v, vs[1..], key);
      assert vs == [vs[0]] + vs[1..];
      forall w | w in Insert(v, vs[1..], key)
        ensures w.hotkey != vs[0].hotkey
      {
        if w != v {
          var i :| 0 <= i < |vs[1..]| && vs[1..][i] == w;
          assert vs[i + 1] == w;
        }
      }
    }
  }

  lemma {:induction false} SortKeepsKeysDistinct(vs: seq<Validator>, key: Validator -> real)
    requires DistinctKeys(vs)
    ensures DistinctKeys(SortDescending(vs, key))
    ensures forall w :: w in SortDescending(vs, key) <==> w in vs
  {
    if vs == [] {
    } else {
      SortKeepsKeysDistinct(vs[1..], key);
      InsertKeepsKeysDistinct(vs[0], SortDescending(vs[1..], key), key);
      assert vs == [vs[0]] + vs[1..];
    }
  }

  /** The stake-based service order: the eligible validators, each once, by descending stake. */
  lemma StakeServiceOrder(vs: seq<Validator>, minStake: nat)
    requires DistinctKeys(vs)
    ensures var order := StakeOrder(vs, minStake);
            && multiset(order) == multiset(StakeEligible(vs, minStake))
            && DistinctKeys(order)
            && (forall i, j :: 0 <= i < j < |order| ==> order[i].stake >= order[j].stake)
  {
    var order := StakeOrder(vs, minStake);
    FilterKeepsKeysDistinct(vs, Qualifies(minStake));
    SortSorts(StakeEligible(vs, minStake), StakeKey);
    SortKeepsKeysDistinct(StakeEligible(vs, minStake), StakeKey);
    forall i, j | 0 <= i < j < |order|
      ensures order[i].stake >= order[j].stake
    {
      assert StakeKey(order[i]) >= StakeKey(order[j]);
    }
  }

  predicate DistinctClaims(claims: seq<Claim>) {
    forall i, j :: 0 <= i < j < |claims| ==> claims[i].hotkey != claims[j].hotkey
  }

  /** With distinct hotkeys every validator's share is the slice of its claim, within its quota. */
  lemma DistinctShares(claims: seq<Claim>, xs: seq<ExecutorId>, k: nat)
    requires k < |claims| && DistinctClaims(claims)
    ensures ShareOf(Served(claims, xs), claims[k].hotkey) == Slice(claims, xs, k)
    ensures |Slice(claims, xs, k)| <= claims[k].quota
  {
    TakenStep(claims, |xs|, k);
    if Slice(claims, xs, k) != [] {
      SliceIsTheShare(claims, xs, k);
    } else if claims[k].hotkey in Served(claims, xs) {
      var i := ShareIsASlice(claims, xs, claims[k].hotkey);
      assert false;
    }
  }

  /** Of two validators the first has the higher stake, the larger share, and its quota if the other has anything. */
  predicate ServedBefore(t: Table, v: Validator, w: Validator, quota: nat) {
    var (first, second) := (ShareOf(t, v.hotkey), ShareOf(t, w.hotkey));
    && v.stake >= w.stake
    && |first| >= |second|
    && (|first| < quota ==> second == [])
  }

  lemma DistinctAreApart(claims: seq<Claim>, xs: seq<ExecutorId>)
    requires DistinctClaims(claims)
    ensures Apart(claims, xs)
  {
  }

  lemma NonNegative(a: real, b: real)
    requires a >= 0.0 && b >= 0.0
    ensures a * b >= 0.0
  {
  }

  /** Multiplying by one factor keeps the order of non-negative numbers, or makes all products non-positive. */
  lemma TimesGrows(x: real, y: real, factor: real)
    requires 0.0 <= x <= y
    ensures Times(x, factor) <= Times(y, factor) || Times(x, factor) <= 0.0
  {
    if factor >= 0.0 {
      NonNegative(y - x, factor);
      assert (y - x) * factor == y * factor - x * factor;
    } else {
      NonNegative(x, -factor);
      assert x * -factor == -(x * factor);
    }
  }

  lemma RoundedGrows(a: real, b: real)
    requires a <= b || a <= 0.0
    ensures Rounded(a) <= Rounded(b)
  {
  }

  /** More stake never means a smaller quota. */
  lemma QuotaGrows(perTao: real, v: Validator, w: Validator)
    requires v.stake <= w.stake
    ensures Quota(perTao, v) <= Quota(perTao, w)
  {
    hide Rounded, Times;
    var (x, y) := (v.stake as real / RAO_PER_TAO, w.stake as real / RAO_PER_TAO);
    TimesGrows(x, y, perTao);
    RoundedGrows(Times(x, perTao), Times(y, perTao));
  }

  /**
   The stake-based strategy: shares in descending order of stake make up a
   prefix of the executors, none exceeds its quota, after a validator that fell
   short nobody gets anything, and nobody gets more than one of higher stake.
   */
  lemma StakeBasedLaws(vs: seq<Validator>, xs: seq<ExecutorId>, minStake: nat, perTao: real)
    requires DistinctKeys(vs)
    ensures var order := StakeOrder(vs, minStake);
            var claims := StakeClaims(order, perTao);
            var t := Served(claims, xs);
            && Joined(claims, xs, t, |claims|) == xs[..Taken(claims, |xs|)]
            && (forall k :: 0 <= k < |order| ==> |ShareOf(t, order[k].hotkey)| <= Quota(perTao, order[k]))
            && (forall k, later :: 0 <= k < later < |order| ==>
                  ServedBefore(t, order[k], order[later], Quota(perTao, order[k])))
  {
    hide Served, Slice, Joined, StakeOrder;
    var order := StakeOrder(vs, minStake);
    var claims := StakeClaims(order, perTao);
    StakeServiceOrder(vs, minStake);
    assert DistinctClaims(claims);
    SharesArePrefix(claims, xs, |claims|) by {
      DistinctAreApart(claims, xs);
    }
    assert claims[..|claims|] == claims;
    forall k | 0 <= k < |order|
      ensures |ShareOf(Served(claims, xs), order[k].hotkey)| <= Quota(perTao, order[k])
    {
      DistinctShares(claims, xs, k);
    }
    forall k, later | 0 <= k < later < |order|
      ensures ServedBefore(Served(claims, xs), order[k], order[later], Quota(perTao, order[k]))
    {
      DistinctShares(claims, xs, k);
      DistinctShares(claims, xs, later);
      QuotaGrows(perTao, order[later], order[k]);
      if |Slice(claims, xs, k)| < claims[k].quota {
        ShortShareIsLast(claims, xs, k, later);
      }
    }
  }

  /** The whole number nearest to the stake in TAO times the factor, but at least one, and at most a 64-bit number. */
  predicate IsCount(q: nat, stake: nat, perTao: real) {
    var exact := Times(stake as real / 1_000_000_000.0, perTao);
    && 1 <= q <= USIZE_MAX
    && (q == 1 || exact >= q as real - 0.5)
    && (q == USIZE_MAX || exact < q as real + 0.5)
  }

  /** The validator holds as many executors as its stake is worth, or fewer because every executor is gone. */
  ghost predicate HoldsItsCount(t: Table, xs: seq<ExecutorId>, v: Validator, perTao: real) {
    exists q ::
      && IsCount(q, v.stake, perTao)
      && |ShareOf(t, v.hotkey)| <= q
      && (|ShareOf(t, v.hotkey)| < q ==> AllAssigned(t, xs))
  }

  /** Just the reachable validators of enough stake hold executors, each its count while they last. */
  ghost predicate IsStakeTable(vs: seq<Validator>, xs: seq<ExecutorId>, minStake: nat, perTao: real, t: Table) {
    && (forall h :: h in t ==> exists v :: v in vs && v.hotkey == h && v.hasEndpoint && v.stake >= minStake)
    && (forall v :: v in vs && v.hasEndpoint && v.stake >= minStake ==> HoldsItsCount(t, xs, v, perTao))
  }

  lemma QuotaIsCount(perTao: real, v: Validator)
    ensures IsCount(Quota(perTao, v), v.stake, perTao)
  {
    hide Times;
  }

  lemma StakeTable(vs: seq<Validator>, xs: seq<ExecutorId>, minStake: nat, perTao: real)
    requires DistinctKeys(vs)
    ensures IsStakeTable(vs, xs, minStake, perTao, Served(StakeClaims(StakeOrder(vs, minStake), perTao), xs))
  {
    hide Served, Slice, Taken, Quota, IsCount;
    var order := StakeOrder(vs, minStake);
    var claims := StakeClaims(order, perTao);
    var t := Served(claims, xs);
    StakeServiceOrder(vs, minStake);
    DistinctAreApart(claims, xs);
    forall v
      ensures v in order <==> v in vs && v.hasEndpoint && v.stake >= minStake
    {
      InFilter(vs, Qualifies(minStake), v);
      assert v in order <==> v in multiset(order);
      assert v in StakeEligible(vs, minStake) <==> v in multiset(StakeEligible(vs, minStake));
    }
    forall h | h in t
      ensures exists v :: v in vs && v.hotkey == h && v.hasEndpoint && v.stake >= minStake
    {
      var k := ShareIsASlice(claims, xs, h);
      assert order[k] in order;
    }
    forall v | v in vs && v.hasEndpoint && v.stake >= minStake
      ensures HoldsItsCount(t, xs, v, perTao)
    {
      var k :| 0 <= k < |order| && order[k] == v;
      DistinctShares(claims, xs, k);
      ClaimIsMet(claims, xs, k);
      QuotaIsCount(perTao, v);
    }
  }

  method StakeBased(vs: seq<Validator>, xs: seq<ExecutorId>, minStake: nat, perTao: real) returns (t: Table)
    ensures t == Served(StakeClaims(StakeOrder(vs, minStake), perTao), xs)
    ensures DistinctKeys(vs) ==> IsStakeTable(vs, xs, minStake, perTao, t)
  {
    var order := SortDescending(StakeEligible(vs, minStake), StakeKey);
    ghost var claims := StakeClaims(order, perTao);
    t := map[];
    var next := 0;
    for k := 0 to |order|
      invariant t == Served(claims[..k], xs) && next == Taken(claims[..k], |xs|)
    {
      t, next := Serve(t, xs, next, Claim(order[k].hotkey, Quota(perTao, order[k])), claims[..k]);
      assert claims[..k] + [claims[k]] == claims[..k + 1];
    }
    assert claims[..|order|] == claims;
    if DistinctKeys(vs) {
      StakeTable(vs, xs, minStake, perTao);
    }
  }

  // ----- Business-logic assignment -----

  function PreferredClaims(vs: seq<Validator>, preferred: seq<Hotkey>, cap: nat): seq<Claim> {
    if vs == [] then []
    else
      var n := |vs| - 1;
      PreferredClaims(vs[..n], preferred, cap) + if vs[n].hotkey in preferred then [Claim(vs[n].hotkey, cap)] else []
  }

  /** The second pass: one executor for each reachable validator that holds none when its turn comes. */
  function OtherClaims(vs: seq<Validator>, first: seq<Claim>, xs: seq<ExecutorId>): seq<Claim> {
    if vs == [] then []
    else
      var n := |vs| - 1;
      var prior := OtherClaims(vs[..n], first, xs);
      if vs[n].hotkey !in Served(first + prior, xs) && vs[n].hasEndpoint
      then prior + [Claim(vs[n].hotkey, 1)] else prior
  }

  function BusinessClaims(vs: seq<Validator>, preferred: seq<Hotkey>, cap: nat, xs: seq<ExecutorId>): seq<Claim> {
    var first := PreferredClaims(vs, preferred, cap);
    first + OtherClaims(vs, first, xs)
  }

  lemma {:induction false} ServedKeysGrow(claims: seq<Claim>, xs: seq<ExecutorId>, n: nat, h: Hotkey)
    requires n <= |claims| && h in Served(claims[..n], xs)
    ensures h in Served(claims, xs)
    decreases |claims|
  {
    hide Slice, Taken;
    if n < |claims| {
      var m := |claims| - 1;
      assert claims[..m][..n] == claims[..n];
      ServedKeysGrow(claims[..m], xs, n, h);
    } else {
      assert claims[..n] == claims;
    }
  }

  /** A claim whose slice is not empty puts its hotkey into the table. */
  lemma SliceEnters(claims: seq<Claim>, xs: seq<ExecutorId>, k: nat)
    requires k < |claims| && Slice(claims, xs, k) != []
    ensures claims[k].hotkey in Served(claims, xs)
  {
    SliceOfPrefix(claims, xs, k + 1, k);
    ServedKeysGrow(claims, xs, k + 1, claims[k].hotkey);
  }

  lemma {:induction false} PreferredKeys(vs: seq<Validator>, preferred: seq<Hotkey>, cap: nat)
    requires DistinctKeys(vs)
    ensures DistinctClaims(PreferredClaims(vs, preferred, cap))
    ensures forall c :: c in PreferredClaims(vs, preferred, cap) ==> exists v :: v in vs && v.hotkey == c.hotkey
  {
    if vs == [] {
    } else {
      var n := |vs| - 1;
      PreferredKeys(vs[..n], preferred, cap);
      forall c | c in PreferredClaims(vs, preferred, cap)
        ensures exists v :: v in vs && v.hotkey == c.hotkey
      {
        if c in PreferredClaims(vs[..n], preferred, cap) {
          var v :| v in vs[..n] && v.hotkey == c.hotkey;
          assert v in vs;
        } else {
          assert vs[n] in vs;
        }
      }
    }
  }

  lemma {:induction false} OtherKeys(vs: seq<Validator>, first: seq<Claim>, xs: seq<ExecutorId>)
    requires DistinctKeys(vs)
    ensures var others := OtherClaims(vs, first, xs);
            && DistinctClaims(others)
            && (forall c :: c in others ==> exists v :: v in vs && v.hotkey == c.hotkey)
            && (forall c :: c in others ==> c.hotkey !in Served(first, xs))
  {
    if vs == [] {
    } else {
      hide Served;
      var n := |vs| - 1;
      OtherKeys(vs[..n], first, xs);
      var prior, others := OtherClaims(vs[..n], first, xs), OtherClaims(vs, first, xs);
      forall c | c in others
        ensures exists v :: v in vs && v.hotkey == c.hotkey
        ensures c.hotkey !in Served(first, xs)
      {
        if c in prior {
          var v :| v in vs[..n] && v.hotkey == c.hotkey;
          assert v in vs;
        } else {
          assert vs[n] in vs;
          assert (first + prior)[..|first|] == first;
          if c.hotkey in Served(first, xs) {
            ServedKeysGrow(first + prior, xs, |first|, c.hotkey);
          }
        }
      }
    }
  }

  /** With distinct hotkeys the two passes never serve one validator twice. */
  lemma BusinessClaimsApart(vs: seq<Validator>, preferred: seq<Hotkey>, cap: nat, xs: seq<ExecutorId>)
    requires DistinctKeys(vs)
    ensures Apart(BusinessClaims(vs, preferred, cap, xs), xs)
  {
    var first := PreferredClaims(vs, preferred, cap);
    var others := OtherClaims(vs, first, xs);
    var claims := first + others;
    PreferredKeys(vs, preferred, cap);
    OtherKeys(vs, first, xs);
    forall i, j | 0 <= i < j < |claims| && claims[i].hotkey == claims[j].hotkey
      ensures Slice(claims, xs, i) == []
    {
      assert i < |first| <= j;
      assert others[j - |first|] in others;
      assert claims[..|first|] == first;
      SliceOfPrefix(claims, xs, |first|, i);
      if Slice(claims, xs, i) != [] {
        SliceEnters(first, xs, i);
      }
    }
  }

  lemma BusinessSharesArePrefix(vs: seq<Validator>, preferred: seq<Hotkey>, cap: nat, xs: seq<ExecutorId>)
    requires DistinctKeys(vs)
    ensures var claims := BusinessClaims(vs, preferred, cap, xs);
            Joined(claims, xs, Served(claims, xs), |claims|) == xs[..Taken(claims, |xs|)]
  {
    var claims := BusinessClaims(vs, preferred, cap, xs);
    BusinessClaimsApart(vs, preferred, cap, xs);
    SharesArePrefix(claims, xs, |claims|);
    assert claims[..|claims|] == claims;
  }

  // ----- What the business-logic strategy gives to whom -----

  /** Preferred validators may take executors in the first pass, unless the cap is zero. */
  predicate InFirstPass(v: Validator, preferred: seq<Hotkey>, cap: nat) {
    v.hotkey in preferred && cap > 0
  }

  /** What a validator gets while executors last. */
  function Due(v: Validator, preferred: seq<Hotkey>, cap: nat): nat {
    if InFirstPass(v, preferred, cap) then cap else if v.hasEndpoint then 1 else 0
  }

  /** The first pass comes before the second, and each goes in the order of the list. */
  predicate ComesBefore(vs: seq<Validator>, preferred: seq<Hotkey>, cap: nat, i: nat, j: nat)
    requires i < |vs| && j < |vs|
  {
    if InFirstPass(vs[i], preferred, cap) == InFirstPass(vs[j], preferred, cap) then i < j
    else InFirstPass(vs[i], preferred, cap)
  }

  /** The executor a validator lacks is gone to others, and nobody after it gets any. */
  ghost predicate IsServed(vs: seq<Validator>, xs: seq<ExecutorId>, preferred: seq<Hotkey>, cap: nat, t: Table, i: nat)
    requires i < |vs|
  {
    var (share, due) := (ShareOf(t, vs[i].hotkey), Due(vs[i], preferred, cap));
    && |share| <= due
    && (|share| < due ==> AllAssigned(t, xs))
    && (|share| < due ==>
          forall j :: 0 <= j < |vs| && ComesBefore(vs, preferred, cap, i, j) ==> ShareOf(t, vs[j].hotkey) == [])
  }

  /** Only validators on the list hold executors, and each holds what it is due while they last. */
  ghost predicate IsBusinessTable(vs: seq<Validator>, xs: seq<ExecutorId>, preferred: seq<Hotkey>, cap: nat, t: Table) {
    && (forall h :: h in t ==> exists v :: v in vs && v.hotkey == h)
    && (forall i :: 0 <= i < |vs| ==> IsServed(vs, xs, preferred, cap, t, i))
  }

  lemma {:induction false} PreferredFrom(vs: seq<Validator>, preferred: seq<Hotkey>, cap: nat, c: Claim)
    requires c in PreferredClaims(vs, preferred, cap)
    ensures c.hotkey in preferred && c.quota == cap
  {
    var n := |vs| - 1;
    if c in PreferredClaims(vs[..n], preferred, cap) {
      PreferredFrom(vs[..n], preferred, cap, c);
    }
  }

  /** Where the claim of a preferred validator stands. */
  lemma {:induction false} PreferredIndex(vs: seq<Validator>, preferred: seq<Hotkey>, cap: nat, i: nat)
    requires i < |vs|
    ensures var (claims, k) := (PreferredClaims(vs, preferred, cap), |PreferredClaims(vs[..i], preferred, cap)|);
            && k <= |PreferredClaims(vs[..i + 1], preferred, cap)| <= |claims|
            && (vs[i].hotkey in preferred ==>
                k < |PreferredClaims(vs[..i + 1], preferred, cap)| && claims[k] == Claim(vs[i].hotkey, cap))
    decreases |vs|
  {
    var n := |vs| - 1;
    assert vs[..i + 1][..i] == vs[..i];
    if i < n {
      PreferredIndex(vs[..n], preferred, cap, i);
      assert vs[..n][..i] == vs[..i] && vs[..n][..i + 1] == vs[..i + 1];
    } else {
      assert vs[..i + 1] == vs;
    }
  }

  lemma {:induction false} PreferredCount(vs: seq<Validator>, preferred: seq<Hotkey>, cap: nat, i: nat, j: nat)
    requires i <= j <= |vs|
    ensures |PreferredClaims(vs[..i], preferred, cap)| <= |PreferredClaims(vs[..j], preferred, cap)|
    decreases j
  {
    hide PreferredClaims;
    if i < j {
      PreferredCount(vs, preferred, cap, i, j - 1);
      PreferredIndex(vs, preferred, cap, j - 1);
    }
  }

  /** Where the claim of a validator stands that comes up in the second pass without executors. */
  lemma {:induction false} OtherIndex(vs: seq<Validator>, first: seq<Claim>, xs: seq<ExecutorId>, i: nat)
    requires i < |vs|
    ensures var (others, k) := (OtherClaims(vs, first, xs), |OtherClaims(vs[..i], first, xs)|);
            && k <= |OtherClaims(vs[..i + 1], first, xs)| <= |others|
            && (vs[i].hasEndpoint && vs[i].hotkey !in Served(first + OtherClaims(vs[..i], first, xs), xs) ==>
                k < |OtherClaims(vs[..i + 1], first, xs)| && others[k] == Claim(vs[i].hotkey, 1))
    decreases |vs|
  {
    hide Served;
    var n := |vs| - 1;
    assert vs[..i + 1][..i] == vs[..i];
    if i < n {
      OtherIndex(vs[..n], first, xs, i);
      assert vs[..n][..i] == vs[..i] && vs[..n][..i + 1] == vs[..i + 1];
    } else {
      assert vs[..i + 1] == vs;
    }
  }

  lemma {:induction false} OtherCount(vs: seq<Validator>, first: seq<Claim>, xs: seq<ExecutorId>, i: nat, j: nat)
    requires i <= j <= |vs|
    ensures |OtherClaims(vs[..i], first, xs)| <= |OtherClaims(vs[..j], first, xs)|
    decreases j
  {
    hide Served, OtherClaims;
    if i < j {
      OtherCount(vs, first, xs, i, j - 1);
      OtherIndex(vs, first, xs, j - 1);
    }
  }

  lemma {:induction false} OtherFrom(vs: seq<Validator>, first: seq<Claim>, xs: seq<ExecutorId>, c: Claim) returns (i: nat)
    requires c in OtherClaims(vs, first, xs)
    ensures i < |vs| && vs[i].hasEndpoint && vs[i].hotkey == c.hotkey && c.quota == 1
  {
    hide Served;
    var n := |vs| - 1;
    if c in OtherClaims(vs[..n], first, xs) {
      i := OtherFrom(vs[..n], first, xs, c);
    } else {
      i := n;
    }
  }

  /** A validator outside the first pass holds nothing when its turn in the second comes. */
  lemma HoldsNothingYet(vs: seq<Validator>, preferred: seq<Hotkey>, cap: nat, xs: seq<ExecutorId>, i: nat)
    requires DistinctKeys(vs) && i < |vs| && !InFirstPass(vs[i], preferred, cap)
    ensures var first := PreferredClaims(vs, preferred, cap);
            vs[i].hotkey !in Served(first + OtherClaims(vs[..i], first, xs), xs)
  {
    hide Served, Slice, OtherClaims, PreferredClaims;
    var first := PreferredClaims(vs, preferred, cap);
    var others := OtherClaims(vs[..i], first, xs);
    if vs[i].hotkey in Served(first + others, xs) {
      var k := ShareIsASlice(first + others, xs, vs[i].hotkey);
      if k < |first| {
        PreferredFrom(vs, preferred, cap, first[k]);
      } else {
        assert others[k - |first|] in others;
        var j := OtherFrom(vs[..i], first, xs, others[k - |first|]);
      }
      assert false;
    }
  }

  /** Where the claim of a validator stands that is due something. */
  function Place(vs: seq<Validator>, preferred: seq<Hotkey>, cap: nat, xs: seq<ExecutorId>, i: nat): nat
    requires i < |vs|
  {
    var first := PreferredClaims(vs, preferred, cap);
    if InFirstPass(vs[i], preferred, cap) then |PreferredClaims(vs[..i], preferred, cap)|
    else |first| + |OtherClaims(vs[..i], first, xs)|
  }

  lemma PlaceIsClaim(vs: seq<Validator>, preferred: seq<Hotkey>, cap: nat, xs: seq<ExecutorId>, i: nat)
    requires DistinctKeys(vs) && i < |vs| && Due(vs[i], preferred, cap) > 0
    ensures var (claims, k) := (BusinessClaims(vs, preferred, cap, xs), Place(vs, preferred, cap, xs, i));
            k < |claims| && claims[k] == Claim(vs[i].hotkey, Due(vs[i], preferred, cap))
  {
    hide Served;
    PreferredIndex(vs, preferred, cap, i);
    if !InFirstPass(vs[i], preferred, cap) {
      HoldsNothingYet(vs, preferred, cap, xs, i);
      OtherIndex(vs, PreferredClaims(vs, preferred, cap), xs, i);
    }
  }

  lemma PlacesInOrder(vs: seq<Validator>, preferred: seq<Hotkey>, cap: nat, xs: seq<ExecutorId>, i: nat, j: nat)
    requires DistinctKeys(vs) && i < |vs| && j < |vs| && ComesBefore(vs, preferred, cap, i, j)
    requires Due(vs[i], preferred, cap) > 0
    ensures Place(vs, preferred, cap, xs, i) < Place(vs, preferred, cap, xs, j)
  {
    hide Served, OtherClaims, PreferredClaims;
    var first := PreferredClaims(vs, preferred, cap);
    if InFirstPass(vs[i], preferred, cap) {
      PreferredIndex(vs, preferred, cap, i);
      if InFirstPass(vs[j], preferred, cap) {
        PreferredCount(vs, preferred, cap, i + 1, j);
      }
    } else {
      HoldsNothingYet(vs, preferred, cap, xs, i);
      OtherIndex(vs, first, xs, i);
      OtherCount(vs, first, xs, i + 1, j);
    }
  }

  /** A slice that belongs to a validator on the list is the one at its place. */
  lemma SliceIsAtPlace(vs: seq<Validator>, preferred: seq<Hotkey>, cap: nat, xs: seq<ExecutorId>, i: nat, k: nat)
    requires DistinctKeys(vs) && i < |vs|
    requires var claims := BusinessClaims(vs, preferred, cap, xs);
             k < |claims| && claims[k].hotkey == vs[i].hotkey && Slice(claims, xs, k) != [] && claims[k].quota > 0
    ensures Due(vs[i], preferred, cap) > 0 && k == Place(vs, preferred, cap, xs, i)
  {
    hide Served, OtherClaims, PreferredClaims, Slice;
    var first := PreferredClaims(vs, preferred, cap);
    var others := OtherClaims(vs, first, xs);
    var claims := first + others;
    if k < |first| {
      PreferredFrom(vs, preferred, cap, first[k]);
      PlaceIsClaim(vs, preferred, cap, xs, i);
      PreferredIndex(vs, preferred, cap, i);
      PreferredKeys(vs, preferred, cap);
    } else {
      assert others[k - |first|] in others;
      var j := OtherFrom(vs, first, xs, others[k - |first|]);
      assert j == i;
      PlaceIsClaim(vs, preferred, cap, xs, i);
      OtherKeys(vs, first, xs);
      var p := Place(vs, preferred, cap, xs, i);
      if InFirstPass(vs[i], preferred, cap) {
        PreferredIndex(vs, preferred, cap, i);
        BusinessClaimsApart(vs, preferred, cap, xs);
        if Slice(claims, xs, p) == [] {
          ShortShareIsLast(claims, xs, p, k);
        }
        assert false;
      } else {
        assert others[p - |first|].hotkey == others[k - |first|].hotkey;
      }
    }
  }

  lemma ShareIsAtPlace(vs: seq<Validator>, preferred: seq<Hotkey>, cap: nat, xs: seq<ExecutorId>, i: nat)
    requires DistinctKeys(vs) && i < |vs|
    ensures var claims := BusinessClaims(vs, preferred, cap, xs);
            var (share, k) := (ShareOf(Served(claims, xs), vs[i].hotkey), Place(vs, preferred, cap, xs, i));
            if Due(vs[i], preferred, cap) == 0 then share == [] else k < |claims| && share == Slice(claims, xs, k)
  {
    hide Slice, Place, BusinessClaims, Served;
    var claims := BusinessClaims(vs, preferred, cap, xs);
    if vs[i].hotkey in Served(claims, xs) {
      var k := ShareIsASlice(claims, xs, vs[i].hotkey);
      SliceIsAtPlace(vs, preferred, cap, xs, i, k);
    } else if Due(vs[i], preferred, cap) > 0 {
      PlaceIsClaim(vs, preferred, cap, xs, i);
      var k := Place(vs, preferred, cap, xs, i);
      if Slice(claims, xs, k) != [] {
        SliceEnters(claims, xs, k);
      }
    }
  }

  lemma ServedAtPlace(vs: seq<Validator>, xs: seq<ExecutorId>, preferred: seq<Hotkey>, cap: nat, i: nat)
    requires DistinctKeys(vs) && i < |vs|
    ensures IsServed(vs, xs, preferred, cap, Served(BusinessClaims(vs, preferred, cap, xs), xs), i)
  {
    hide Slice, Place, BusinessClaims, Served, ComesBefore;
    var claims := BusinessClaims(vs, preferred, cap, xs);
    ShareIsAtPlace(vs, preferred, cap, xs, i);
    if Due(vs[i], preferred, cap) > 0 {
      var k := Place(vs, preferred, cap, xs, i);
      PlaceIsClaim(vs, preferred, cap, xs, i);
      BusinessClaimsApart(vs, preferred, cap, xs);
      ClaimIsMet(claims, xs, k);
      forall j | 0 <= j < |vs| && ComesBefore(vs, preferred, cap, i, j) && |Slice(claims, xs, k)| < claims[k].quota
        ensures ShareOf(Served(claims, xs), vs[j].hotkey) == []
      {
        ShareIsAtPlace(vs, preferred, cap, xs, j);
        if Due(vs[j], preferred, cap) > 0 {
          PlacesInOrder(vs, preferred, cap, xs, i, j);
          ShortShareIsLast(claims, xs, k, Place(vs, preferred, cap, xs, j));
        }
      }
    }
  }

  lemma BusinessTable(vs: seq<Validator>, xs: seq<ExecutorId>, preferred: seq<Hotkey>, cap: nat)
    requires DistinctKeys(vs)
    ensures IsBusinessTable(vs, xs, preferred, cap, Served(BusinessClaims(vs, preferred, cap, xs), xs))
  {
    hide Slice, Served, IsServed;
    var first := PreferredClaims(vs, preferred, cap);
    var claims := BusinessClaims(vs, preferred, cap, xs);
    forall h | h in Served(claims, xs)
      ensures exists v :: v in vs && v.hotkey == h
    {
      var k := ShareIsASlice(claims, xs, h);
      if k < |first| {
        PreferredKeys(vs, preferred, cap);
        assert first[k] in first;
      } else {
        OtherKeys(vs, first, xs);
        assert claims[k] in OtherClaims(vs, first, xs);
      }
    }
    forall i | 0 <= i < |vs|
      ensures IsServed(vs, xs, preferred, cap, Served(claims, xs), i)
    {
      ServedAtPlace(vs, xs, preferred, cap, i);
    }
  }

  method BusinessLogic(vs: seq<Validator>, xs: seq<ExecutorId>, preferred: seq<Hotkey>, cap: nat) returns (t: Table)
    ensures t == Served(BusinessClaims(vs, preferred, cap, xs), xs)
    ensures DistinctKeys(vs) ==> IsBusinessTable(vs, xs, preferred, cap, t)
  {
    t := map[];
    var next := 0;
    ghost var first := [];
    assert t == Served(first, xs) && next == Taken(first, |xs|);
    hide Served, Taken;
    for i := 0 to |vs|
      invariant first == PreferredClaims(vs[..i], preferred, cap)
      invariant t == Served(first, xs) && next == Taken(first, |xs|)
    {
      assert vs[..i + 1][..i] == vs[..i];
      if vs[i].hotkey in preferred {
        t, next := Serve(t, xs, next, Claim(vs[i].hotkey, cap), first);
        first := first + [Claim(vs[i].hotkey, cap)];
      }
    }
    ghost var others := [];
    assert first + others == first;
    for i := 0 to |vs|
      invariant others == OtherClaims(vs[..i], first, xs)
      invariant t == Served(first + others, xs) && next == Taken(first + others, |xs|)
    {
      assert vs[..i + 1][..i] == vs[..i];
      if vs[i].hotkey !in t && vs[i].hasEndpoint {
        t, next := Serve(t, xs, next, Claim(vs[i].hotkey, 1), first + others);
        others := others + [Claim(vs[i].hotkey, 1)];
        assert first + others == first + others[..|others| - 1] + [Claim(vs[i].hotkey, 1)];
      }
    }
    assert vs[..|vs|] == vs;
    if DistinctKeys(vs) {
      BusinessTable(vs, xs, preferred, cap);
    }
  }

  ghost predicate CapRespected(preferred: seq<Hotkey>, cap: nat) {
    forall vs: seq<Validator>, xs: seq<ExecutorId>, h ::
      |ShareOf(Served(BusinessClaims(vs, preferred, cap, xs), xs), h)| <= cap
  }

  lemma {:induction false} PreferredQuotas(vs: seq<Validator>, preferred: seq<Hotkey>, cap: nat)
    ensures forall c :: c in PreferredClaims(vs, preferred, cap) ==> c.quota == cap
  {
    if vs == [] {
    } else {
      PreferredQuotas(vs[..|vs| - 1], preferred, cap);
    }
  }

  lemma {:induction false} OtherQuotas(vs: seq<Validator>, first: seq<Claim>, xs: seq<ExecutorId>)
    ensures forall c :: c in OtherClaims(vs, first, xs) ==> c.quota == 1
  {
    if vs == [] {
    } else {
      OtherQuotas(vs[..|vs| - 1], first, xs);
    }
  }

  lemma {:induction false} ZeroQuotas(claims: seq<Claim>, xs: seq<ExecutorId>)
    requires forall c :: c in claims ==> c.quota == 0
    ensures Taken(claims, |xs|) == 0 && Served(claims, xs) == map[]
  {
    if claims == [] {
    } else {
      var n := |claims| - 1;
      assert claims[n] in claims;
      ZeroQuotas(claims[..n], xs);
      TakenStep(claims, |xs|, n);
      assert claims[..n + 1] == claims;
    }
  }

  /** With a cap of zero, a lone reachable validator still gets the one executor there is. */
  lemma ZeroCapExceeded(preferred: seq<Hotkey>)
    ensures !CapRespected(preferred, 0)
  {
    var vs, xs := [Validator("v", 0, true)], ["x"];
    var first := PreferredClaims(vs, preferred, 0);
    PreferredQuotas(vs, preferred, 0);
    ZeroQuotas(first, xs);
    assert vs[..0] == [] && first + [] == first;
    assert OtherClaims(vs[..0], first, xs) == [];
    assert OtherClaims(vs, first, xs) == [Claim("v", 1)];
    var claims := BusinessClaims(vs, preferred, 0, xs);
    assert claims == first + [Claim("v", 1)];
    ServedSnoc(first, Claim("v", 1), xs);
    assert ShareOf(Served(claims, xs), "v") == xs[0..1];
  }

  /** The cap per validator holds in every case just when it is at least one: the second pass ignores it. */
  lemma CapRespectedExactly(preferred: seq<Hotkey>, cap: nat)
    ensures CapRespected(preferred, cap) <==> cap >= 1
  {
    if cap >= 1 {
      forall vs: seq<Validator>, xs: seq<ExecutorId>, h
        ensures |ShareOf(Served(BusinessClaims(vs, preferred, cap, xs), xs), h)| <= cap
      {
        var claims := BusinessClaims(vs, preferred, cap, xs);
        PreferredQuotas(vs, preferred, cap);
        OtherQuotas(vs, PreferredClaims(vs, preferred, cap), xs);
        if h in Served(claims, xs) {
          var k := ShareIsASlice(claims, xs, h);
          assert claims[k] in claims;
        }
      }
    } else {
      ZeroCapExceeded(preferred);
    }
  }

  // ----- Highest-stake assignment -----

  function StakeIn(stakes: map<Hotkey, real>, h: Hotkey): real {
    if h in stakes then stakes[h] else 0.0
  }

  function HasStake(stakes: map<Hotkey, real>, threshold: real): Validator -> bool {
    (v: Validator) => v.hasEndpoint && StakeIn(stakes, v.hotkey) >= threshold
  }

  function StakedEligible(vs: seq<Validator>, stakes: map<Hotkey, real>, threshold: real): seq<Validator> {
    Filter(vs, HasStake(stakes, threshold))
  }

  /** Reachable, of enough recorded stake, and the configured validator if there is one. */
  predicate MayHaveAll(v: Validator, stakes: map<Hotkey, real>, threshold: real, configured: Option<Hotkey>) {
    && v.hasEndpoint && StakeIn(stakes, v.hotkey) >= threshold
    && (configured.Some? ==> v.hotkey == configured.value)
  }

  /** The first of highest recorded stake among those that may have all. */
  ghost predicate IsFirstHighest(vs: seq<Validator>, stakes: map<Hotkey, real>, threshold: real,
                                 configured: Option<Hotkey>, i: nat)
  {
    && i < |vs| && MayHaveAll(vs[i], stakes, threshold, configured)
    && forall j :: 0 <= j < |vs| && MayHaveAll(vs[j], stakes, threshold, configured) ==>
         if j < i then StakeIn(stakes, vs[i].hotkey) > StakeIn(stakes, vs[j].hotkey)
         else StakeIn(stakes, vs[i].hotkey) >= StakeIn(stakes, vs[j].hotkey)
  }

  /** All executors go to that validator; nothing is assigned when there is none. */
  ghost predicate IsHighestStake(vs: seq<Validator>, xs: seq<ExecutorId>, stakes: map<Hotkey, real>, threshold: real,
                                 configured: Option<Hotkey>, t: Table)
  {
    if xs == [] || forall v :: v in vs ==> !MayHaveAll(v, stakes, threshold, configured)
    then t == map[]
    else exists i: nat :: IsFirstHighest(vs, stakes, threshold, configured, i) && t == map[vs[i].hotkey := xs]
  }

  function RecordedStake(stakes: map<Hotkey, real>): Validator -> real {
    (v: Validator) => StakeIn(stakes, v.hotkey)
  }

  lemma HeadIsFirstHighest(vs: seq<Validator>, stakes: map<Hotkey, real>, threshold: real) returns (i: nat)
    requires SortDescending(StakedEligible(vs, stakes, threshold), RecordedStake(stakes)) != []
    ensures IsFirstHighest(vs, stakes, threshold, None, i) && i < |vs|
    ensures vs[i] == SortDescending(StakedEligible(vs, stakes, threshold), RecordedStake(stakes))[0]
  {
    var eligible := StakedEligible(vs, stakes, threshold);
    var at := FilterPicks(vs, HasStake(stakes, threshold));
    var k := SortedHead(eligible, RecordedStake(stakes));
    i := at[k];
    forall j | 0 <= j < |vs| && MayHaveAll(vs[j], stakes, threshold, None)
      ensures if j < i then StakeIn(stakes, vs[i].hotkey) > StakeIn(stakes, vs[j].hotkey)
              else StakeIn(stakes, vs[i].hotkey) >= StakeIn(stakes, vs[j].hotkey)
    {
      var l :| 0 <= l < |at| && at[l] == j;
      assert eligible[l] == vs[j] && eligible[k] == vs[i];
    }
  }

  lemma {:induction false} FirstOf(vs: seq<Validator>, stakes: map<Hotkey, real>, threshold: real, h: Hotkey, v: Validator)
    returns (i: nat)
    requires v in vs && MayHaveAll(v, stakes, threshold, Some(h))
    ensures IsFirstHighest(vs, stakes, threshold, Some(h), i) && vs[i].hotkey == h
  {
    if MayHaveAll(vs[0], stakes, threshold, Some(h)) {
      i := 0;
    } else {
      assert v in vs[1..];
      var k := FirstOf(vs[1..], stakes, threshold, h, v);
      i := k + 1;
      assert forall j :: 1 <= j < |vs| ==> vs[j] == vs[1..][j - 1];
    }
  }

  /** Sorted or not, the eligible validators are the reachable ones of enough recorded stake. */
  lemma InStakeOrder(vs: seq<Validator>, stakes: map<Hotkey, real>, threshold: real, v: Validator)
    ensures v in SortDescending(StakedEligible(vs, stakes, threshold), RecordedStake(stakes)) <==>
            v in vs && v.hasEndpoint && StakeIn(stakes, v.hotkey) >= threshold
  {
    var eligible := StakedEligible(vs, stakes, threshold);
    var order := SortDescending(eligible, RecordedStake(stakes));
    SortSorts(eligible, RecordedStake(stakes));
    InFilter(vs, HasStake(stakes, threshold), v);
    assert v in order <==> v in multiset(order);
    assert v in eligible <==> v in multiset(eligible);
  }

  lemma FirstMayHaveAll(vs: seq<Validator>, stakes: map<Hotkey, real>, threshold: real, configured: Option<Hotkey>, i: nat)
    requires IsFirstHighest(vs, stakes, threshold, configured, i)
    ensures i < |vs| && vs[i] in vs && MayHaveAll(vs[i], stakes, threshold, configured)
  {
  }

  lemma ConfiguredIsFirst(vs: seq<Validator>, stakes: map<Hotkey, real>, threshold: real, h: Hotkey, k: nat) returns (i: nat)
    requires var order := SortDescending(StakedEligible(vs, stakes, threshold), RecordedStake(stakes));
             k < |order| && order[k].hotkey == h
    ensures IsFirstHighest(vs, stakes, threshold, Some(h), i) && i < |vs| && vs[i].hotkey == h
  {
    var order := SortDescending(StakedEligible(vs, stakes, threshold), RecordedStake(stakes));
    InStakeOrder(vs, stakes, threshold, order[k]);
    i := FirstOf(vs, stakes, threshold, h, order[k]);
  }

  /** Without the configured validator among them, or without any, nobody may have all. */
  lemma NobodyMayHaveAll(vs: seq<Validator>, stakes: map<Hotkey, real>, threshold: real, configured: Option<Hotkey>)
    requires var order := SortDescending(StakedEligible(vs, stakes, threshold), RecordedStake(stakes));
             forall k :: 0 <= k < |order| ==> configured.Some? && order[k].hotkey != configured.value
    ensures forall v :: v in vs ==> !MayHaveAll(v, stakes, threshold, configured)
  {
    forall v | v in vs
      ensures !MayHaveAll(v, stakes, threshold, configured)
    {
      InStakeOrder(vs, stakes, threshold, v);
    }
  }

  /** `stakes` is None when the database cannot be read. */
  method HighestStake(vs: seq<Validator>, xs: seq<ExecutorId>, stakes: Option<map<Hotkey, real>>,
                      threshold: real, configured: Option<Hotkey>)
    returns (t: Table)
    ensures stakes.None? ==> t == map[]
    ensures stakes.Some? ==> IsHighestStake(vs, xs, stakes.value, threshold, configured, t)
  {
    hide SortDescending, StakedEligible, IsFirstHighest, MayHaveAll;
    t := map[];
    if stakes.None? || xs == [] {
      return;
    }
    var eligible := StakedEligible(vs, stakes.value, threshold);
    var order := SortDescending(eligible, RecordedStake(stakes.value));
    if order == [] {
      NobodyMayHaveAll(vs, stakes.value, threshold, configured);
      return;
    }
    if configured.None? {
      ghost var i := HeadIsFirstHighest(vs, stakes.value, threshold);
      FirstMayHaveAll(vs, stakes.value, threshold, configured, i);
      t := map[order[0].hotkey := xs];
      return;
    }
    for i := 0 to |order|
      invariant forall k :: 0 <= k < i ==> order[k].hotkey != configured.value
    {
      if order[i].hotkey == configured.value {
        ghost var first := ConfiguredIsFirst(vs, stakes.value, threshold, configured.value, i);
        FirstMayHaveAll(vs, stakes.value, threshold, configured, first);
        return map[order[i].hotkey := xs];
      }
    }
    NobodyMayHaveAll(vs, stakes.value, threshold, configured);
  }
}
