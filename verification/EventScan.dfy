/** Scanning the chain for collateral events in ranges, and grouping what a range returns by block. */
module EventScan {
  import opened Basics

  const MAX_BLOCKS_PER_SCAN: nat := 1000

  datatype Kind = Deposit | Reclaimed | Slashed | Unrecognised

  /** A log as the provider returns it; `payload` is None when a recognised event does not decode. */
  datatype Log = Log(removed: bool, block: Option<nat>, kind: Kind, payload: Option<int>)

  datatype Event = Event(kind: Kind, payload: int)

  datatype Error = NoBlockNumber | Undecodable | FromBlockTooLate

  // ----- Grouping one range -----

  predicate Recognised(l: Log) {
    !l.removed && !l.kind.Unrecognised?
  }

  /** Why a log makes the whole scan fail, if it does; removed logs are not looked at. */
  function Fault(l: Log): Option<Error> {
    if l.removed then None
    else if l.block.None? then Some(NoBlockNumber)
    else if !l.kind.Unrecognised? && l.payload.None? then Some(Undecodable)
    else None
  }

  /** No log of a range fails the scan. */
  predicate Sound(logs: seq<Log>) {
    forall i :: 0 <= i < |logs| ==> Fault(logs[i]).None?
  }

  /** What a log adds to a block. */
  function Adds(l: Log, block: nat): seq<Event> {
    if Recognised(l) && l.block == Some(block) && l.payload.Some? then [Event(l.kind, l.payload.value)] else []
  }

  /** The recognised events of one block, in log order. */
  function InBlock(logs: seq<Log>, block: nat): seq<Event> {
    if logs == [] then [] else InBlock(logs[..|logs| - 1], block) + Adds(logs[|logs| - 1], block)
  }

  lemma InBlockSnoc(logs: seq<Log>, l: Log, block: nat)
    ensures InBlock(logs + [l], block) == InBlock(logs, block) + Adds(l, block)
  {
    assert (logs + [l])[..|logs|] == logs;
  }

  /** Grouping goes log by log, in order: a block has what the first part of the logs gives it, then what the rest does. */
  lemma {:induction false} InBlockInOrder(front: seq<Log>, back: seq<Log>, block: nat)
    ensures InBlock(front + back, block) == InBlock(front, block) + InBlock(back, block)
  {
    assert InBlock([], block) == [];
    hide InBlock, Adds;
    if back == [] {
      assert front + back == front && InBlock(front, block) + [] == InBlock(front, block);
    } else {
      var (rest, last) := (back[..|back| - 1], back[|back| - 1]);
      assert rest + [last] == back;
      ConcatAssociates(front, rest, [last]);
      calc {
        InBlock(front + back, block);
        { InBlockSnoc(front + rest, last, block); }
        InBlock(front + rest, block) + Adds(last, block);
        { InBlockInOrder(front, rest, block); }
        InBlock(front, block) + InBlock(rest, block) + Adds(last, block);
        { ConcatAssociates(InBlock(front, block), InBlock(rest, block), Adds(last, block)); }
        InBlock(front, block) + (InBlock(rest, block) + Adds(last, block));
        { InBlockSnoc(rest, last, block); }
        InBlock(front, block) + InBlock(back, block);
      }
    }
  }

  /** A sound log adds its event to its own block and to no other, if it is a deposit, a reclaim or a slash. */
  lemma OneLogInBlock(l: Log, block: nat)
    requires Fault(l).None?
    ensures InBlock([l], block) ==
            if !l.removed && l.kind in {Deposit, Reclaimed, Slashed} && l.block.value == block
            then [Event(l.kind, l.payload.value)] else []
  {
    assert [l][..0] == [];
  }

  function EventsAt(groups: map<nat, seq<Event>>, block: nat): seq<Event> {
    if block in groups then groups[block] else []
  }

  /** Every block has exactly its own events, and blocks without events are absent. */
  ghost predicate Groups(logs: seq<Log>, groups: map<nat, seq<Event>>) {
    forall b :: EventsAt(groups, b) == InBlock(logs, b) && (b in groups <==> InBlock(logs, b) != [])
  }

  lemma GroupsNothing()
    ensures Groups([], map[])
  {
  }

  /** One more log that adds nothing to any block. */
  lemma GroupsSkip(logs: seq<Log>, l: Log, groups: map<nat, seq<Event>>)
    requires Groups(logs, groups) && !Recognised(l)
    ensures Groups(logs + [l], groups)
  {
    hide InBlock;
    forall b: nat
      ensures EventsAt(groups, b) == InBlock(logs + [l], b) && (b in groups <==> InBlock(logs + [l], b) != [])
    {
      InBlockSnoc(logs, l, b);
      assert EventsAt(groups, b) == InBlock(logs, b);
    }
  }

  /** One more log that adds an event to its block. */
  lemma GroupsAdd(logs: seq<Log>, l: Log, groups: map<nat, seq<Event>>)
    requires Groups(logs, groups) && Recognised(l) && Fault(l).None?
    ensures Groups(logs + [l], groups[l.block.value := EventsAt(groups, l.block.value) + [Event(l.kind, l.payload.value)]])
  {
    hide InBlock;
    var groups' := groups[l.block.value := EventsAt(groups, l.block.value) + [Event(l.kind, l.payload.value)]];
    forall b: nat
      ensures EventsAt(groups', b) == InBlock(logs + [l], b) && (b in groups' <==> InBlock(logs + [l], b) != [])
    {
      InBlockSnoc(logs, l, b);
      assert EventsAt(groups, b) == InBlock(logs, b);
    }
  }

  /** Fails with the first faulty log's error, or groups every recognised log under its block. */
  method Group(logs: seq<Log>) returns (r: Result<map<nat, seq<Event>>, Error>)
    ensures r.Success? <==> Sound(logs)
    ensures r.Failure? ==> exists i :: 0 <= i < |logs| && Fault(logs[i]) == Some(r.error)
                             && forall j :: 0 <= j < i ==> Fault(logs[j]).None?
    ensures r.Success? ==> Groups(logs, r.value)
  {
    hide Groups;
    var groups: map<nat, seq<Event>> := map[];
    GroupsNothing();
    for k := 0 to |logs|
      invariant forall i :: 0 <= i < k ==> Fault(logs[i]).None?
      invariant Groups(logs[..k], groups)
    {
      var l := logs[k];
      assert logs[..k + 1] == logs[..k] + [l];
      if l.removed {
        GroupsSkip(logs[..k], l, groups);
        continue;
      }
      if l.block.None? {
        return Failure(NoBlockNumber);
      }
      if l.kind.Unrecognised? {
        GroupsSkip(logs[..k], l, groups);
        continue;
      }
      if l.payload.None? {
        return Failure(Undecodable);
      }
      GroupsAdd(logs[..k], l, groups);
      var event := Event(l.kind, l.payload.value);
      if l.block.value in groups {
        groups := groups[l.block.value := groups[l.block.value] + [event]];
      } else {
        assert EventsAt(groups, l.block.value) + [event] == [event];
        groups := groups[l.block.value := [event]];
      }
    }
    assert logs[..|logs|] == logs;
    return Success(groups);
  }

  function CountRecognised(logs: seq<Log>): nat {
    if logs == [] then 0
    else
      var l := logs[|logs| - 1];
      CountRecognised(logs[..|logs| - 1]) + if !l.removed && l.kind in {Deposit, Reclaimed, Slashed} then 1 else 0
  }

  ghost function Sizes(groups: map<nat, seq<Event>>): map<nat, nat> {
    map b | b in groups :: |groups[b]|
  }

  /** The number of recognised logs per block, counted log by log. */
  function Counted(logs: seq<Log>): map<nat, nat>
    requires Sound(logs)
  {
    if logs == [] then map[]
    else
      var sofar, l := Counted(logs[..|logs| - 1]), logs[|logs| - 1];
      if !Recognised(l) then sofar
      else sofar[l.block.value := (if l.block.value in sofar then sofar[l.block.value] else 0) + 1]
  }

  lemma {:induction false} CountedAt(logs: seq<Log>, b: nat)
    requires Sound(logs)
    ensures b in Counted(logs) <==> InBlock(logs, b) != []
    ensures b in Counted(logs) ==> Counted(logs)[b] == |InBlock(logs, b)|
  {
    if logs == [] {
    } else {
      CountedAt(logs[..|logs| - 1], b);
    }
  }

  lemma {:induction false} CountedAdds(logs: seq<Log>)
    requires Sound(logs)
    ensures Sum<nat>(Counted(logs)) == CountRecognised(logs)
  {
    if logs == [] {
      assert Counted(logs) == map[];
    } else {
      var sofar, l := Counted(logs[..|logs| - 1]), logs[|logs| - 1];
      CountedAdds(logs[..|logs| - 1]);
      if Recognised(l) {
        var had := if l.block.value in sofar then sofar[l.block.value] else 0;
        assert Counted(logs) == sofar[l.block.value := had + 1];
        SumUpdates<nat>(sofar, l.block.value, had + 1);
      } else {
        assert Counted(logs) == sofar;
      }
    }
  }

  /** Over all blocks together there are as many events as recognised logs. */
  lemma CountsConserved(logs: seq<Log>, groups: map<nat, seq<Event>>)
    requires Groups(logs, groups) && Sound(logs)
    ensures Sum<nat>(Sizes(groups)) == CountRecognised(logs)
  {
    CountedAdds(logs);
    assert Sizes(groups) == Counted(logs) by {
      hide InBlock, Counted;
      forall b: nat
        ensures b in groups <==> b in Counted(logs)
        ensures b in groups ==> |groups[b]| == Counted(logs)[b]
      {
        CountedAt(logs, b);
        assert EventsAt(groups, b) == InBlock(logs, b) && (b in groups <==> InBlock(logs, b) != []);
      }
    }
  }

  // ----- Choosing ranges -----

  /** The last block of a scan, given the provider's block number; the newest block is left out. */
  function LastBlock(from: nat, blockNumber: nat): (r: Result<nat, Error>)
    ensures r.Success? <==> from <= Max(0, blockNumber - 1)
    ensures r.Success? ==> from <= r.value <= from + 1000 && r.value <= Max(0, blockNumber - 1)
    ensures r.Success? && r.value < from + 1000 ==> r.value == Max(0, blockNumber - 1)
  {
    var current := if blockNumber == 0 then 0 else blockNumber - 1;
    if from > current then Failure(FromBlockTooLate)
    else Success(if from + MAX_BLOCKS_PER_SCAN > current then current else from + MAX_BLOCKS_PER_SCAN)
  }

  datatype Range = Range(from: nat, to: nat)

  /** The ranges scanned by a caller that resumes one past the last block and skips rounds that fail. */
  function Ranges(from: nat, heights: seq<nat>): seq<Range>
    decreases |heights|
  {
    if heights == [] then []
    else
      var last := LastBlock(from, heights[0]);
      if last.Failure? then Ranges(from, heights[1..])
      else [Range(from, last.value)] + Ranges(last.value + 1, heights[1..])
  }

  predicate Covers(r: Range, block: nat) {
    r.from <= block <= r.to
  }

  /** Where the scans have got to. */
  function Reached(from: nat, ranges: seq<Range>): nat {
    if ranges == [] then from else ranges[|ranges| - 1].to + 1
  }

  lemma {:induction false} RangesChain(from: nat, heights: seq<nat>)
    ensures var rs := Ranges(from, heights);
            && (rs != [] ==> rs[0].from == from)
            && (forall i :: 0 <= i < |rs| ==> rs[i].from <= rs[i].to <= rs[i].from + MAX_BLOCKS_PER_SCAN)
            && (forall i :: 0 <= i < |rs| - 1 ==> rs[i + 1].from == rs[i].to + 1)
    decreases |heights|
  {
    if heights == [] {
    } else {
      var last := LastBlock(from, heights[0]);
      RangesChain(if last.Failure? then from else last.value + 1, heights[1..]);
    }
  }

  lemma {:induction false} Ascending(rs: seq<Range>, i: nat, j: nat)
    requires forall k :: 0 <= k < |rs| ==> rs[k].from <= rs[k].to
    requires forall k :: 0 <= k < |rs| - 1 ==> rs[k + 1].from == rs[k].to + 1
    requires i < j < |rs|
    ensures rs[i].to < rs[j].from
    decreases j
  {
    if i < j - 1 {
      Ascending(rs, i, j - 1);
      assert rs[j - 1 + 1].from == rs[j - 1].to + 1;
    }
  }

  lemma {:induction false} SomeRangeCovers(rs: seq<Range>, block: nat) returns (k: nat)
    requires rs != [] && rs[0].from <= block <= rs[|rs| - 1].to
    requires forall i :: 0 <= i < |rs| - 1 ==> rs[i + 1].from == rs[i].to + 1
    ensures k < |rs| && Covers(rs[k], block)
  {
    var n := |rs| - 1;
    if block >= rs[n].from {
      k := n;
    } else {
      assert rs[n - 1 + 1].from == rs[n - 1].to + 1;
      k := SomeRangeCovers(rs[..n], block);
    }
  }

  /** However the chain grows between scans, every block is scanned exactly once up to where the scans got. */
  lemma ScannedExactlyOnce(from: nat, heights: seq<nat>, block: nat)
    ensures var rs := Ranges(from, heights);
            && ((exists k :: 0 <= k < |rs| && Covers(rs[k], block)) <==> from <= block < Reached(from, rs))
            && (forall i, j :: 0 <= i < |rs| && 0 <= j < |rs| && Covers(rs[i], block) && Covers(rs[j], block) ==> i == j)
  {
    var rs := Ranges(from, heights);
    RangesChain(from, heights);
    forall i, j | 0 <= i < j < |rs|
      ensures rs[i].to < rs[j].from
    {
      Ascending(rs, i, j);
    }
    if rs != [] && from <= block < Reached(from, rs) {
      var k := SomeRangeCovers(rs, block);
    }
    forall k | 0 <= k < |rs| && Covers(rs[k], block)
      ensures from <= block < Reached(from, rs)
    {
      if k > 0 {
        assert rs[0].to < rs[k].from;
      }
      if k < |rs| - 1 {
        assert rs[k].to < rs[|rs| - 1].from;
      }
    }
  }
}
