/** The loops over a block's mainchain events: the same outcome as the flat list, with the diff in step. */
module PegSync {
  import opened Types
  import opened Accumulator
  import opened Peg
  import opened PegInvariant
  import opened PegBlock
  import opened State
  import opened TwoWayPeg
  import opened PegDiff
  import Collection

  // ------------------------------------------------------------- lists of events

  lemma {:induction false} AllEventsConcat(a: PegData, b: PegData)
    ensures AllEvents(a + b) == AllEvents(a) + AllEvents(b)
    decreases |b|
  {
    if b == [] {
      assert a + b == a;
    } else {
      assert (a + b)[..|a + b| - 1] == a + b[..|b| - 1];
      AllEventsConcat(a, b[..|b| - 1]);
    }
  }

  /** The events of the first `i` blocks and the first `j` of block `i` begin the whole list. */
  lemma EventsSoFar(data: PegData, i: nat, j: nat)
    requires i < |data| && j <= |data[i].1.events|
    ensures AllEvents(data[..i]) + data[i].1.events[..j] <= AllEvents(data)
    ensures AllEvents(data[..i]) + data[i].1.events == AllEvents(data[..i + 1])
  {
    assert data == data[..i + 1] + data[i + 1..];
    AllEventsConcat(data[..i + 1], data[i + 1..]);
    assert data[..i + 1][..i] == data[..i];
  }

  lemma {:induction false} FirstErrorStays(p: PegState, height: nat, events: seq<BlockEvent>, tried: seq<BlockEvent>)
    requires tried <= events && ConnectEvents(p, height, tried).Err?
    ensures ConnectEvents(p, height, events) == ConnectEvents(p, height, tried)
    decreases |events|
  {
    if tried != events {
      FirstErrorStays(p, height, events[..|events| - 1], tried);
    }
  }

  lemma OneMoreEvent(p: PegState, height: nat, done: seq<BlockEvent>, e: BlockEvent, rank: Rank)
    requires ConnectEvents(p, height, done).Ok?
    ensures ConnectEvents(p, height, done + [e]) == ConnectEvent(ConnectEvents(p, height, done).value, height, e)
    ensures EventsDiff(p, height, done + [e], rank) ==
            EventDiff(EventsDiff(p, height, done, rank), ConnectEvents(p, height, done).value, e, rank)
  {
    assert (done + [e])[..|done|] == done;
  }

  /** In a list of genuine events, the next event can be connected by its handler. */
  lemma ReadyForNext(p: PegState, height: nat, all: seq<BlockEvent>, done: seq<BlockEvent>, e: BlockEvent)
    requires PegInv(p, height) && GenuineEvents(p, all) && done + [e] <= all && ConnectEvents(p, height, done).Ok?
    ensures PegInv(ConnectEvents(p, height, done).value, height)
    ensures GenuineEvent(ConnectEvents(p, height, done).value, e)
  {
    assert all[..|done|] == (done + [e])[..|done|] == done;
    assert all[|done|] == (done + [e])[|done|] == e;
    ConnectEventsKeepInv(p, height, all, |done|);
    assert GenuineEvent(ConnectEvents(p, height, done).value, all[|done|]);
  }

  /** Whether the first `j` events include deposits, and bundle events. */
  function Kinds(events: seq<BlockEvent>, j: nat): (bool, bool)
    requires j <= |events|
  {
    (HasKind(events[..j], true), HasKind(events[..j], false))
  }

  lemma KindsGrow(events: seq<BlockEvent>, j: nat)
    requires j < |events|
    ensures Kinds(events, j + 1) ==
            (Kinds(events, j).0 || events[j].DepositEvent?, Kinds(events, j).1 || events[j].BundleEvent?)
  {
    assert events[..j + 1][..j] == events[..j];
  }

  /** The list of the blocks before block `i`, with the first `j` events of that block. */
  function Done(data: PegData, i: nat, j: nat): seq<BlockEvent>
    requires i < |data| && j <= |data[i].1.events|
  {
    AllEvents(data[..i]) + data[i].1.events[..j]
  }

  lemma DoneGrows(data: PegData, i: nat, j: nat)
    requires i < |data| && j < |data[i].1.events|
    ensures Done(data, i, j + 1) == Done(data, i, j) + [data[i].1.events[j]] && Done(data, i, j + 1) <= AllEvents(data)
  {
    EventsSoFar(data, i, j + 1);
    assert data[i].1.events[..j + 1] == data[i].1.events[..j] + [data[i].1.events[j]];
  }

  lemma DoneEnds(data: PegData, i: nat)
    requires i < |data|
    ensures Done(data, i, 0) == AllEvents(data[..i])
    ensures Done(data, i, |data[i].1.events|) == AllEvents(data[..i + 1])
  {
    EventsSoFar(data, i, 0);
    assert data[i].1.events[..|data[i].1.events|] == data[i].1.events;
  }

  /** Connects the events of all blocks, oldest first, and notes the latest block of each kind. */
  method ConnectAllEvents(
    state: State, diff: AccumulatorDiff, ghost base: set<Leaf>, rank: Rank, height: nat, data: PegData)
    returns (r: Result<(Option<MainHash>, Option<MainHash>), PegError>)
    requires TotalOrder(rank) && diff.diff == EMPTY_DIFF
    requires PegInv(state.PegView(), height) && GenuineEvents(state.PegView(), AllEvents(data)) && InStep(state, diff, base)
    modifies state`utxos, state`stxos, state`pendingWithdrawalBundle, state`latestFailedWithdrawalBundle,
             state`withdrawalBundles, diff
    ensures match ConnectEvents(old(state.PegView()), height, AllEvents(data))
            case Err(e) => r == Err(e)
            case Ok(q) =>
              && r == Ok((LatestBlock(data, true), LatestBlock(data, false)))
              && state.PegView() == q && InStep(state, diff, base)
              && diff.diff == EventsDiff(old(state.PegView()), height, AllEvents(data), rank)
  {
    ghost var p, events := state.PegView(), AllEvents(data);
    var latestDeposit: Option<MainHash>, latestEvent: Option<MainHash> := None, None;
    for i := 0 to |data|
      invariant ConnectEvents(p, height, AllEvents(data[..i])) == Ok(state.PegView()) && InStep(state, diff, base)
      invariant diff.diff == EventsDiff(p, height, AllEvents(data[..i]), rank)
      invariant latestDeposit == LatestBlock(data[..i], true) && latestEvent == LatestBlock(data[..i], false)
    {
      EventsSoFar(data, i, 0);
      assert data[..i + 1][..i] == data[..i];
      var block, tried := ConnectBlockEvents(state, diff, base, rank, p, height, data, i);
      if block.Err? {
        FirstErrorStays(p, height, events, tried);
        return Err(block.error);
      }
      if block.value.0 {
        latestDeposit := Some(data[i].0);
      }
      if block.value.1 {
        latestEvent := Some(data[i].0);
      }
    }
    assert data[..|data|] == data;
    r := Ok((latestDeposit, latestEvent));
  }

  /** Connects the events of one mainchain block; reports whether it had deposits and bundle events. */
  method ConnectBlockEvents(
    state: State, diff: AccumulatorDiff, ghost base: set<Leaf>, rank: Rank, ghost p: PegState, height: nat, data: PegData,
    i: nat)
    returns (r: Result<(bool, bool), PegError>, ghost tried: seq<BlockEvent>)
    requires i < |data| && PegInv(p, height) && GenuineEvents(p, AllEvents(data)) && InStep(state, diff, base)
    requires ConnectEvents(p, height, AllEvents(data[..i])) == Ok(state.PegView())
    requires TotalOrder(rank) && diff.diff == EventsDiff(p, height, AllEvents(data[..i]), rank)
    modifies state`utxos, state`stxos, state`pendingWithdrawalBundle, state`latestFailedWithdrawalBundle,
             state`withdrawalBundles, diff
    ensures r.Ok? ==>
              && r.value == (HasEvent(data[i].1, true), HasEvent(data[i].1, false))
              && ConnectEvents(p, height, AllEvents(data[..i + 1])) == Ok(state.PegView()) && InStep(state, diff, base)
              && diff.diff == EventsDiff(p, height, AllEvents(data[..i + 1]), rank)
    ensures r.Err? ==>
              tried <= AllEvents(data) && ConnectEvents(p, height, tried) == Err(r.error)
  {
    var events := data[i].1.events;
    var deposits, bundles := false, false;
    DoneEnds(data, i);
    for j := 0 to |events|
      invariant ConnectEvents(p, height, Done(data, i, j)) == Ok(state.PegView()) && InStep(state, diff, base)
      invariant diff.diff == EventsDiff(p, height, Done(data, i, j), rank)
      invariant (deposits, bundles) == Kinds(events, j)
    {
      KindsGrow(events, j);
      DoneGrows(data, i, j);
      ReadyForNext(p, height, AllEvents(data), Done(data, i, j), events[j]);
      OneMoreEvent(p, height, Done(data, i, j), events[j], rank);
      var connected := ConnectOneEvent(state, diff, base, rank, height, events[j]);
      if connected.Err? {
        return Err(connected.error), Done(data, i, j + 1);
      }
      deposits := deposits || events[j].DepositEvent?;
      bundles := bundles || events[j].BundleEvent?;
    }
    assert events[..|events|] == events;
    return Ok((deposits, bundles)), [];
  }

  // ----------------------------------------------------------- disconnecting events

  /** A deposit names an output that its outpoint commits to. */
  predicate AuthenticDeposit(e: BlockEvent) {
    e.DepositEvent? ==> CommittedOutput(Deposit(e.txid, e.vout)) == Some(e.output)
  }

  ghost predicate AuthenticDeposits(events: seq<BlockEvent>) {
    forall e {:trigger AuthenticDeposit(e)} | e in events :: AuthenticDeposit(e)
  }

  /** Disconnecting starts with the last event. */
  lemma LastEventFirst(d: Diff, p: PegState, height: nat, rest: seq<BlockEvent>, e: BlockEvent, rank: Rank)
    ensures DisconnectEvents(p, height, rest + [e]) ==
            var q := DisconnectEvent(p, height, e);
            if q.Err? then q else DisconnectEvents(q.value, height, rest)
    ensures DisconnectEvent(p, height, e).Ok? ==>
              UndoEventsDiff(d, p, height, rest + [e], rank) ==
              UndoEventsDiff(UndoEventDiff(d, p, e, rank), DisconnectEvent(p, height, e).value, height, rest, rank)
  {
    assert (rest + [e])[..|rest|] == rest;
  }

  /** Disconnects the events of block `i`, last to first; reports which kinds it had. */
  method DisconnectBlockEvents(
    state: State, diff: AccumulatorDiff, ghost base: set<Leaf>, rank: Rank, height: nat, data: PegData, i: nat)
    returns (r: Result<(bool, bool), PegError>)
    requires TotalOrder(rank) && i < |data| && Balanced(state.PegView()) && AuthenticDeposits(AllEvents(data)) && InStep(state, diff, base)
    modifies state`utxos, state`stxos, state`pendingWithdrawalBundle, state`latestFailedWithdrawalBundle,
             state`withdrawalBundles, diff
    ensures r.Ok? ==>
              && r.value == (HasEvent(data[i].1, true), HasEvent(data[i].1, false))
              && DisconnectEvents(state.PegView(), height, AllEvents(data[..i])) ==
                 DisconnectEvents(old(state.PegView()), height, AllEvents(data[..i + 1]))
              && UndoEventsDiff(diff.diff, state.PegView(), height, AllEvents(data[..i]), rank) ==
                 UndoEventsDiff(old(diff.diff), old(state.PegView()), height, AllEvents(data[..i + 1]), rank)
              && Balanced(state.PegView()) && InStep(state, diff, base)
    ensures r.Err? ==> DisconnectEvents(old(state.PegView()), height, AllEvents(data[..i + 1])) == Err(r.error)
  {
    ghost var p, d := state.PegView(), diff.diff;
    var events := data[i].1.events;
    var deposits, bundles := false, false;
    DoneEnds(data, i);
    assert events[..|events|] == events;
    for j := |events| downto 0
      invariant Balanced(state.PegView()) && InStep(state, diff, base)
      invariant DisconnectEvents(state.PegView(), height, Done(data, i, j)) ==
                DisconnectEvents(p, height, AllEvents(data[..i + 1]))
      invariant UndoEventsDiff(diff.diff, state.PegView(), height, Done(data, i, j), rank) ==
                UndoEventsDiff(d, p, height, AllEvents(data[..i + 1]), rank)
      invariant HasEvent(data[i].1, true) == (deposits || Kinds(events, j).0)
      invariant HasEvent(data[i].1, false) == (bundles || Kinds(events, j).1)
    {
      KindsGrow(events, j);
      DoneGrows(data, i, j);
      LastEventFirst(diff.diff, state.PegView(), height, Done(data, i, j), events[j], rank);
      assert AuthenticDeposit(events[j]) by {
        assert Done(data, i, j + 1)[|Done(data, i, j)|] == events[j];
      }
      if DisconnectEvent(state.PegView(), height, events[j]).Ok? {
        DisconnectEventKeepsBalanced(state.PegView(), height, events[j]);
      }
      var disconnected := DisconnectOneEvent(state, diff, base, rank, height, events[j]);
      if disconnected.Err? {
        return Err(disconnected.error);
      }
      deposits := deposits || events[j].DepositEvent?;
      bundles := bundles || events[j].BundleEvent?;
    }
    r := Ok((deposits, bundles));
  }

  /** Disconnects the events of all blocks, newest first, and notes the earliest block of each kind. */
  method DisconnectAllEvents(
    state: State, diff: AccumulatorDiff, ghost base: set<Leaf>, rank: Rank, height: nat, data: PegData)
    returns (r: Result<(Option<MainHash>, Option<MainHash>), PegError>)
    requires TotalOrder(rank) && diff.diff == EMPTY_DIFF
    requires Balanced(state.PegView()) && AuthenticDeposits(AllEvents(data)) && InStep(state, diff, base)
    modifies state`utxos, state`stxos, state`pendingWithdrawalBundle, state`latestFailedWithdrawalBundle,
             state`withdrawalBundles, diff
    ensures match DisconnectEvents(old(state.PegView()), height, AllEvents(data))
            case Err(e) => r == Err(e)
            case Ok(q) =>
              && r == Ok((EarliestBlock(data, true), EarliestBlock(data, false)))
              && state.PegView() == q && InStep(state, diff, base)
              && diff.diff == UndoEventsDiff(EMPTY_DIFF, old(state.PegView()), height, AllEvents(data), rank)
  {
    ghost var p := state.PegView();
    var earliestDeposit: Option<MainHash>, earliestEvent: Option<MainHash> := None, None;
    assert data[..|data|] == data;
    for i := |data| downto 0
      invariant Balanced(state.PegView()) && InStep(state, diff, base)
      invariant DisconnectEvents(state.PegView(), height, AllEvents(data[..i])) ==
                DisconnectEvents(p, height, AllEvents(data))
      invariant UndoEventsDiff(diff.diff, state.PegView(), height, AllEvents(data[..i]), rank) ==
                UndoEventsDiff(EMPTY_DIFF, p, height, AllEvents(data), rank)
      invariant earliestDeposit == EarliestBlock(data[i..], true) && earliestEvent == EarliestBlock(data[i..], false)
    {
      assert data[i..][1..] == data[i + 1..];
      var block := DisconnectBlockEvents(state, diff, base, rank, height, data, i);
      if block.Err? {
        return Err(block.error);
      }
      if block.value.0 {
        earliestDeposit := Some(data[i].0);
      }
      if block.value.1 {
        earliestEvent := Some(data[i].0);
      }
    }
    r := Ok((earliestDeposit, earliestEvent));
  }
}
