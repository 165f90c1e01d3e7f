/** Connecting and disconnecting a block's peg data on the chain state, all or nothing. */
module PegConnect {
  import opened Types
  import opened RollBack
  import opened Accumulator
  import opened Peg
  import opened PegInvariant
  import opened PegBlock
  import opened State
  import opened TwoWayPeg
  import opened PegDiff
  import opened PegSync
  import Collection

  /** The accumulator holds exactly the leaves of the unspent outputs. */
  ghost predicate InSync(state: State)
    reads state
  {
    state.accumulator.leaves == LeavesOf(state.utxos)
  }

  /** The peg tables are `t`, the accumulator took the batch of `d`, and nothing else changed. */
  ghost predicate OneBatch(state: State, before: Contents, t: PegTables, d: Diff)
    reads state
  {
    state.Saved() == before.(tables := t, accumulator := Applied(before.accumulator, d)) && InSync(state)
  }

  /** Applies a diff that is in step with the unspent outputs: it never fails. */
  method ApplyInStep(state: State, diff: AccumulatorDiff)
    requires InStep(state, diff, state.accumulator.leaves)
    modifies state`accumulator
    ensures InSync(state) && state.accumulator == Applied(old(state.accumulator), diff.diff)
  {
    ApplyTracked(state.accumulator, diff.diff, LeavesOf(state.utxos));
    var applied := ApplyDiff(state.accumulator, diff.diff);
    state.accumulator := applied.value;
  }

  /** Mints the bundle that is due, if any. */
  method MintPending(state: State, height: nat) returns (r: Result<(), BlockError>)
    modifies state`pendingWithdrawalBundle, state`withdrawalBundles
    ensures match MintIfDue(old(state.PegView()), height)
            case Err(e) => r == Err(e)
            case Ok(q) => r == Ok(()) && state.PegView() == q
  {
    var failure := LatestFailureHeight(state.Saved().tables.peg);
    if failure.Err? {
      return Err(PegFailed(failure.error));
    }
    if failure.value > height {
      return Err(HeightUnderflow);
    }
    if height - failure.value < FAILURE_GAP || state.pendingWithdrawalBundle.Some? {
      return Ok(());
    }
    var collected := Collection.CollectWithdrawalBundle(state.utxos, height);
    if collected.Err? {
      return Err(CollectFailed(collected.error));
    }
    if collected.value.None? {
      return Ok(());
    }
    var bundle := collected.value.value;
    var m := bundle.ComputeM6id();
    var status := RollBack.New(Pending, height);
    if m in state.withdrawalBundles {
      var pushed := state.withdrawalBundles[m].status.Push(Pending, height);
      if pushed.None? {
        return Err(PegFailed(PushRejected));
      }
      status := pushed.value;
    }
    state.pendingWithdrawalBundle := Some(m);
    state.withdrawalBundles := state.withdrawalBundles[m := BundleEntry(Known(bundle), status)];
    r := Ok(());
  }

  /** The changes that connecting makes, before the accumulator is written. */
  method ConnectTables(
    state: State, diff: AccumulatorDiff, ghost base: set<Leaf>, rank: Rank, height: nat, data: PegData)
    returns (r: Result<(), BlockError>)
    requires TotalOrder(rank) && diff.diff == EMPTY_DIFF
    requires PegInv(state.PegView(), height) && GenuineEvents(state.PegView(), AllEvents(data)) && InStep(state, diff, base)
    modifies state`utxos, state`stxos, state`pendingWithdrawalBundle, state`latestFailedWithdrawalBundle,
             state`withdrawalBundles, state`depositBlocks, state`withdrawalBundleEventBlocks, diff
    ensures match Connect(old(state.Tables()), height, data)
            case Err(e) => r == Err(e)
            case Ok(t) =>
              && r == Ok(()) && state.Tables() == t && InStep(state, diff, base)
              && diff.diff == EventsDiff(old(state.PegView()), height, AllEvents(data), rank)
  {
    var latest := ConnectAllEvents(state, diff, base, rank, height, data);
    if latest.Err? {
      return Err(PegFailed(latest.error));
    }
    if latest.value.0.Some? {
      state.depositBlocks := state.depositBlocks + [(latest.value.0.value, height)];
    }
    if latest.value.1.Some? {
      state.withdrawalBundleEventBlocks := state.withdrawalBundleEventBlocks + [(latest.value.1.value, height)];
    }
    ghost var connected := state.PegView();
    r := MintPending(state, height);
  }

  /** Connects the peg data of the block at the tip. An error leaves everything as it was. */
  method ConnectPegData(state: State, rank: Rank, data: PegData) returns (r: Result<Forest, BlockError>)
    requires TotalOrder(rank) && InSync(state) && GenuineEvents(state.PegView(), AllEvents(data))
    requires state.height.Some? ==> PegInv(state.PegView(), state.height.value)
    modifies state
    ensures r.Err? ==> state.Saved() == old(state.Saved())
    ensures old(state.height) == None ==> r == Err(NoTip)
    ensures old(state.height).Some? ==>
              match Connect(old(state.Tables()), old(state.height).value, data)
              case Err(e) => r == Err(e)
              case Ok(t) =>
                && r == Ok(state.accumulator)
                && OneBatch(state, old(state.Saved()), t,
                            EventsDiff(old(state.PegView()), old(state.height).value, AllEvents(data), rank))
  {
    if state.height.None? {
      return Err(NoTip);
    }
    var saved := state.Saved();
    var diff := new AccumulatorDiff();
    var connected := ConnectTables(state, diff, state.accumulator.leaves, rank, state.height.value, data);
    if connected.Err? {
      state.Restore(saved);
      return Err(connected.error);
    }
    ApplyInStep(state, diff);
    r := Ok(state.accumulator);
  }

  /** Removes a pending bundle that was minted at this height. */
  method UnmintPending(state: State, height: nat) returns (r: Result<(), BlockError>)
    modifies state`pendingWithdrawalBundle, state`withdrawalBundles
    ensures match Unmint(old(state.PegView()), height)
            case Err(e) => r == Err(e)
            case Ok(q) => r == Ok(()) && state.PegView() == q
  {
    var failure := LatestFailureHeight(state.Saved().tables.peg);
    if failure.Err? {
      return Err(PegFailed(failure.error));
    }
    if failure.value > height {
      return Err(HeightUnderflow);
    }
    if height - failure.value < FAILURE_GAP || state.pendingWithdrawalBundle.None? {
      return Ok(());
    }
    var m := state.pendingWithdrawalBundle.value;
    if m !in state.withdrawalBundles {
      return Err(PegFailed(PendingBundleUnknown));
    }
    var BundleEntry(info, status) := state.withdrawalBundles[m];
    if status.Latest().height == height {
      state.pendingWithdrawalBundle := None;
      var (rest, _) := status.Pop();
      if rest.Some? {
        state.withdrawalBundles := state.withdrawalBundles[m := BundleEntry(info, rest.value)];
      } else {
        state.withdrawalBundles := state.withdrawalBundles - {m};
      }
    }
    r := Ok(());
  }

  /** The changes that disconnecting makes, before the accumulator is written. */
  method DisconnectTables(
    state: State, diff: AccumulatorDiff, ghost base: set<Leaf>, rank: Rank, height: nat, data: PegData)
    returns (r: Result<(), BlockError>)
    requires TotalOrder(rank) && diff.diff == EMPTY_DIFF
    requires Balanced(state.PegView()) && AuthenticDeposits(AllEvents(data)) && InStep(state, diff, base)
    modifies state`utxos, state`stxos, state`pendingWithdrawalBundle, state`latestFailedWithdrawalBundle,
             state`withdrawalBundles, state`depositBlocks, state`withdrawalBundleEventBlocks, diff
    ensures match Disconnect(old(state.Tables()), height, data)
            case Err(e) => r == Err(e)
            case Ok(t) =>
              && r == Ok(()) && state.Tables() == t && InStep(state, diff, base)
              && diff.diff == UndoEventsDiff(EMPTY_DIFF, old(state.PegView()), height, AllEvents(data), rank)
  {
    var earliest := DisconnectAllEvents(state, diff, base, rank, height, data);
    if earliest.Err? {
      return Err(PegFailed(earliest.error));
    }
    var eventBlocks := UnrecordBlock(state.withdrawalBundleEventBlocks, earliest.value.1, height, NoEventBlock);
    if eventBlocks.Err? {
      return Err(eventBlocks.error);
    }
    state.withdrawalBundleEventBlocks := eventBlocks.value;
    r := UnmintPending(state, height);
    if r.Err? {
      return;
    }
    var depositBlocks := UnrecordBlock(state.depositBlocks, earliest.value.0, height, NoDepositBlock);
    if depositBlocks.Err? {
      return Err(depositBlocks.error);
    }
    state.depositBlocks := depositBlocks.value;
  }

  /** Disconnects the peg data of the block at the tip. An error leaves everything as it was. */
  method DisconnectPegData(state: State, rank: Rank, data: PegData) returns (r: Result<(), BlockError>)
    requires TotalOrder(rank) && InSync(state) && Balanced(state.PegView()) && AuthenticDeposits(AllEvents(data))
    modifies state
    ensures r.Err? ==> state.Saved() == old(state.Saved())
    ensures old(state.height) == None ==> r == Err(NoTip)
    ensures old(state.height).Some? ==>
              match Disconnect(old(state.Tables()), old(state.height).value, data)
              case Err(e) => r == Err(e)
              case Ok(t) =>
                && r == Ok(())
                && OneBatch(state, old(state.Saved()), t,
                            UndoEventsDiff(EMPTY_DIFF, old(state.PegView()), old(state.height).value, AllEvents(data), rank))
  {
    if state.height.None? {
      return Err(NoTip);
    }
    var saved := state.Saved();
    var diff := new AccumulatorDiff();
    r := DisconnectTables(state, diff, state.accumulator.leaves, rank, state.height.value, data);
    if r.Err? {
      state.Restore(saved);
      return;
    }
    ApplyInStep(state, diff);
  }
}
