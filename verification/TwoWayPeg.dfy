/**
 The handlers of peg events, which move outputs between the tables one by one and record each
 move in the accumulator diff, and the methods that connect and disconnect a block's peg data.
 */
module TwoWayPeg {
  import opened Types
  import opened RollBack
  import opened Accumulator
  import opened Peg
  import opened PegInvariant
  import opened PegBlock
  import opened State
  import opened Sums
  import opened PegDiff
  import Collection

  /** The diff holds exactly the changes from the leaves `base` to the current unspent outputs. */
  ghost predicate InStep(state: State, diff: AccumulatorDiff, base: set<Leaf>)
    reads state, diff
  {
    diff.Valid() && Tracks(diff.diff, base, LeavesOf(state.utxos))
  }

  /** Where both list an outpoint, they list the same output. */
  ghost predicate Agree(a: map<OutPoint, Output>, b: map<OutPoint, Output>) {
    forall o | o in a && o in b :: a[o] == b[o]
  }

  lemma AuthenticAgree(a: map<OutPoint, Output>, b: map<OutPoint, Output>)
    requires Authentic(a) && Authentic(b)
    ensures Agree(a, b)
  {
    forall o | o in a && o in b
      ensures a[o] == b[o]
    {
      assert CommittedOutput(o) == Some(a[o]);
    }
  }

  // -------------------------------------------------------------- moving outputs

  /** The part of `spend` that has been moved already. */
  function Part(spend: map<OutPoint, Output>, rest: set<OutPoint>): map<OutPoint, Output> {
    map o | o in spend && o !in rest :: spend[o]
  }

  lemma PartGrows(spend: map<OutPoint, Output>, rest: set<OutPoint>, o: OutPoint)
    requires o in rest && o in spend
    ensures Part(spend, rest - {o}) == Part(spend, rest)[o := spend[o]] && o !in Part(spend, rest)
  {
  }

  lemma WithdrawOne(p: PegState, part: map<OutPoint, Output>, m: M6id, o: OutPoint, output: Output)
    ensures var q := Withdraw(p, part, m);
            Withdraw(p, part[o := output], m) ==
            q.(utxos := q.utxos - {o}, stxos := q.stxos[o := SpentOutput(output, WithdrawalIn(m))])
  {
    assert SpentBy(part[o := output], m) == SpentBy(part, m)[o := SpentOutput(output, WithdrawalIn(m))];
    MergeUpdate(p.stxos, SpentBy(part, m), o, SpentOutput(output, WithdrawalIn(m)));
    RemoveMore(p.utxos, part.Keys, o);
    assert part[o := output].Keys == part.Keys + {o};
  }

  lemma RemoveMore<K, V>(m: map<K, V>, keys: set<K>, k: K)
    ensures m - (keys + {k}) == m - keys - {k}
  {
  }

  lemma ReinstateOne(p: PegState, part: map<OutPoint, Output>, o: OutPoint, output: Output)
    ensures var q := Reinstate(p, part);
            Reinstate(p, part[o := output]) == q.(utxos := q.utxos[o := output], stxos := q.stxos - {o})
  {
    MergeUpdate(p.utxos, part, o, output);
    RemoveMore(p.stxos, part.Keys, o);
    assert part[o := output].Keys == part.Keys + {o};
  }

  /** Spends one more of the outputs of a bundle. */
  method SpendNext(
    state: State, diff: AccumulatorDiff, ghost base: set<Leaf>, ghost before: PegState,
    spend: map<OutPoint, Output>, ghost rest: set<OutPoint>, o: OutPoint, m: M6id)
    requires InStep(state, diff, base) && o in rest && o in spend && o in state.utxos && state.utxos[o] == spend[o]
    requires state.PegView() == Withdraw(before, Part(spend, rest), m)
    modifies state`utxos, state`stxos, diff
    ensures InStep(state, diff, base) && state.PegView() == Withdraw(before, Part(spend, rest - {o}), m)
    ensures diff.diff == Record(old(diff.diff), Leaf(o, spend[o]), false)
  {
    PartGrows(spend, rest, o);
    WithdrawOne(before, Part(spend, rest), m, o, spend[o]);
    SpendOne(state, diff, base, o, spend[o], WithdrawalIn(m));
  }

  /** Spends the outputs for bundle `m`, first to last, unless one of them is missing. */
  method SpendOutputs(
    state: State, diff: AccumulatorDiff, ghost base: set<Leaf>, rank: Rank, spend: map<OutPoint, Output>, m: M6id)
    returns (ok: bool)
    requires InStep(state, diff, base) && Agree(spend, state.utxos) && TotalOrder(rank)
    modifies state`utxos, state`stxos, diff
    ensures ok <==> spend.Keys <= old(state.utxos.Keys)
    ensures ok ==> InStep(state, diff, base) && state.PegView() == Withdraw(old(state.PegView()), spend, m)
    ensures ok ==> diff.diff == MoveAll(old(diff.diff), spend, false, rank)
  {
    hide InStep, Agree, TotalOrder;
    ghost var before, all := state.PegView(), MoveAll(diff.diff, spend, false, rank);
    var rest := spend.Keys;
    NothingMoved(before, spend, m);
    while rest != {}
      invariant rest <= spend.Keys && spend.Keys - rest <= before.utxos.Keys
      invariant state.PegView() == Withdraw(before, Part(spend, rest), m)
      invariant InStep(state, diff, base) && Move(diff.diff, spend, rest, false, rank) == all
      decreases |rest|
    {
      FirstExists(rest, rank);
      var o :| IsFirst(rest, rank, o);
      if o !in state.utxos {
        return false;
      }
      MoveFirst(diff.diff, spend, rest, false, rank, o);
      StillAgrees(before, spend, rest, m, o);
      SpendNext(state, diff, base, before, spend, rest, o, m);
      rest := rest - {o};
    }
    assert Part(spend, rest) == spend;
    ok := true;
  }

  lemma StillAgrees(p: PegState, spend: map<OutPoint, Output>, rest: set<OutPoint>, m: M6id, o: OutPoint)
    requires Agree(spend, p.utxos) && o in rest && o in spend && o in Withdraw(p, Part(spend, rest), m).utxos
    ensures Withdraw(p, Part(spend, rest), m).utxos[o] == spend[o]
  {
  }

  lemma NothingMoved(p: PegState, spend: map<OutPoint, Output>, m: M6id)
    ensures Withdraw(p, Part(spend, spend.Keys), m) == p == Reinstate(p, Part(spend, spend.Keys))
  {
    assert Part(spend, spend.Keys) == map[];
    assert SpentBy(map[], m) == map[];
  }

  /** Moves one output to the spent table. */
  method SpendOne(
    state: State, diff: AccumulatorDiff, ghost base: set<Leaf>, o: OutPoint, output: Output, inpoint: InPoint)
    requires InStep(state, diff, base) && o in state.utxos && state.utxos[o] == output
    modifies state`utxos, state`stxos, diff
    ensures InStep(state, diff, base)
    ensures state.utxos == old(state.utxos) - {o} && state.stxos == old(state.stxos)[o := SpentOutput(output, inpoint)]
    ensures diff.diff == Record(old(diff.diff), Leaf(o, output), false)
  {
    LeavesRemove(state.utxos, o);
    RecordTracks(diff.diff, base, LeavesOf(state.utxos), Leaf(o, output), false);
    diff.Remove(Leaf(o, output));
    state.utxos := state.utxos - {o};
    state.stxos := state.stxos[o := SpentOutput(output, inpoint)];
  }

  /** Adds one unspent output. */
  method AddOne(state: State, diff: AccumulatorDiff, ghost base: set<Leaf>, o: OutPoint, output: Output)
    requires InStep(state, diff, base) && o !in state.utxos
    modifies state`utxos, diff
    ensures InStep(state, diff, base) && state.utxos == old(state.utxos)[o := output]
    ensures diff.diff == Record(old(diff.diff), Leaf(o, output), true)
  {
    LeavesInsert(state.utxos, o, output);
    RecordTracks(diff.diff, base, LeavesOf(state.utxos), Leaf(o, output), true);
    diff.Insert(Leaf(o, output));
    state.utxos := state.utxos[o := output];
  }

  /** Reinstates one more of the outputs of a bundle. */
  method UnspendNext(
    state: State, diff: AccumulatorDiff, ghost base: set<Leaf>, ghost before: PegState,
    spend: map<OutPoint, Output>, ghost rest: set<OutPoint>, o: OutPoint)
    requires InStep(state, diff, base) && o in rest && o in spend && o !in before.utxos
    requires state.PegView() == Reinstate(before, Part(spend, rest))
    modifies state`utxos, state`stxos, diff
    ensures InStep(state, diff, base) && state.PegView() == Reinstate(before, Part(spend, rest - {o}))
    ensures diff.diff == Record(old(diff.diff), Leaf(o, spend[o]), true)
  {
    PartGrows(spend, rest, o);
    ReinstateOne(before, Part(spend, rest), o, spend[o]);
    AddOne(state, diff, base, o, spend[o]);
    state.stxos := state.stxos - {o};
  }

  /** Makes the outputs unspent again, first to last. */
  method UnspendOutputs(
    state: State, diff: AccumulatorDiff, ghost base: set<Leaf>, rank: Rank, spend: map<OutPoint, Output>)
    requires InStep(state, diff, base) && spend.Keys !! state.utxos.Keys && TotalOrder(rank)
    modifies state`utxos, state`stxos, diff
    ensures InStep(state, diff, base) && state.PegView() == Reinstate(old(state.PegView()), spend)
    ensures diff.diff == MoveAll(old(diff.diff), spend, true, rank)
  {
    hide InStep, TotalOrder;
    ghost var before, all := state.PegView(), MoveAll(diff.diff, spend, true, rank);
    var rest := spend.Keys;
    NothingMoved(before, spend, M6id(BundleTx({}, 0, 0, [])));
    while rest != {}
      invariant rest <= spend.Keys
      invariant state.PegView() == Reinstate(before, Part(spend, rest))
      invariant InStep(state, diff, base) && Move(diff.diff, spend, rest, true, rank) == all
      decreases |rest|
    {
      FirstExists(rest, rank);
      var o :| IsFirst(rest, rank, o);
      MoveFirst(diff.diff, spend, rest, true, rank, o);
      UnspendNext(state, diff, base, before, spend, rest, o);
      rest := rest - {o};
    }
    assert Part(spend, rest) == spend;
  }

  // ---------------------------------------------------------- connecting events

  /** The outcome of a handler is the specified one, and the diff is the specified one and in step. */
  ghost predicate Achieves(
    state: State, diff: AccumulatorDiff, base: set<Leaf>, r: Result<(), PegError>, spec: Result<PegState, PegError>,
    after: Diff)
    reads state, diff
  {
    match spec
    case Err(e) => r == Err(e)
    case Ok(q) => r == Ok(()) && state.PegView() == q && InStep(state, diff, base) && diff.diff == after
  }

  method ConnectBundleSubmitted(
    state: State, diff: AccumulatorDiff, ghost base: set<Leaf>, rank: Rank, height: nat, m: M6id)
    returns (r: Result<(), PegError>)
    requires TotalOrder(rank) && PegInv(state.PegView(), height) && InStep(state, diff, base)
    modifies state`utxos, state`stxos, state`pendingWithdrawalBundle, state`withdrawalBundles, diff
    ensures Achieves(
              state, diff, base, r, ConnectSubmitted(old(state.PegView()), height, m),
              EventDiff(old(diff.diff), old(state.PegView()), BundleEvent(m, EventSubmitted), rank))
  {
    if state.pendingWithdrawalBundle == Some(m) {
      if m !in state.withdrawalBundles {
        return Err(PendingBundleUnknown);
      }
      assert EntryOk(state.PegView(), height, m);
      var BundleEntry(info, status) := state.withdrawalBundles[m];
      if !info.Known? {
        return Err(PendingBundleUnknown);
      }
      AuthenticAgree(info.bundle.spendUtxos, state.utxos);
      var spent := SpendOutputs(state, diff, base, rank, info.bundle.spendUtxos, m);
      if !spent {
        return Err(NoUtxo);
      }
      if !status.Latest().value.Pending? {
        return Err(AssertionFailed);
      }
      var pushed := status.Push(Submitted, height);
      if pushed.None? {
        return Err(PushRejected);
      }
      state.withdrawalBundles := state.withdrawalBundles[m := BundleEntry(info, pushed.value)];
      state.pendingWithdrawalBundle := None;
    } else if m in state.withdrawalBundles {
      var BundleEntry(info, status) := state.withdrawalBundles[m];
      match status.Latest().value {
        case Confirmed => return Err(ConfirmedResubmitted);
        case Submitted => return Err(Resubmitted);
        case SubmittedUnexpected => return Err(Resubmitted);
        case Dropped => if !info.Known? { return Err(UnknownDropped); }
        case Pending => return Err(if info.Known? then DroppedPending else UnknownPending);
        case Failed => if info.UnknownConfirmed? { return Err(UnknownConfirmedFailed); }
      }
      var pushed := status.Push(SubmittedUnexpected, height);
      if pushed.None? {
        return Err(PushRejected);
      }
      state.withdrawalBundles := state.withdrawalBundles[m := BundleEntry(info, pushed.value)];
    } else {
      state.withdrawalBundles := state.withdrawalBundles[m := BundleEntry(Unknown, RollBack.New(Submitted, height))];
    }
    r := Ok(());
  }

  method ConnectBundleConfirmed(
    state: State, diff: AccumulatorDiff, ghost base: set<Leaf>, rank: Rank, height: nat, m: M6id)
    returns (r: Result<(), PegError>)
    requires TotalOrder(rank) && PegInv(state.PegView(), height) && InStep(state, diff, base)
    modifies state`utxos, state`stxos, state`withdrawalBundles, diff
    ensures Achieves(
              state, diff, base, r, ConnectConfirmed(old(state.PegView()), height, m),
              EventDiff(old(diff.diff), old(state.PegView()), BundleEvent(m, EventConfirmed), rank))
  {
    if m !in state.withdrawalBundles {
      return Err(UnknownBundle);
    }
    assert EntryOk(state.PegView(), height, m);
    var BundleEntry(info, status) := state.withdrawalBundles[m];
    var latest := status.Latest().value;
    if latest.Confirmed? {
      return Ok(());
    }
    if !IsSubmitted(latest) {
      return Err(AssertionFailed);
    }
    var info' := info;
    match info {
      case UnknownConfirmed(_) =>
        return Err(UnknownBundleReconfirmed);
      case Unknown =>
        if height != 0 {
          return Err(UnknownBundleConfirmed);
        }
        var utxos := state.utxos;
        var spent := SpendOutputs(state, diff, base, rank, utxos, m);
        info' := UnknownConfirmed(utxos);
      case Known(bundle) =>
        if latest.SubmittedUnexpected? {
          AuthenticAgree(bundle.spendUtxos, state.utxos);
          var spent := SpendOutputs(state, diff, base, rank, bundle.spendUtxos, m);
          if !spent {
            return Err(Insolvency);
          }
        }
    }
    var pushed := status.Push(Confirmed, height);
    if pushed.None? {
      return Err(PushRejected);
    }
    state.withdrawalBundles := state.withdrawalBundles[m := BundleEntry(info', pushed.value)];
    r := Ok(());
  }

  method ConnectBundleFailed(
    state: State, diff: AccumulatorDiff, ghost base: set<Leaf>, rank: Rank, height: nat, m: M6id)
    returns (r: Result<(), PegError>)
    requires TotalOrder(rank) && PegInv(state.PegView(), height) && InStep(state, diff, base)
    modifies state`utxos, state`stxos, state`latestFailedWithdrawalBundle, state`withdrawalBundles, diff
    ensures Achieves(
              state, diff, base, r, ConnectFailed(old(state.PegView()), height, m),
              EventDiff(old(diff.diff), old(state.PegView()), BundleEvent(m, EventFailed), rank))
  {
    if m !in state.withdrawalBundles {
      return Err(UnknownBundle);
    }
    assert EntryOk(state.PegView(), height, m);
    var BundleEntry(info, status) := state.withdrawalBundles[m];
    var latest := status.Latest().value;
    if latest.Failed? {
      return Ok(());
    }
    if !IsSubmitted(latest) {
      return Err(AssertionFailed);
    }
    if info.Known? && latest.Submitted? {
      UnspendOutputs(state, diff, base, rank, info.bundle.spendUtxos);
      var failed := if state.latestFailedWithdrawalBundle.Some?
                    then state.latestFailedWithdrawalBundle.value.Push(m, height) else Some(RollBack.New(m, height));
      if failed.None? {
        return Err(PushRejected);
      }
      state.latestFailedWithdrawalBundle := failed;
    }
    var pushed := status.Push(Failed, height);
    if pushed.None? {
      return Err(PushRejected);
    }
    state.withdrawalBundles := state.withdrawalBundles[m := BundleEntry(info, pushed.value)];
    r := Ok(());
  }

  /** One event: a deposit adds an output, a bundle event goes to its handler. */
  method ConnectOneEvent(
    state: State, diff: AccumulatorDiff, ghost base: set<Leaf>, rank: Rank, height: nat, e: BlockEvent)
    returns (r: Result<(), PegError>)
    requires TotalOrder(rank) && PegInv(state.PegView(), height) && InStep(state, diff, base) && GenuineEvent(state.PegView(), e)
    modifies state`utxos, state`stxos, state`pendingWithdrawalBundle, state`latestFailedWithdrawalBundle,
             state`withdrawalBundles, diff
    ensures Achieves(
              state, diff, base, r, ConnectEvent(old(state.PegView()), height, e),
              EventDiff(old(diff.diff), old(state.PegView()), e, rank))
  {
    match e {
      case DepositEvent(txid, vout, output) =>
        AddOne(state, diff, base, Deposit(txid, vout), output);
        r := Ok(());
      case BundleEvent(m, EventSubmitted) => r := ConnectBundleSubmitted(state, diff, base, rank, height, m);
      case BundleEvent(m, EventConfirmed) => r := ConnectBundleConfirmed(state, diff, base, rank, height, m);
      case BundleEvent(m, EventFailed) => r := ConnectBundleFailed(state, diff, base, rank, height, m);
    }
  }

  // ------------------------------------------------------- disconnecting events

  method DisconnectBundleSubmitted(
    state: State, diff: AccumulatorDiff, ghost base: set<Leaf>, rank: Rank, height: nat, m: M6id)
    returns (r: Result<(), PegError>)
    requires TotalOrder(rank) && Balanced(state.PegView()) && InStep(state, diff, base)
    modifies state`utxos, state`stxos, state`pendingWithdrawalBundle, state`withdrawalBundles, diff
    ensures Achieves(
              state, diff, base, r, DisconnectSubmitted(old(state.PegView()), height, m),
              UndoEventDiff(old(diff.diff), old(state.PegView()), BundleEvent(m, EventSubmitted), rank))
  {
    if m !in state.withdrawalBundles {
      return if state.pendingWithdrawalBundle == Some(m) then Ok(()) else Err(UnknownBundle);
    }
    var BundleEntry(info, status) := state.withdrawalBundles[m];
    ghost var spend := SpendOf(state.PegView().bundles[m].info);
    var (rest, latest) := status.Pop();
    if !IsSubmitted(latest.value) || latest.height != height {
      return Err(AssertionFailed);
    }
    if info.Known? && rest.Some? && rest.value.Latest().value.Pending? {
      if !(info.bundle.spendUtxos.Keys <= state.stxos.Keys) {
        return Err(NoStxo);
      }
      BackwardsIsTotal(rank);
      UnspendOutputs(state, diff, base, Backwards(rank), info.bundle.spendUtxos);
      state.pendingWithdrawalBundle := Some(m);
    }
    if rest.Some? {
      state.withdrawalBundles := state.withdrawalBundles[m := BundleEntry(info, rest.value)];
    } else {
      state.withdrawalBundles := state.withdrawalBundles - {m};
    }
    r := Ok(());
  }

  method DisconnectBundleConfirmed(
    state: State, diff: AccumulatorDiff, ghost base: set<Leaf>, rank: Rank, height: nat, m: M6id)
    returns (r: Result<(), PegError>)
    requires TotalOrder(rank) && Balanced(state.PegView()) && InStep(state, diff, base)
    modifies state`utxos, state`stxos, state`withdrawalBundles, diff
    ensures Achieves(
              state, diff, base, r, DisconnectConfirmed(old(state.PegView()), height, m),
              UndoEventDiff(old(diff.diff), old(state.PegView()), BundleEvent(m, EventConfirmed), rank))
  {
    if m !in state.withdrawalBundles {
      return Err(UnknownBundle);
    }
    var BundleEntry(info, status) := state.withdrawalBundles[m];
    ghost var authentic := SpendOf(state.PegView().bundles[m].info);
    var (rest, latest) := status.Pop();
    if IsSubmitted(latest.value) {
      return Ok(());
    }
    if !latest.value.Confirmed? || latest.height != height || rest.None? || !IsSubmitted(rest.value.Latest().value) {
      return Err(AssertionFailed);
    }
    var spend: map<OutPoint, Output> := map[];
    var info' := info;
    match info {
      case Unknown =>
      case UnknownConfirmed(outputs) =>
        spend := outputs;
        info' := Unknown;
      case Known(bundle) =>
        if rest.value.Latest().value.SubmittedUnexpected? {
          spend := bundle.spendUtxos;
        }
    }
    if !(spend.Keys <= state.stxos.Keys) {
      return Err(NoStxo);
    }
    UnspendOutputs(state, diff, base, rank, spend);
    state.withdrawalBundles := state.withdrawalBundles[m := BundleEntry(info', rest.value)];
    r := Ok(());
  }

  method DisconnectBundleFailed(
    state: State, diff: AccumulatorDiff, ghost base: set<Leaf>, rank: Rank, height: nat, m: M6id)
    returns (r: Result<(), PegError>)
    requires TotalOrder(rank) && Balanced(state.PegView()) && InStep(state, diff, base)
    modifies state`utxos, state`stxos, state`latestFailedWithdrawalBundle, state`withdrawalBundles, diff
    ensures Achieves(
              state, diff, base, r, DisconnectFailed(old(state.PegView()), height, m),
              UndoEventDiff(old(diff.diff), old(state.PegView()), BundleEvent(m, EventFailed), rank))
  {
    if m !in state.withdrawalBundles {
      return Err(UnknownBundle);
    }
    var BundleEntry(info, status) := state.withdrawalBundles[m];
    ghost var authentic := SpendOf(state.PegView().bundles[m].info);
    var (rest, latest) := status.Pop();
    if latest.value.Submitted? {
      return Ok(());
    }
    if !latest.value.Failed? || latest.height != height || rest.None? || !IsSubmitted(rest.value.Latest().value) {
      return Err(AssertionFailed);
    }
    if info.Known? && rest.value.Latest().value.Submitted? {
      AuthenticAgree(info.bundle.spendUtxos, state.utxos);
      BackwardsIsTotal(rank);
      var spent := SpendOutputs(state, diff, base, Backwards(rank), info.bundle.spendUtxos, m);
      if !spent {
        return Err(NoUtxo);
      }
      if state.latestFailedWithdrawalBundle.None? {
        return Err(AssertionFailed);
      }
      var (restFailed, latestFailed) := state.latestFailedWithdrawalBundle.value.Pop();
      if latestFailed != HeightStamped(m, height) {
        return Err(AssertionFailed);
      }
      state.latestFailedWithdrawalBundle := restFailed;
    }
    state.withdrawalBundles := state.withdrawalBundles[m := BundleEntry(info, rest.value)];
    r := Ok(());
  }

  method DisconnectOneEvent(
    state: State, diff: AccumulatorDiff, ghost base: set<Leaf>, rank: Rank, height: nat, e: BlockEvent)
    returns (r: Result<(), PegError>)
    requires TotalOrder(rank) && Balanced(state.PegView()) && InStep(state, diff, base)
    requires e.DepositEvent? ==> CommittedOutput(Deposit(e.txid, e.vout)) == Some(e.output)
    modifies state`utxos, state`stxos, state`pendingWithdrawalBundle, state`latestFailedWithdrawalBundle,
             state`withdrawalBundles, diff
    ensures Achieves(
              state, diff, base, r, DisconnectEvent(old(state.PegView()), height, e),
              UndoEventDiff(old(diff.diff), old(state.PegView()), e, rank))
  {
    match e {
      case DepositEvent(txid, vout, output) =>
        var o := Deposit(txid, vout);
        if o !in state.utxos {
          return Err(NoUtxo);
        }
        LeavesRemove(state.utxos, o);
        RecordTracks(diff.diff, base, LeavesOf(state.utxos), Leaf(o, output), false);
        state.utxos := state.utxos - {o};
        diff.Remove(Leaf(o, output));
        r := Ok(());
      case BundleEvent(m, EventSubmitted) => r := DisconnectBundleSubmitted(state, diff, base, rank, height, m);
      case BundleEvent(m, EventConfirmed) => r := DisconnectBundleConfirmed(state, diff, base, rank, height, m);
      case BundleEvent(m, EventFailed) => r := DisconnectBundleFailed(state, diff, base, rank, height, m);
    }
  }
}
