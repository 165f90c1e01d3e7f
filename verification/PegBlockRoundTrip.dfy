/** When disconnecting the peg data of a block undoes connecting it: exactly when, for all inputs. */
module PegBlockRoundTrip {
  import opened Types
  import opened RollBack
  import opened Peg
  import opened PegInvariant
  import opened PegRoundTrip
  import opened PegBlock
  import opened PegRepeats

  // ----------------------------------------------------- what events leave alone

  /** Disconnecting events leaves the record of every bundle they do not concern. */
  lemma {:induction false} DisconnectLeavesOthers(p: PegState, height: nat, events: seq<BlockEvent>, m: M6id)
    requires DisconnectEvents(p, height, events).Ok? && m in p.bundles
    requires forall i | 0 <= i < |events| && events[i].BundleEvent? :: events[i].m6id != m
    ensures m in DisconnectEvents(p, height, events).value.bundles
    decreases |events|
  {
    if events != [] {
      var last := events[|events| - 1];
      var q := DisconnectEvent(p, height, last).value;
      assert m in q.bundles;
      DisconnectLeavesOthers(q, height, events[..|events| - 1], m);
    }
  }

  // ----------------------------------------------------------- latest failures

  lemma LastFailedAfterPush(h: BundleHistory, value: BundleStatus, height: nat)
    requires h.Push(value, height).Some?
    ensures LastFailedHeight(h.Push(value, height).value.Entries()) ==
            if value.Failed? then Some(height) else LastFailedHeight(h.Entries())
  {
    var q := h.Push(value, height).value;
    assert q.Entries() == h.Entries() + [HeightStamped(value, height)];
    assert q.Entries()[..|q.Entries()| - 1] == h.Entries();
  }

  /**
   From `p` to `q`, only bundle `m` may get one more status at this height, or be recorded; the
   latest failure may change only to `m`, when it failed just now.
   */
  ghost predicate PushesOnly(p: PegState, q: PegState, height: nat, m: M6id) {
    && (forall x | x in p.bundles && x != m :: x in q.bundles && q.bundles[x] == p.bundles[x])
    && (m in p.bundles && q != p ==>
         && m in q.bundles
         && p.bundles[m].status.Push(q.bundles[m].status.Latest().value, height) == Some(q.bundles[m].status))
    && (q.latestFailed != p.latestFailed ==>
         && m in p.bundles && m in q.bundles && q.bundles[m].status.Latest().value.Failed?
         && q.latestFailed.Some? && q.latestFailed.value.Latest().value == m)
  }

  lemma SubmittedPushesOnly(p: PegState, height: nat, m: M6id)
    requires ConnectSubmitted(p, height, m).Ok?
    ensures PushesOnly(p, ConnectSubmitted(p, height, m).value, height, m)
  {
  }

  lemma ConfirmedPushesOnly(p: PegState, height: nat, m: M6id)
    requires ConnectConfirmed(p, height, m).Ok?
    ensures PushesOnly(p, ConnectConfirmed(p, height, m).value, height, m)
  {
  }

  lemma FailedPushesOnly(p: PegState, height: nat, m: M6id)
    requires ConnectFailed(p, height, m).Ok?
    ensures PushesOnly(p, ConnectFailed(p, height, m).value, height, m)
  {
  }

  /** Connecting events never moves the latest failure to a lower height. */
  lemma FailureHeightGrows(p: PegState, height: nat, e: BlockEvent)
    requires PegInv(p, height) && GenuineEvent(p, e) && ConnectEvent(p, height, e).Ok?
    ensures LatestFailureHeight(p).Ok? && LatestFailureHeight(ConnectEvent(p, height, e).value).Ok?
    ensures LatestFailureHeight(p).value <= LatestFailureHeight(ConnectEvent(p, height, e).value).value
  {
    var q := ConnectEvent(p, height, e).value;
    ConnectEventKeepsInv(p, height, e);
    LatestFailureFound(p, height);
    LatestFailureFound(q, height);
    if e.BundleEvent? && q != p {
      var m := e.m6id;
      match e.status {
        case EventSubmitted => SubmittedPushesOnly(p, height, m);
        case EventConfirmed => ConfirmedPushesOnly(p, height, m);
        case EventFailed => FailedPushesOnly(p, height, m);
      }
      if m in p.bundles {
        LastFailedAfterPush(p.bundles[m].status, q.bundles[m].status.Latest().value, height);
      }
    }
  }

  lemma {:induction false} FailureHeightGrowsAll(p: PegState, height: nat, events: seq<BlockEvent>, n: nat)
    requires PegInv(p, height) && GenuineEvents(p, events) && n <= |events|
    requires ConnectEvents(p, height, events[..n]).Ok?
    ensures LatestFailureHeight(p).Ok? && LatestFailureHeight(ConnectEvents(p, height, events[..n]).value).Ok?
    ensures LatestFailureHeight(p).value <= LatestFailureHeight(ConnectEvents(p, height, events[..n]).value).value
    decreases n
  {
    LatestFailureFound(p, height);
    if n > 0 {
      assert events[..n][..n - 1] == events[..n - 1] && events[..n][n - 1] == events[n - 1];
      FailureHeightGrowsAll(p, height, events, n - 1);
      ConnectEventsKeepInv(p, height, events, n - 1);
      assert GenuineEvent(ConnectEvents(p, height, events[..n - 1]).value, events[n - 1]);
      FailureHeightGrows(ConnectEvents(p, height, events[..n - 1]).value, height, events[n - 1]);
    }
  }

  // -------------------------------------------------------------- minted bundles

  /** Without a newly minted bundle there is nothing to unmint. */
  lemma NothingToUnmint(p: PegState, height: nat)
    requires PegInvBelow(p, height)
    ensures Unmint(p, height) == Ok(p)
  {
    LatestFailureFound(p, height);
  }

  /** A bundle minted on top of `p` is unminted. */
  lemma UnmintUndoesMint(p: PegState, height: nat, m: M6id, bundle: WithdrawalBundle)
    requires PegInvBelow(p, height) && p.pending.None? && m !in p.bundles
    requires LatestFailureHeight(p).Ok? && height - LatestFailureHeight(p).value >= FAILURE_GAP
    ensures Unmint(WithPending(p, m, BundleEntry(Known(bundle), RollBack.New(Pending, height))), height) == Ok(p)
  {
    var q := WithPending(p, m, BundleEntry(Known(bundle), RollBack.New(Pending, height)));
    if p.latestFailed.Some? {
      assert q.bundles[p.latestFailed.value.Latest().value] == p.bundles[p.latestFailed.value.Latest().value];
    }
    assert q.bundles - {m} == p.bundles;
  }

  /** Unminting never restores a pending bundle, and it keeps all records or empties the slot. */
  lemma UnmintEffect(p: PegState, height: nat)
    requires Unmint(p, height).Ok?
    ensures Unmint(p, height).value == p || Unmint(p, height).value.pending == None
  {
  }

  // ------------------------------------------------------------- the round trip

  /** The conditions, each of which a caller can check before connecting. */
  ghost predicate RestoresExactly(t: PegTables, height: nat, data: PegData)
    requires ConnectEvents(t.peg, height, AllEvents(data)).Ok?
  {
    // at most one mainchain block carries deposits, and at most one carries bundle events
    && EarliestBlock(data, true) == LatestBlock(data, true)
    && EarliestBlock(data, false) == LatestBlock(data, false)
    // the pending bundle is not replaced by a new one within the block
    && !(t.peg.pending.Some? && MintsIn(t, height, data))
    // no bundle is confirmed that was confirmed before the block
    && NoneConfirmedBefore(t.peg, AllEvents(data))
  }

  ghost predicate MintsIn(t: PegTables, height: nat, data: PegData)
    requires ConnectEvents(t.peg, height, AllEvents(data)).Ok?
  {
    var bundle := BundleToMint(ConnectEvents(t.peg, height, AllEvents(data)).value, height);
    bundle.Ok? && bundle.value.Some?
  }

  lemma {:induction false} BothOrNeither(data: PegData, deposits: bool)
    ensures LatestBlock(data, deposits).None? <==> forall i | 0 <= i < |data| :: !HasEvent(data[i].1, deposits)
    decreases |data|
  {
    if data != [] {
      BothOrNeither(data[..|data| - 1], deposits);
    }
  }

  lemma {:induction false} EarliestNone(data: PegData, deposits: bool)
    ensures EarliestBlock(data, deposits).None? <==> forall i | 0 <= i < |data| :: !HasEvent(data[i].1, deposits)
    decreases |data|
  {
    if data != [] {
      EarliestNone(data[1..], deposits);
      assert forall i | 0 < i < |data| :: data[1..][i - 1] == data[i];
    }
  }

  /** The record of the latest block is removed exactly when it is also the earliest block. */
  lemma UnrecordUndoesRecord(
    blocks: seq<(MainHash, nat)>, data: PegData, deposits: bool, height: nat, missing: BlockError)
    ensures UnrecordBlock(RecordBlock(blocks, LatestBlock(data, deposits), height), EarliestBlock(data, deposits), height, missing)
         == Ok(blocks)
       <==> EarliestBlock(data, deposits) == LatestBlock(data, deposits)
  {
    BothOrNeither(data, deposits);
    EarliestNone(data, deposits);
    if LatestBlock(data, deposits).Some? {
      var recorded := RecordBlock(blocks, LatestBlock(data, deposits), height);
      assert recorded[..|recorded| - 1] == blocks;
    }
  }

  /**
   The peg state is restored exactly when the pending bundle was not replaced, and no event confirmed
   a bundle that was confirmed before.
   */
  lemma PegStateRestored(t: PegTables, height: nat, data: PegData)
    requires PegInvBelow(t.peg, height) && GenuineEvents(t.peg, AllEvents(data))
    requires UndoableOrReconfirmed(t.peg, height, AllEvents(data)) && MintsFresh(t.peg, height, data)
    requires Connect(t, height, data).Ok?
    ensures var undone := DisconnectEvents(Connect(t, height, data).value.peg, height, AllEvents(data));
            (undone.Ok? && Unmint(undone.value, height) == Ok(t.peg)) <==>
              !(t.peg.pending.Some? && MintsIn(t, height, data)) && NoneConfirmedBefore(t.peg, AllEvents(data))
  {
    var events, p := AllEvents(data), t.peg;
    assert events[..|events|] == events;
    var q := ConnectEvents(p, height, events).value;
    if !MintsIn(t, height, data) {
      EventsRestoredExactly(p, height, events);
      NothingToUnmint(p, height);
    } else {
      var bundle := BundleToMint(q, height).value.value;
      var m, entry := bundle.ComputeM6id(), BundleEntry(Known(bundle), RollBack.New(Pending, height));
      assert Connect(t, height, data).value.peg == WithPending(q, m, entry);
      EventsMonotone(p, height, events);
      if p.pending.None? {
        EventsRestoredBesidePending(p, height, events, m, entry);
        FailureHeightGrowsAll(p, height, events, |events|);
        UnmintUndoesMint(p, height, m, bundle);
      } else {
        var undone := DisconnectEvents(WithPending(q, m, entry), height, events);
        if undone.Ok? && Unmint(undone.value, height).Ok? {
          DisconnectLeavesOthers(WithPending(q, m, entry), height, events, m);
          UnmintEffect(undone.value, height);
        }
      }
    }
  }

  /**
   Disconnecting the peg data of a block right after connecting it restores the tables exactly
   when the four conditions hold. Events may repeat a confirmation, but not a failure.
   */
  lemma BlockRoundTrip(t: PegTables, height: nat, data: PegData)
    requires PegInvBelow(t.peg, height) && GenuineEvents(t.peg, AllEvents(data))
    requires UndoableOrReconfirmed(t.peg, height, AllEvents(data)) && MintsFresh(t.peg, height, data)
    requires Connect(t, height, data).Ok?
    ensures Disconnect(Connect(t, height, data).value, height, data) == Ok(t) <==> RestoresExactly(t, height, data)
  {
    PegStateRestored(t, height, data);
    UnrecordUndoesRecord(t.depositBlocks, data, true, height, NoDepositBlock);
    UnrecordUndoesRecord(t.eventBlocks, data, false, height, NoEventBlock);
  }
}
