/** The diff of peg events is the difference between the leaves before and after them. */
module PegTracks {
  import opened Types
  import opened Accumulator
  import opened Peg
  import opened PegDiff
  import opened PegInvariant
  import opened PegSync
  import opened State

  /** The outputs `rest` of `spend`. */
  function Only(spend: map<OutPoint, Output>, rest: set<OutPoint>): map<OutPoint, Output> {
    map o | o in spend && o in rest :: spend[o]
  }

  lemma OnlyOneMore(utxos: map<OutPoint, Output>, spend: map<OutPoint, Output>, rest: set<OutPoint>, o: OutPoint)
    requires o in rest && o in spend
    ensures utxos[o := spend[o]] + Only(spend, rest - {o}) == utxos + Only(spend, rest)
  {
  }

  /** The outputs are unspent. */
  ghost predicate Unspent(utxos: map<OutPoint, Output>, spend: map<OutPoint, Output>, rest: set<OutPoint>) {
    rest <= spend.Keys && forall o | o in rest :: o in utxos && utxos[o] == spend[o]
  }

  lemma OneLess(utxos: map<OutPoint, Output>, spend: map<OutPoint, Output>, rest: set<OutPoint>, o: OutPoint)
    requires Unspent(utxos, spend, rest) && o in rest
    ensures o in utxos && utxos[o] == spend[o] && Unspent(utxos - {o}, spend, rest - {o})
    ensures utxos - {o} - (rest - {o}) == utxos - rest
  {
  }

  lemma {:induction false} MoveOutTracks(
    d: Diff, base: set<Leaf>, utxos: map<OutPoint, Output>, spend: map<OutPoint, Output>, rest: set<OutPoint>, rank: Rank)
    requires Tracks(d, base, LeavesOf(utxos)) && rest <= spend.Keys && Unspent(utxos, spend, rest)
    ensures Tracks(Move(d, spend, rest, false, rank), base, LeavesOf(utxos - rest))
    decreases |rest|
  {
    if rest == {} {
      assert utxos - rest == utxos;
    } else {
      FirstExists(rest, rank);
      var o :| IsFirst(rest, rank, o) &&
               Move(d, spend, rest, false, rank) ==
               Move(Record(d, Leaf(o, spend[o]), false), spend, rest - {o}, false, rank);
      hide Tracks, LeavesOf, Record, Unspent;
      OneLess(utxos, spend, rest, o);
      LeavesRemove(utxos, o);
      RecordTracks(d, base, LeavesOf(utxos), Leaf(o, spend[o]), false);
      MoveOutTracks(Record(d, Leaf(o, spend[o]), false), base, utxos - {o}, spend, rest - {o}, rank);
    }
  }

  lemma {:induction false} MoveInTracks(
    d: Diff, base: set<Leaf>, utxos: map<OutPoint, Output>, spend: map<OutPoint, Output>, rest: set<OutPoint>, rank: Rank)
    requires Tracks(d, base, LeavesOf(utxos)) && rest <= spend.Keys && rest !! utxos.Keys
    ensures Tracks(Move(d, spend, rest, true, rank), base, LeavesOf(utxos + Only(spend, rest)))
    decreases |rest|
  {
    if rest == {} {
      assert utxos + Only(spend, rest) == utxos;
    } else {
      FirstExists(rest, rank);
      var o :| IsFirst(rest, rank, o) &&
               Move(d, spend, rest, true, rank) ==
               Move(Record(d, Leaf(o, spend[o]), true), spend, rest - {o}, true, rank);
      hide Tracks, LeavesOf, Record;
      LeavesInsert(utxos, o, spend[o]);
      RecordTracks(d, base, LeavesOf(utxos), Leaf(o, spend[o]), true);
      MoveInTracks(Record(d, Leaf(o, spend[o]), true), base, utxos[o := spend[o]], spend, rest - {o}, rank);
      OnlyOneMore(utxos, spend, rest, o);
    }
  }

  lemma WithdrawTracks(d: Diff, base: set<Leaf>, p: PegState, spend: map<OutPoint, Output>, m: M6id, rank: Rank)
    requires Tracks(d, base, LeavesOf(p.utxos)) && OutputsOk(p) && Authentic(spend) && spend.Keys <= p.utxos.Keys
    ensures Tracks(MoveAll(d, spend, false, rank), base, LeavesOf(Withdraw(p, spend, m).utxos))
  {
    forall o | o in spend
      ensures p.utxos[o] == spend[o]
    {
      assert CommittedOutput(o) == Some(p.utxos[o]);
    }
    MoveOutTracks(d, base, p.utxos, spend, spend.Keys, rank);
  }

  lemma ReinstateTracks(d: Diff, base: set<Leaf>, p: PegState, spend: map<OutPoint, Output>, rank: Rank)
    requires Tracks(d, base, LeavesOf(p.utxos)) && OutputsOk(p) && spend.Keys <= p.stxos.Keys
    ensures Tracks(MoveAll(d, spend, true, rank), base, LeavesOf(Reinstate(p, spend).utxos))
  {
    MoveInTracks(d, base, p.utxos, spend, spend.Keys, rank);
    assert Only(spend, spend.Keys) == spend;
  }

  // --------------------------------------------------------------- connecting events

  lemma SubmittedTracks(d: Diff, base: set<Leaf>, p: PegState, height: nat, m: M6id, rank: Rank)
    requires PegInv(p, height) && ConnectSubmitted(p, height, m).Ok? && Tracks(d, base, LeavesOf(p.utxos))
    ensures Tracks(EventDiff(d, p, BundleEvent(m, EventSubmitted), rank), base,
                   LeavesOf(ConnectSubmitted(p, height, m).value.utxos))
  {
    hide Tracks, MoveAll, LeavesOf;
    if p.pending == Some(m) {
      assert EntryOk(p, height, m);
      WithdrawTracks(d, base, p, p.bundles[m].info.bundle.spendUtxos, m, rank);
    }
  }

  lemma ConfirmedTracks(d: Diff, base: set<Leaf>, p: PegState, height: nat, m: M6id, rank: Rank)
    requires PegInv(p, height) && ConnectConfirmed(p, height, m).Ok? && Tracks(d, base, LeavesOf(p.utxos))
    ensures Tracks(EventDiff(d, p, BundleEvent(m, EventConfirmed), rank), base,
                   LeavesOf(ConnectConfirmed(p, height, m).value.utxos))
  {
    hide Tracks, MoveAll, LeavesOf;
    assert EntryOk(p, height, m);
    var BundleEntry(info, status) := p.bundles[m];
    if info.Unknown? {
      WithdrawTracks(d, base, p, p.utxos, m, rank);
    } else if info.Known? && status.Latest().value.SubmittedUnexpected? {
      WithdrawTracks(d, base, p, info.bundle.spendUtxos, m, rank);
    }
  }

  lemma FailedTracks(d: Diff, base: set<Leaf>, p: PegState, height: nat, m: M6id, rank: Rank)
    requires PegInv(p, height) && ConnectFailed(p, height, m).Ok? && Tracks(d, base, LeavesOf(p.utxos))
    ensures Tracks(EventDiff(d, p, BundleEvent(m, EventFailed), rank), base,
                   LeavesOf(ConnectFailed(p, height, m).value.utxos))
  {
    hide Tracks, MoveAll, LeavesOf;
    assert EntryOk(p, height, m);
    var BundleEntry(info, status) := p.bundles[m];
    if info.Known? && status.Latest().value.Submitted? {
      ReinstateTracks(d, base, p, info.bundle.spendUtxos, rank);
    }
  }

  lemma EventTracks(d: Diff, base: set<Leaf>, p: PegState, height: nat, e: BlockEvent, rank: Rank)
    requires PegInv(p, height) && GenuineEvent(p, e) && ConnectEvent(p, height, e).Ok?
    requires Tracks(d, base, LeavesOf(p.utxos))
    ensures Tracks(EventDiff(d, p, e, rank), base, LeavesOf(ConnectEvent(p, height, e).value.utxos))
  {
    match e
    case DepositEvent(txid, vout, output) =>
      LeavesInsert(p.utxos, Deposit(txid, vout), output);
      RecordTracks(d, base, LeavesOf(p.utxos), Leaf(Deposit(txid, vout), output), true);
    case BundleEvent(m, EventSubmitted) => SubmittedTracks(d, base, p, height, m, rank);
    case BundleEvent(m, EventConfirmed) => ConfirmedTracks(d, base, p, height, m, rank);
    case BundleEvent(m, EventFailed) => FailedTracks(d, base, p, height, m, rank);
  }

  /** The diff of accepted events leads from the old to the new leaves. */
  lemma {:induction false} EventsTrack(p: PegState, height: nat, events: seq<BlockEvent>, n: nat, rank: Rank)
    requires PegInv(p, height) && GenuineEvents(p, events) && n <= |events| && ConnectEvents(p, height, events[..n]).Ok?
    ensures Tracks(EventsDiff(p, height, events[..n], rank), LeavesOf(p.utxos),
                   LeavesOf(ConnectEvents(p, height, events[..n]).value.utxos))
    decreases n
  {
    if n > 0 {
      hide Tracks, EventDiff, LeavesOf;
      assert events[..n][..n - 1] == events[..n - 1] && events[..n][n - 1] == events[n - 1];
      ConnectEventsKeepInv(p, height, events, n - 1);
      EventsTrack(p, height, events, n - 1, rank);
      var q := ConnectEvents(p, height, events[..n - 1]).value;
      assert GenuineEvent(q, events[n - 1]);
      EventTracks(EventsDiff(p, height, events[..n - 1], rank), LeavesOf(p.utxos), q, height, events[n - 1], rank);
    }
  }

  // ------------------------------------------------------------ disconnecting events

  lemma UndoBundleTracks(
    d: Diff, base: set<Leaf>, p: PegState, height: nat, m: M6id, status: EventStatus, rank: Rank)
    requires Balanced(p) && DisconnectEvent(p, height, BundleEvent(m, status)).Ok? && m in p.bundles
    requires Tracks(d, base, LeavesOf(p.utxos))
    ensures Tracks(UndoEventDiff(d, p, BundleEvent(m, status), rank), base,
                   LeavesOf(DisconnectEvent(p, height, BundleEvent(m, status)).value.utxos))
  {
    hide Tracks, MoveAll, LeavesOf;
    var spend := SpendOf(p.bundles[m].info);
    assert Authentic(spend);
    if spend.Keys <= p.stxos.Keys {
      ReinstateTracks(d, base, p, spend, rank);
      ReinstateTracks(d, base, p, spend, Backwards(rank));
    }
    if spend.Keys <= p.utxos.Keys {
      WithdrawTracks(d, base, p, spend, m, Backwards(rank));
    }
    match status {
      case EventSubmitted =>
      case EventConfirmed =>
      case EventFailed =>
    }
  }

  lemma UndoEventTracks(d: Diff, base: set<Leaf>, p: PegState, height: nat, e: BlockEvent, rank: Rank)
    requires Balanced(p) && AuthenticDeposit(e) && DisconnectEvent(p, height, e).Ok? && Tracks(d, base, LeavesOf(p.utxos))
    ensures Tracks(UndoEventDiff(d, p, e, rank), base, LeavesOf(DisconnectEvent(p, height, e).value.utxos))
  {
    match e
    case DepositEvent(txid, vout, output) =>
      var o := Deposit(txid, vout);
      assert CommittedOutput(o) == Some(p.utxos[o]);
      LeavesRemove(p.utxos, o);
      RecordTracks(d, base, LeavesOf(p.utxos), Leaf(o, output), false);
    case BundleEvent(m, status) =>
      if m in p.bundles {
        UndoBundleTracks(d, base, p, height, m, status, rank);
      }
  }

  /** The diff of disconnected events leads from the old to the new leaves. */
  lemma {:induction false} UndoEventsTrack(
    d: Diff, base: set<Leaf>, p: PegState, height: nat, events: seq<BlockEvent>, rank: Rank)
    requires Balanced(p) && AuthenticDeposits(events) && DisconnectEvents(p, height, events).Ok?
    requires Tracks(d, base, LeavesOf(p.utxos))
    ensures Tracks(UndoEventsDiff(d, p, height, events, rank), base,
                   LeavesOf(DisconnectEvents(p, height, events).value.utxos))
    decreases |events|
  {
    if events != [] {
      hide Tracks, UndoEventDiff, LeavesOf;
      var init, last := events[..|events| - 1], events[|events| - 1];
      assert AuthenticDeposit(last);
      DisconnectEventKeepsBalanced(p, height, last);
      UndoEventTracks(d, base, p, height, last, rank);
      UndoEventsTrack(UndoEventDiff(d, p, last, rank), base, DisconnectEvent(p, height, last).value, height, init, rank);
    }
  }
}
