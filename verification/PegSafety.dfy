/**
 What the two-way peg may take and from whom: which events are accepted, which outputs each of them moves,
 and which outputs are recorded as withdrawn in every reachable state.
 */
module PegSafety {
  import opened Types
  import opened RollBack
  import opened Peg
  import opened PegInvariant

  // ------------------------------------------------------------ what is accepted

  function LatestOf(p: PegState, m: M6id): BundleStatus
    requires m in p.bundles
  {
    p.bundles[m].status.Latest().value
  }

  /** A confirmation is refused for an unknown bundle unless the height is 0, and for outputs that are gone. */
  lemma ConfirmationAccepted(p: PegState, height: nat, m: M6id)
    requires PegInv(p, height)
    ensures ConnectConfirmed(p, height, m).Ok? <==>
              m in p.bundles &&
              match LatestOf(p, m)
              case Confirmed => true
              case Submitted => p.bundles[m].info.Known? || height == 0
              case SubmittedUnexpected =>
                if p.bundles[m].info.Known? then forall o | o in p.bundles[m].info.bundle.spendUtxos :: o in p.utxos else height == 0
              case _ => false
  {
    if m in p.bundles {
      assert EntryOk(p, height, m);
      PushAppends(p.bundles[m].status, Confirmed, height);
    }
  }

  /** A submission is accepted of the pending bundle with all outputs unspent, of a new one, and of a failed one. */
  lemma SubmissionAccepted(p: PegState, height: nat, m: M6id)
    requires PegInv(p, height)
    ensures ConnectSubmitted(p, height, m).Ok? <==>
              || m !in p.bundles || LatestOf(p, m).Failed?
              || (p.pending == Some(m) && forall o | o in SpendOf(p.bundles[m].info) :: o in p.utxos)
  {
    if m in p.bundles {
      assert EntryOk(p, height, m);
      LatestIsNeverDropped(p.bundles[m].info.Known?, p.bundles[m].status);
      PushAppends(p.bundles[m].status, Submitted, height);
      PushAppends(p.bundles[m].status, SubmittedUnexpected, height);
    }
  }

  /** A failure is accepted of a bundle that is submitted, or has failed already. */
  lemma FailureAccepted(p: PegState, height: nat, m: M6id)
    requires PegInv(p, height)
    ensures ConnectFailed(p, height, m).Ok? <==>
              m in p.bundles && (LatestOf(p, m).Submitted? || LatestOf(p, m).SubmittedUnexpected? || LatestOf(p, m).Failed?)
  {
    if m in p.bundles {
      assert EntryOk(p, height, m);
      PushAppends(p.bundles[m].status, Failed, height);
      if p.latestFailed.Some? {
        PushAppends(p.latestFailed.value, m, height);
      }
    }
  }

  /** The status that an event leaves behind. */
  predicate Fits(e: EventStatus, s: BundleStatus) {
    match e
    case EventSubmitted => s.Submitted? || s.SubmittedUnexpected?
    case EventConfirmed => s.Confirmed?
    case EventFailed => s.Failed?
  }

  /** Only the bundle of an event changes, by one more status of the event's kind at this height, or not at all. */
  lemma StatusAfter(p: PegState, height: nat, m: M6id, status: EventStatus)
    requires PegInv(p, height) && ConnectEvent(p, height, BundleEvent(m, status)).Ok?
    ensures var q := ConnectEvent(p, height, BundleEvent(m, status)).value;
            && q.bundles.Keys == p.bundles.Keys + {m} && (forall x | x in p.bundles && x != m :: q.bundles[x] == p.bundles[x])
            && Fits(status, LatestOf(q, m))
            && (q == p || q.bundles[m].status.Latest().height == height)
            && (m in p.bundles && q != p ==> q.bundles[m].status.Pop().0 == Some(p.bundles[m].status))
            && (m !in p.bundles ==> q.bundles[m] == BundleEntry(Unknown, RollBack.New(Submitted, height)))
  {
    hide ConnectSubmitted, ConnectConfirmed, ConnectFailed, PegInv;
    match status
    case EventSubmitted => SubmittedStatus(p, height, m);
    case EventConfirmed => ConfirmedStatus(p, height, m);
    case EventFailed => FailedStatus(p, height, m);
  }

  /** Only bundle `m` changed, by one status on top. */
  ghost predicate OneMoreStatus(p: PegState, q: PegState, height: nat, m: M6id) {
    && m in q.bundles && q.bundles.Keys == p.bundles.Keys + {m}
    && (forall x | x in p.bundles && x != m :: q.bundles[x] == p.bundles[x])
    && (q == p || q.bundles[m].status.Latest().height == height)
    && (m in p.bundles && q != p ==> q.bundles[m].status.Pop().0 == Some(p.bundles[m].status))
    && (m !in p.bundles ==> q.bundles[m] == BundleEntry(Unknown, RollBack.New(Submitted, height)))
  }

  lemma SubmittedStatus(p: PegState, height: nat, m: M6id)
    requires PegInv(p, height) && ConnectSubmitted(p, height, m).Ok?
    ensures var q := ConnectSubmitted(p, height, m).value;
            OneMoreStatus(p, q, height, m) && Fits(EventSubmitted, LatestOf(q, m))
  {
    if m in p.bundles {
      assert EntryOk(p, height, m);
      PopUndoesPush(p.bundles[m].status, Submitted, height);
      PopUndoesPush(p.bundles[m].status, SubmittedUnexpected, height);
    }
  }

  lemma ConfirmedStatus(p: PegState, height: nat, m: M6id)
    requires PegInv(p, height) && ConnectConfirmed(p, height, m).Ok?
    ensures var q := ConnectConfirmed(p, height, m).value;
            OneMoreStatus(p, q, height, m) && Fits(EventConfirmed, LatestOf(q, m))
  {
    assert EntryOk(p, height, m);
    PopUndoesPush(p.bundles[m].status, Confirmed, height);
  }

  lemma FailedStatus(p: PegState, height: nat, m: M6id)
    requires PegInv(p, height) && ConnectFailed(p, height, m).Ok?
    ensures var q := ConnectFailed(p, height, m).value;
            OneMoreStatus(p, q, height, m) && Fits(EventFailed, LatestOf(q, m))
  {
    assert EntryOk(p, height, m);
    PopUndoesPush(p.bundles[m].status, Failed, height);
  }

  // -------------------------------------------------------------- what is moved

  /** The event takes the output: by the bundle's submission, or by a confirmation that came without one. */
  ghost predicate Takes(p: PegState, height: nat, e: BlockEvent, o: OutPoint) {
    && e.BundleEvent? && e.m6id in p.bundles
    && var entry := p.bundles[e.m6id];
       || (e.status.EventSubmitted? && p.pending == Some(e.m6id) && entry.info.Known? && o in entry.info.bundle.spendUtxos)
       || (e.status.EventConfirmed? && LatestOf(p, e.m6id).SubmittedUnexpected? && entry.info.Known?
           && o in entry.info.bundle.spendUtxos)
       || (e.status.EventConfirmed? && entry.info.Unknown? && IsSubmitted(LatestOf(p, e.m6id)) && height == 0)
  }

  /** What the event makes unspent: a deposit, or what the submission of a failing bundle took. */
  ghost function Given(p: PegState, e: BlockEvent): map<OutPoint, Output> {
    match e
    case DepositEvent(txid, vout, deposited) => map[Deposit(txid, vout) := deposited]
    case BundleEvent(m, status) =>
      if status.EventFailed? && m in p.bundles && LatestOf(p, m).Submitted? && p.bundles[m].info.Known?
      then p.bundles[m].info.bundle.spendUtxos
      else map[]
  }

  /** Unspent afterwards is exactly what was unspent and is not taken, and what is given. */
  ghost predicate MovesExactly(p: PegState, height: nat, e: BlockEvent, q: PegState) {
    q.utxos == (map o | o in p.utxos && !Takes(p, height, e, o) :: p.utxos[o]) + Given(p, e)
  }

  lemma DepositMoves(p: PegState, height: nat, e: BlockEvent)
    requires e.DepositEvent? && GenuineEvent(p, e)
    ensures MovesExactly(p, height, e, ConnectEvent(p, height, e).value)
  {
  }

  lemma SubmissionMoves(p: PegState, height: nat, m: M6id)
    requires PegInv(p, height) && ConnectSubmitted(p, height, m).Ok?
    ensures MovesExactly(p, height, BundleEvent(m, EventSubmitted), ConnectSubmitted(p, height, m).value)
  {
  }

  lemma ConfirmationMoves(p: PegState, height: nat, m: M6id)
    requires PegInv(p, height) && ConnectConfirmed(p, height, m).Ok?
    ensures MovesExactly(p, height, BundleEvent(m, EventConfirmed), ConnectConfirmed(p, height, m).value)
  {
    assert EntryOk(p, height, m);
  }

  lemma NothingIsTaken(p: PegState, height: nat, e: BlockEvent)
    requires forall o :: !Takes(p, height, e, o)
    ensures (map o | o in p.utxos && !Takes(p, height, e, o) :: p.utxos[o]) == p.utxos
  {
    hide Takes;
  }

  lemma FailureGives(p: PegState, height: nat, m: M6id)
    requires ConnectFailed(p, height, m).Ok?
    ensures ConnectFailed(p, height, m).value.utxos == p.utxos + Given(p, BundleEvent(m, EventFailed))
  {
  }

  lemma FailureMoves(p: PegState, height: nat, m: M6id)
    requires ConnectFailed(p, height, m).Ok?
    ensures MovesExactly(p, height, BundleEvent(m, EventFailed), ConnectFailed(p, height, m).value)
  {
    hide ConnectFailed, Given;
    FailureGives(p, height, m);
    NothingIsTaken(p, height, BundleEvent(m, EventFailed));
  }

  /** Which outputs an accepted event takes and gives. */
  lemma EventMovesExactly(p: PegState, height: nat, e: BlockEvent)
    requires PegInv(p, height) && GenuineEvent(p, e) && ConnectEvent(p, height, e).Ok?
    ensures MovesExactly(p, height, e, ConnectEvent(p, height, e).value)
  {
    hide ConnectSubmitted, ConnectConfirmed, ConnectFailed, PegInv, MovesExactly;
    match e
    case DepositEvent(_, _, _) => DepositMoves(p, height, e);
    case BundleEvent(m, EventSubmitted) => SubmissionMoves(p, height, m);
    case BundleEvent(m, EventConfirmed) => ConfirmationMoves(p, height, m);
    case BundleEvent(m, EventFailed) => FailureMoves(p, height, m);
  }

  /** The output belongs to a known bundle that an event of the list submits or confirms. */
  ghost predicate TakenByKnown(q: PegState, events: seq<BlockEvent>, o: OutPoint) {
    exists i {:trigger events[i]} :: 0 <= i < |events| && OwnedBy(q, events[i], o)
  }

  ghost predicate OwnedBy(q: PegState, e: BlockEvent, o: OutPoint) {
    && e.BundleEvent? && !e.status.EventFailed? && e.m6id in q.bundles
    && q.bundles[e.m6id].info.Known? && o in q.bundles[e.m6id].info.bundle.spendUtxos
  }

  /** The same bundles are known, with the same contents. */
  ghost predicate KnownAlike(p: PegState, q: PegState) {
    forall m ::
      (m in p.bundles && p.bundles[m].info.Known? ==> m in q.bundles && q.bundles[m].info == p.bundles[m].info)
      && (m in q.bundles && q.bundles[m].info.Known? ==> m in p.bundles && q.bundles[m].info == p.bundles[m].info)
  }

  lemma SubmissionKnows(p: PegState, height: nat, m: M6id)
    requires ConnectSubmitted(p, height, m).Ok?
    ensures KnownAlike(p, ConnectSubmitted(p, height, m).value)
  {
  }

  lemma ConfirmationKnows(p: PegState, height: nat, m: M6id)
    requires ConnectConfirmed(p, height, m).Ok?
    ensures KnownAlike(p, ConnectConfirmed(p, height, m).value)
  {
  }

  lemma FailureKnows(p: PegState, height: nat, m: M6id)
    requires ConnectFailed(p, height, m).Ok?
    ensures KnownAlike(p, ConnectFailed(p, height, m).value)
  {
  }

  /** Events make no bundle known and leave the known ones alone. */
  lemma KnownStays(p: PegState, height: nat, e: BlockEvent)
    requires ConnectEvent(p, height, e).Ok?
    ensures KnownAlike(p, ConnectEvent(p, height, e).value)
  {
    hide ConnectSubmitted, ConnectConfirmed, ConnectFailed;
    match e
    case DepositEvent(_, _, _) =>
    case BundleEvent(m, EventSubmitted) => SubmissionKnows(p, height, m);
    case BundleEvent(m, EventConfirmed) => ConfirmationKnows(p, height, m);
    case BundleEvent(m, EventFailed) => FailureKnows(p, height, m);
  }

  /**
   Above height 0, an output that is unspent before an accepted list of events and not after it belongs to a
   known bundle that the list submits or confirms.
   */
  lemma {:induction false} OnlyKnownBundlesTake(p: PegState, height: nat, events: seq<BlockEvent>, n: nat, o: OutPoint)
    requires PegInv(p, height) && GenuineEvents(p, events) && n <= |events| && height > 0
    requires ConnectEvents(p, height, events[..n]).Ok? && o in p.utxos
    ensures o in ConnectEvents(p, height, events[..n]).value.utxos
         || TakenByKnown(ConnectEvents(p, height, events[..n]).value, events[..n], o)
  {
    hide PegInv, ConnectEvent, MovesExactly;
    if n > 0 {
      assert events[..n][..n - 1] == events[..n - 1] && events[..n][n - 1] == events[n - 1];
      OnlyKnownBundlesTake(p, height, events, n - 1, o);
      ConnectEventsKeepInv(p, height, events, n - 1);
      var x, e := ConnectEvents(p, height, events[..n - 1]).value, events[n - 1];
      assert GenuineEvent(x, events[n - 1]);
      if o in x.utxos {
        TakenOnce(x, height, e, o);
        assert TakenByKnown(ConnectEvent(x, height, e).value, [e], o) ==> OwnedBy(ConnectEvent(x, height, e).value, events[..n][n - 1], o);
      } else {
        var i :| 0 <= i < n - 1 && OwnedBy(x, events[..n - 1][i], o);
        KnownStays(x, height, e);
        assert OwnedBy(ConnectEvent(x, height, e).value, events[..n][i], o);
      }
    }
  }

  lemma TakenOnce(x: PegState, height: nat, e: BlockEvent, o: OutPoint)
    requires PegInv(x, height) && GenuineEvent(x, e) && ConnectEvent(x, height, e).Ok? && height > 0 && o in x.utxos
    ensures var q := ConnectEvent(x, height, e).value; o in q.utxos || TakenByKnown(q, [e], o)
  {
    hide PegInv, ConnectEvent;
    EventMovesExactly(x, height, e);
    var q := ConnectEvent(x, height, e).value;
    if o !in q.utxos {
      assert Takes(x, height, e, o);
      KnownStays(x, height, e);
      assert OwnedBy(q, [e][0], o);
    }
  }
}
