/**
 What the two-way peg holds: the outputs recorded as withdrawn are exactly those of the bundles that are
 submitted or paid out, every bundle pays as requested, and no bundle is minted soon after a failure.
 */
module PegHoldings {
  import opened Types
  import opened RollBack
  import opened Sums
  import opened Collection
  import opened Payouts
  import opened Peg
  import opened PegInvariant
  import opened PegRoundTrip
  import opened PegBlock
  import opened PegBlockRoundTrip
  import opened PegSafety
  import opened Moves
  import opened Wealth

  // -------------------------------------------------------------- what is withdrawn

  /** The outputs of the bundle are out of reach: it is submitted, or was paid out. */
  ghost predicate Settled(p: PegState, m: M6id) {
    m in p.bundles && (LatestOf(p, m).Submitted? || LatestOf(p, m).Confirmed?)
  }

  ghost predicate Held(p: PegState, o: OutPoint, m: M6id) {
    Settled(p, m) && o in SpendOf(p.bundles[m].info)
  }

  /** An output is recorded as withdrawn only by a settled bundle that spends it. */
  ghost predicate NothingElseHeld(p: PegState) {
    forall o {:trigger p.stxos[o]} | o in p.stxos && p.stxos[o].inpoint.WithdrawalIn? :: Held(p, o, p.stxos[o].inpoint.m6id)
  }

  /** Recorded as withdrawn by a bundle is exactly what a settled bundle spends. */
  lemma HeldExactly(p: PegState, bound: nat, m: M6id, o: OutPoint)
    requires PegInv(p, bound) && NothingElseHeld(p)
    ensures o in p.stxos && p.stxos[o].inpoint == WithdrawalIn(m) <==> Held(p, o, m)
    ensures Held(p, o, m) ==> o !in p.utxos && p.stxos[o].output == SpendOf(p.bundles[m].info)[o]
  {
    if m in p.bundles {
      assert EntryOk(p, bound, m);
    }
  }

  /** No output is withdrawn by two bundles. */
  lemma HeldOnce(p: PegState, bound: nat, m: M6id, n: M6id, o: OutPoint)
    requires PegInv(p, bound) && NothingElseHeld(p) && Held(p, o, m) && Held(p, o, n)
    ensures m == n
  {
    HeldExactly(p, bound, m, o);
    HeldExactly(p, bound, n, o);
  }

  lemma SubmissionHolds(p: PegState, height: nat, m: M6id)
    requires PegInv(p, height) && NothingElseHeld(p) && ConnectSubmitted(p, height, m).Ok?
    ensures NothingElseHeld(ConnectSubmitted(p, height, m).value)
  {
    hide Authentic, LegalHistory;
    var q := ConnectSubmitted(p, height, m).value;
    SubmittedStatus(p, height, m);
    if m in p.bundles {
      assert EntryOk(p, height, m);
      PushAppends(p.bundles[m].status, Submitted, height);
    }
    forall o {:trigger q.stxos[o]} | o in q.stxos && q.stxos[o].inpoint.WithdrawalIn?
      ensures Held(q, o, q.stxos[o].inpoint.m6id)
    {
      if o in p.stxos && q.stxos[o] == p.stxos[o] {
        assert Held(p, o, p.stxos[o].inpoint.m6id);
      }
    }
  }

  lemma ConfirmationHolds(p: PegState, height: nat, m: M6id)
    requires PegInv(p, height) && NothingElseHeld(p) && ConnectConfirmed(p, height, m).Ok?
    ensures NothingElseHeld(ConnectConfirmed(p, height, m).value)
  {
    var q := ConnectConfirmed(p, height, m).value;
    ConfirmedStatus(p, height, m);
    assert EntryOk(p, height, m);
    forall o {:trigger q.stxos[o]} | o in q.stxos && q.stxos[o].inpoint.WithdrawalIn?
      ensures Held(q, o, q.stxos[o].inpoint.m6id)
    {
      if o in p.stxos && q.stxos[o] == p.stxos[o] {
        assert Held(p, o, p.stxos[o].inpoint.m6id);
      }
    }
  }

  lemma FailureHolds(p: PegState, height: nat, m: M6id)
    requires PegInv(p, height) && NothingElseHeld(p) && ConnectFailed(p, height, m).Ok?
    ensures NothingElseHeld(ConnectFailed(p, height, m).value)
  {
    var q := ConnectFailed(p, height, m).value;
    FailedStatus(p, height, m);
    assert EntryOk(p, height, m);
    forall o {:trigger q.stxos[o]} | o in q.stxos && q.stxos[o].inpoint.WithdrawalIn?
      ensures Held(q, o, q.stxos[o].inpoint.m6id)
    {
      assert o in p.stxos && q.stxos[o] == p.stxos[o];
      assert Held(p, o, p.stxos[o].inpoint.m6id);
    }
  }

  /** Accepted events withdraw for settled bundles only, and give back what is no longer held. */
  lemma EventHolds(p: PegState, height: nat, e: BlockEvent)
    requires PegInv(p, height) && NothingElseHeld(p) && ConnectEvent(p, height, e).Ok?
    ensures NothingElseHeld(ConnectEvent(p, height, e).value)
  {
    hide PegInv, ConnectSubmitted, ConnectConfirmed, ConnectFailed;
    match e
    case DepositEvent(_, _, _) =>
      var q := ConnectEvent(p, height, e).value;
      forall o {:trigger q.stxos[o]} | o in q.stxos && q.stxos[o].inpoint.WithdrawalIn?
        ensures Held(q, o, q.stxos[o].inpoint.m6id)
      {
        assert Held(p, o, p.stxos[o].inpoint.m6id);
      }
    case BundleEvent(m, EventSubmitted) => SubmissionHolds(p, height, m);
    case BundleEvent(m, EventConfirmed) => ConfirmationHolds(p, height, m);
    case BundleEvent(m, EventFailed) => FailureHolds(p, height, m);
  }

  // ---------------------------------------------------------------- what bundles pay

  /** The bundle is named by its transaction, spends its inputs, and pays what they are worth to whom they name. */
  ghost predicate PaysOwn(m: M6id, bundle: WithdrawalBundle) {
    && m == M6id(bundle.tx) && bundle.tx.inputs == bundle.spendUtxos.Keys
    && PaysAsRequested(bundle.spendUtxos, bundle.tx.payouts)
    && Sum(bundle.spendUtxos, FeeAt) == bundle.tx.fee && Sum(bundle.spendUtxos, PayoutAt) == SumValues(bundle.tx.payouts)
  }

  ghost predicate BundlesPay(p: PegState) {
    forall m {:trigger p.bundles[m]} | m in p.bundles && p.bundles[m].info.Known? :: PaysOwn(m, p.bundles[m].info.bundle)
  }

  lemma EventPays(p: PegState, height: nat, e: BlockEvent)
    requires BundlesPay(p) && ConnectEvent(p, height, e).Ok?
    ensures BundlesPay(ConnectEvent(p, height, e).value)
  {
    hide PaysOwn, ConnectEvent;
    var q := ConnectEvent(p, height, e).value;
    KnownStays(p, height, e);
    forall m {:trigger q.bundles[m]} | m in q.bundles && q.bundles[m].info.Known?
      ensures PaysOwn(m, q.bundles[m].info.bundle)
    {
      assert PaysOwn(m, p.bundles[m].info.bundle);
    }
  }

  /** A bundle takes from the sidechain what it pays out and its fee, unless one of the amounts was capped. */
  lemma {:induction false} PaidIsWorth(spend: map<OutPoint, Output>)
    requires forall o | o in spend :: spend[o].content.Withdrawal?
    ensures Circulating(spend) <= Sum(spend, PayoutAt) + Sum(spend, FeeAt)
    ensures Circulating(spend) == Sum(spend, PayoutAt) + Sum(spend, FeeAt) <==>
              forall o | o in spend :: spend[o].content.payout + spend[o].content.mainFee <= 0xFFFF_FFFF_FFFF_FFFF
    decreases |spend|
  {
    if spend != map[] {
      var o :| o in spend;
      SumTakesAny(spend, ValueAt, o);
      SumTakesAny(spend, PayoutAt, o);
      SumTakesAny(spend, FeeAt, o);
      PaidIsWorth(spend - {o});
      assert forall x | x in spend && x != o :: x in spend - {o};
    }
  }

  /** What the spent outputs of a bundle are worth is what it pays and its fee, if no amount was capped. */
  lemma BundleIsWorth(m: M6id, bundle: WithdrawalBundle)
    requires PaysOwn(m, bundle)
    ensures Circulating(bundle.spendUtxos) <= SumValues(bundle.tx.payouts) + bundle.tx.fee
    ensures Circulating(bundle.spendUtxos) == SumValues(bundle.tx.payouts) + bundle.tx.fee <==>
              forall o | o in bundle.spendUtxos ::
                bundle.spendUtxos[o].content.payout + bundle.spendUtxos[o].content.mainFee <= 0xFFFF_FFFF_FFFF_FFFF
  {
    PaidIsWorth(bundle.spendUtxos);
  }

  /** The submission of the pending bundle lowers the wealth, and what circulates, by what its outputs are worth. */
  lemma SubmissionCosts(p: PegState, height: nat, m: M6id)
    requires PegInv(p, height) && p.pending == Some(m) && ConnectSubmitted(p, height, m).Ok?
    ensures var q, spend := ConnectSubmitted(p, height, m).value, SpendOf(p.bundles[m].info);
            && WealthOf(q.utxos, q.stxos) == WealthOf(p.utxos, p.stxos) - Circulating(spend)
            && Circulating(q.utxos) == Circulating(p.utxos) - Circulating(spend)
  {
    hide WealthOf, Circulating;
    assert EntryOk(p, height, m);
    var spend := p.bundles[m].info.bundle.spendUtxos;
    AuthenticSpend(p, spend);
    WithdrawConserves(p, spend, m);
  }

  // ---------------------------------------------------------------- recent failures

  /** The bundle failed at height `h` after a regular submission. */
  ghost predicate FailedAt(entry: BundleEntry, h: nat) {
    entry.info.Known? &&
    exists i :: 0 < i < |entry.status.Entries()| && entry.status.Entries()[i] == HeightStamped(Failed, h)
                && entry.status.Entries()[i - 1].value.Submitted?
  }

  ghost predicate NoLater(p: PegState, h: nat) {
    p.latestFailed.Some? && LatestFailureHeight(p).Ok? && h <= LatestFailureHeight(p).value
  }

  /** No regular failure is later than the one on record. */
  ghost predicate FailuresRecorded(p: PegState) {
    forall m, h: nat {:trigger FailedAt(p.bundles[m], h)} | m in p.bundles && FailedAt(p.bundles[m], h) :: NoLater(p, h)
  }

  lemma {:induction false} LastFailedMeans(entries: seq<HeightStamped<BundleStatus>>)
    ensures match LastFailedHeight(entries)
            case None => forall i | 0 <= i < |entries| :: !entries[i].value.Failed?
            case Some(h) =>
              exists i :: && 0 <= i < |entries| && entries[i] == HeightStamped(Failed, h)
                          && forall j | i < j < |entries| :: !entries[j].value.Failed?
  {
    if entries != [] {
      var n := |entries| - 1;
      LastFailedMeans(entries[..n]);
      if !entries[n].value.Failed? && LastFailedHeight(entries[..n]).Some? {
        var i :| && 0 <= i < n && entries[..n][i] == HeightStamped(Failed, LastFailedHeight(entries[..n]).value)
                 && forall j | i < j < n :: !entries[..n][j].value.Failed?;
        assert forall j | i < j < |entries| :: !entries[j].value.Failed? by {
          forall j | i < j < |entries|
            ensures !entries[j].value.Failed?
          {
            assert j < n ==> entries[..n][j] == entries[j];
          }
        }
      }
    }
  }

  /** The height on record is 0 before any failure, and else that of the last failure of the bundle that failed last. */
  lemma LatestFailureMeans(p: PegState, bound: nat)
    requires PegInv(p, bound)
    ensures LatestFailureHeight(p).Ok?
    ensures p.latestFailed.None? ==> LatestFailureHeight(p) == Ok(0)
    ensures p.latestFailed.Some? ==>
              var m := p.latestFailed.value.Latest().value;
              && m in p.bundles
              && var entries := p.bundles[m].status.Entries();
                 exists i :: && 0 <= i < |entries| && entries[i] == HeightStamped(Failed, LatestFailureHeight(p).value)
                             && forall j | i < j < |entries| :: !entries[j].value.Failed?
  {
    LatestFailureFound(p, bound);
    if p.latestFailed.Some? {
      LastFailedMeans(p.bundles[p.latestFailed.value.Latest().value].status.Entries());
    }
  }

  /** A regular failure goes on record. */
  lemma FailureGoesOnRecord(p: PegState, height: nat, m: M6id)
    requires PegInv(p, height) && ConnectFailed(p, height, m).Ok?
    requires p.bundles[m].info.Known? && LatestOf(p, m).Submitted?
    ensures var q := ConnectFailed(p, height, m).value; q.latestFailed.Some? && LatestFailureHeight(q) == Ok(height)
  {
    hide PegInv, LastFailedHeight;
    FailureIsLatest(p, height, m);
    LastFailedAfterPush(p.bundles[m].status, Failed, height);
  }

  lemma FailureIsLatest(p: PegState, height: nat, m: M6id)
    requires PegInv(p, height) && ConnectFailed(p, height, m).Ok?
    requires p.bundles[m].info.Known? && LatestOf(p, m).Submitted?
    ensures var q := ConnectFailed(p, height, m).value;
            && q.latestFailed.Some? && q.latestFailed.value.Latest().value == m
            && m in q.bundles && p.bundles[m].status.Push(Failed, height) == Some(q.bundles[m].status)
  {
    hide EntryOk, OutputsOk;
    if p.latestFailed.Some? {
      PopUndoesPush(p.latestFailed.value, m, height);
    }
  }

  lemma RecordStays(p: PegState, height: nat, e: BlockEvent)
    requires ConnectEvent(p, height, e).Ok? && p.latestFailed.Some?
    ensures ConnectEvent(p, height, e).value.latestFailed.Some?
  {
  }

  /** A failure in a history with one more status is the new status, or was there before. */
  lemma FailedBefore(before: BundleEntry, after: BundleEntry, h: nat)
    requires after.info.Known? && before.info.Known? && after.status.Pop().0 == Some(before.status) && FailedAt(after, h)
    ensures FailedAt(before, h) ||
            (after.status.Latest() == HeightStamped(Failed, h) && before.status.Latest().value.Submitted?)
  {
    var a, b := before.status.Entries(), after.status.Entries();
    assert b == a + [after.status.Latest()];
    assert before.status.Latest() == a[|a| - 1];
    var i :| 0 < i < |b| && b[i] == HeightStamped(Failed, h) && b[i - 1].value.Submitted?;
    if i < |a| {
      assert a[i] == b[i] && a[i - 1] == b[i - 1];
    }
  }

  lemma EventRecords(p: PegState, height: nat, e: BlockEvent)
    requires PegInv(p, height) && GenuineEvent(p, e) && FailuresRecorded(p) && ConnectEvent(p, height, e).Ok?
    ensures FailuresRecorded(ConnectEvent(p, height, e).value)
  {
    hide PegInv, ConnectEvent, FailedAt, LatestFailureHeight;
    var q := ConnectEvent(p, height, e).value;
    FailureHeightGrows(p, height, e);
    forall m, h: nat {:trigger FailedAt(q.bundles[m], h)} | m in q.bundles && FailedAt(q.bundles[m], h)
      ensures NoLater(q, h)
    {
      if m in p.bundles && FailedAt(p.bundles[m], h) {
        assert NoLater(p, h);
        RecordStays(p, height, e);
      } else {
        FailedNow(p, height, e, m, h);
      }
    }
  }

  /** A regular failure that was not there before is the event, and on record. */
  lemma FailedNow(p: PegState, height: nat, e: BlockEvent, m: M6id, h: nat)
    requires PegInv(p, height) && ConnectEvent(p, height, e).Ok?
    requires var q := ConnectEvent(p, height, e).value;
             m in q.bundles && FailedAt(q.bundles[m], h) && !(m in p.bundles && FailedAt(p.bundles[m], h))
    ensures NoLater(ConnectEvent(p, height, e).value, h)
  {
    hide PegInv, ConnectSubmitted, ConnectConfirmed, ConnectFailed, LatestFailureHeight;
    var q := ConnectEvent(p, height, e).value;
    KnownStays(p, height, e);
    FailedIsKnown(q.bundles[m], h);
    if e.BundleEvent? {
      StatusAfter(p, height, e.m6id, e.status);
      assert e.m6id == m;
      FailedBefore(p.bundles[m], q.bundles[m], h);
      FailureGoesOnRecord(p, height, m);
    }
  }

  lemma FailedIsKnown(entry: BundleEntry, h: nat)
    requires FailedAt(entry, h)
    ensures entry.info.Known?
  {
  }

  // --------------------------------------------------------------- the peg's books

  /** The failure on record is a regular one. */
  ghost predicate RecordIsRegular(p: PegState) {
    p.latestFailed.Some? ==>
      var last := p.latestFailed.value.Latest();
      last.value in p.bundles && FailedAt(p.bundles[last.value], last.height)
  }

  lemma FailedStays(before: BundleEntry, after: BundleEntry, h: nat)
    requires FailedAt(before, h) && after.info == before.info && after.status.Pop().0 == Some(before.status)
    ensures FailedAt(after, h)
  {
    var a, b := before.status.Entries(), after.status.Entries();
    assert b == a + [after.status.Latest()];
    var i :| 0 < i < |a| && a[i] == HeightStamped(Failed, h) && a[i - 1].value.Submitted?;
    assert b[i] == a[i] && b[i - 1] == a[i - 1];
  }

  /** The latest failure changes only to a bundle that fails after a regular submission. */
  lemma NewRecordIsRegular(p: PegState, height: nat, m: M6id)
    requires PegInv(p, height) && ConnectFailed(p, height, m).Ok?
    ensures var q := ConnectFailed(p, height, m).value;
            q.latestFailed != p.latestFailed ==>
              q.latestFailed.Some? && q.latestFailed.value.Latest() == HeightStamped(m, height) && m in q.bundles && FailedAt(q.bundles[m], height)
  {
    assert EntryOk(p, height, m);
    var q, h := ConnectFailed(p, height, m).value, p.bundles[m].status;
    PushAppends(h, Failed, height);
    if p.latestFailed.Some? {
      PopUndoesPush(p.latestFailed.value, m, height);
    }
    if q.latestFailed != p.latestFailed {
      var n := |h.Entries()|;
      assert q.bundles[m].status.Entries()[n] == HeightStamped(Failed, height);
      assert q.bundles[m].status.Entries()[n - 1] == h.Latest();
    }
  }

  lemma OnlyFailuresRecord(p: PegState, height: nat, e: BlockEvent)
    requires ConnectEvent(p, height, e).Ok?
    ensures ConnectEvent(p, height, e).value.latestFailed != p.latestFailed ==> e.BundleEvent? && e.status.EventFailed?
  {
  }

  lemma EventKeepsRegular(p: PegState, height: nat, e: BlockEvent)
    requires PegInv(p, height) && RecordIsRegular(p) && ConnectEvent(p, height, e).Ok?
    ensures RecordIsRegular(ConnectEvent(p, height, e).value)
  {
    hide PegInv, ConnectSubmitted, ConnectConfirmed, ConnectFailed, FailedAt;
    var q := ConnectEvent(p, height, e).value;
    OnlyFailuresRecord(p, height, e);
    if q.latestFailed != p.latestFailed {
      NewRecordIsRegular(p, height, e.m6id);
    } else if q.latestFailed.Some? && e.BundleEvent? {
      var last := q.latestFailed.value.Latest();
      StatusAfter(p, height, e.m6id, e.status);
      if e.m6id == last.value && q != p {
        FailedIsKnown(p.bundles[last.value], last.height);
        KnownStays(p, height, e);
        FailedStays(p.bundles[last.value], q.bundles[last.value], last.height);
      }
    }
  }

  /** What holds of the peg's holdings in every reachable state. */
  ghost predicate PegBooks(p: PegState) {
    NothingElseHeld(p) && BundlesPay(p) && FailuresRecorded(p) && RecordIsRegular(p)
  }

  lemma EventKeepsBooks(p: PegState, height: nat, e: BlockEvent)
    requires PegInv(p, height) && GenuineEvent(p, e) && PegBooks(p) && ConnectEvent(p, height, e).Ok?
    ensures PegBooks(ConnectEvent(p, height, e).value)
  {
    hide PegInv, ConnectEvent, NothingElseHeld, BundlesPay, FailuresRecorded, RecordIsRegular;
    EventHolds(p, height, e);
    EventKeepsRegular(p, height, e);
    EventPays(p, height, e);
    EventRecords(p, height, e);
  }

  lemma {:induction false} EventsKeepBooks(p: PegState, height: nat, events: seq<BlockEvent>, n: nat)
    requires PegInv(p, height) && GenuineEvents(p, events) && PegBooks(p) && n <= |events|
    requires ConnectEvents(p, height, events[..n]).Ok?
    ensures PegBooks(ConnectEvents(p, height, events[..n]).value)
  {
    hide PegInv, ConnectEvent, PegBooks;
    if n > 0 {
      assert events[..n][..n - 1] == events[..n - 1] && events[..n][n - 1] == events[n - 1];
      EventsKeepBooks(p, height, events, n - 1);
      ConnectEventsKeepInv(p, height, events, n - 1);
      assert GenuineEvent(ConnectEvents(p, height, events[..n - 1]).value, events[n - 1]);
      EventKeepsBooks(ConnectEvents(p, height, events[..n - 1]).value, height, events[n - 1]);
    }
  }

  // --------------------------------------------------------------------- minting

  /**
   A bundle is minted exactly when none is pending, four blocks have passed since the failure on record, and
   there is an unspent withdrawal; unless an amount overflows.
   */
  lemma MintedExactly(p: PegState, height: nat)
    requires PegInv(p, height) && BundleToMint(p, height).Ok?
    ensures BundleToMint(p, height).value.Some? <==>
              && p.pending.None? && LatestFailureHeight(p).Ok? && height >= LatestFailureHeight(p).value + 4
              && exists o :: o in p.utxos && p.utxos[o].content.Withdrawal?
  {
    hide PegInv, LatestFailureHeight, Collect;
    LatestFailureFound(p, height);
    BundlePaysAsRequested(p.utxos, height);
  }

  /** A minted bundle becomes the pending one, known and pending since this height; nothing else changes. */
  lemma MintMeans(p: PegState, height: nat)
    requires MintIfDue(p, height).Ok? && BundleToMint(p, height).Ok?
    requires BundleToMint(p, height).value.Some? ==> M6id(BundleToMint(p, height).value.value.tx) !in p.bundles
    ensures var q := MintIfDue(p, height).value;
            match BundleToMint(p, height).value
            case None => q == p
            case Some(bundle) =>
              && p.pending == None && Collection.Collect(p.utxos, height) == Ok(Some(bundle))
              && q == p.(pending := Some(M6id(bundle.tx)), bundles := q.bundles)
              && q.bundles.Keys == p.bundles.Keys + {M6id(bundle.tx)} && (forall m | m in p.bundles :: q.bundles[m] == p.bundles[m])
              && q.bundles[M6id(bundle.tx)].info == Known(bundle)
              && q.bundles[M6id(bundle.tx)].status.Entries() == [HeightStamped(Pending, height)]
  {
  }

  /** Within four blocks after a regular failure of any bundle, none is minted. */
  lemma NoMintAfterFailure(p: PegState, height: nat, m: M6id, h: nat)
    requires PegInv(p, height) && FailuresRecorded(p) && m in p.bundles && FailedAt(p.bundles[m], h) && height < h + 4
    ensures BundleToMint(p, height) == Ok(None)
  {
    hide PegInv, LatestFailureHeight, FailedAt, Collect;
    LatestFailureFound(p, height);
    assert NoLater(p, h);
  }

  lemma MintKeepsBooks(p: PegState, height: nat)
    requires PegInv(p, height) && PegBooks(p) && MintIfDue(p, height).Ok?
    requires BundleToMint(p, height).Ok? && BundleToMint(p, height).value.Some? ==>
               BundleToMint(p, height).value.value.ComputeM6id() !in p.bundles
    ensures PegBooks(MintIfDue(p, height).value)
  {
    if BundleToMint(p, height).value.Some? {
      var bundle := BundleToMint(p, height).value.value;
      BundlePaysAsRequested(p.utxos, height);
      CollectIsExact(p.utxos, height);
      NewBundlePays(p, height, bundle);
    }
  }

  lemma NewBundlePays(p: PegState, height: nat, bundle: WithdrawalBundle)
    requires PegInv(p, height) && PegBooks(p) && bundle.ComputeM6id() !in p.bundles && PaysOwn(M6id(bundle.tx), bundle)
    ensures var entry := BundleEntry(Known(bundle), RollBack.New(Pending, height));
            PegBooks(p.(pending := Some(M6id(bundle.tx)), bundles := p.bundles[M6id(bundle.tx) := entry]))
  {
    hide PegInv, PaysOwn;
    var m, entry := M6id(bundle.tx), BundleEntry(Known(bundle), RollBack.New(Pending, height));
    var q := p.(pending := Some(m), bundles := p.bundles[m := entry]);
    assert !FailedAt(entry, 0) && forall h: nat :: !FailedAt(entry, h);
    LatestFailureFound(p, height);
    forall o {:trigger q.stxos[o]} | o in q.stxos && q.stxos[o].inpoint.WithdrawalIn?
      ensures Held(q, o, q.stxos[o].inpoint.m6id)
    {
      assert Held(p, o, p.stxos[o].inpoint.m6id);
    }
    forall x, h: nat {:trigger FailedAt(q.bundles[x], h)} | x in q.bundles && FailedAt(q.bundles[x], h)
      ensures NoLater(q, h)
    {
      assert FailedAt(p.bundles[x], h) && NoLater(p, h);
    }
  }
}
