/** Disconnecting events undoes connecting them. */
module PegRoundTrip {
  import opened Types
  import opened RollBack
  import opened Peg
  import opened PegInvariant

  /** The event is neither a repeat of a final status nor a deposit on top of an unspent output. */
  predicate Undoable(p: PegState, e: BlockEvent) {
    match e
    case DepositEvent(txid, vout, _) => Deposit(txid, vout) !in p.utxos
    case BundleEvent(m, EventSubmitted) => true
    case BundleEvent(m, EventConfirmed) => m in p.bundles ==> !p.bundles[m].status.Latest().value.Confirmed?
    case BundleEvent(m, EventFailed) => m in p.bundles ==> !p.bundles[m].status.Latest().value.Failed?
  }

  lemma WithdrawThenReinstate(p: PegState, spend: map<OutPoint, Output>, m: M6id)
    requires OutputsOk(p) && Authentic(spend) && spend.Keys <= p.utxos.Keys
    ensures Reinstate(Withdraw(p, spend, m), spend) == p
  {
    forall o | o in spend
      ensures p.utxos[o] == spend[o]
    {
      assert CommittedOutput(o) == Some(p.utxos[o]);
    }
    assert p.utxos - spend.Keys + spend == p.utxos;
    assert p.stxos + SpentBy(spend, m) - spend.Keys == p.stxos;
  }

  lemma ReinstateThenWithdraw(p: PegState, spend: map<OutPoint, Output>, m: M6id)
    requires OutputsOk(p) && WithdrawnBy(p.stxos, spend, m)
    ensures Withdraw(Reinstate(p, spend), spend, m) == p
  {
    assert p.utxos + spend - spend.Keys == p.utxos;
    assert p.stxos - spend.Keys + SpentBy(spend, m) == p.stxos;
  }

  /** The submission of the pending bundle, which withdraws its outputs. */
  lemma PendingSubmissionRoundTrip(p: PegState, height: nat, m: M6id)
    requires PegInv(p, height) && ConnectSubmitted(p, height, m).Ok? && p.pending == Some(m)
    ensures DisconnectSubmitted(ConnectSubmitted(p, height, m).value, height, m) == Ok(p)
  {
    assert EntryOk(p, height, m);
    var BundleEntry(info, status) := p.bundles[m];
    PopUndoesPush(status, Submitted, height);
    var spend := info.bundle.spendUtxos;
    WithdrawThenReinstate(p, spend, m);
    var q := ConnectSubmitted(p, height, m).value;
    assert q == SetBundle(Withdraw(p, spend, m).(pending := None), m, info, status.Push(Submitted, height).value);
    assert spend.Keys <= q.stxos.Keys;
    assert q.bundles[m := BundleEntry(info, status)] == p.bundles;
  }

  lemma SubmittedRoundTrip(p: PegState, height: nat, m: M6id)
    requires PegInv(p, height) && ConnectSubmitted(p, height, m).Ok?
    ensures DisconnectSubmitted(ConnectSubmitted(p, height, m).value, height, m) == Ok(p)
  {
    var q := ConnectSubmitted(p, height, m).value;
    if p.pending == Some(m) {
      PendingSubmissionRoundTrip(p, height, m);
    } else if m in p.bundles {
      ResubmissionRoundTrip(p, height, m);
    } else {
      assert q.bundles - {m} == p.bundles;
    }
  }

  /** The submission of a recorded bundle that is not pending. */
  lemma ResubmissionRoundTrip(p: PegState, height: nat, m: M6id)
    requires PegInv(p, height) && ConnectSubmitted(p, height, m).Ok? && p.pending != Some(m) && m in p.bundles
    ensures DisconnectSubmitted(ConnectSubmitted(p, height, m).value, height, m) == Ok(p)
  {
    assert EntryOk(p, height, m);
    PopUndoesPush(p.bundles[m].status, SubmittedUnexpected, height);
    assert ConnectSubmitted(p, height, m).value.bundles[m := p.bundles[m]] == p.bundles;
  }

  /** A confirmation that withdraws outputs: of an unexpected bundle, or of an unknown one at height 0. */
  lemma WithdrawingConfirmationRoundTrip(p: PegState, height: nat, m: M6id)
    requires PegInv(p, height) && ConnectConfirmed(p, height, m).Ok? && !p.bundles[m].status.Latest().value.Confirmed?
    requires p.bundles[m].info.Unknown? || p.bundles[m].status.Latest().value.SubmittedUnexpected?
    ensures DisconnectConfirmed(ConnectConfirmed(p, height, m).value, height, m) == Ok(p)
  {
    assert EntryOk(p, height, m);
    var BundleEntry(info, status) := p.bundles[m];
    PopUndoesPush(status, Confirmed, height);
    var spend := if info.Unknown? then p.utxos else info.bundle.spendUtxos;
    WithdrawThenReinstate(p, spend, m);
    var q := ConnectConfirmed(p, height, m).value;
    var info' := if info.Unknown? then UnknownConfirmed(p.utxos) else info;
    assert q == SetBundle(Withdraw(p, spend, m), m, info', status.Push(Confirmed, height).value);
    assert spend.Keys <= q.stxos.Keys;
    assert q.bundles[m := BundleEntry(info, status)] == p.bundles;
  }

  lemma ConfirmedRoundTrip(p: PegState, height: nat, m: M6id)
    requires PegInv(p, height) && ConnectConfirmed(p, height, m).Ok?
    ensures DisconnectConfirmed(ConnectConfirmed(p, height, m).value, height, m) == Ok(p)
       <==> !p.bundles[m].status.Latest().value.Confirmed?
  {
    var BundleEntry(info, status) := p.bundles[m];
    if status.Latest().value.Confirmed? {
      RepeatedConfirmationIsNotUndone(p, height, m);
    } else if info.Unknown? || status.Latest().value.SubmittedUnexpected? {
      WithdrawingConfirmationRoundTrip(p, height, m);
    } else {
      PlainConfirmationRoundTrip(p, height, m);
    }
  }

  lemma RepeatedConfirmationIsNotUndone(p: PegState, height: nat, m: M6id)
    requires m in p.bundles && p.bundles[m].status.Latest().value.Confirmed? && ConnectConfirmed(p, height, m).Ok?
    ensures DisconnectConfirmed(ConnectConfirmed(p, height, m).value, height, m) != Ok(p)
  {
    assert p.bundles[m].status.Pop().0 != Some(p.bundles[m].status);
  }

  /** The confirmation of a bundle whose outputs were withdrawn before. */
  lemma PlainConfirmationRoundTrip(p: PegState, height: nat, m: M6id)
    requires PegInv(p, height) && ConnectConfirmed(p, height, m).Ok?
    requires var BundleEntry(info, status) := p.bundles[m];
             !info.Unknown? && !status.Latest().value.Confirmed? && !status.Latest().value.SubmittedUnexpected?
    ensures DisconnectConfirmed(ConnectConfirmed(p, height, m).value, height, m) == Ok(p)
  {
    assert EntryOk(p, height, m);
    var BundleEntry(info, status) := p.bundles[m];
    PopUndoesPush(status, Confirmed, height);
    assert ConnectConfirmed(p, height, m).value.bundles[m := BundleEntry(info, status)] == p.bundles;
  }

  /** The failure of a submitted known bundle, which moves outputs and records the latest failure. */
  lemma ReinstatingFailureRoundTrip(p: PegState, height: nat, m: M6id)
    requires PegInv(p, height) && ConnectFailed(p, height, m).Ok?
    requires p.bundles[m].info.Known? && p.bundles[m].status.Latest().value.Submitted?
    ensures DisconnectFailed(ConnectFailed(p, height, m).value, height, m) == Ok(p)
  {
    assert EntryOk(p, height, m);
    var BundleEntry(info, status) := p.bundles[m];
    PopUndoesPush(status, Failed, height);
    var spend := info.bundle.spendUtxos;
    var failed := if p.latestFailed.Some? then p.latestFailed.value.Push(m, height) else Some(RollBack.New(m, height));
    var moved := Reinstate(p, spend).(latestFailed := failed);
    ReinstateThenWithdraw(p, spend, m);
    if p.latestFailed.Some? {
      PopUndoesPush(p.latestFailed.value, m, height);
    }
    assert failed.value.Pop() == (p.latestFailed, HeightStamped(m, height));
    var q := ConnectFailed(p, height, m).value;
    assert q == SetBundle(moved, m, info, status.Push(Failed, height).value);
    assert spend.Keys <= q.utxos.Keys;
    assert q.bundles[m := BundleEntry(info, status)] == p.bundles;
  }

  lemma FailedRoundTrip(p: PegState, height: nat, m: M6id)
    requires PegInv(p, height) && ConnectFailed(p, height, m).Ok?
    ensures DisconnectFailed(ConnectFailed(p, height, m).value, height, m) == Ok(p)
       <==> !p.bundles[m].status.Latest().value.Failed?
  {
    hide PegInv;
    var BundleEntry(info, status) := p.bundles[m];
    if status.Latest().value.Failed? {
      RepeatedFailureIsNotUndone(p, height, m);
    } else if info.Known? && status.Latest().value.Submitted? {
      ReinstatingFailureRoundTrip(p, height, m);
    } else {
      PlainFailureRoundTrip(p, height, m);
    }
  }

  lemma RepeatedFailureIsNotUndone(p: PegState, height: nat, m: M6id)
    requires m in p.bundles && p.bundles[m].status.Latest().value.Failed? && ConnectFailed(p, height, m).Ok?
    ensures DisconnectFailed(ConnectFailed(p, height, m).value, height, m) != Ok(p)
  {
    assert p.bundles[m].status.Pop().0 != Some(p.bundles[m].status);
  }

  /** The failure of a bundle that gives nothing back. */
  lemma PlainFailureRoundTrip(p: PegState, height: nat, m: M6id)
    requires PegInv(p, height) && ConnectFailed(p, height, m).Ok?
    requires var BundleEntry(info, status) := p.bundles[m];
             !status.Latest().value.Failed? && !(info.Known? && status.Latest().value.Submitted?)
    ensures DisconnectFailed(ConnectFailed(p, height, m).value, height, m) == Ok(p)
  {
    hide Authentic, LegalHistory, HasFailed, OutputsOk;
    assert EntryOk(p, height, m);
    var BundleEntry(info, status) := p.bundles[m];
    PopUndoesPush(status, Failed, height);
    assert ConnectFailed(p, height, m).value.bundles[m := BundleEntry(info, status)] == p.bundles;
  }

  /** Disconnecting an event right after connecting it restores the state exactly when it is undoable. */
  lemma EventRoundTrip(p: PegState, height: nat, e: BlockEvent)
    requires PegInv(p, height) && ConnectEvent(p, height, e).Ok?
    ensures DisconnectEvent(ConnectEvent(p, height, e).value, height, e) == Ok(p) <==> Undoable(p, e)
  {
    match e
    case DepositEvent(txid, vout, output) =>
      var o := Deposit(txid, vout);
      if o !in p.utxos {
        assert p.utxos[o := output] - {o} == p.utxos;
      } else {
        assert o !in p.utxos[o := output] - {o};
      }
    case BundleEvent(m, EventSubmitted) => SubmittedRoundTrip(p, height, m);
    case BundleEvent(m, EventConfirmed) => ConfirmedRoundTrip(p, height, m);
    case BundleEvent(m, EventFailed) => FailedRoundTrip(p, height, m);
  }

  /** Every event is undoable in the state in which it is connected. */
  predicate AllUndoable(p: PegState, height: nat, events: seq<BlockEvent>) {
    events == [] ||
    (&& AllUndoable(p, height, events[..|events| - 1])
     && var q := ConnectEvents(p, height, events[..|events| - 1]);
        q.Ok? ==> Undoable(q.value, events[|events| - 1]))
  }

  /** A list of accepted events, disconnected last to first, leaves the state it started from. */
  lemma {:induction false} EventsRoundTrip(p: PegState, height: nat, events: seq<BlockEvent>, n: nat)
    requires PegInv(p, height) && GenuineEvents(p, events) && n <= |events|
    requires ConnectEvents(p, height, events[..n]).Ok? && AllUndoable(p, height, events[..n])
    ensures DisconnectEvents(ConnectEvents(p, height, events[..n]).value, height, events[..n]) == Ok(p)
    decreases n
  {
    if n > 0 {
      assert events[..n][..n - 1] == events[..n - 1] && events[..n][n - 1] == events[n - 1];
      ConnectEventsKeepInv(p, height, events, n - 1);
      EventRoundTrip(ConnectEvents(p, height, events[..n - 1]).value, height, events[n - 1]);
      EventsRoundTrip(p, height, events, n - 1);
    }
  }
}
