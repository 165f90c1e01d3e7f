/**
 Lists of peg events in which bundles may be confirmed more than once. A repeated confirmation
 changes nothing when it is connected, but when it is disconnected it takes back the confirmation
 itself; the first confirmation then finds nothing to take back. Exactly when does this restore the
 state?
 */
module PegRepeats {
  import opened Types
  import opened RollBack
  import opened Peg
  import opened PegInvariant
  import opened PegRoundTrip
  import opened PegBlock

  predicate IsConfirmed(p: PegState, m: M6id) {
    m in p.bundles && p.bundles[m].status.Latest().value.Confirmed?
  }

  /** Every event is undoable where it is connected, or repeats a confirmation. */
  predicate UndoableOrReconfirmed(p: PegState, height: nat, events: seq<BlockEvent>) {
    events == [] ||
    (&& UndoableOrReconfirmed(p, height, events[..|events| - 1])
     && var q := ConnectEvents(p, height, events[..|events| - 1]);
        q.Ok? ==>
          var e := events[|events| - 1];
          Undoable(q.value, e) || (e.BundleEvent? && e.status.EventConfirmed?))
  }

  /** No event confirms a bundle that was confirmed before all of them. */
  ghost predicate NoneConfirmedBefore(p: PegState, events: seq<BlockEvent>) {
    forall i {:trigger events[i]} | 0 <= i < |events| ::
      events[i].BundleEvent? && events[i].status.EventConfirmed? ==> !IsConfirmed(p, events[i].m6id)
  }

  // ------------------------------------------------------ taking confirmations back

  /** The bundle was confirmed at this height. */
  predicate ConfirmedAt(entry: BundleEntry, height: nat) {
    var (rest, latest) := entry.status.Pop();
    && latest == HeightStamped(BundleStatus.Confirmed, height) && rest.Some? && IsSubmitted(rest.value.Latest().value)
    && !entry.info.Unknown?
  }

  /** The entry before the confirmation, and the outputs that the confirmation withdrew. */
  function Unconfirmed(entry: BundleEntry): BundleEntry
    requires entry.status.Pop().0.Some?
  {
    BundleEntry(if entry.info.UnknownConfirmed? then Unknown else entry.info, entry.status.Pop().0.value)
  }

  function TakenBy(entry: BundleEntry): map<OutPoint, Output>
    requires entry.status.Pop().0.Some?
  {
    if entry.info.Known? && entry.status.Pop().0.value.Latest().value.Submitted? then map[] else SpendOf(entry.info)
  }

  /** The state with outputs reinstated and entries replaced. */
  function Patch(p: PegState, spend: map<OutPoint, Output>, entries: map<M6id, BundleEntry>): PegState {
    p.(utxos := p.utxos + spend, stxos := p.stxos - spend.Keys, bundles := p.bundles + entries)
  }

  /** The output was withdrawn by the confirmation of one of the bundles. */
  ghost predicate TakenBack(p: PegState, entries: map<M6id, BundleEntry>, height: nat, o: OutPoint, output: Output) {
    && o in p.stxos && p.stxos[o].inpoint.WithdrawalIn?
    && var m := p.stxos[o].inpoint.m6id;
       && m in entries && m in p.bundles && ConfirmedAt(p.bundles[m], height)
       && o in TakenBy(p.bundles[m]) && TakenBy(p.bundles[m])[o] == output
  }

  ghost predicate EntryBack(p: PegState, spend: map<OutPoint, Output>, height: nat, m: M6id, entry: BundleEntry) {
    && m in p.bundles && ConfirmedAt(p.bundles[m], height) && entry == Unconfirmed(p.bundles[m])
    && WithdrawnBy(p.stxos, TakenBy(p.bundles[m]), m) && forall o | o in TakenBy(p.bundles[m]) :: o in spend
  }

  /** The patch takes back exactly the confirmations, at this height, of the bundles that it names. */
  ghost predicate TakesBack(p: PegState, height: nat, spend: map<OutPoint, Output>, entries: map<M6id, BundleEntry>) {
    && (forall m {:trigger m in entries} | m in entries :: EntryBack(p, spend, height, m, entries[m]))
    && (forall o {:trigger o in spend} | o in spend :: TakenBack(p, entries, height, o, spend[o]))
  }

  // ------------------------------------------------------------- one event and a patch

  /** Undoing an event that concerns no patched bundle commutes with the patch. */
  lemma DisconnectCommutesPatch(
    p: PegState, q: PegState, height: nat, e: BlockEvent, spend: map<OutPoint, Output>, entries: map<M6id, BundleEntry>)
    requires DisconnectEvent(q, height, e) == Ok(p) && q.utxos.Keys !! q.stxos.Keys
    requires spend.Keys <= q.stxos.Keys && spend.Keys <= p.stxos.Keys && entries.Keys <= p.bundles.Keys
    requires e.BundleEvent? ==> e.m6id !in entries && e.m6id in q.bundles
    ensures DisconnectEvent(Patch(q, spend, entries), height, e) == Ok(Patch(p, spend, entries))
  {
    if e.BundleEvent? {
      BundleCommutesPatch(p, q, height, e.m6id, e.status, spend, entries);
    } else {
      var o := Deposit(e.txid, e.vout);
      assert o !in spend;
      assert q.utxos - {o} + spend == q.utxos + spend - {o};
    }
  }

  lemma ReinstateCommutes(
    q: PegState, own: map<OutPoint, Output>, spend: map<OutPoint, Output>, entries: map<M6id, BundleEntry>)
    requires own.Keys <= q.stxos.Keys && own.Keys !! spend.Keys
    ensures own.Keys <= Patch(q, spend, entries).stxos.Keys
    ensures Reinstate(Patch(q, spend, entries), own) == Patch(Reinstate(q, own), spend, entries)
  {
    assert q.utxos + spend + own == q.utxos + own + spend;
    assert q.stxos - spend.Keys - own.Keys == q.stxos - own.Keys - spend.Keys;
  }

  lemma WithdrawCommutes(
    q: PegState, own: map<OutPoint, Output>, m: M6id, spend: map<OutPoint, Output>, entries: map<M6id, BundleEntry>)
    requires own.Keys <= q.utxos.Keys && own.Keys !! spend.Keys
    ensures own.Keys <= Patch(q, spend, entries).utxos.Keys
    ensures Withdraw(Patch(q, spend, entries), own, m) == Patch(Withdraw(q, own, m), spend, entries)
  {
    assert q.utxos + spend - own.Keys == q.utxos - own.Keys + spend;
    assert q.stxos - spend.Keys + SpentBy(own, m) == q.stxos + SpentBy(own, m) - spend.Keys;
  }

  lemma SetCommutes(
    q: PegState, m: M6id, info: BundleInfo, status: BundleHistory, spend: map<OutPoint, Output>,
    entries: map<M6id, BundleEntry>)
    requires m !in entries
    ensures SetBundle(Patch(q, spend, entries), m, info, status) == Patch(SetBundle(q, m, info, status), spend, entries)
    ensures Patch(q, spend, entries).(bundles := q.bundles + entries - {m}) == Patch(q.(bundles := q.bundles - {m}), spend, entries)
  {
    assert (q.bundles + entries)[m := BundleEntry(info, status)] == q.bundles[m := BundleEntry(info, status)] + entries;
    assert q.bundles + entries - {m} == q.bundles - {m} + entries;
  }

  lemma SubmittedCommutes(
    p: PegState, q: PegState, height: nat, m: M6id, spend: map<OutPoint, Output>, entries: map<M6id, BundleEntry>)
    requires DisconnectSubmitted(q, height, m) == Ok(p) && q.utxos.Keys !! q.stxos.Keys
    requires spend.Keys <= q.stxos.Keys && spend.Keys <= p.stxos.Keys && m !in entries && m in q.bundles
    ensures DisconnectSubmitted(Patch(q, spend, entries), height, m) == Ok(Patch(p, spend, entries))
  {
    var BundleEntry(info, history) := q.bundles[m];
    var own, rest := SpendOf(info), history.Pop().0;
    assert Patch(q, spend, entries).bundles[m] == q.bundles[m];
    if info.Known? && rest.Some? && rest.value.Latest().value.Pending? {
      ReinstateCommutes(q, own, spend, entries);
      SetCommutes(Reinstate(q, own).(pending := Some(m)), m, info, rest.value, spend, entries);
    } else {
      SetCommutes(q, m, info, if rest.Some? then rest.value else history, spend, entries);
    }
  }

  lemma ConfirmedCommutes(
    p: PegState, q: PegState, height: nat, m: M6id, spend: map<OutPoint, Output>, entries: map<M6id, BundleEntry>)
    requires DisconnectConfirmed(q, height, m) == Ok(p) && q.utxos.Keys !! q.stxos.Keys
    requires spend.Keys <= q.stxos.Keys && spend.Keys <= p.stxos.Keys && m !in entries && m in q.bundles
    ensures DisconnectConfirmed(Patch(q, spend, entries), height, m) == Ok(Patch(p, spend, entries))
  {
    var BundleEntry(info, history) := q.bundles[m];
    var own, rest := SpendOf(info), history.Pop().0;
    assert Patch(q, spend, entries).bundles[m] == q.bundles[m];
    if rest.Some? && !IsSubmitted(history.Latest().value) {
      if info.UnknownConfirmed? {
        ReinstateCommutes(q, own, spend, entries);
        SetCommutes(Reinstate(q, own), m, Unknown, rest.value, spend, entries);
      } else if info.Known? && !rest.value.Latest().value.Submitted? {
        ReinstateCommutes(q, own, spend, entries);
        SetCommutes(Reinstate(q, own), m, info, rest.value, spend, entries);
      } else {
        SetCommutes(q, m, info, rest.value, spend, entries);
      }
    }
  }

  lemma FailedCommutes(
    p: PegState, q: PegState, height: nat, m: M6id, spend: map<OutPoint, Output>, entries: map<M6id, BundleEntry>)
    requires DisconnectFailed(q, height, m) == Ok(p) && q.utxos.Keys !! q.stxos.Keys
    requires spend.Keys <= q.stxos.Keys && spend.Keys <= p.stxos.Keys && m !in entries && m in q.bundles
    ensures DisconnectFailed(Patch(q, spend, entries), height, m) == Ok(Patch(p, spend, entries))
  {
    var BundleEntry(info, history) := q.bundles[m];
    var own, rest := SpendOf(info), history.Pop().0;
    assert Patch(q, spend, entries).bundles[m] == q.bundles[m];
    if rest.Some? && !history.Latest().value.Submitted? {
      if info.Known? && rest.value.Latest().value.Submitted? {
        WithdrawCommutes(q, own, m, spend, entries);
        SetCommutes(Withdraw(q, own, m).(latestFailed := q.latestFailed.value.Pop().0), m, info, rest.value, spend, entries);
      } else {
        SetCommutes(q, m, info, rest.value, spend, entries);
      }
    }
  }

  lemma BundleCommutesPatch(
    p: PegState, q: PegState, height: nat, m: M6id, status: EventStatus, spend: map<OutPoint, Output>,
    entries: map<M6id, BundleEntry>)
    requires DisconnectEvent(q, height, BundleEvent(m, status)) == Ok(p) && q.utxos.Keys !! q.stxos.Keys
    requires spend.Keys <= q.stxos.Keys && spend.Keys <= p.stxos.Keys && m !in entries && m in q.bundles
    ensures DisconnectEvent(Patch(q, spend, entries), height, BundleEvent(m, status)) == Ok(Patch(p, spend, entries))
  {
    hide Patch, DisconnectSubmitted, DisconnectConfirmed, DisconnectFailed;
    match status
    case EventSubmitted => SubmittedCommutes(p, q, height, m, spend, entries);
    case EventConfirmed => ConfirmedCommutes(p, q, height, m, spend, entries);
    case EventFailed => FailedCommutes(p, q, height, m, spend, entries);
  }

  // ------------------------------------------------ confirmations since the list began

  /** A confirmed bundle was confirmed before and is unchanged, or was confirmed at this height and holds what it took. */
  ghost predicate ConfirmedSince(p: PegState, q: PegState, height: nat, m: M6id) {
    IsConfirmed(q, m) ==>
      || (IsConfirmed(p, m) && q.bundles[m] == p.bundles[m])
      || (!IsConfirmed(p, m) && ConfirmedAt(q.bundles[m], height) && WithdrawnBy(q.stxos, TakenBy(q.bundles[m]), m))
  }

  /** The bundle and what it has withdrawn are as they were. */
  ghost predicate Untouched(x: PegState, q: PegState, m: M6id) {
    && (m in q.bundles <==> m in x.bundles) && (m in x.bundles ==> q.bundles[m] == x.bundles[m])
    && KeepsWithdrawn(x, q, m)
  }

  lemma SubmissionLeaves(x: PegState, height: nat, own: M6id, m: M6id)
    requires PegInv(x, height) && ConnectSubmitted(x, height, own).Ok? && m != own
    ensures Untouched(x, ConnectSubmitted(x, height, own).value, m)
  {
    if x.pending == Some(own) {
      assert EntryOk(x, height, own);
      var spend := x.bundles[own].info.bundle.spendUtxos;
      WithdrawKeeps(x, spend, own);
      assert KeepsWithdrawn(x, Withdraw(x, spend, own), m);
    }
  }

  lemma ConfirmationLeaves(x: PegState, height: nat, own: M6id, m: M6id)
    requires PegInv(x, height) && ConnectConfirmed(x, height, own).Ok? && m != own
    ensures Untouched(x, ConnectConfirmed(x, height, own).value, m)
  {
    assert EntryOk(x, height, own);
    var spend := if x.bundles[own].info.Known? then SpendOf(x.bundles[own].info) else x.utxos;
    if spend.Keys <= x.utxos.Keys {
      WithdrawKeeps(x, spend, own);
      assert KeepsWithdrawn(x, Withdraw(x, spend, own), m);
    }
  }

  lemma FailureLeaves(x: PegState, height: nat, own: M6id, m: M6id)
    requires PegInv(x, height) && ConnectFailed(x, height, own).Ok? && m != own
    ensures Untouched(x, ConnectFailed(x, height, own).value, m)
  {
    assert EntryOk(x, height, own);
    var spend := SpendOf(x.bundles[own].info);
    if x.bundles[own].info.Known? && x.bundles[own].status.Latest().value.Submitted? {
      ReinstateKeeps(x, spend, own);
      assert KeepsWithdrawn(x, Reinstate(x, spend), m);
    }
  }

  /** An event leaves all other bundles alone, and what they have withdrawn. */
  lemma OthersUntouched(x: PegState, height: nat, e: BlockEvent, m: M6id)
    requires PegInv(x, height) && ConnectEvent(x, height, e).Ok? && (e.BundleEvent? ==> e.m6id != m)
    ensures Untouched(x, ConnectEvent(x, height, e).value, m)
  {
    hide ConnectSubmitted, ConnectConfirmed, ConnectFailed, PegInv;
    match e
    case DepositEvent(_, _, _) =>
    case BundleEvent(own, EventSubmitted) => SubmissionLeaves(x, height, own, m);
    case BundleEvent(own, EventConfirmed) => ConfirmationLeaves(x, height, own, m);
    case BundleEvent(own, EventFailed) => FailureLeaves(x, height, own, m);
  }

  /** Outputs are recorded as withdrawn only by the bundle of the event. */
  lemma OnlyOwnWithdrawals(x: PegState, height: nat, e: BlockEvent, o: OutPoint)
    requires ConnectEvent(x, height, e).Ok? && o in ConnectEvent(x, height, e).value.stxos
    ensures var s := ConnectEvent(x, height, e).value.stxos[o];
            (o in x.stxos && x.stxos[o] == s) || (e.BundleEvent? && s.inpoint == WithdrawalIn(e.m6id))
  {
  }

  /** What another bundle has withdrawn after an event it had withdrawn before. */
  lemma OthersWithdrawals(x: PegState, height: nat, e: BlockEvent, m: M6id, taken: map<OutPoint, Output>)
    requires ConnectEvent(x, height, e).Ok? && (e.BundleEvent? ==> e.m6id != m)
    requires WithdrawnBy(ConnectEvent(x, height, e).value.stxos, taken, m)
    ensures WithdrawnBy(x.stxos, taken, m)
  {
    forall o | o in taken
      ensures o in x.stxos && x.stxos[o] == SpentOutput(taken[o], WithdrawalIn(m))
    {
      OnlyOwnWithdrawals(x, height, e, o);
    }
  }

  /** A first confirmation can be taken back from the state after it. */
  lemma ConfirmationIsTakenBack(x: PegState, height: nat, m: M6id)
    requires PegInv(x, height) && ConnectConfirmed(x, height, m).Ok? && !IsConfirmed(x, m)
    ensures var q := ConnectConfirmed(x, height, m).value;
            && m in q.bundles && ConfirmedAt(q.bundles[m], height) && WithdrawnBy(q.stxos, TakenBy(q.bundles[m]), m)
            && x == Patch(q, TakenBy(q.bundles[m]), map[m := Unconfirmed(q.bundles[m])])
  {
    FirstConfirmation(x, height, m);
    ConfirmedRoundTrip(x, height, m);
    hide ConnectConfirmed;
    UndoConfirmation(ConnectConfirmed(x, height, m).value, height, m);
  }

  lemma FirstConfirmation(x: PegState, height: nat, m: M6id)
    requires PegInv(x, height) && ConnectConfirmed(x, height, m).Ok? && !IsConfirmed(x, m)
    ensures var q := ConnectConfirmed(x, height, m).value;
            && m in q.bundles && ConfirmedAt(q.bundles[m], height) && WithdrawnBy(q.stxos, TakenBy(q.bundles[m]), m)
  {
    assert EntryOk(x, height, m);
    var BundleEntry(info, status) := x.bundles[m];
    PopUndoesPush(status, Confirmed, height);
    if info.Unknown? {
      WithdrawKeeps(x, x.utxos, m);
    } else if status.Latest().value.SubmittedUnexpected? {
      WithdrawKeeps(x, info.bundle.spendUtxos, m);
    }
  }

  /** Undoing a confirmation is a patch. */
  lemma UndoConfirmation(q: PegState, height: nat, m: M6id)
    requires m in q.bundles && ConfirmedAt(q.bundles[m], height) && TakenBy(q.bundles[m]).Keys <= q.stxos.Keys
    ensures DisconnectConfirmed(q, height, m) ==
            Ok(Patch(q, TakenBy(q.bundles[m]), map[m := Unconfirmed(q.bundles[m])]))
  {
    var taken, entry := TakenBy(q.bundles[m]), Unconfirmed(q.bundles[m]);
    assert q.bundles + map[m := entry] == q.bundles[m := entry];
    if taken == map[] {
      assert q.utxos + taken == q.utxos && q.stxos - taken.Keys == q.stxos;
    }
  }

  /** A bundle is confirmed after an event only if it was before, or the event confirms it. */
  lemma OnlyConfirmationsConfirm(x: PegState, height: nat, e: BlockEvent)
    requires ConnectEvent(x, height, e).Ok? && e.BundleEvent?
    ensures var q := ConnectEvent(x, height, e).value;
            IsConfirmed(q, e.m6id) ==> e.status.EventConfirmed? && (IsConfirmed(x, e.m6id) ==> q == x)
  {
  }

  lemma {:induction false} ConfirmationsSince(p: PegState, height: nat, events: seq<BlockEvent>, n: nat, m: M6id)
    requires PegInv(p, height) && GenuineEvents(p, events) && n <= |events|
    requires ConnectEvents(p, height, events[..n]).Ok?
    ensures ConfirmedSince(p, ConnectEvents(p, height, events[..n]).value, height, m)
    decreases n
  {
    if n > 0 {
      assert events[..n][..n - 1] == events[..n - 1] && events[..n][n - 1] == events[n - 1];
      ConfirmationsSince(p, height, events, n - 1, m);
      ConnectEventsKeepInv(p, height, events, n - 1);
      var x, e := ConnectEvents(p, height, events[..n - 1]).value, events[n - 1];
      if IsConfirmed(p, m) {
        ConfirmedIsFinal(p, height, events[..n - 1], m);
      }
      SinceOneEvent(p, x, height, e, m);
    }
  }

  lemma SinceOneEvent(p: PegState, x: PegState, height: nat, e: BlockEvent, m: M6id)
    requires PegInv(x, height) && GenuineEvent(x, e) && ConnectEvent(x, height, e).Ok?
    requires ConfirmedSince(p, x, height, m) && (IsConfirmed(p, m) ==> IsConfirmed(x, m))
    ensures ConfirmedSince(p, ConnectEvent(x, height, e).value, height, m)
  {
    var q := ConnectEvent(x, height, e).value;
    if e.BundleEvent? && e.m6id == m {
      OnlyConfirmationsConfirm(x, height, e);
      if IsConfirmed(q, m) && !IsConfirmed(x, m) {
        ConfirmationIsTakenBack(x, height, m);
      }
    } else {
      OthersUntouched(x, height, e, m);
      assert KeepsWithdrawn(x, q, m);
    }
  }

  // -------------------------------------------------------------------- whole lists

  ghost predicate NotBefore(p: PegState, entries: map<M6id, BundleEntry>) {
    forall m {:trigger m in entries} | m in entries :: !IsConfirmed(p, m)
  }

  /** An event that concerns none of the patched bundles, and can be undone. */
  lemma UndoBesidePatch(
    x: PegState, height: nat, e: BlockEvent, spend: map<OutPoint, Output>, entries: map<M6id, BundleEntry>)
    requires PegInv(x, height) && GenuineEvent(x, e) && ConnectEvent(x, height, e).Ok? && Undoable(x, e)
    requires TakesBack(ConnectEvent(x, height, e).value, height, spend, entries)
    requires e.BundleEvent? ==> e.m6id !in entries
    ensures TakesBack(x, height, spend, entries)
    ensures DisconnectEvent(Patch(ConnectEvent(x, height, e).value, spend, entries), height, e) == Ok(Patch(x, spend, entries))
  {
    var q := ConnectEvent(x, height, e).value;
    EventRoundTrip(x, height, e);
    ConnectEventKeepsInv(x, height, e);
    forall m {:trigger m in entries} | m in entries
      ensures EntryBack(x, spend, height, m, entries[m]) && Untouched(x, q, m)
    {
      OthersUntouched(x, height, e, m);
      assert EntryBack(q, spend, height, m, entries[m]);
      OthersWithdrawals(x, height, e, m, TakenBy(q.bundles[m]));
    }
    forall o {:trigger o in spend} | o in spend
      ensures TakenBack(x, entries, height, o, spend[o]) && o in q.stxos
    {
      assert TakenBack(q, entries, height, o, spend[o]);
      OnlyOwnWithdrawals(x, height, e, o);
    }
    assert e.BundleEvent? ==> e.m6id in q.bundles;
    DisconnectCommutesPatch(x, q, height, e, spend, entries);
  }

  /** A repeated confirmation of a bundle that is not patched yet: undoing it extends the patch. */
  lemma UndoRepeatBesidePatch(
    p: PegState, x: PegState, height: nat, m: M6id, spend: map<OutPoint, Output>, entries: map<M6id, BundleEntry>)
    requires ConfirmedSince(p, x, height, m) && IsConfirmed(x, m) && !IsConfirmed(p, m)
    requires TakesBack(x, height, spend, entries) && m !in entries && OutputsOk(x)
    ensures var (taken, entry) := (TakenBy(x.bundles[m]), Unconfirmed(x.bundles[m]));
            && DisconnectConfirmed(Patch(x, spend, entries), height, m) == Ok(Patch(x, spend + taken, entries[m := entry]))
            && TakesBack(x, height, spend + taken, entries[m := entry])
  {
    hide TakenBy, Unconfirmed, Patch, TakesBack;
    var taken, entry := TakenBy(x.bundles[m]), Unconfirmed(x.bundles[m]);
    MoreToTakeBack(x, height, m, spend, entries);
    PatchLeaves(x, height, spend, entries, m, taken);
    UndoConfirmation(Patch(x, spend, entries), height, m);
    PatchTwice(x, spend, entries, taken, map[m := entry]);
    assert entries + map[m := entry] == entries[m := entry];
  }

  /** A patch leaves the entries of other bundles and what they have withdrawn. */
  lemma PatchLeaves(
    x: PegState, height: nat, spend: map<OutPoint, Output>, entries: map<M6id, BundleEntry>, m: M6id,
    taken: map<OutPoint, Output>)
    requires TakesBack(x, height, spend, entries) && m !in entries && m in x.bundles && WithdrawnBy(x.stxos, taken, m)
    ensures var y := Patch(x, spend, entries);
            m in y.bundles && y.bundles[m] == x.bundles[m] && taken.Keys <= y.stxos.Keys
  {
    forall o | o in spend
      ensures o !in taken
    {
      assert TakenBack(x, entries, height, o, spend[o]);
    }
  }

  lemma MoreToTakeBack(x: PegState, height: nat, m: M6id, spend: map<OutPoint, Output>, entries: map<M6id, BundleEntry>)
    requires m in x.bundles && ConfirmedAt(x.bundles[m], height) && WithdrawnBy(x.stxos, TakenBy(x.bundles[m]), m)
    requires TakesBack(x, height, spend, entries) && m !in entries
    ensures TakesBack(x, height, spend + TakenBy(x.bundles[m]), entries[m := Unconfirmed(x.bundles[m])])
  {
    hide TakenBy, Unconfirmed;
    var taken, entry := TakenBy(x.bundles[m]), Unconfirmed(x.bundles[m]);
    var more, longer := spend + taken, entries[m := entry];
    forall n {:trigger n in longer} | n in longer
      ensures EntryBack(x, more, height, n, longer[n])
    {
      assert n in entries ==> EntryBack(x, spend, height, n, entries[n]);
    }
    forall o {:trigger o in more} | o in more
      ensures TakenBack(x, longer, height, o, more[o])
    {
      assert o in spend ==> TakenBack(x, entries, height, o, spend[o]);
    }
  }

  lemma PatchTwice(
    x: PegState, spend: map<OutPoint, Output>, entries: map<M6id, BundleEntry>,
    more: map<OutPoint, Output>, others: map<M6id, BundleEntry>)
    ensures Patch(Patch(x, spend, entries), more, others) == Patch(x, spend + more, entries + others)
  {
    assert x.utxos + spend + more == x.utxos + (spend + more);
    assert x.stxos - spend.Keys - more.Keys == x.stxos - (spend + more).Keys;
    assert x.bundles + entries + others == x.bundles + (entries + others);
  }

  /** The first confirmation of a patched bundle: it has been taken back already. */
  lemma UndoFirstInPatch(
    x: PegState, height: nat, m: M6id, spend: map<OutPoint, Output>, entries: map<M6id, BundleEntry>)
    requires PegInv(x, height) && ConnectConfirmed(x, height, m).Ok? && !IsConfirmed(x, m) && m in entries
    requires TakesBack(ConnectConfirmed(x, height, m).value, height, spend, entries)
    ensures var q := ConnectConfirmed(x, height, m).value;
            var less := spend - TakenBy(q.bundles[m]).Keys;
            && TakesBack(x, height, less, entries - {m})
            && DisconnectConfirmed(Patch(q, spend, entries), height, m) == Ok(Patch(x, less, entries - {m}))
  {
    hide ConnectConfirmed, PegInv, Patch, TakenBy, Unconfirmed, ConfirmedAt;
    var q := ConnectConfirmed(x, height, m).value;
    ConfirmationIsTakenBack(x, height, m);
    LessToTakeBack(x, height, m, spend, entries);
    PatchIsSplit(q, height, m, spend, entries);
    UndoPatched(q, height, m, spend, entries);
  }

  /** What the confirmation took is part of the patch. */
  lemma PatchHoldsTaken(q: PegState, height: nat, m: M6id, spend: map<OutPoint, Output>, entries: map<M6id, BundleEntry>)
    requires TakesBack(q, height, spend, entries) && m in entries && m in q.bundles && ConfirmedAt(q.bundles[m], height)
    ensures entries[m] == Unconfirmed(q.bundles[m])
    ensures forall o | o in TakenBy(q.bundles[m]) :: o in spend && spend[o] == TakenBy(q.bundles[m])[o]
  {
    hide Unconfirmed, TakenBy;
    var taken := TakenBy(q.bundles[m]);
    assert EntryBack(q, spend, height, m, entries[m]);
    forall o | o in taken
      ensures o in spend && spend[o] == taken[o]
    {
      assert TakenBack(q, entries, height, o, spend[o]);
    }
  }

  lemma PatchIsSplit(q: PegState, height: nat, m: M6id, spend: map<OutPoint, Output>, entries: map<M6id, BundleEntry>)
    requires TakesBack(q, height, spend, entries) && m in entries && m in q.bundles && ConfirmedAt(q.bundles[m], height)
    ensures var (taken, entry) := (TakenBy(q.bundles[m]), Unconfirmed(q.bundles[m]));
            Patch(Patch(q, taken, map[m := entry]), spend - taken.Keys, entries - {m}) == Patch(q, spend, entries)
  {
    hide Patch, TakesBack, TakenBy, Unconfirmed;
    PatchHoldsTaken(q, height, m, spend, entries);
    var taken, entry := TakenBy(q.bundles[m]), Unconfirmed(q.bundles[m]);
    var less := spend - taken.Keys;
    PatchTwice(q, taken, map[m := entry], less, entries - {m});
    assert taken + less == spend;
    assert map[m := entry] + (entries - {m}) == entries;
  }

  /** Undoing a confirmation that the patch has taken back does nothing. */
  lemma UndoPatched(q: PegState, height: nat, m: M6id, spend: map<OutPoint, Output>, entries: map<M6id, BundleEntry>)
    requires TakesBack(q, height, spend, entries) && m in entries
    ensures DisconnectConfirmed(Patch(q, spend, entries), height, m) == Ok(Patch(q, spend, entries))
  {
    assert EntryBack(q, spend, height, m, entries[m]);
    assert Patch(q, spend, entries).bundles[m] == entries[m];
  }

  /** Bundle `m` is confirmed for the first time, and the patch takes that and other confirmations back. */
  ghost predicate FirstInPatch(
    x: PegState, height: nat, m: M6id, spend: map<OutPoint, Output>, entries: map<M6id, BundleEntry>)
  {
    && PegInv(x, height) && ConnectConfirmed(x, height, m).Ok?
    && var q := ConnectConfirmed(x, height, m).value;
       && TakesBack(q, height, spend, entries) && m in entries
       && m in q.bundles && ConfirmedAt(q.bundles[m], height) && WithdrawnBy(q.stxos, TakenBy(q.bundles[m]), m)
  }

  lemma OtherEntryBack(
    x: PegState, height: nat, m: M6id, spend: map<OutPoint, Output>, entries: map<M6id, BundleEntry>, n: M6id)
    requires FirstInPatch(x, height, m, spend, entries) && n in entries && n != m
    ensures var less := spend - TakenBy(ConnectConfirmed(x, height, m).value.bundles[m]).Keys;
            EntryBack(x, less, height, n, entries[n])
  {
    hide PegInv, ConnectConfirmed, TakenBy;
    var q := ConnectConfirmed(x, height, m).value;
    assert EntryBack(q, spend, height, n, entries[n]);
    ConfirmationLeaves(x, height, m, n);
    OthersWithdrawals(x, height, BundleEvent(m, EventConfirmed), n, TakenBy(q.bundles[n]));
    forall o | o in TakenBy(x.bundles[n])
      ensures o in spend && o !in TakenBy(q.bundles[m])
    {
      assert q.stxos[o].inpoint == WithdrawalIn(n);
    }
  }

  lemma OtherOutputBack(
    x: PegState, height: nat, m: M6id, spend: map<OutPoint, Output>, entries: map<M6id, BundleEntry>, o: OutPoint)
    requires FirstInPatch(x, height, m, spend, entries)
    requires o in spend && o !in TakenBy(ConnectConfirmed(x, height, m).value.bundles[m])
    ensures TakenBack(x, entries - {m}, height, o, spend[o])
  {
    hide PegInv, ConnectConfirmed, TakenBy;
    var q := ConnectConfirmed(x, height, m).value;
    assert TakenBack(q, entries, height, o, spend[o]);
    var n := q.stxos[o].inpoint.m6id;
    OnlyOwnWithdrawals(x, height, BundleEvent(m, EventConfirmed), o);
    ConfirmationLeaves(x, height, m, n);
  }

  lemma LessToTakeBack(
    x: PegState, height: nat, m: M6id, spend: map<OutPoint, Output>, entries: map<M6id, BundleEntry>)
    requires FirstInPatch(x, height, m, spend, entries)
    ensures TakesBack(x, height, spend - TakenBy(ConnectConfirmed(x, height, m).value.bundles[m]).Keys, entries - {m})
  {
    hide PegInv, ConnectConfirmed, EntryBack, TakenBack, TakenBy;
    var less := spend - TakenBy(ConnectConfirmed(x, height, m).value.bundles[m]).Keys;
    forall n {:trigger n in entries - {m}} | n in entries - {m}
      ensures EntryBack(x, less, height, n, (entries - {m})[n])
    {
      OtherEntryBack(x, height, m, spend, entries, n);
    }
    forall o {:trigger o in less} | o in less
      ensures TakenBack(x, entries - {m}, height, o, less[o])
    {
      OtherOutputBack(x, height, m, spend, entries, o);
    }
  }

  lemma NothingToTakeBack(p: PegState, height: nat, spend: map<OutPoint, Output>, entries: map<M6id, BundleEntry>)
    requires PegInvBelow(p, height) && TakesBack(p, height, spend, entries)
    ensures Patch(p, spend, entries) == p
  {
    NoneConfirmedHere(p, height, spend, entries);
    hide PegInvBelow, EntryBack, TakenBack;
    assert entries == map[] && spend == map[];
    assert p.bundles + entries == p.bundles && p.utxos + spend == p.utxos && p.stxos - spend.Keys == p.stxos;
  }

  lemma NoneConfirmedHere(p: PegState, height: nat, spend: map<OutPoint, Output>, entries: map<M6id, BundleEntry>)
    requires PegInvBelow(p, height)
    ensures forall m, entry :: !EntryBack(p, spend, height, m, entry)
    ensures forall o, output :: !TakenBack(p, entries, height, o, output)
  {
    forall m | m in p.bundles
      ensures !ConfirmedAt(p.bundles[m], height)
    {
      assert p.bundles[m].status.Latest().height < height;
    }
  }

  /** A bundle confirmed before the height cannot be unconfirmed at it. */
  lemma OldConfirmationStays(p: PegState, y: PegState, height: nat, m: M6id)
    requires PegInvBelow(p, height) && IsConfirmed(p, m) && m in y.bundles && y.bundles[m] == p.bundles[m]
    ensures DisconnectConfirmed(y, height, m).Err?
  {
    assert p.bundles[m].status.Latest().height < height;
  }

  /** A repeated confirmation changes nothing when it is connected. */
  lemma RepeatIsSilent(x: PegState, height: nat, e: BlockEvent)
    requires PegInv(x, height) && ConnectEvent(x, height, e).Ok? && !Undoable(x, e)
    requires e.BundleEvent? && e.status.EventConfirmed?
    ensures ConnectEvent(x, height, e) == Ok(x) && IsConfirmed(x, e.m6id)
  {
  }

  lemma NoneConfirmedInit(p: PegState, events: seq<BlockEvent>, n: nat)
    requires 0 < n <= |events|
    ensures NoneConfirmedBefore(p, events[..n]) <==>
              && NoneConfirmedBefore(p, events[..n - 1])
              && (events[n - 1].BundleEvent? && events[n - 1].status.EventConfirmed? ==> !IsConfirmed(p, events[n - 1].m6id))
  {
    assert forall i | 0 <= i < n - 1 :: events[..n][i] == events[..n - 1][i];
    assert events[..n][n - 1] == events[n - 1];
  }

  /** What has happened since `p`: confirmations before it are final, and later ones hold what they took. */
  ghost predicate Since(p: PegState, x: PegState, height: nat) {
    && (forall m {:trigger ConfirmedSince(p, x, height, m)} :: ConfirmedSince(p, x, height, m))
    && (forall m {:trigger IsConfirmed(p, m)} | IsConfirmed(p, m) :: m in x.bundles && x.bundles[m] == p.bundles[m])
  }

  predicate Reconfirms(p: PegState, e: BlockEvent) {
    e.BundleEvent? && e.status.EventConfirmed? && IsConfirmed(p, e.m6id)
  }

  /** Undoing one event in a patched state: the patched state before it, unless it repeats an old confirmation. */
  ghost predicate UndoesTo(
    p: PegState, x: PegState, q: PegState, height: nat, e: BlockEvent, spend: map<OutPoint, Output>,
    entries: map<M6id, BundleEntry>, less: map<OutPoint, Output>, fewer: map<M6id, BundleEntry>)
  {
    if Reconfirms(p, e) then
      e.m6id in Patch(q, spend, entries).bundles && Patch(q, spend, entries).bundles[e.m6id] == p.bundles[e.m6id]
    else
      && DisconnectEvent(Patch(q, spend, entries), height, e) == Ok(Patch(x, less, fewer))
      && TakesBack(x, height, less, fewer) && NotBefore(p, fewer)
  }

  lemma UndoOne(
    p: PegState, x: PegState, height: nat, e: BlockEvent, spend: map<OutPoint, Output>, entries: map<M6id, BundleEntry>)
    returns (less: map<OutPoint, Output>, fewer: map<M6id, BundleEntry>)
    requires PegInvBelow(p, height) && PegInv(x, height) && Since(p, x, height)
    requires GenuineEvent(x, e) && ConnectEvent(x, height, e).Ok?
    requires Undoable(x, e) || (e.BundleEvent? && e.status.EventConfirmed?)
    requires TakesBack(ConnectEvent(x, height, e).value, height, spend, entries) && NotBefore(p, entries)
    ensures UndoesTo(p, x, ConnectEvent(x, height, e).value, height, e, spend, entries, less, fewer)
  {
    hide ConnectSubmitted, ConnectConfirmed, ConnectFailed, DisconnectSubmitted, DisconnectConfirmed, DisconnectFailed;
    hide Patch, EntryBack, TakenBack, PegInv, PegInvBelow;
    var q := ConnectEvent(x, height, e).value;
    less, fewer := spend, entries;
    if e.BundleEvent? && e.m6id in entries {
      PatchedIsConfirmed(q, height, spend, entries, e.m6id);
      OnlyConfirmationsConfirm(x, height, e);
      if IsConfirmed(x, e.m6id) {
        UndoPatched(q, height, e.m6id, spend, entries);
      } else {
        UndoFirstInPatch(x, height, e.m6id, spend, entries);
        less, fewer := spend - TakenBy(q.bundles[e.m6id]).Keys, entries - {e.m6id};
      }
    } else if Undoable(x, e) {
      UndoBesidePatch(x, height, e, spend, entries);
    } else {
      RepeatIsSilent(x, height, e);
      assert ConfirmedSince(p, x, height, e.m6id);
      if IsConfirmed(p, e.m6id) {
        UnpatchedEntry(q, spend, entries, e.m6id);
      } else {
        InvHasOutputs(x, height);
        UndoRepeatBesidePatch(p, x, height, e.m6id, spend, entries);
        less, fewer := spend + TakenBy(x.bundles[e.m6id]), entries[e.m6id := Unconfirmed(x.bundles[e.m6id])];
      }
    }
  }

  lemma UnpatchedEntry(q: PegState, spend: map<OutPoint, Output>, entries: map<M6id, BundleEntry>, m: M6id)
    requires m !in entries && m in q.bundles
    ensures m in Patch(q, spend, entries).bundles && Patch(q, spend, entries).bundles[m] == q.bundles[m]
  {
  }

  lemma InvHasOutputs(x: PegState, height: nat)
    requires PegInv(x, height)
    ensures OutputsOk(x)
  {
  }

  lemma PatchedIsConfirmed(
    q: PegState, height: nat, spend: map<OutPoint, Output>, entries: map<M6id, BundleEntry>, m: M6id)
    requires TakesBack(q, height, spend, entries) && m in entries
    ensures IsConfirmed(q, m) && q.bundles[m].status.Pop().0.Some?
  {
    assert EntryBack(q, spend, height, m, entries[m]);
  }

  lemma SinceEvents(p: PegState, height: nat, events: seq<BlockEvent>, n: nat)
    requires PegInv(p, height) && GenuineEvents(p, events) && n <= |events|
    requires ConnectEvents(p, height, events[..n]).Ok?
    ensures Since(p, ConnectEvents(p, height, events[..n]).value, height)
  {
    var x := ConnectEvents(p, height, events[..n]).value;
    forall m {:trigger ConfirmedSince(p, x, height, m)}
      ensures ConfirmedSince(p, x, height, m)
    {
      ConfirmationsSince(p, height, events, n, m);
    }
    forall m {:trigger IsConfirmed(p, m)} | IsConfirmed(p, m)
      ensures m in x.bundles && x.bundles[m] == p.bundles[m]
    {
      ConfirmedIsFinal(p, height, events[..n], m);
    }
  }

  // ------------------------------------------------- beside a bundle minted afterwards

  /** `p` with one more recorded bundle, which is pending. */
  function WithPending(p: PegState, m: M6id, entry: BundleEntry): PegState {
    p.(pending := Some(m), bundles := p.bundles[m := entry])
  }

  /** Events never forget a bundle and never make one pending. */
  lemma EventMonotone(p: PegState, height: nat, e: BlockEvent)
    requires ConnectEvent(p, height, e).Ok?
    ensures var q := ConnectEvent(p, height, e).value;
            && p.bundles.Keys <= q.bundles.Keys
            && (e.BundleEvent? ==> e.m6id in q.bundles)
            && (q.pending == p.pending || q.pending == None)
  {
  }

  lemma {:induction false} EventsMonotone(p: PegState, height: nat, events: seq<BlockEvent>)
    requires ConnectEvents(p, height, events).Ok?
    ensures var q := ConnectEvents(p, height, events).value;
            && p.bundles.Keys <= q.bundles.Keys
            && (forall i | 0 <= i < |events| && events[i].BundleEvent? :: events[i].m6id in q.bundles)
            && (q.pending == p.pending || q.pending == None)
  {
    if events != [] {
      EventsMonotone(p, height, events[..|events| - 1]);
      EventMonotone(ConnectEvents(p, height, events[..|events| - 1]).value, height, events[|events| - 1]);
    }
  }

  lemma SetBesidePending(p: PegState, x: M6id, info: BundleInfo, status: BundleHistory, m: M6id, entry: BundleEntry)
    requires x != m
    ensures SetBundle(WithPending(p, m, entry), x, info, status) == WithPending(SetBundle(p, x, info, status), m, entry)
    ensures WithPending(p, m, entry).(bundles := p.bundles[m := entry] - {x}) == WithPending(p.(bundles := p.bundles - {x}), m, entry)
  {
    assert p.bundles[m := entry][x := BundleEntry(info, status)] == p.bundles[x := BundleEntry(info, status)][m := entry];
    assert p.bundles[m := entry] - {x} == (p.bundles - {x})[m := entry];
  }

  lemma SubmittedBesidePending(p: PegState, q: PegState, height: nat, x: M6id, m: M6id, entry: BundleEntry)
    requires DisconnectSubmitted(q, height, x) == Ok(p) && p.pending.None? && x in q.bundles && x != m
    ensures DisconnectSubmitted(WithPending(q, m, entry), height, x) == Ok(WithPending(p, m, entry))
  {
    var BundleEntry(info, status) := q.bundles[x];
    SetBesidePending(q, x, info, if status.Pop().0.Some? then status.Pop().0.value else status, m, entry);
  }

  lemma ConfirmedBesidePending(p: PegState, q: PegState, height: nat, x: M6id, m: M6id, entry: BundleEntry)
    requires DisconnectConfirmed(q, height, x) == Ok(p) && x in q.bundles && x != m
    ensures DisconnectConfirmed(WithPending(q, m, entry), height, x) == Ok(WithPending(p, m, entry))
  {
    var BundleEntry(info, status) := q.bundles[x];
    if status.Pop().0.Some? {
      var rest := status.Pop().0.value;
      SetBesidePending(q, x, info, rest, m, entry);
      SetBesidePending(Reinstate(q, SpendOf(info)), x, if info.Known? then info else Unknown, rest, m, entry);
    }
  }

  lemma FailedBesidePending(p: PegState, q: PegState, height: nat, x: M6id, m: M6id, entry: BundleEntry)
    requires DisconnectFailed(q, height, x) == Ok(p) && x in q.bundles && x != m
    ensures DisconnectFailed(WithPending(q, m, entry), height, x) == Ok(WithPending(p, m, entry))
  {
    var BundleEntry(info, status) := q.bundles[x];
    if status.Pop().0.Some? {
      var rest := status.Pop().0.value;
      SetBesidePending(q, x, info, rest, m, entry);
      if q.latestFailed.Some? {
        SetBesidePending(Withdraw(q, SpendOf(info), x).(latestFailed := q.latestFailed.value.Pop().0), x, info, rest, m, entry);
      }
    }
  }

  /** Disconnecting an event commutes with recording a pending bundle that it does not concern. */
  lemma DisconnectCommutes(p: PegState, q: PegState, height: nat, e: BlockEvent, m: M6id, entry: BundleEntry)
    requires DisconnectEvent(q, height, e) == Ok(p) && p.pending.None? && q.pending.None?
    requires m !in q.bundles && m !in p.bundles && (e.BundleEvent? ==> e.m6id in q.bundles)
    ensures DisconnectEvent(WithPending(q, m, entry), height, e) == Ok(WithPending(p, m, entry))
  {
    hide DisconnectSubmitted, DisconnectConfirmed, DisconnectFailed;
    match e
    case DepositEvent(_, _, _) =>
    case BundleEvent(x, EventSubmitted) => SubmittedBesidePending(p, q, height, x, m, entry);
    case BundleEvent(x, EventConfirmed) => ConfirmedBesidePending(p, q, height, x, m, entry);
    case BundleEvent(x, EventFailed) => FailedBesidePending(p, q, height, x, m, entry);
  }

  /** The state with a bundle minted after the events, if one was. */
  function Minted(p: PegState, bundle: Option<(M6id, BundleEntry)>): PegState {
    match bundle
    case None => p
    case Some((m, entry)) => WithPending(p, m, entry)
  }

  /** The events in question leave the minted bundle alone. */
  ghost predicate MintedApart(p: PegState, q: PegState, bundle: Option<(M6id, BundleEntry)>) {
    bundle.Some? ==> p.pending.None? && bundle.value.0 !in q.bundles
  }

  /** Undoing one event beside a minted bundle. */
  lemma UndoOneMinted(
    p: PegState, x: PegState, height: nat, e: BlockEvent, spend: map<OutPoint, Output>, entries: map<M6id, BundleEntry>,
    bundle: Option<(M6id, BundleEntry)>)
    returns (less: map<OutPoint, Output>, fewer: map<M6id, BundleEntry>)
    requires PegInvBelow(p, height) && PegInv(x, height) && Since(p, x, height)
    requires GenuineEvent(x, e) && ConnectEvent(x, height, e).Ok?
    requires Undoable(x, e) || (e.BundleEvent? && e.status.EventConfirmed?)
    requires TakesBack(ConnectEvent(x, height, e).value, height, spend, entries) && NotBefore(p, entries)
    requires bundle.Some? ==> x.pending.None? && bundle.value.0 !in ConnectEvent(x, height, e).value.bundles
    ensures var undone := DisconnectEvent(Minted(Patch(ConnectEvent(x, height, e).value, spend, entries), bundle), height, e);
            if Reconfirms(p, e) then undone.Err?
            else
              && undone == Ok(Minted(Patch(x, less, fewer), bundle))
              && TakesBack(x, height, less, fewer) && NotBefore(p, fewer)
  {
    less, fewer := UndoOne(p, x, height, e, spend, entries);
    EventMonotone(x, height, e);
    var q := ConnectEvent(x, height, e).value;
    PatchKeepsKeys(q, height, spend, entries);
    var y := Patch(q, spend, entries);
    hide ConnectEvent, Patch, PegInv, PegInvBelow, TakesBack, ConnectSubmitted, ConnectConfirmed, ConnectFailed;
    if Reconfirms(p, e) {
      OldConfirmationStays(p, y, height, e.m6id);
      OldConfirmationStays(p, Minted(y, bundle), height, e.m6id);
    } else if bundle.Some? {
      PatchKeepsKeys(x, height, less, fewer);
      DisconnectCommutes(Patch(x, less, fewer), y, height, e, bundle.value.0, bundle.value.1);
    }
  }

  lemma PatchKeepsKeys(q: PegState, height: nat, spend: map<OutPoint, Output>, entries: map<M6id, BundleEntry>)
    requires TakesBack(q, height, spend, entries)
    ensures Patch(q, spend, entries).bundles.Keys == q.bundles.Keys && Patch(q, spend, entries).pending == q.pending
  {
    forall m | m in entries
      ensures m in q.bundles
    {
      assert EntryBack(q, spend, height, m, entries[m]);
    }
  }

  /**
   From any patched state after the list, with or without a bundle minted on top: disconnecting the list
   leads back when no old confirmation is repeated, and fails otherwise.
   */
  lemma {:induction false} PatchedRoundTrip(
    p: PegState, height: nat, events: seq<BlockEvent>, n: nat, spend: map<OutPoint, Output>, entries: map<M6id, BundleEntry>,
    bundle: Option<(M6id, BundleEntry)>)
    requires n <= |events| && PegInvBelow(p, height) && GenuineEvents(p, events)
    requires ConnectEvents(p, height, events[..n]).Ok? && UndoableOrReconfirmed(p, height, events[..n])
    requires TakesBack(ConnectEvents(p, height, events[..n]).value, height, spend, entries) && NotBefore(p, entries)
    requires MintedApart(p, ConnectEvents(p, height, events[..n]).value, bundle)
    ensures var undone := DisconnectEvents(
              Minted(Patch(ConnectEvents(p, height, events[..n]).value, spend, entries), bundle), height, events[..n]);
            if NoneConfirmedBefore(p, events[..n]) then undone == Ok(Minted(p, bundle)) else undone.Err?
    decreases n
  {
    hide Patch, TakesBack, PegInv, ConnectEvent, DisconnectEvent, GenuineEvent, NotBefore, NoneConfirmedBefore, Since, Minted;
    if n == 0 {
      NothingToTakeBack(p, height, spend, entries);
      assert NoneConfirmedBefore(p, []) by {
        NoneInNothing(p);
      }
    } else {
      assert events[..n][..n - 1] == events[..n - 1] && events[..n][n - 1] == events[n - 1];
      ConnectEventsKeepInv(p, height, events, n - 1);
      SinceEvents(p, height, events, n - 1);
      NoneConfirmedInit(p, events, n);
      EventsMonotone(p, height, events[..n - 1]);
      var x, e := ConnectEvents(p, height, events[..n - 1]).value, events[n - 1];
      assert GenuineEvent(x, events[n - 1]);
      EventMonotone(x, height, e);
      var less, fewer := UndoOneMinted(p, x, height, e, spend, entries, bundle);
      if !Reconfirms(p, e) {
        PatchedRoundTrip(p, height, events, n - 1, less, fewer, bundle);
      }
    }
  }

  lemma NoneInNothing(p: PegState)
    ensures NoneConfirmedBefore(p, [])
  {
  }

  lemma EmptyPatch(q: PegState, height: nat)
    ensures Patch(q, map[], map[]) == q && TakesBack(q, height, map[], map[])
  {
    assert q.utxos + map[] == q.utxos && q.stxos - {} == q.stxos && q.bundles + map[] == q.bundles;
  }

  /**
   A list of accepted events, each undoable where it is connected or a confirmation: disconnecting it
   restores the state when no event confirms a bundle that was confirmed before the list, and fails
   otherwise.
   */
  lemma EventsRestoredExactly(p: PegState, height: nat, events: seq<BlockEvent>)
    requires PegInvBelow(p, height) && GenuineEvents(p, events)
    requires ConnectEvents(p, height, events).Ok? && UndoableOrReconfirmed(p, height, events)
    ensures var undone := DisconnectEvents(ConnectEvents(p, height, events).value, height, events);
            if NoneConfirmedBefore(p, events) then undone == Ok(p) else undone.Err?
  {
    hide Patch, TakesBack, PegInvBelow, ConnectEvents, DisconnectEvents, GenuineEvents, UndoableOrReconfirmed, NoneConfirmedBefore;
    assert events[..|events|] == events;
    EmptyPatch(ConnectEvents(p, height, events).value, height);
    PatchedRoundTrip(p, height, events, |events|, map[], map[], None);
  }

  /** The same beside a bundle that was minted after the events. */
  lemma EventsRestoredBesidePending(p: PegState, height: nat, events: seq<BlockEvent>, m: M6id, entry: BundleEntry)
    requires PegInvBelow(p, height) && GenuineEvents(p, events)
    requires ConnectEvents(p, height, events).Ok? && UndoableOrReconfirmed(p, height, events)
    requires p.pending.None? && m !in ConnectEvents(p, height, events).value.bundles
    ensures var undone := DisconnectEvents(WithPending(ConnectEvents(p, height, events).value, m, entry), height, events);
            if NoneConfirmedBefore(p, events) then undone == Ok(WithPending(p, m, entry)) else undone.Err?
  {
    hide Patch, TakesBack, PegInvBelow, ConnectEvents, DisconnectEvents, GenuineEvents, UndoableOrReconfirmed, NoneConfirmedBefore;
    assert events[..|events|] == events;
    EmptyPatch(ConnectEvents(p, height, events).value, height);
    PatchedRoundTrip(p, height, events, |events|, map[], map[], Some((m, entry)));
  }
}
