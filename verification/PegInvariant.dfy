/** What holds of the peg in every reachable state. */
module PegInvariant {
  import opened Types
  import opened RollBack
  import opened Peg

  // ---------------------------------------------------------- bundle automaton

  /** The only status changes that events make. Nothing follows `Confirmed`. */
  predicate MayFollow(s: BundleStatus, t: BundleStatus) {
    match s
    case Pending => t.Submitted?
    case Submitted => t.Confirmed? || t.Failed?
    case SubmittedUnexpected => t.Confirmed? || t.Failed?
    case Failed => t.SubmittedUnexpected?
    case Confirmed => false
    case Dropped => false
  }

  /** A known bundle starts pending, an unknown one submitted, and each change is a legal one. */
  ghost predicate LegalHistory(known: bool, h: BundleHistory) {
    && h.head.value == (if known then Pending else Submitted)
    && forall i :: 0 <= i < |h.Entries()| - 1 ==> MayFollow(h.Entries()[i].value, h.Entries()[i + 1].value)
  }

  /** Every output is the one that its outpoint commits to. */
  ghost predicate Authentic(outputs: map<OutPoint, Output>) {
    forall o {:trigger CommittedOutput(o)} | o in outputs :: CommittedOutput(o) == Some(outputs[o])
  }

  /** All outputs are recorded as withdrawn by bundle `m`. */
  ghost predicate WithdrawnBy(stxos: map<OutPoint, SpentOutput>, spend: map<OutPoint, Output>, m: M6id) {
    forall o | o in spend :: o in stxos && stxos[o] == SpentOutput(spend[o], WithdrawalIn(m))
  }

  ghost predicate EntryOk(p: PegState, bound: nat, m: M6id)
    requires m in p.bundles
  {
    var BundleEntry(info, status) := p.bundles[m];
    var latest := status.Latest().value;
    && status.Ordered(bound) && LegalHistory(info.Known?, status)
    && match info
       case Known(bundle) =>
         && Authentic(bundle.spendUtxos)
         && (latest.Submitted? || latest.Confirmed? ==> WithdrawnBy(p.stxos, bundle.spendUtxos, m))
       case Unknown => !latest.Confirmed?
       case UnknownConfirmed(spend) =>
         Authentic(spend) && latest.Confirmed? && status.Latest().height == 0 && WithdrawnBy(p.stxos, spend, m)
  }

  ghost predicate HasFailed(h: BundleHistory) {
    exists i :: 0 <= i < |h.Entries()| && h.Entries()[i].value.Failed?
  }

  /** No output is both unspent and spent, and all are authentic. */
  ghost predicate OutputsOk(p: PegState) {
    && p.utxos.Keys !! p.stxos.Keys
    && Authentic(p.utxos)
    && forall o {:trigger CommittedOutput(o)} | o in p.stxos :: CommittedOutput(o) == Some(p.stxos[o].output)
  }

  /** The invariant of the peg between blocks and between events, at heights up to `bound`. */
  ghost predicate PegInv(p: PegState, bound: nat) {
    && OutputsOk(p)
    && (forall m {:trigger EntryOk(p, bound, m)} | m in p.bundles :: EntryOk(p, bound, m))
    && (p.pending.Some? ==>
          && p.pending.value in p.bundles
          && p.bundles[p.pending.value].info.Known? && p.bundles[p.pending.value].status.Latest().value.Pending?)
    && (p.latestFailed.Some? ==>
          && p.latestFailed.value.Ordered(bound)
          && p.latestFailed.value.Latest().value in p.bundles
          && HasFailed(p.bundles[p.latestFailed.value.Latest().value].status))
  }

  /** A deposit names an output that its outpoint commits to and that was never seen before. */
  ghost predicate GenuineEvent(p: PegState, e: BlockEvent) {
    e.DepositEvent? ==>
      var o := Deposit(e.txid, e.vout);
      CommittedOutput(o) == Some(e.output) && o !in p.utxos && o !in p.stxos
  }

  // ------------------------------------------------------------- preservation

  /** Pushing a legal status keeps a history legal and ordered. */
  lemma PushKeepsLegal(known: bool, h: BundleHistory, value: BundleStatus, height: nat)
    requires LegalHistory(known, h) && h.Ordered(height) && MayFollow(h.Latest().value, value)
    ensures h.Push(value, height).Some?
    ensures var q := h.Push(value, height).value;
            && LegalHistory(known, q) && q.Ordered(height) && q.Latest().value == value
            && (HasFailed(h) || value.Failed? ==> HasFailed(q))
  {
    PopUndoesPush(h, value, height);
    var q := h.Push(value, height).value;
    assert q.Entries() == h.Entries() + [HeightStamped(value, height)];
    assert h.Latest() == h.Entries()[|h.Entries()| - 1];
    if HasFailed(h) {
      var i :| 0 <= i < |h.Entries()| && h.Entries()[i].value.Failed?;
      assert q.Entries()[i].value.Failed?;
    }
    if value.Failed? {
      assert q.Entries()[|h.Entries()|].value.Failed?;
    }
  }

  lemma LatestIsNeverDropped(known: bool, h: BundleHistory)
    requires LegalHistory(known, h)
    ensures !h.Latest().value.Dropped?
  {
    var n := |h.Entries()|;
    assert h.Latest() == h.Entries()[n - 1];
    if n > 1 {
      assert MayFollow(h.Entries()[n - 2].value, h.Entries()[n - 1].value);
    }
  }

  /** What bundle `x` has withdrawn is still withdrawn by it. */
  ghost predicate KeepsWithdrawn(p: PegState, q: PegState, x: M6id) {
    forall o | o in p.stxos && p.stxos[o].inpoint == WithdrawalIn(x) :: o in q.stxos && q.stxos[o] == p.stxos[o]
  }

  lemma WithdrawKeeps(p: PegState, spend: map<OutPoint, Output>, m: M6id)
    requires OutputsOk(p) && Authentic(spend) && spend.Keys <= p.utxos.Keys
    ensures var q := Withdraw(p, spend, m);
            OutputsOk(q) && WithdrawnBy(q.stxos, spend, m) && forall x :: KeepsWithdrawn(p, q, x)
  {
  }

  lemma ReinstateKeeps(p: PegState, spend: map<OutPoint, Output>, m: M6id)
    requires OutputsOk(p) && Authentic(spend) && WithdrawnBy(p.stxos, spend, m)
    ensures var q := Reinstate(p, spend);
            OutputsOk(q) && forall x | x != m :: KeepsWithdrawn(p, q, x)
  {
  }

  /** The entries of other bundles survive a change to bundle `m`. */
  lemma OtherEntriesOk(p: PegState, q: PegState, bound: nat, m: M6id)
    requires forall x {:trigger EntryOk(p, bound, x)} | x in p.bundles :: EntryOk(p, bound, x)
    requires q.bundles.Keys == p.bundles.Keys + {m} && forall x | x in p.bundles && x != m :: q.bundles[x] == p.bundles[x]
    requires forall x | x != m :: KeepsWithdrawn(p, q, x)
    requires EntryOk(q, bound, m)
    ensures forall x {:trigger EntryOk(q, bound, x)} | x in q.bundles :: EntryOk(q, bound, x)
  {
    forall x {:trigger EntryOk(q, bound, x)} | x in q.bundles
      ensures EntryOk(q, bound, x)
    {
      if x != m {
        assert EntryOk(p, bound, x) && KeepsWithdrawn(p, q, x);
      }
    }
  }

  lemma ConnectSubmittedKeepsInv(p: PegState, height: nat, m: M6id)
    requires PegInv(p, height) && ConnectSubmitted(p, height, m).Ok?
    ensures PegInv(ConnectSubmitted(p, height, m).value, height)
  {
    var q := ConnectSubmitted(p, height, m).value;
    if m in p.bundles {
      assert EntryOk(p, height, m);
      var BundleEntry(info, status) := p.bundles[m];
      LatestIsNeverDropped(info.Known?, status);
      PushKeepsLegal(info.Known?, status, if p.pending == Some(m) then Submitted else SubmittedUnexpected, height);
      if p.pending == Some(m) {
        WithdrawKeeps(p, info.bundle.spendUtxos, m);
      }
    }
    OtherEntriesOk(p, q, height, m);
  }

  lemma ConnectConfirmedKeepsInv(p: PegState, height: nat, m: M6id)
    requires PegInv(p, height) && ConnectConfirmed(p, height, m).Ok?
    ensures PegInv(ConnectConfirmed(p, height, m).value, height)
  {
    var q := ConnectConfirmed(p, height, m).value;
    assert EntryOk(p, height, m);
    var BundleEntry(info, status) := p.bundles[m];
    if q != p {
      PushKeepsLegal(info.Known?, status, Confirmed, height);
      if info.Unknown? {
        WithdrawKeeps(p, p.utxos, m);
      } else if status.Latest().value.SubmittedUnexpected? {
        WithdrawKeeps(p, info.bundle.spendUtxos, m);
      }
      OtherEntriesOk(p, q, height, m);
    }
  }

  lemma ConnectFailedKeepsInv(p: PegState, height: nat, m: M6id)
    requires PegInv(p, height) && ConnectFailed(p, height, m).Ok?
    ensures PegInv(ConnectFailed(p, height, m).value, height)
  {
    hide LegalHistory, HasFailed;
    var q := ConnectFailed(p, height, m).value;
    assert EntryOk(p, height, m);
    var BundleEntry(info, status) := p.bundles[m];
    if q != p {
      PushKeepsLegal(info.Known?, status, Failed, height);
      if info.Known? && status.Latest().value.Submitted? {
        ReinstateKeeps(p, info.bundle.spendUtxos, m);
        if p.latestFailed.Some? {
          PopUndoesPush(p.latestFailed.value, m, height);
        }
      }
      OtherEntriesOk(p, q, height, m);
    }
  }

  /** Every accepted genuine event keeps the invariant. */
  lemma ConnectEventKeepsInv(p: PegState, height: nat, e: BlockEvent)
    requires PegInv(p, height) && GenuineEvent(p, e) && ConnectEvent(p, height, e).Ok?
    ensures PegInv(ConnectEvent(p, height, e).value, height)
  {
    match e
    case DepositEvent(txid, vout, output) =>
      var q := ConnectEvent(p, height, e).value;
      forall x {:trigger EntryOk(q, height, x)} | x in q.bundles
        ensures EntryOk(q, height, x)
      {
        assert EntryOk(p, height, x);
      }
    case BundleEvent(m, EventSubmitted) => ConnectSubmittedKeepsInv(p, height, m);
    case BundleEvent(m, EventConfirmed) => ConnectConfirmedKeepsInv(p, height, m);
    case BundleEvent(m, EventFailed) => ConnectFailedKeepsInv(p, height, m);
  }

  // ------------------------------------------------- what disconnecting relies on

  function SpendOf(info: BundleInfo): map<OutPoint, Output> {
    match info
    case Known(bundle) => bundle.spendUtxos
    case Unknown => map[]
    case UnknownConfirmed(spend) => spend
  }

  /** The part of the invariant that holds in the middle of disconnecting events as well. */
  ghost predicate Balanced(p: PegState) {
    OutputsOk(p) && forall m {:trigger SpendOf(p.bundles[m].info)} | m in p.bundles :: Authentic(SpendOf(p.bundles[m].info))
  }

  lemma InvIsBalanced(p: PegState, bound: nat)
    requires PegInv(p, bound)
    ensures Balanced(p)
  {
    forall m {:trigger SpendOf(p.bundles[m].info)} | m in p.bundles
      ensures Authentic(SpendOf(p.bundles[m].info))
    {
      assert EntryOk(p, bound, m);
    }
  }

  lemma ReinstateKeepsOutputs(p: PegState, spend: map<OutPoint, Output>)
    requires OutputsOk(p) && Authentic(spend) && spend.Keys <= p.stxos.Keys
    ensures OutputsOk(Reinstate(p, spend))
  {
  }

  /** Removing a status of bundle `m` keeps the state balanced. */
  lemma BundlesStayBalanced(p: PegState, q: PegState, m: M6id)
    requires Balanced(p) && OutputsOk(q) && m in p.bundles && q.bundles.Keys <= p.bundles.Keys
    requires forall x | x in q.bundles && x != m :: q.bundles[x] == p.bundles[x]
    requires m in q.bundles ==> q.bundles[m].info == p.bundles[m].info || q.bundles[m].info == Unknown
    ensures Balanced(q)
  {
    forall x {:trigger SpendOf(q.bundles[x].info)} | x in q.bundles
      ensures Authentic(SpendOf(q.bundles[x].info))
    {
      assert Authentic(SpendOf(p.bundles[x].info));
    }
  }

  /** From `p` to `q`, nothing was moved, or all of `spend` was reinstated, or withdrawn by `m`. */
  ghost predicate MovesOwn(p: PegState, q: PegState, spend: map<OutPoint, Output>, m: M6id) {
    || (q.utxos == p.utxos && q.stxos == p.stxos)
    || (spend.Keys <= p.stxos.Keys && q.utxos == Reinstate(p, spend).utxos && q.stxos == Reinstate(p, spend).stxos)
    || (spend.Keys <= p.utxos.Keys && q.utxos == Withdraw(p, spend, m).utxos && q.stxos == Withdraw(p, spend, m).stxos)
  }

  lemma UnsubmittedMoves(p: PegState, height: nat, m: M6id)
    requires DisconnectSubmitted(p, height, m).Ok? && m in p.bundles
    ensures MovesOwn(p, DisconnectSubmitted(p, height, m).value, SpendOf(p.bundles[m].info), m)
  {
    hide Reinstate, Withdraw;
  }

  lemma UnconfirmedMoves(p: PegState, height: nat, m: M6id)
    requires DisconnectConfirmed(p, height, m).Ok? && m in p.bundles
    ensures MovesOwn(p, DisconnectConfirmed(p, height, m).value, SpendOf(p.bundles[m].info), m)
  {
    hide Reinstate, Withdraw;
  }

  lemma UnfailedMoves(p: PegState, height: nat, m: M6id)
    requires DisconnectFailed(p, height, m).Ok? && m in p.bundles
    ensures MovesOwn(p, DisconnectFailed(p, height, m).value, SpendOf(p.bundles[m].info), m)
  {
    hide Reinstate, Withdraw;
  }

  /** Disconnecting a bundle event at most reinstates or withdraws the bundle's own outputs. */
  lemma DisconnectMoves(p: PegState, height: nat, m: M6id, status: EventStatus)
    requires DisconnectEvent(p, height, BundleEvent(m, status)).Ok? && m in p.bundles
    ensures MovesOwn(p, DisconnectEvent(p, height, BundleEvent(m, status)).value, SpendOf(p.bundles[m].info), m)
  {
    hide MovesOwn, DisconnectSubmitted, DisconnectConfirmed, DisconnectFailed;
    match status
    case EventSubmitted => UnsubmittedMoves(p, height, m);
    case EventConfirmed => UnconfirmedMoves(p, height, m);
    case EventFailed => UnfailedMoves(p, height, m);
  }

  lemma DisconnectKeepsOthers(p: PegState, height: nat, m: M6id, status: EventStatus)
    requires DisconnectEvent(p, height, BundleEvent(m, status)).Ok? && m in p.bundles
    ensures var q := DisconnectEvent(p, height, BundleEvent(m, status)).value;
            && q.bundles.Keys <= p.bundles.Keys
            && (forall x | x in q.bundles && x != m :: q.bundles[x] == p.bundles[x])
            && (m in q.bundles ==> q.bundles[m].info == p.bundles[m].info || q.bundles[m].info == Unknown)
  {
  }

  lemma DisconnectBundleKeepsBalanced(p: PegState, height: nat, m: M6id, status: EventStatus)
    requires Balanced(p) && DisconnectEvent(p, height, BundleEvent(m, status)).Ok? && m in p.bundles
    ensures Balanced(DisconnectEvent(p, height, BundleEvent(m, status)).value)
  {
    hide DisconnectEvent, Reinstate, Withdraw;
    var spend := SpendOf(p.bundles[m].info);
    assert Authentic(spend);
    DisconnectMoves(p, height, m, status);
    DisconnectKeepsOthers(p, height, m, status);
    if spend.Keys <= p.stxos.Keys {
      ReinstateKeepsOutputs(p, spend);
    }
    if spend.Keys <= p.utxos.Keys {
      WithdrawKeeps(p, spend, m);
    }
    BundlesStayBalanced(p, DisconnectEvent(p, height, BundleEvent(m, status)).value, m);
  }

  lemma DisconnectEventKeepsBalanced(p: PegState, height: nat, e: BlockEvent)
    requires Balanced(p) && DisconnectEvent(p, height, e).Ok?
    ensures Balanced(DisconnectEvent(p, height, e).value)
  {
    if e.BundleEvent? && e.m6id in p.bundles {
      DisconnectBundleKeepsBalanced(p, height, e.m6id, e.status);
    }
    var q := DisconnectEvent(p, height, e).value;
    if e.DepositEvent? {
      assert forall m | m in q.bundles :: SpendOf(q.bundles[m].info) == SpendOf(p.bundles[m].info);
    }
  }

  // --------------------------------------------------------- sequences of events

  function SeenOutpoints(p: PegState): set<OutPoint> {
    p.utxos.Keys + p.stxos.Keys
  }

  /** Deposits are authentic, name pairwise different outpoints, and none was seen before. */
  ghost predicate GenuineEvents(p: PegState, events: seq<BlockEvent>) {
    && (forall i {:trigger GenuineEvent(p, events[i])} | 0 <= i < |events| :: GenuineEvent(p, events[i]))
    && forall i, j {:trigger DifferentDeposits(events[i], events[j])} | 0 <= i < j < |events| ::
         DifferentDeposits(events[i], events[j])
  }

  predicate DifferentDeposits(e: BlockEvent, f: BlockEvent) {
    e.DepositEvent? && f.DepositEvent? ==> Deposit(e.txid, e.vout) != Deposit(f.txid, f.vout)
  }

  lemma WithdrawKeepsSeen(p: PegState, spend: map<OutPoint, Output>, m: M6id)
    requires spend.Keys <= p.utxos.Keys
    ensures SeenOutpoints(Withdraw(p, spend, m)) == SeenOutpoints(p)
  {
  }

  lemma ReinstateKeepsSeen(p: PegState, spend: map<OutPoint, Output>)
    requires spend.Keys <= p.stxos.Keys
    ensures SeenOutpoints(Reinstate(p, spend)) == SeenOutpoints(p)
  {
  }

  /** Bundle events only move outputs between the tables. */
  lemma SubmissionSeen(p: PegState, height: nat, m: M6id)
    requires PegInv(p, height) && ConnectSubmitted(p, height, m).Ok?
    ensures SeenOutpoints(ConnectSubmitted(p, height, m).value) == SeenOutpoints(p)
  {
    hide PegInv, Withdraw;
    if m in p.bundles && SpendOf(p.bundles[m].info).Keys <= p.utxos.Keys {
      WithdrawKeepsSeen(p, SpendOf(p.bundles[m].info), m);
    }
  }

  lemma ConfirmationSeen(p: PegState, height: nat, m: M6id)
    requires PegInv(p, height) && ConnectConfirmed(p, height, m).Ok?
    ensures SeenOutpoints(ConnectConfirmed(p, height, m).value) == SeenOutpoints(p)
  {
    hide PegInv, Withdraw;
    var spend := if p.bundles[m].info.Known? then SpendOf(p.bundles[m].info) else p.utxos;
    if spend.Keys <= p.utxos.Keys {
      WithdrawKeepsSeen(p, spend, m);
    }
  }

  lemma FailureSeen(p: PegState, height: nat, m: M6id)
    requires PegInv(p, height) && ConnectFailed(p, height, m).Ok?
    ensures SeenOutpoints(ConnectFailed(p, height, m).value) == SeenOutpoints(p)
  {
    assert EntryOk(p, height, m);
    var spend := SpendOf(p.bundles[m].info);
    if p.bundles[m].info.Known? && p.bundles[m].status.Latest().value.Submitted? {
      ReinstateKeepsSeen(p, spend);
    }
  }

  lemma BundleEventSeen(p: PegState, height: nat, m: M6id, status: EventStatus)
    requires PegInv(p, height) && ConnectEvent(p, height, BundleEvent(m, status)).Ok?
    ensures SeenOutpoints(ConnectEvent(p, height, BundleEvent(m, status)).value) == SeenOutpoints(p)
  {
    hide PegInv, ConnectSubmitted, ConnectConfirmed, ConnectFailed;
    match status
    case EventSubmitted => SubmissionSeen(p, height, m);
    case EventConfirmed => ConfirmationSeen(p, height, m);
    case EventFailed => FailureSeen(p, height, m);
  }

  /** Events move outputs between the tables; only deposits add new ones. */
  lemma ConnectEventSeen(p: PegState, height: nat, e: BlockEvent)
    requires PegInv(p, height) && ConnectEvent(p, height, e).Ok?
    ensures SeenOutpoints(ConnectEvent(p, height, e).value) ==
            SeenOutpoints(p) + if e.DepositEvent? then {Deposit(e.txid, e.vout)} else {}
  {
    if e.BundleEvent? {
      BundleEventSeen(p, height, e.m6id, e.status);
    }
  }

  /** Every run of accepted genuine events keeps the invariant, and later events stay genuine. */
  lemma {:induction false} ConnectEventsKeepInv(p: PegState, height: nat, events: seq<BlockEvent>, n: nat)
    requires PegInv(p, height) && GenuineEvents(p, events) && n <= |events|
    requires ConnectEvents(p, height, events[..n]).Ok?
    ensures var q := ConnectEvents(p, height, events[..n]).value;
            && PegInv(q, height)
            && forall i {:trigger GenuineEvent(q, events[i])} | n <= i < |events| :: GenuineEvent(q, events[i])
    decreases n
  {
    if n == 0 {
      forall i {:trigger GenuineEvent(p, events[i])} | n <= i < |events|
        ensures GenuineEvent(p, events[i])
      {
      }
    } else {
      assert events[..n][..n - 1] == events[..n - 1] && events[..n][n - 1] == events[n - 1];
      ConnectEventsKeepInv(p, height, events, n - 1);
      var q := ConnectEvents(p, height, events[..n - 1]).value;
      assert GenuineEvent(q, events[n - 1]);
      ConnectEventKeepsInv(q, height, events[n - 1]);
      ConnectEventSeen(q, height, events[n - 1]);
      var r := ConnectEvents(p, height, events[..n]).value;
      forall i {:trigger GenuineEvent(r, events[i])} | n <= i < |events|
        ensures GenuineEvent(r, events[i])
      {
        if events[i].DepositEvent? {
          assert GenuineEvent(q, events[i]) && DifferentDeposits(events[n - 1], events[i]);
          assert Deposit(events[i].txid, events[i].vout) !in SeenOutpoints(r);
        }
      }
    }
  }

  // ---------------------------------------------------------- panics and finality

  /**
   No `push(..).expect(..)` fires, and an assertion fails only on a confirmation or failure of
   a bundle that is neither submitted nor already in that final state.
   */
  lemma PanicsExactly(p: PegState, height: nat, e: BlockEvent)
    requires PegInv(p, height)
    ensures ConnectEvent(p, height, e) != Err(PushRejected)
    ensures ConnectEvent(p, height, e) == Err(AssertionFailed) <==>
              && e.BundleEvent? && !e.status.EventSubmitted? && e.m6id in p.bundles
              && !IsSubmitted(p.bundles[e.m6id].status.Latest().value)
              && p.bundles[e.m6id].status.Latest().value != (if e.status.EventConfirmed? then Confirmed else Failed)
  {
    if e.BundleEvent? && e.m6id in p.bundles {
      assert EntryOk(p, height, e.m6id);
      var status := p.bundles[e.m6id].status;
      PopUndoesPush(status, Submitted, height);
      if p.latestFailed.Some? {
        PopUndoesPush(p.latestFailed.value, e.m6id, height);
      }
    }
  }

  lemma {:induction false} LastFailedHeightBound(h: BundleHistory, bound: nat, n: nat)
    requires h.Ordered(bound) && n <= |h.Entries()|
    ensures var r := LastFailedHeight(h.Entries()[..n]);
            && (r.Some? <==> exists i :: 0 <= i < n && h.Entries()[i].value.Failed?)
            && (r.Some? ==> r.value <= bound)
    decreases n
  {
    var entries := h.Entries();
    if n > 0 {
      assert entries[..n][..n - 1] == entries[..n - 1];
      LastFailedHeightBound(h, bound, n - 1);
      assert h.Latest() == entries[|entries| - 1];
    }
  }

  /** The latest failure is always found, and at a height that can be subtracted from the current one. */
  lemma LatestFailureFound(p: PegState, height: nat)
    requires PegInv(p, height)
    ensures LatestFailureHeight(p).Ok? && LatestFailureHeight(p).value <= height
  {
    if p.latestFailed.Some? {
      var m := p.latestFailed.value.Latest().value;
      assert EntryOk(p, height, m);
      var status := p.bundles[m].status;
      assert status.Entries()[..|status.Entries()|] == status.Entries();
      LastFailedHeightBound(status, height, |status.Entries()|);
    }
  }

  lemma ConfirmedStays(p: PegState, height: nat, e: BlockEvent, m: M6id)
    requires m in p.bundles && p.bundles[m].status.Latest().value.Confirmed?
    requires ConnectEvent(p, height, e).Ok? && p.pending != Some(m)
    ensures var q := ConnectEvent(p, height, e).value;
            m in q.bundles && q.bundles[m] == p.bundles[m] && q.pending != Some(m)
  {
  }

  /** A confirmed bundle never changes again, whatever events follow. */
  lemma {:induction false} ConfirmedIsFinal(p: PegState, height: nat, events: seq<BlockEvent>, m: M6id)
    requires m in p.bundles && p.bundles[m].status.Latest().value.Confirmed?
    requires ConnectEvents(p, height, events).Ok? && p.pending != Some(m)
    ensures var q := ConnectEvents(p, height, events).value;
            m in q.bundles && q.bundles[m] == p.bundles[m] && q.pending != Some(m)
  {
    hide ConnectEvent;
    if events != [] {
      ConfirmedIsFinal(p, height, events[..|events| - 1], m);
      ConfirmedStays(ConnectEvents(p, height, events[..|events| - 1]).value, height, events[|events| - 1], m);
    }
  }
}
