/**
 Lists of peg events in which a bundle fails again without having been resubmitted. The repeat changes
 nothing when it is connected, but when it is disconnected it takes back the failure itself. Exactly
 when does this restore the state?
 */
module PegFailures {
  import opened Types
  import opened RollBack
  import opened Peg
  import opened PegInvariant
  import opened PegRoundTrip
  import opened PegBlock
  import opened PegRepeats
  import opened PegBlockRoundTrip

  predicate IsFailed(p: PegState, m: M6id) {
    m in p.bundles && p.bundles[m].status.Latest().value.Failed?
  }

  /** The status before the latest one. */
  function Earlier(entry: BundleEntry): Option<BundleStatus> {
    match entry.status.Pop().0
    case None => None
    case Some(rest) => Some(rest.Latest().value)
  }

  /** The failure of a known bundle that had been submitted gave its outputs back. */
  predicate GaveBack(entry: BundleEntry) {
    entry.info.Known? && Earlier(entry) == Some(BundleStatus.Submitted)
  }

  /**
   A repeated failure is harmless: the bundle failed at this height, after a regular submission, it is the
   latest that failed, and the outputs that its failure gave back are still unspent.
   */
  predicate RepeatHarmless(q: PegState, height: nat, m: M6id) {
    && IsFailed(q, m) && q.bundles[m].status.Latest().height == height
    && Earlier(q.bundles[m]) == Some(BundleStatus.Submitted)
    && (GaveBack(q.bundles[m]) ==> GivenBackIsUnspent(q, height, m))
  }

  predicate GivenBackIsUnspent(q: PegState, height: nat, m: M6id)
    requires m in q.bundles
  {
    && q.latestFailed.Some? && q.latestFailed.value.Latest() == HeightStamped(m, height)
    && SpendOf(q.bundles[m].info).Keys <= q.utxos.Keys
  }

  // ------------------------------------------------------- taking a failure back

  /** The state with outputs withdrawn by bundle `m` again, its entry replaced, and another latest failure. */
  function Refailed(
    p: PegState, m: M6id, spend: map<OutPoint, Output>, latest: Option<RollBack<M6id>>, entry: BundleEntry): PegState
  {
    p.(utxos := p.utxos - spend.Keys, stxos := p.stxos + SpentBy(spend, m), latestFailed := latest,
       bundles := p.bundles[m := entry])
  }

  /** What undoing the failure of `m` makes of a state. */
  function TakenBackFailure(p: PegState, m: M6id): PegState
    requires m in p.bundles && p.bundles[m].status.Pop().0.Some?
  {
    var BundleEntry(info, status) := p.bundles[m];
    var entry := BundleEntry(info, status.Pop().0.value);
    if GaveBack(p.bundles[m]) && p.latestFailed.Some?
    then Refailed(p, m, SpendOf(info), p.latestFailed.value.Pop().0, entry)
    else Patch(p, map[], map[m := entry])
  }

  lemma UndoFailureExactly(q: PegState, height: nat, m: M6id)
    requires IsFailed(q, m) && Earlier(q.bundles[m]).Some? && IsSubmitted(Earlier(q.bundles[m]).value)
    ensures DisconnectFailed(q, height, m) ==
            if q.bundles[m].status.Latest().height != height then Err(AssertionFailed)
            else if GaveBack(q.bundles[m]) && !(SpendOf(q.bundles[m].info).Keys <= q.utxos.Keys) then Err(NoUtxo)
            else if GaveBack(q.bundles[m]) && !GivenBackIsUnspent(q, height, m) then Err(AssertionFailed)
            else Ok(TakenBackFailure(q, m))
  {
    var none: map<OutPoint, Output> := map[];
    assert q.utxos + none == q.utxos && q.stxos - none.Keys == q.stxos;
    if q.bundles[m].status.Pop().0.Some? {
      var entry := BundleEntry(q.bundles[m].info, q.bundles[m].status.Pop().0.value);
      assert q.bundles + map[m := entry] == q.bundles[m := entry];
    }
  }

  // ----------------------------------------------------- one event beside a failure

  lemma ReinstateBeside(
    q: PegState, own: map<OutPoint, Output>, m: M6id, spend: map<OutPoint, Output>, latest: Option<RollBack<M6id>>,
    entry: BundleEntry)
    requires own.Keys <= q.stxos.Keys && own.Keys !! spend.Keys
    ensures own.Keys <= Refailed(q, m, spend, latest, entry).stxos.Keys
    ensures Reinstate(Refailed(q, m, spend, latest, entry), own) == Refailed(Reinstate(q, own), m, spend, latest, entry)
  {
    assert q.utxos - spend.Keys + own == q.utxos + own - spend.Keys;
    assert q.stxos + SpentBy(spend, m) - own.Keys == q.stxos - own.Keys + SpentBy(spend, m);
  }

  lemma SetBeside(
    q: PegState, x: M6id, info: BundleInfo, status: BundleHistory, m: M6id, spend: map<OutPoint, Output>,
    latest: Option<RollBack<M6id>>, entry: BundleEntry)
    requires x != m
    ensures SetBundle(Refailed(q, m, spend, latest, entry), x, info, status) ==
            Refailed(SetBundle(q, x, info, status), m, spend, latest, entry)
    ensures Refailed(q, m, spend, latest, entry).(bundles := q.bundles[m := entry] - {x}) ==
            Refailed(q.(bundles := q.bundles - {x}), m, spend, latest, entry)
  {
    assert q.bundles[m := entry][x := BundleEntry(info, status)] == q.bundles[x := BundleEntry(info, status)][m := entry];
    assert q.bundles[m := entry] - {x} == (q.bundles - {x})[m := entry];
  }

  /** Undoing an event of another bundle commutes with a failure that was taken back. */
  lemma SubmissionBeside(
    p: PegState, q: PegState, height: nat, x: M6id, m: M6id, spend: map<OutPoint, Output>,
    latest: Option<RollBack<M6id>>, entry: BundleEntry)
    requires DisconnectSubmitted(q, height, x) == Ok(p) && q.utxos.Keys !! q.stxos.Keys && x in q.bundles && x != m
    requires spend.Keys <= q.utxos.Keys && q.latestFailed == p.latestFailed
    ensures DisconnectSubmitted(Refailed(q, m, spend, latest, entry), height, x) == Ok(Refailed(p, m, spend, latest, entry))
  {
    var BundleEntry(info, history) := q.bundles[x];
    var own, rest := SpendOf(info), history.Pop().0;
    if info.Known? && rest.Some? && rest.value.Latest().value.Pending? {
      PendingBeside(q, own, x, rest.value, m, spend, latest, entry);
    } else {
      SetBeside(q, x, info, if rest.Some? then rest.value else history, m, spend, latest, entry);
    }
  }

  lemma PendingBeside(
    q: PegState, own: map<OutPoint, Output>, x: M6id, status: BundleHistory, m: M6id, spend: map<OutPoint, Output>,
    latest: Option<RollBack<M6id>>, entry: BundleEntry)
    requires own.Keys <= q.stxos.Keys && own.Keys !! spend.Keys && x in q.bundles && x != m
    ensures own.Keys <= Refailed(q, m, spend, latest, entry).stxos.Keys
    ensures var info := q.bundles[x].info;
            SetBundle(Reinstate(Refailed(q, m, spend, latest, entry), own).(pending := Some(x)), x, info, status) ==
            Refailed(SetBundle(Reinstate(q, own).(pending := Some(x)), x, info, status), m, spend, latest, entry)
  {
    ReinstateBeside(q, own, m, spend, latest, entry);
    SetBeside(Reinstate(q, own).(pending := Some(x)), x, q.bundles[x].info, status, m, spend, latest, entry);
  }

  lemma ConfirmationBeside(
    p: PegState, q: PegState, height: nat, x: M6id, m: M6id, spend: map<OutPoint, Output>,
    latest: Option<RollBack<M6id>>, entry: BundleEntry)
    requires DisconnectConfirmed(q, height, x) == Ok(p) && q.utxos.Keys !! q.stxos.Keys && x in q.bundles && x != m
    requires spend.Keys <= q.utxos.Keys && q.latestFailed == p.latestFailed
    ensures DisconnectConfirmed(Refailed(q, m, spend, latest, entry), height, x) == Ok(Refailed(p, m, spend, latest, entry))
  {
    var BundleEntry(info, history) := q.bundles[x];
    var own, rest := SpendOf(info), history.Pop().0;
    if rest.Some? && !IsSubmitted(history.Latest().value) {
      if info.UnknownConfirmed? {
        ReinstateBeside(q, own, m, spend, latest, entry);
        SetBeside(Reinstate(q, own), x, Unknown, rest.value, m, spend, latest, entry);
      } else if info.Known? && !rest.value.Latest().value.Submitted? {
        ReinstateBeside(q, own, m, spend, latest, entry);
        SetBeside(Reinstate(q, own), x, info, rest.value, m, spend, latest, entry);
      } else {
        SetBeside(q, x, info, rest.value, m, spend, latest, entry);
      }
    }
  }

  /** A failure that gave nothing back and did not become the latest one. */
  lemma FailureBeside(
    p: PegState, q: PegState, height: nat, x: M6id, m: M6id, spend: map<OutPoint, Output>,
    latest: Option<RollBack<M6id>>, entry: BundleEntry)
    requires DisconnectFailed(q, height, x) == Ok(p) && x in q.bundles && x != m
    requires q.bundles[x].status.Latest().value.Failed? ==> !GaveBack(q.bundles[x])
    ensures DisconnectFailed(Refailed(q, m, spend, latest, entry), height, x) == Ok(Refailed(p, m, spend, latest, entry))
  {
    var BundleEntry(info, history) := q.bundles[x];
    var rest := history.Pop().0;
    if rest.Some? && !history.Latest().value.Submitted? {
      SetBeside(q, x, info, rest.value, m, spend, latest, entry);
    }
  }

  // --------------------------------------------------------- what has been given back

  /** What a bundle's failure at this height gave back has been seen. */
  ghost predicate GivenBackSeen(z: PegState, height: nat, m: M6id) {
    IsFailed(z, m) && z.bundles[m].status.Latest().height == height && GaveBack(z.bundles[m]) ==>
      SpendOf(z.bundles[m].info).Keys <= SeenOutpoints(z)
  }

  /** An event fails a bundle only if it is the bundle's failure. */
  lemma OnlyFailuresFail(x: PegState, height: nat, e: BlockEvent)
    requires ConnectEvent(x, height, e).Ok? && e.BundleEvent?
    ensures var q := ConnectEvent(x, height, e).value;
            IsFailed(q, e.m6id) ==> e.status.EventFailed? && (IsFailed(x, e.m6id) ==> q == x)
  {
  }

  /** The first failure of a bundle after its submission. */
  lemma FirstFailure(x: PegState, height: nat, m: M6id)
    requires PegInv(x, height) && ConnectFailed(x, height, m).Ok? && !IsFailed(x, m)
    ensures var q := ConnectFailed(x, height, m).value;
            && IsFailed(q, m) && q.bundles[m].status.Latest().height == height
            && Earlier(q.bundles[m]) == Some(x.bundles[m].status.Latest().value) && IsSubmitted(x.bundles[m].status.Latest().value)
            && q.bundles[m].info == x.bundles[m].info
            && (GaveBack(q.bundles[m]) ==> SpendOf(q.bundles[m].info).Keys <= q.utxos.Keys && GivenBackIsUnspent(q, height, m))
  {
    assert EntryOk(x, height, m);
    PopUndoesPush(x.bundles[m].status, Failed, height);
    if x.latestFailed.Some? {
      PopUndoesPush(x.latestFailed.value, m, height);
    }
  }

  lemma SeenAfterEvent(x: PegState, height: nat, e: BlockEvent, m: M6id)
    requires PegInv(x, height) && ConnectEvent(x, height, e).Ok? && GivenBackSeen(x, height, m)
    ensures GivenBackSeen(ConnectEvent(x, height, e).value, height, m)
  {
    hide PegInv;
    var q := ConnectEvent(x, height, e).value;
    ConnectEventSeen(x, height, e);
    if e.BundleEvent? && e.m6id == m {
      OnlyFailuresFail(x, height, e);
      if IsFailed(q, m) && !IsFailed(x, m) {
        FirstFailure(x, height, m);
      }
    } else {
      OthersUntouched(x, height, e, m);
    }
  }

  lemma {:induction false} GivenBackIsSeen(p: PegState, height: nat, events: seq<BlockEvent>, n: nat, m: M6id)
    requires PegInvBelow(p, height) && GenuineEvents(p, events) && n <= |events|
    requires ConnectEvents(p, height, events[..n]).Ok?
    ensures GivenBackSeen(ConnectEvents(p, height, events[..n]).value, height, m)
    decreases n
  {
    if n > 0 {
      assert events[..n][..n - 1] == events[..n - 1] && events[..n][n - 1] == events[n - 1];
      GivenBackIsSeen(p, height, events, n - 1, m);
      ConnectEventsKeepInv(p, height, events, n - 1);
      SeenAfterEvent(ConnectEvents(p, height, events[..n - 1]).value, height, events[n - 1], m);
    }
  }

  // ---------------------------------------------------------- going back past one event

  /** Between the failure and its repeat: nothing else became the latest failure, and nothing given back was spent. */
  lemma StillUnspentBefore(x: PegState, height: nat, e: BlockEvent, m: M6id)
    requires PegInv(x, height) && GenuineEvent(x, e) && ConnectEvent(x, height, e).Ok? && GivenBackSeen(x, height, m)
    requires e.BundleEvent? ==> e.m6id != m
    requires var q := ConnectEvent(x, height, e).value;
             IsFailed(q, m) && q.bundles[m].status.Latest().height == height && GaveBack(q.bundles[m]) && GivenBackIsUnspent(q, height, m)
    ensures m in x.bundles && GivenBackIsUnspent(x, height, m) && x.latestFailed == ConnectEvent(x, height, e).value.latestFailed
  {
    var q := ConnectEvent(x, height, e).value;
    OthersUntouched(x, height, e, m);
    OnlyOwnFailures(x, height, e);
    forall o | o in SpendOf(q.bundles[m].info)
      ensures o in x.utxos
    {
      NothingNewUnspent(x, height, e, o);
    }
  }

  /** The latest failure changes only to the bundle of the event. */
  lemma OnlyOwnFailures(x: PegState, height: nat, e: BlockEvent)
    requires ConnectEvent(x, height, e).Ok?
    ensures var q := ConnectEvent(x, height, e).value;
            q.latestFailed != x.latestFailed ==>
              e.BundleEvent? && q.latestFailed.Some? && q.latestFailed.value.Latest().value == e.m6id
  {
  }

  /** Unless the latest failure changes, only deposits make outputs unspent. */
  lemma NothingNewUnspent(x: PegState, height: nat, e: BlockEvent, o: OutPoint)
    requires ConnectEvent(x, height, e).Ok? && o in ConnectEvent(x, height, e).value.utxos
    requires ConnectEvent(x, height, e).value.latestFailed == x.latestFailed
    ensures o in x.utxos || (e.DepositEvent? && o == Deposit(e.txid, e.vout))
  {
    if e.BundleEvent? && e.status.EventFailed? && x.latestFailed.Some? {
      assert forall v, h :: x.latestFailed.value.Push(v, h) != x.latestFailed by {
        forall v, h
          ensures x.latestFailed.value.Push(v, h) != x.latestFailed
        {
          assert x.latestFailed.value.Push(v, h).Some? ==> |x.latestFailed.value.Push(v, h).value.tail| == |x.latestFailed.value.tail| + 1;
        }
      }
    }
  }

  /** The failure of `m` at this height can be taken back. */
  ghost predicate Refailable(z: PegState, height: nat, m: M6id) {
    && IsFailed(z, m) && z.bundles[m].status.Latest().height == height
    && Earlier(z.bundles[m]).Some? && IsSubmitted(Earlier(z.bundles[m]).value)
    && (GaveBack(z.bundles[m]) ==> GivenBackIsUnspent(z, height, m))
  }

  /** A failure of another bundle that did not become the latest one gave nothing back. */
  lemma QuietFailure(x: PegState, height: nat, own: M6id)
    requires PegInv(x, height) && ConnectFailed(x, height, own).Ok? && !IsFailed(x, own)
    requires ConnectFailed(x, height, own).value.latestFailed == x.latestFailed
    ensures var q := ConnectFailed(x, height, own).value; own in q.bundles && !GaveBack(q.bundles[own])
  {
    FirstFailure(x, height, own);
    if x.latestFailed.Some? {
      var f := x.latestFailed.value;
      assert f.Push(own, height).Some? ==> |f.Push(own, height).value.tail| == |f.tail| + 1;
    }
  }

  lemma MovingBeside(x: PegState, q: PegState, height: nat, e: BlockEvent, m: M6id)
    requires DisconnectEvent(q, height, e) == Ok(x) && q.utxos.Keys !! q.stxos.Keys
    requires e.BundleEvent? ==> e.m6id != m && e.m6id in q.bundles
    requires m in x.bundles && m in q.bundles && x.bundles[m] == q.bundles[m] && q.bundles[m].status.Pop().0.Some?
    requires GaveBack(q.bundles[m]) && GivenBackIsUnspent(q, height, m) && GivenBackIsUnspent(x, height, m)
    requires x.latestFailed == q.latestFailed
    requires e.BundleEvent? && e.status.EventFailed? && IsFailed(q, e.m6id) ==> !GaveBack(q.bundles[e.m6id])
    ensures DisconnectEvent(TakenBackFailure(q, m), height, e) == Ok(TakenBackFailure(x, m))
  {
    hide DisconnectSubmitted, DisconnectConfirmed, DisconnectFailed;
    var spend, latest := SpendOf(q.bundles[m].info), q.latestFailed.value.Pop().0;
    var entry := BundleEntry(q.bundles[m].info, q.bundles[m].status.Pop().0.value);
    match e
    case DepositEvent(txid, vout, _) =>
      var o := Deposit(txid, vout);
      assert o !in spend;
      assert q.utxos - spend.Keys - {o} == q.utxos - {o} - spend.Keys;
    case BundleEvent(own, EventSubmitted) => SubmissionBeside(x, q, height, own, m, spend, latest, entry);
    case BundleEvent(own, EventConfirmed) => ConfirmationBeside(x, q, height, own, m, spend, latest, entry);
    case BundleEvent(own, EventFailed) => FailureBeside(x, q, height, own, m, spend, latest, entry);
  }

  /** Undoing an event of another bundle commutes with taking the failure back. */
  lemma UndoBesideFailure(x: PegState, height: nat, e: BlockEvent, m: M6id)
    requires PegInv(x, height) && GenuineEvent(x, e) && ConnectEvent(x, height, e).Ok? && Undoable(x, e)
    requires (e.BundleEvent? ==> e.m6id != m) && GivenBackSeen(x, height, m)
    requires Refailable(ConnectEvent(x, height, e).value, height, m)
    ensures Refailable(x, height, m) && x.bundles[m] == ConnectEvent(x, height, e).value.bundles[m]
    ensures DisconnectEvent(TakenBackFailure(ConnectEvent(x, height, e).value, m), height, e) == Ok(TakenBackFailure(x, m))
  {
    var q := ConnectEvent(x, height, e).value;
    EventRoundTrip(x, height, e);
    OthersUntouched(x, height, e, m);
    ConnectEventKeepsInv(x, height, e);
    EventMonotone(x, height, e);
    hide ConnectSubmitted, ConnectConfirmed, DisconnectEvent, PegInv;
    var entry := BundleEntry(q.bundles[m].info, q.bundles[m].status.Pop().0.value);
    if GaveBack(q.bundles[m]) {
      StillUnspentBefore(x, height, e, m);
      if e.BundleEvent? && e.status.EventFailed? {
        QuietFailure(x, height, e.m6id);
      }
      MovingBeside(x, q, height, e, m);
    } else {
      DisconnectCommutesPatch(x, q, height, e, map[], map[m := entry]);
    }
  }

  /**
   From the state after a list, with the failure of a bundle taken back: disconnecting the list leads back
   when the bundle had been submitted regularly, and fails otherwise.
   */
  lemma {:induction false} RefailedRoundTrip(p: PegState, height: nat, events: seq<BlockEvent>, n: nat, m: M6id)
    requires PegInvBelow(p, height) && GenuineEvents(p, events) && n <= |events|
    requires ConnectEvents(p, height, events[..n]).Ok? && AllUndoable(p, height, events[..n])
    requires Refailable(ConnectEvents(p, height, events[..n]).value, height, m)
    ensures var q := ConnectEvents(p, height, events[..n]).value;
            var undone := DisconnectEvents(TakenBackFailure(q, m), height, events[..n]);
            if Earlier(q.bundles[m]) == Some(BundleStatus.Submitted) then undone == Ok(p) else undone.Err?
    decreases n
  {
    hide ConnectEvent, DisconnectEvent, PegInv, Refailable, TakenBackFailure, GenuineEvent;
    if n == 0 {
      NotFailedHere(p, height, m);
    } else {
      assert events[..n][..n - 1] == events[..n - 1] && events[..n][n - 1] == events[n - 1];
      ConnectEventsKeepInv(p, height, events, n - 1);
      GivenBackIsSeen(p, height, events, n - 1, m);
      var x, e := ConnectEvents(p, height, events[..n - 1]).value, events[n - 1];
      assert GenuineEvent(x, events[n - 1]);
      RefailableParts(ConnectEvents(p, height, events[..n]).value, height, m);
      if e.BundleEvent? && e.m6id == m {
        UndoOwnFailure(x, height, e, m);
        EventsRoundTrip(p, height, events, n - 1);
      } else {
        UndoBesideFailure(x, height, e, m);
        RefailedRoundTrip(p, height, events, n - 1, m);
      }
    }
  }

  lemma RefailableParts(z: PegState, height: nat, m: M6id)
    requires Refailable(z, height, m)
    ensures m in z.bundles && z.bundles[m].status.Pop().0.Some?
  {
  }

  lemma NotFailedHere(p: PegState, height: nat, m: M6id)
    requires PegInvBelow(p, height)
    ensures !Refailable(p, height, m)
  {
    assert m in p.bundles ==> p.bundles[m].status.Latest().height < height;
  }

  /** The failure itself: taking it back once more does nothing after a regular submission, and fails otherwise. */
  lemma UndoOwnFailure(x: PegState, height: nat, e: BlockEvent, m: M6id)
    requires PegInv(x, height) && ConnectEvent(x, height, e).Ok? && Undoable(x, e) && e.BundleEvent? && e.m6id == m
    requires Refailable(ConnectEvent(x, height, e).value, height, m)
    ensures var q := ConnectEvent(x, height, e).value;
            if Earlier(q.bundles[m]) == Some(BundleStatus.Submitted)
            then DisconnectEvent(TakenBackFailure(q, m), height, e) == Ok(x)
            else DisconnectEvent(TakenBackFailure(q, m), height, e).Err?
  {
    OnlyFailuresFail(x, height, e);
    FirstFailure(x, height, m);
    FailedRoundTrip(x, height, m);
    hide ConnectFailed, PegInv, TakenBackFailure;
    UndoFailureExactly(ConnectEvent(x, height, e).value, height, m);
  }

  lemma {:induction false} DisconnectBoth(p: PegState, height: nat, a: seq<BlockEvent>, b: seq<BlockEvent>)
    ensures DisconnectEvents(p, height, a + b) ==
            match DisconnectEvents(p, height, b)
            case Err(e) => Err(e)
            case Ok(q) => DisconnectEvents(q, height, a)
    decreases |b|
  {
    hide DisconnectEvent;
    if b == [] {
      assert a + b == a;
    } else {
      var last, rest := b[|b| - 1], b[..|b| - 1];
      assert (a + b)[..|a + b| - 1] == a + rest && (a + b)[|a + b| - 1] == last;
      var next := DisconnectEvent(p, height, last);
      if next.Ok? {
        DisconnectBoth(next.value, height, a, rest);
      }
    }
  }

  lemma {:induction false} ConnectBoth(p: PegState, height: nat, a: seq<BlockEvent>, b: seq<BlockEvent>)
    ensures ConnectEvents(p, height, a + b) ==
            match ConnectEvents(p, height, a)
            case Err(e) => Err(e)
            case Ok(q) => ConnectEvents(q, height, b)
    decreases |b|
  {
    hide ConnectEvent;
    if b == [] {
      assert a + b == a;
    } else {
      assert (a + b)[..|a + b| - 1] == a + b[..|b| - 1];
      ConnectBoth(p, height, a, b[..|b| - 1]);
    }
  }

  lemma GenuineParts(p: PegState, height: nat, events: seq<BlockEvent>, n: nat)
    requires PegInv(p, height) && GenuineEvents(p, events) && n <= |events| && ConnectEvents(p, height, events[..n]).Ok?
    ensures GenuineEvents(p, events[..n]) && GenuineEvents(ConnectEvents(p, height, events[..n]).value, events[n..])
    ensures PegInv(ConnectEvents(p, height, events[..n]).value, height)
  {
    ConnectEventsKeepInv(p, height, events, n);
    var q := ConnectEvents(p, height, events[..n]).value;
    var a, b := events[..n], events[n..];
    assert forall i | 0 <= i < |a| :: a[i] == events[i] && GenuineEvent(p, events[i]);
    assert forall i | 0 <= i < |b| :: b[i] == events[n + i] && GenuineEvent(q, events[n + i]);
    forall i, j {:trigger DifferentDeposits(b[i], b[j])} | 0 <= i < j < |b|
      ensures DifferentDeposits(b[i], b[j])
    {
      assert DifferentDeposits(events[n + i], events[n + j]);
    }
  }

  lemma RepeatedFailureIsSilent(q: PegState, height: nat, m: M6id)
    requires IsFailed(q, m)
    ensures ConnectFailed(q, height, m) == Ok(q)
  {
  }

  /**
   A list in which a bundle fails again without having been resubmitted, while every other event is undoable
   where it is connected: disconnecting the list restores the state when the repeat is harmless, and fails
   otherwise.
   */
  lemma RepeatedFailureExactly(p: PegState, height: nat, before: seq<BlockEvent>, m: M6id, after: seq<BlockEvent>)
    requires PegInvBelow(p, height) && GenuineEvents(p, before + after)
    requires ConnectEvents(p, height, before).Ok? && AllUndoable(p, height, before)
    requires var q := ConnectEvents(p, height, before).value;
             IsFailed(q, m) && ConnectEvents(q, height, after).Ok? && AllUndoable(q, height, after)
    ensures var events := before + [BundleEvent(m, EventFailed)] + after;
            && ConnectEvents(p, height, events).Ok?
            && var undone := DisconnectEvents(ConnectEvents(p, height, events).value, height, events);
               if RepeatHarmless(ConnectEvents(p, height, before).value, height, m) then undone == Ok(p) else undone.Err?
  {
    hide ConnectSubmitted, ConnectConfirmed, ConnectFailed, DisconnectFailed, PegInvBelow, AllUndoable, TakenBackFailure;
    var repeat := [BundleEvent(m, EventFailed)];
    var q := ConnectEvents(p, height, before).value;
    BelowIsInv(p, height);
    assert (before + after)[..|before|] == before && (before + after)[|before|..] == after;
    GenuineParts(p, height, before + after, |before|);
    RepeatedFailureIsSilent(q, height, m);
    OneEventList(q, height, m);
    ConnectBoth(p, height, before, repeat);
    ConnectBoth(p, height, before + repeat, after);
    var end := ConnectEvents(q, height, after).value;
    assert after[..|after|] == after;
    EventsRoundTrip(q, height, after, |after|);
    DisconnectBoth(end, height, before + repeat, after);
    DisconnectBoth(q, height, before, repeat);
    FailedEntry(q, height, m);
    UndoFailureExactly(q, height, m);
    if DisconnectFailed(q, height, m).Ok? {
      assert before[..|before|] == before;
      RefailedRoundTrip(p, height, before, |before|, m);
    }
  }

  lemma BelowIsInv(p: PegState, height: nat)
    requires PegInvBelow(p, height)
    ensures PegInv(p, height)
  {
  }

  lemma OneEventList(q: PegState, height: nat, m: M6id)
    ensures ConnectEvents(q, height, [BundleEvent(m, EventFailed)]) == ConnectFailed(q, height, m)
    ensures DisconnectEvents(q, height, [BundleEvent(m, EventFailed)]) == DisconnectFailed(q, height, m)
  {
    var list := [BundleEvent(m, EventFailed)];
    assert list[..0] == [];
    assert ConnectEvents(q, height, list[..0]) == Ok(q);
    if DisconnectFailed(q, height, m).Ok? {
      assert DisconnectEvents(DisconnectFailed(q, height, m).value, height, list[..0]) == DisconnectFailed(q, height, m);
    }
  }

  /** A failed bundle had been submitted before. */
  lemma FailedEntry(q: PegState, height: nat, m: M6id)
    requires PegInv(q, height) && IsFailed(q, m)
    ensures Earlier(q.bundles[m]).Some? && IsSubmitted(Earlier(q.bundles[m]).value)
  {
    assert EntryOk(q, height, m);
    var h := q.bundles[m].status;
    var n := |h.Entries()|;
    assert h.Entries()[n - 1] == h.Latest();
    if n > 1 {
      assert MayFollow(h.Entries()[n - 2].value, h.Entries()[n - 1].value);
      assert h.Pop().0.value.Latest() == h.Entries()[n - 2];
    }
  }

  // ------------------------------------------------------------ in a whole block

  /** `y` is `z` with bundle `m` recorded besides, which may be the pending one. */
  ghost predicate Besides(y: PegState, z: PegState, m: M6id, entry: BundleEntry) {
    && y == z.(pending := y.pending, bundles := z.bundles[m := entry])
    && m !in z.bundles && (y.pending == z.pending || y.pending == Some(m))
  }

  lemma SetBesides(
    y: PegState, z: PegState, x: M6id, info: BundleInfo, status: BundleHistory, m: M6id, entry: BundleEntry)
    requires Besides(y, z, m, entry) && x != m
    ensures Besides(SetBundle(y, x, info, status), SetBundle(z, x, info, status), m, entry)
    ensures Besides(y.(bundles := y.bundles - {x}), z.(bundles := z.bundles - {x}), m, entry)
  {
    assert z.bundles[m := entry][x := BundleEntry(info, status)] == z.bundles[x := BundleEntry(info, status)][m := entry];
    assert z.bundles[m := entry] - {x} == (z.bundles - {x})[m := entry];
  }

  lemma SubmissionBesides(y: PegState, z: PegState, height: nat, x: M6id, m: M6id, entry: BundleEntry)
    requires Besides(y, z, m, entry) && x != m && DisconnectSubmitted(y, height, x).Ok?
    ensures DisconnectSubmitted(z, height, x).Ok?
    ensures Besides(DisconnectSubmitted(y, height, x).value, DisconnectSubmitted(z, height, x).value, m, entry)
  {
    if x in z.bundles {
      var BundleEntry(info, status) := z.bundles[x];
      var rest := status.Pop().0;
      if info.Known? && rest.Some? && rest.value.Latest().value.Pending? {
        var spend := info.bundle.spendUtxos;
        SetBesides(Reinstate(y, spend).(pending := Some(x)), Reinstate(z, spend).(pending := Some(x)), x, info, rest.value, m, entry);
      } else {
        SetBesides(y, z, x, info, if rest.Some? then rest.value else status, m, entry);
      }
    }
  }

  lemma ConfirmationBesides(y: PegState, z: PegState, height: nat, x: M6id, m: M6id, entry: BundleEntry)
    requires Besides(y, z, m, entry) && x != m && DisconnectConfirmed(y, height, x).Ok?
    ensures DisconnectConfirmed(z, height, x).Ok?
    ensures Besides(DisconnectConfirmed(y, height, x).value, DisconnectConfirmed(z, height, x).value, m, entry)
  {
    var BundleEntry(info, status) := z.bundles[x];
    if status.Pop().0.Some? {
      var rest, spend := status.Pop().0.value, SpendOf(info);
      SetBesides(y, z, x, info, rest, m, entry);
      SetBesides(Reinstate(y, spend), Reinstate(z, spend), x, if info.Known? then info else Unknown, rest, m, entry);
    }
  }

  lemma FailureBesides(y: PegState, z: PegState, height: nat, x: M6id, m: M6id, entry: BundleEntry)
    requires Besides(y, z, m, entry) && x != m && DisconnectFailed(y, height, x).Ok?
    ensures DisconnectFailed(z, height, x).Ok?
    ensures Besides(DisconnectFailed(y, height, x).value, DisconnectFailed(z, height, x).value, m, entry)
  {
    var BundleEntry(info, status) := z.bundles[x];
    if status.Pop().0.Some? {
      var rest, spend := status.Pop().0.value, SpendOf(info);
      SetBesides(y, z, x, info, rest, m, entry);
      if z.latestFailed.Some? {
        var latest := z.latestFailed.value.Pop().0;
        SetBesides(
          Withdraw(y, spend, x).(latestFailed := latest), Withdraw(z, spend, x).(latestFailed := latest), x, info, rest, m, entry);
      }
    }
  }

  /** Recording a further bundle makes no undo possible that was impossible. */
  lemma UndoneBesides(y: PegState, z: PegState, height: nat, e: BlockEvent, m: M6id, entry: BundleEntry)
    requires Besides(y, z, m, entry) && (e.BundleEvent? ==> e.m6id != m) && DisconnectEvent(y, height, e).Ok?
    ensures DisconnectEvent(z, height, e).Ok?
    ensures Besides(DisconnectEvent(y, height, e).value, DisconnectEvent(z, height, e).value, m, entry)
  {
    hide DisconnectSubmitted, DisconnectConfirmed, DisconnectFailed;
    match e
    case DepositEvent(_, _, _) =>
    case BundleEvent(x, EventSubmitted) => SubmissionBesides(y, z, height, x, m, entry);
    case BundleEvent(x, EventConfirmed) => ConfirmationBesides(y, z, height, x, m, entry);
    case BundleEvent(x, EventFailed) => FailureBesides(y, z, height, x, m, entry);
  }

  lemma {:induction false} ListUndoneBesides(
    y: PegState, z: PegState, height: nat, events: seq<BlockEvent>, m: M6id, entry: BundleEntry)
    requires Besides(y, z, m, entry) && DisconnectEvents(y, height, events).Ok?
    requires forall i | 0 <= i < |events| && events[i].BundleEvent? :: events[i].m6id != m
    ensures DisconnectEvents(z, height, events).Ok?
    decreases |events|
  {
    hide DisconnectEvent, Besides;
    if events != [] {
      var last := events[|events| - 1];
      UndoneBesides(y, z, height, last, m, entry);
      ListUndoneBesides(
        DisconnectEvent(y, height, last).value, DisconnectEvent(z, height, last).value, height, events[..|events| - 1], m, entry);
    }
  }

  /** A list that leads to a state without a pending bundle leads there beside a pending bundle, too. */
  lemma {:induction false} ListBesidePending(
    z: PegState, p: PegState, height: nat, events: seq<BlockEvent>, m: M6id, entry: BundleEntry)
    requires DisconnectEvents(z, height, events) == Ok(p) && p.pending.None? && m !in z.bundles
    requires forall i | 0 <= i < |events| && events[i].BundleEvent? :: events[i].m6id != m
    ensures DisconnectEvents(WithPending(z, m, entry), height, events) == Ok(WithPending(p, m, entry))
    ensures z.pending.None?
    decreases |events|
  {
    hide DisconnectEvent;
    if events != [] {
      var last := events[|events| - 1];
      var next := DisconnectEvent(z, height, last).value;
      UndoKeepsPending(z, height, last);
      ListBesidePending(next, p, height, events[..|events| - 1], m, entry);
      DisconnectCommutes(next, z, height, last, m, entry);
    }
  }

  /** Undoing an event empties no slot and records no further bundle. */
  lemma UndoKeepsPending(z: PegState, height: nat, e: BlockEvent)
    requires DisconnectEvent(z, height, e).Ok?
    ensures var next := DisconnectEvent(z, height, e).value;
            next.bundles.Keys <= z.bundles.Keys && (next.pending.None? ==> z.pending.None?)
            && (e.BundleEvent? && next.pending.None? ==> e.m6id in z.bundles)
  {
  }

  /** What connecting the events and taking them back makes of the peg state, without a bundle minted in between. */
  ghost predicate EventsUndone(p: PegState, height: nat, events: seq<BlockEvent>) {
    && ConnectEvents(p, height, events).Ok?
    && DisconnectEvents(ConnectEvents(p, height, events).value, height, events) == Ok(p)
  }

  /** The peg state of a block is restored when its events are, unless a minted bundle replaces the pending one. */
  lemma StateRestoredIffEventsAre(t: PegTables, height: nat, data: PegData)
    requires PegInvBelow(t.peg, height) && MintsFresh(t.peg, height, data) && Connect(t, height, data).Ok?
    requires FailureNotLowered(t.peg, height, AllEvents(data))
    requires var undone := DisconnectEvents(ConnectEvents(t.peg, height, AllEvents(data)).value, height, AllEvents(data));
             undone.Err? || undone == Ok(t.peg)
    ensures var undone := DisconnectEvents(Connect(t, height, data).value.peg, height, AllEvents(data));
            (undone.Ok? && Unmint(undone.value, height) == Ok(t.peg)) <==>
              !(t.peg.pending.Some? && MintsIn(t, height, data)) && EventsUndone(t.peg, height, AllEvents(data))
  {
    hide PegInvBelow;
    var events, p := AllEvents(data), t.peg;
    var end := ConnectEvents(p, height, events).value;
    if !MintsIn(t, height, data) {
      NothingToUnmint(p, height);
    } else {
      var bundle := BundleToMint(end, height).value.value;
      var m, entry := bundle.ComputeM6id(), BundleEntry(Known(bundle), RollBack.New(Pending, height));
      assert Connect(t, height, data).value.peg == WithPending(end, m, entry);
      EventsMonotone(p, height, events);
      RestoredBesideMinted(p, end, height, events, bundle);
    }
  }

  /** Connecting the events does not move the latest failure to a lower height. */
  ghost predicate FailureNotLowered(p: PegState, height: nat, events: seq<BlockEvent>) {
    var q := ConnectEvents(p, height, events);
    q.Ok? ==>
      && LatestFailureHeight(p).Ok? && LatestFailureHeight(q.value).Ok?
      && LatestFailureHeight(p).value <= LatestFailureHeight(q.value).value
  }

  lemma RestoredBesideMinted(p: PegState, end: PegState, height: nat, events: seq<BlockEvent>, bundle: WithdrawalBundle)
    requires DisconnectEvents(end, height, events).Err? || DisconnectEvents(end, height, events) == Ok(p)
    requires bundle.ComputeM6id() !in end.bundles && p.bundles.Keys <= end.bundles.Keys
    requires PegInvBelow(p, height) && end.pending.None?
    requires forall i | 0 <= i < |events| && events[i].BundleEvent? :: events[i].m6id in end.bundles
    requires LatestFailureHeight(p).Ok? && height - LatestFailureHeight(p).value >= FAILURE_GAP
    ensures var minted := WithPending(end, bundle.ComputeM6id(), BundleEntry(Known(bundle), RollBack.New(Pending, height)));
            var undone := DisconnectEvents(minted, height, events);
            (undone.Ok? && Unmint(undone.value, height) == Ok(p)) <==>
              p.pending.None? && DisconnectEvents(end, height, events) == Ok(p)
  {
    hide DisconnectEvents, LatestFailureHeight, PegInvBelow;
    var m, entry := bundle.ComputeM6id(), BundleEntry(Known(bundle), RollBack.New(Pending, height));
    var minted := WithPending(end, m, entry);
    var undone := DisconnectEvents(minted, height, events);
    if undone.Ok? && Unmint(undone.value, height).Ok? {
      DisconnectLeavesOthers(minted, height, events, m);
      UnmintEffect(undone.value, height);
      ListUndoneBesides(minted, end, height, events, m, entry);
    }
    if p.pending.None? && DisconnectEvents(end, height, events) == Ok(p) {
      ListBesidePending(end, p, height, events, m, entry);
      UnmintUndoesMint(p, height, m, bundle);
    }
  }

  /**
   Disconnecting the peg data of a block in which a bundle fails again, right after connecting it, restores
   the tables exactly when the repeat is harmless, no minted bundle replaces the pending one, and at most one
   mainchain block carries deposits and at most one bundle events.
   */
  lemma RefailedBlockRoundTrip(
    t: PegTables, height: nat, data: PegData, before: seq<BlockEvent>, m: M6id, after: seq<BlockEvent>)
    requires PegInvBelow(t.peg, height) && GenuineEvents(t.peg, before + after)
    requires AllEvents(data) == before + [BundleEvent(m, EventFailed)] + after
    requires ConnectEvents(t.peg, height, before).Ok? && AllUndoable(t.peg, height, before)
    requires var q := ConnectEvents(t.peg, height, before).value;
             IsFailed(q, m) && ConnectEvents(q, height, after).Ok? && AllUndoable(q, height, after)
    requires MintsFresh(t.peg, height, data) && Connect(t, height, data).Ok?
    ensures Disconnect(Connect(t, height, data).value, height, data) == Ok(t) <==>
              && RepeatHarmless(ConnectEvents(t.peg, height, before).value, height, m)
              && !(t.peg.pending.Some? && MintsIn(t, height, data))
              && EarliestBlock(data, true) == LatestBlock(data, true)
              && EarliestBlock(data, false) == LatestBlock(data, false)
  {
    hide PegInvBelow, GenuineEvents, AllUndoable, RepeatHarmless, Unmint, MintsIn, DisconnectEvents;
    RepeatedFailureExactly(t.peg, height, before, m, after);
    FailureNotLoweredByRepeat(t.peg, height, before, m, after);
    StateRestoredIffEventsAre(t, height, data);
    UnrecordUndoesRecord(t.depositBlocks, data, true, height, NoDepositBlock);
    UnrecordUndoesRecord(t.eventBlocks, data, false, height, NoEventBlock);
  }

  lemma FailureNotLoweredByRepeat(p: PegState, height: nat, before: seq<BlockEvent>, m: M6id, after: seq<BlockEvent>)
    requires PegInvBelow(p, height) && GenuineEvents(p, before + after) && ConnectEvents(p, height, before).Ok?
    requires IsFailed(ConnectEvents(p, height, before).value, m)
    ensures FailureNotLowered(p, height, before + [BundleEvent(m, EventFailed)] + after)
  {
    hide ConnectFailed, PegInvBelow, GenuineEvents, LatestFailureHeight;
    var repeat := [BundleEvent(m, EventFailed)];
    var q := ConnectEvents(p, height, before).value;
    BelowIsInv(p, height);
    assert (before + after)[..|before|] == before && (before + after)[|before|..] == after;
    GenuineParts(p, height, before + after, |before|);
    FailureHeightGrowsAll(p, height, before + after, |before|);
    RepeatedFailureIsSilent(q, height, m);
    OneEventList(q, height, m);
    ConnectBoth(p, height, before, repeat);
    ConnectBoth(p, height, before + repeat, after);
    assert after[..|after|] == after;
    if ConnectEvents(q, height, after).Ok? {
      FailureHeightGrowsAll(q, height, after, |after|);
    }
  }

  // ------------------------------------------------- peg data that is restored

  /** The peg data of a block, with one repeated failure, meets the conditions under which it is restored. */
  ghost predicate RefailsHarmlessly(
    t: PegTables, height: nat, data: PegData, before: seq<BlockEvent>, m: M6id, after: seq<BlockEvent>)
  {
    && AllEvents(data) == before + [BundleEvent(m, EventFailed)] + after
    && ConnectEvents(t.peg, height, before).Ok? && AllUndoable(t.peg, height, before)
    && (var q := ConnectEvents(t.peg, height, before).value;
        RepeatHarmless(q, height, m) && ConnectEvents(q, height, after).Ok? && AllUndoable(q, height, after))
    && ConnectEvents(t.peg, height, AllEvents(data)).Ok? && !(t.peg.pending.Some? && MintsIn(t, height, data))
    && EarliestBlock(data, true) == LatestBlock(data, true)
    && EarliestBlock(data, false) == LatestBlock(data, false)
  }

  /** The conditions under which disconnecting the peg data of a block restores the tables. */
  ghost predicate Restorable(t: PegTables, height: nat, data: PegData) {
    && ConnectEvents(t.peg, height, AllEvents(data)).Ok?
    && ((UndoableOrReconfirmed(t.peg, height, AllEvents(data)) && RestoresExactly(t, height, data))
        || exists before, m, after :: RefailsHarmlessly(t, height, data, before, m, after))
  }

  lemma GenuineWithout(p: PegState, before: seq<BlockEvent>, e: BlockEvent, after: seq<BlockEvent>)
    requires GenuineEvents(p, before + [e] + after)
    ensures GenuineEvents(p, before + after)
  {
    var all, less, n := before + [e] + after, before + after, |before|;
    forall i {:trigger GenuineEvent(p, less[i])} | 0 <= i < |less|
      ensures GenuineEvent(p, less[i])
    {
      assert GenuineEvent(p, all[if i < n then i else i + 1]);
    }
    forall i, j {:trigger DifferentDeposits(less[i], less[j])} | 0 <= i < j < |less|
      ensures DifferentDeposits(less[i], less[j])
    {
      assert DifferentDeposits(all[if i < n then i else i + 1], all[if j < n then j else j + 1]);
    }
  }

  lemma RestorableIsRestored(t: PegTables, height: nat, data: PegData)
    requires PegInvBelow(t.peg, height) && GenuineEvents(t.peg, AllEvents(data)) && MintsFresh(t.peg, height, data)
    requires Connect(t, height, data).Ok? && Restorable(t, height, data)
    ensures Disconnect(Connect(t, height, data).value, height, data) == Ok(t)
  {
    hide PegInvBelow, GenuineEvents, MintsFresh, Connect, Disconnect, AllUndoable, RestoresExactly;
    if UndoableOrReconfirmed(t.peg, height, AllEvents(data)) && RestoresExactly(t, height, data) {
      BlockRoundTrip(t, height, data);
    } else {
      var before, m, after :| RefailsHarmlessly(t, height, data, before, m, after);
      GenuineWithout(t.peg, before, BundleEvent(m, EventFailed), after);
      RefailedBlockRoundTrip(t, height, data, before, m, after);
    }
  }
}
