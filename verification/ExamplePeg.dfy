/** Concrete peg data that the code does not undo. */
module ExamplePeg {
  import opened Types
  import opened RollBack
  import opened Sums
  import opened Peg
  import opened PegInvariant
  import opened PegRoundTrip
  import opened PegRepeats
  import opened PegBlock
  import opened PegBlockRoundTrip
  import opened PegFailures
  import opened Collection

  // ------------------------------------------- a block that brings in two deposit blocks

  const COIN := Output(0, Value(1))
  const FUNDING := MainTxid(0, [COIN, COIN])
  const DEPOSITS: PegData := [
    (MainHash(1), BlockInfo(None, [DepositEvent(FUNDING, 0, COIN)])),
    (MainHash(2), BlockInfo(None, [DepositEvent(FUNDING, 1, COIN)]))]
  const EMPTY := PegTables(PegState(map[], map[], None, None, map[]), [], [])

  lemma DepositsConnect()
    ensures AllEvents(DEPOSITS) == [DepositEvent(FUNDING, 0, COIN), DepositEvent(FUNDING, 1, COIN)]
    ensures ConnectEvents(EMPTY.peg, 1, AllEvents(DEPOSITS)) ==
            Ok(EMPTY.peg.(utxos := map[Deposit(FUNDING, 0) := COIN, Deposit(FUNDING, 1) := COIN]))
    ensures Connect(EMPTY, 1, DEPOSITS).Ok? && UndoableOrReconfirmed(EMPTY.peg, 1, AllEvents(DEPOSITS))
  {
    var first, second := DepositEvent(FUNDING, 0, COIN), DepositEvent(FUNDING, 1, COIN);
    assert DEPOSITS[..1] == [DEPOSITS[0]] && DEPOSITS[..1][..0] == [];
    assert AllEvents(DEPOSITS[..1]) == [first];
    assert AllEvents(DEPOSITS) == [first, second];
    assert [first, second][..1] == [first] && [first][..0] == [];
    assert ConnectEvents(EMPTY.peg, 1, [first]) == ConnectEvent(EMPTY.peg, 1, first);
  }

  /** Two mainchain blocks with deposits in one batch: disconnecting them again fails. */
  lemma TwoDepositBlocksAreNotUndone()
    ensures Connect(EMPTY, 1, DEPOSITS).Ok?
    ensures Disconnect(Connect(EMPTY, 1, DEPOSITS).value, 1, DEPOSITS) != Ok(EMPTY)
  {
    DepositsConnect();
    assert EarliestBlock(DEPOSITS, true) == Some(MainHash(1));
    assert LatestBlock(DEPOSITS, true) == Some(MainHash(2));
    assert PegInvBelow(EMPTY.peg, 1);
    assert GenuineEvents(EMPTY.peg, AllEvents(DEPOSITS));
    assert MintsFresh(EMPTY.peg, 1, DEPOSITS);
    BlockRoundTrip(EMPTY, 1, DEPOSITS);
  }

  // ------------------------- a block that submits the pending bundle, after which one is minted

  const PAYEE := MainAddress(0, 25)
  const PAYMENT := Output(0, Withdrawal(10, 1, PAYEE))
  const SOURCE := MainTxid(1, [PAYMENT, PAYMENT])
  const OLD := Deposit(SOURCE, 0)
  const NEW := Deposit(SOURCE, 1)
  const BUNDLE := WithdrawalBundle(map[OLD := PAYMENT], BundleTx({OLD}, 0, 1, [TxOut(10, PAYEE)]))
  const WAITING := PegTables(
    PegState(
      map[OLD := PAYMENT, NEW := PAYMENT], map[], Some(M6id(BUNDLE.tx)), None,
      map[M6id(BUNDLE.tx) := BundleEntry(Known(BUNDLE), RollBack.New(BundleStatus.Pending, 0))]), [], [])
  const SUBMISSION: PegData := [(MainHash(9), BlockInfo(None, [BundleEvent(M6id(BUNDLE.tx), EventSubmitted)]))]

  lemma SumOfOne(o: OutPoint, output: Output, f: (OutPoint, Output) -> nat)
    ensures Sum(map[o := output], f) == f(o, output)
  {
    SumTakesAny(map[o := output], f, o);
    assert map[o := output] - {o} == map[];
  }

  const ONE := map[NEW := PAYMENT]
  const GROUP := Aggregated(ONE, PAYEE, 10, 1)
  const CHOSEN := Selection(ONE, [TxOut(10, PAYEE)], 34, 1)

  lemma AggregateOne()
    ensures Addresses(ONE) == {PAYEE} && Aggregates(ONE) == {GROUP} && !Overflows(ONE)
  {
    hide Sum;
    SumOfOne(NEW, PAYMENT, PayoutAt);
    SumOfOne(NEW, PAYMENT, FeeAt);
    assert WithdrawalsTo(ONE, PAYEE) == ONE;
    assert NEW in ONE && Addresses(ONE) == {PAYEE};
    assert AggregateFor(ONE, PAYEE) == GROUP;
  }

  lemma SelectOne()
    ensures SelectFrom([GROUP], 0, NO_SELECTION) == Ok(CHOSEN)
  {
    assert map[] + ONE == ONE && [] + [TxOut(10, PAYEE)] == [TxOut(10, PAYEE)];
    assert Decide(GROUP, NO_SELECTION) == Take(CHOSEN);
    assert SelectFrom([GROUP], 1, CHOSEN) == Ok(CHOSEN);
  }

  lemma BuildOne(height: nat)
    ensures NewBundle(height, CHOSEN.fee, CHOSEN.spendUtxos, CHOSEN.payouts)
         == Ok(WithdrawalBundle(ONE, BundleTx({NEW}, height, 1, [TxOut(10, PAYEE)])))
  {
    assert SumSizes([]) == 0 && [TxOut(10, PAYEE)][..0] == [];
    assert SumSizes([TxOut(10, PAYEE)]) == 34;
    assert ONE.Keys == {NEW};
  }

  /** One unspent withdrawal is collected into a bundle that spends just it. */
  lemma CollectOne(height: nat)
    ensures Collect(ONE, height) == Ok(Some(WithdrawalBundle(ONE, BundleTx({NEW}, height, 1, [TxOut(10, PAYEE)]))))
  {
    hide Overflows, Aggregates, Addresses, SelectFrom, NewBundle;
    AggregateOne();
    assert Listing({GROUP}, [GROUP]);
    ListingUnique({GROUP}, [GROUP], Listed(ONE));
    AggregatesFit(ONE);
    SelectOne();
    BuildOne(height);
  }

  lemma SubmitOld()
    ensures var r := ConnectSubmitted(WAITING.peg, 4, M6id(BUNDLE.tx));
            r.Ok? && r.value.utxos == ONE && r.value.pending == None && r.value.latestFailed == None
            && r.value.bundles.Keys == {M6id(BUNDLE.tx)}
  {
    assert OLD != NEW;
    assert map[OLD := PAYMENT, NEW := PAYMENT] - {OLD} == map[NEW := PAYMENT];
  }

  lemma SubmissionConnects()
    ensures AllEvents(SUBMISSION) == [BundleEvent(M6id(BUNDLE.tx), EventSubmitted)]
    ensures var r := ConnectEvents(WAITING.peg, 4, AllEvents(SUBMISSION));
            r.Ok? && r.value.utxos == ONE && r.value.pending == None && r.value.latestFailed == None
            && r.value.bundles.Keys == {M6id(BUNDLE.tx)}
    ensures UndoableOrReconfirmed(WAITING.peg, 4, AllEvents(SUBMISSION))
  {
    hide ConnectSubmitted;
    SubmitOld();
    var e := BundleEvent(M6id(BUNDLE.tx), EventSubmitted);
    assert SUBMISSION[..0] == [];
    assert [e][..0] == [];
    assert ConnectEvents(WAITING.peg, 4, []) == Ok(WAITING.peg);
    assert ConnectEvents(WAITING.peg, 4, [e]) == ConnectSubmitted(WAITING.peg, 4, M6id(BUNDLE.tx));
    assert UndoableOrReconfirmed(WAITING.peg, 4, []);
  }

  lemma WaitingInv()
    ensures PegInvBelow(WAITING.peg, 4)
  {
    var m := M6id(BUNDLE.tx);
    assert CommittedOutput(OLD) == Some(PAYMENT) && CommittedOutput(NEW) == Some(PAYMENT);
    assert EntryOk(WAITING.peg, 4, m) by {
      assert WAITING.peg.bundles[m].status.Entries() == [HeightStamped(BundleStatus.Pending, 0)];
    }
  }

  /** The pending bundle is submitted and another one minted in the same block: the peg state is not restored. */
  lemma SubmitAndMintIsNotUndone()
    ensures Connect(WAITING, 4, SUBMISSION).Ok? && WAITING.peg.pending.Some? && MintsIn(WAITING, 4, SUBMISSION)
    ensures EarliestBlock(SUBMISSION, false) == LatestBlock(SUBMISSION, false)
    ensures EarliestBlock(SUBMISSION, true) == LatestBlock(SUBMISSION, true)
    ensures var undone := DisconnectEvents(Connect(WAITING, 4, SUBMISSION).value.peg, 4, AllEvents(SUBMISSION));
            !(undone.Ok? && Unmint(undone.value, 4) == Ok(WAITING.peg))
    ensures Disconnect(Connect(WAITING, 4, SUBMISSION).value, 4, SUBMISSION) != Ok(WAITING)
  {
    hide Collect, ConnectEvents, PegInv, UndoableOrReconfirmed;
    SubmissionConnects();
    CollectOne(4);
    WaitingInv();
    var q := ConnectEvents(WAITING.peg, 4, AllEvents(SUBMISSION)).value;
    var bundle := BundleToMint(q, 4).value.value;
    assert NEW in bundle.tx.inputs && bundle.ComputeM6id() != M6id(BUNDLE.tx) by {
      assert OLD != NEW && NEW !in BUNDLE.tx.inputs;
    }
    assert SUBMISSION[..0] == [] && SUBMISSION[1..] == [];
    PegStateRestored(WAITING, 4, SUBMISSION);
    BlockRoundTrip(WAITING, 4, SUBMISSION);
  }

  // --------------------------------------------------------- repeated confirmations

  const ID := M6id(BUNDLE.tx)
  const CONFIRMATION := BundleEvent(ID, EventConfirmed)

  /** The bundle is submitted, or was confirmed at height 2. */
  const SUBMITTED := PegState(
    map[], map[OLD := SpentOutput(PAYMENT, WithdrawalIn(ID))], None, None,
    map[ID := BundleEntry(Known(BUNDLE), RollBack(HeightStamped(BundleStatus.Pending, 0), [HeightStamped(Submitted, 1)]))])
  const PAID := SUBMITTED.(
    bundles := map[ID := BundleEntry(
      Known(BUNDLE),
      RollBack(HeightStamped(BundleStatus.Pending, 0), [HeightStamped(Submitted, 1), HeightStamped(BundleStatus.Confirmed, 2)]))])

  lemma BundleInv(p: PegState)
    requires p == SUBMITTED || p == PAID
    ensures PegInvBelow(p, 4)
  {
    assert CommittedOutput(OLD) == Some(PAYMENT);
    var status := p.bundles[ID].status;
    assert EntryOk(p, 4, ID) by {
      assert status.Entries() == [status.head] + status.tail;
    }
  }

  /** A bundle that is confirmed twice in one list is restored; one that was confirmed before is not. */
  lemma ConfirmedTwice()
    ensures var twice := ConnectEvents(SUBMITTED, 4, [CONFIRMATION, CONFIRMATION]);
            twice.Ok? && DisconnectEvents(twice.value, 4, [CONFIRMATION, CONFIRMATION]) == Ok(SUBMITTED)
    ensures var again := ConnectEvents(PAID, 4, [CONFIRMATION]);
            again == Ok(PAID) && DisconnectEvents(again.value, 4, [CONFIRMATION]).Err?
  {
    BundleInv(SUBMITTED);
    BundleInv(PAID);
    var once, both := [CONFIRMATION], [CONFIRMATION, CONFIRMATION];
    assert both[..1] == once && once[..0] == [];
    assert ConnectEvents(SUBMITTED, 4, once) == ConnectConfirmed(SUBMITTED, 4, ID);
    assert ConnectEvents(PAID, 4, once) == ConnectConfirmed(PAID, 4, ID);
    assert UndoableOrReconfirmed(SUBMITTED, 4, once) && UndoableOrReconfirmed(SUBMITTED, 4, both);
    assert UndoableOrReconfirmed(PAID, 4, once);
    hide ConnectEvents, DisconnectEvents, PegInvBelow, UndoableOrReconfirmed;
    EventsRestoredExactly(SUBMITTED, 4, both);
    assert once[0] == CONFIRMATION;
    EventsRestoredExactly(PAID, 4, once);
  }

  // -------------------------------------------------------------- repeated failures

  const FAILURE := BundleEvent(ID, EventFailed)

  /** The bundle failed at height 2, and its output was given back. */
  const REJECTED := PegState(
    map[OLD := PAYMENT], map[], None, Some(RollBack.New(ID, 2)),
    map[ID := BundleEntry(
      Known(BUNDLE),
      RollBack(HeightStamped(BundleStatus.Pending, 0), [HeightStamped(Submitted, 1), HeightStamped(BundleStatus.Failed, 2)]))])

  lemma RejectedInv()
    ensures PegInvBelow(REJECTED, 4)
  {
    assert CommittedOutput(OLD) == Some(PAYMENT);
    var status := REJECTED.bundles[ID].status;
    assert EntryOk(REJECTED, 4, ID) && HasFailed(status) by {
      assert status.Entries() == [status.head] + status.tail && status.Entries()[2].value.Failed?;
    }
  }

  /** The state in which the submitted bundle has failed at height 4. */
  lemma FailOnce()
    ensures var q := ConnectEvents(SUBMITTED, 4, [FAILURE]); q.Ok? && RepeatHarmless(q.value, 4, ID)
    ensures AllUndoable(SUBMITTED, 4, [FAILURE])
  {
    BundleInv(SUBMITTED);
    OneEventList(SUBMITTED, 4, ID);
    FirstFailure(SUBMITTED, 4, ID);
    assert [FAILURE][..0] == [];
    assert AllUndoable(SUBMITTED, 4, []) && Undoable(SUBMITTED, FAILURE);
  }

  /** A bundle that fails twice in one list is restored; one that failed before, without a new submission, is not. */
  lemma FailedTwice()
    ensures var twice := ConnectEvents(SUBMITTED, 4, [FAILURE, FAILURE]);
            twice.Ok? && DisconnectEvents(twice.value, 4, [FAILURE, FAILURE]) == Ok(SUBMITTED)
    ensures var again := ConnectEvents(REJECTED, 4, [FAILURE]);
            again == Ok(REJECTED) && DisconnectEvents(again.value, 4, [FAILURE]).Err?
  {
    BundleInv(SUBMITTED);
    RejectedInv();
    FailOnce();
    assert [FAILURE] + [FAILURE] + [] == [FAILURE, FAILURE] && [FAILURE] + [] == [FAILURE];
    assert [] + [FAILURE] + [] == [FAILURE];
    hide RepeatHarmless, DisconnectEvents, PegInvBelow, AllUndoable;
    RepeatedFailureExactly(SUBMITTED, 4, [FAILURE], ID, []);
    RepeatedFailureExactly(REJECTED, 4, [], ID, []);
  }
}
