/**
 Conservation of value: what the unspent outputs are worth, the sidechain's wealth, and how block
 bodies and peg events change them.
 */
module Wealth {
  import opened Types
  import opened Sums
  import opened Peg
  import opened PegInvariant
  import opened State
  import opened Moves
  import opened Validation
  import opened Acceptance

  // ------------------------------------------------------------------- quantities

  function ValueAt(o: OutPoint, output: Output): nat {
    output.GetValue()
  }

  function DepositAt(o: OutPoint, output: Output): nat {
    if o.Deposit? then output.GetValue() else 0
  }

  function SpentDepositAt(o: OutPoint, spent: SpentOutput): nat {
    if o.Deposit? then spent.output.GetValue() else 0
  }

  function WithdrawnAt(o: OutPoint, spent: SpentOutput): nat {
    if spent.inpoint.WithdrawalIn? then spent.output.GetValue() else 0
  }

  /** What all unspent outputs are worth. */
  ghost function Circulating(utxos: map<OutPoint, Output>): nat {
    Sum(utxos, ValueAt)
  }

  /** Deposits, spent or not, less what bundles have withdrawn. */
  ghost function WealthOf(utxos: map<OutPoint, Output>, stxos: map<OutPoint, SpentOutput>): int {
    Sum(utxos, DepositAt) + Sum(stxos, SpentDepositAt) - Sum(stxos, WithdrawnAt)
  }

  /** Wealth that is not in unspent outputs. */
  ghost function Elsewhere(l: Ledger): int {
    WealthOf(l.utxos, l.stxos) - Circulating(l.utxos)
  }

  // ---------------------------------------------------------------- computing it

  /** Adds up over all entries of a table, in any order, with `checked_add`. */
  method CheckedTotal<K, V>(m: map<K, V>, f: (K, V) -> nat) returns (r: Option<nat>)
    ensures r == if Sum(m, f) <= MAX_AMOUNT then Some(Sum(m, f)) else None
  {
    var rest := m;
    var total := 0;
    while rest.Keys != {}
      invariant rest.Keys <= m.Keys && Sum(m, f) == total + Sum(rest, f) && total <= MAX_AMOUNT
      decreases |rest|
    {
      var k :| k in rest.Keys;
      SumTakesAny(rest, f, k);
      total := total + f(k, rest[k]);
      if total > MAX_AMOUNT {
        return None;
      }
      rest := rest - {k};
    }
    assert rest == map[];
    r := Some(total);
  }

  /** The sidechain's wealth in total, when no sum overflows and the difference is not negative. */
  method SidechainWealth(state: State) returns (r: Option<nat>)
    ensures r == if Sum(state.utxos, DepositAt) + Sum(state.stxos, SpentDepositAt) <= MAX_AMOUNT
                    && Sum(state.stxos, WithdrawnAt) <= MAX_AMOUNT && WealthOf(state.utxos, state.stxos) >= 0
                 then Some(WealthOf(state.utxos, state.stxos)) else None
  {
    var unspent := CheckedTotal(state.utxos, DepositAt);
    if unspent.None? {
      return None;
    }
    var spent := CheckedTotal(state.stxos, SpentDepositAt);
    if spent.None? {
      return None;
    }
    var withdrawn := CheckedTotal(state.stxos, WithdrawnAt);
    if withdrawn.None? || unspent.value + spent.value > MAX_AMOUNT || unspent.value + spent.value < withdrawn.value {
      return None;
    }
    r := Some(unspent.value + spent.value - withdrawn.value);
  }

  // ------------------------------------------------------------------ single moves

  lemma CreateChanges(l: Ledger, o: OutPoint, output: Output)
    requires o !in l.utxos
    ensures var utxos := l.utxos[o := output];
            && Circulating(utxos) == Circulating(l.utxos) + output.GetValue()
            && WealthOf(utxos, l.stxos) == WealthOf(l.utxos, l.stxos) + DepositAt(o, output)
  {
    SumAdd(l.utxos, ValueAt, o, output);
    SumAdd(l.utxos, DepositAt, o, output);
  }

  lemma SpendChanges(l: Ledger, o: OutPoint, inpoint: InPoint)
    requires o in l.utxos && o !in l.stxos
    ensures var utxos, stxos := l.utxos - {o}, l.stxos[o := SpentOutput(l.utxos[o], inpoint)];
            && Circulating(utxos) == Circulating(l.utxos) - l.utxos[o].GetValue()
            && WealthOf(utxos, stxos) ==
               WealthOf(l.utxos, l.stxos) - if inpoint.WithdrawalIn? then l.utxos[o].GetValue() else 0
  {
    var spent := SpentOutput(l.utxos[o], inpoint);
    SumTakesAny(l.utxos, ValueAt, o);
    SumTakesAny(l.utxos, DepositAt, o);
    SumAdd(l.stxos, SpentDepositAt, o, spent);
    SumAdd(l.stxos, WithdrawnAt, o, spent);
  }

  // ------------------------------------------------------------------ block bodies

  /** The moves of a block: outputs are created by the block, and spent by its transactions. */
  ghost predicate BlockMoves(moves: seq<Move>) {
    forall m {:trigger m in moves} | m in moves ::
      match m
      case Create(o, output) => !o.Deposit? && CommittedOutput(o) == Some(output)
      case Spend(_, _, inpoint) => inpoint.RegularIn?
  }

  lemma BlockMovesInit(moves: seq<Move>)
    requires moves != [] && BlockMoves(moves)
    ensures BlockMoves(moves[..|moves| - 1]) && moves[|moves| - 1] in moves
  {
    assert moves == moves[..|moves| - 1] + [moves[|moves| - 1]];
    forall m {:trigger m in moves[..|moves| - 1]} | m in moves[..|moves| - 1]
      ensures m in moves
    {
    }
  }

  function CreatedTotal(moves: seq<Move>): nat {
    if moves == [] then 0
    else
      var m := moves[|moves| - 1];
      CreatedTotal(moves[..|moves| - 1]) + if m.Create? then m.output.GetValue() else 0
  }

  function SpentTotal(utxos: map<OutPoint, Output>, moves: seq<Move>): nat {
    if moves == [] then 0
    else
      var m := moves[|moves| - 1];
      SpentTotal(utxos, moves[..|moves| - 1]) + if m.Spend? && m.outpoint in utxos then utxos[m.outpoint].GetValue() else 0
  }

  /** Blocks alone never change the wealth; they change what circulates by what they create and spend. */
  lemma {:induction false} MovesConserve(l: Ledger, moves: seq<Move>)
    requires l.utxos.Keys !! l.stxos.Keys && Spendable(l.utxos, moves) && Fresh(l, moves) && BlockMoves(moves)
    ensures var after := AllAtOnce(l, moves);
            && WealthOf(after.utxos, after.stxos) == WealthOf(l.utxos, l.stxos)
            && Circulating(after.utxos) == Circulating(l.utxos) + CreatedTotal(moves) - SpentTotal(l.utxos, moves)
  {
    if moves == [] {
      PerformIsAllAtOnce(l, moves);
    } else {
      var init, m := moves[..|moves| - 1], moves[|moves| - 1];
      assert moves == init + [m];
      BlockMovesInit(moves);
      LastIsIndependent(l, moves);
      MovesConserve(l, init);
      KeysOfTables(l.utxos, init);
      var before := AllAtOnce(l, init);
      match m
      case Create(o, output) =>
        CreateOneMore(l, init, o, output);
        CreateChanges(before, o, output);
      case Spend(o, leaf, inpoint) =>
        SpendOneMore(l, init, o, leaf, inpoint);
        SpendChanges(before, o, inpoint);
    }
  }

  lemma {:induction false} TotalsConcat(utxos: map<OutPoint, Output>, a: seq<Move>, b: seq<Move>)
    ensures CreatedTotal(a + b) == CreatedTotal(a) + CreatedTotal(b)
    ensures SpentTotal(utxos, a + b) == SpentTotal(utxos, a) + SpentTotal(utxos, b)
    decreases |b|
  {
    if b == [] {
      assert a + b == a;
    } else {
      assert (a + b)[..|a + b| - 1] == a + b[..|b| - 1];
      TotalsConcat(utxos, a, b[..|b| - 1]);
    }
  }

  lemma {:induction false} CreatesTotal(utxos: map<OutPoint, Output>, origin: Origin, outputs: seq<Output>, n: nat)
    requires n <= |outputs|
    ensures CreatedTotal(Creates(origin, outputs, n)) == TotalValue(outputs[..n])
    ensures SpentTotal(utxos, Creates(origin, outputs, n)) == 0
  {
    if n > 0 {
      CreatesTotal(utxos, origin, outputs, n - 1);
      assert outputs[..n][..n - 1] == outputs[..n - 1];
    }
  }

  lemma {:induction false} SpendsTotal(utxos: map<OutPoint, Output>, tx: Transaction, n: nat)
    requires n <= |tx.core.inputs| && InputsKnown(utxos, tx)
    ensures CreatedTotal(Spends(tx.Id(), tx.core.inputs, n)) == 0
    ensures SpentTotal(utxos, Spends(tx.Id(), tx.core.inputs, n)) == TotalValue(SpentOutputs(utxos, tx)[..n])
  {
    if n > 0 {
      SpendsTotal(utxos, tx, n - 1);
      assert SpentOutputs(utxos, tx)[..n][..n - 1] == SpentOutputs(utxos, tx)[..n - 1];
    }
  }

  lemma TxTotals(utxos: map<OutPoint, Output>, tx: Transaction)
    requires InputsKnown(utxos, tx)
    ensures CreatedTotal(AllOf(tx)) == TotalValue(tx.core.outputs)
    ensures SpentTotal(utxos, AllOf(tx)) == TotalValue(SpentOutputs(utxos, tx))
  {
    var n, m := |tx.core.inputs|, |tx.core.outputs|;
    TotalsConcat(utxos, Spends(tx.Id(), tx.core.inputs, n), Creates(FromTransaction(tx.Id()), tx.core.outputs, m));
    SpendsTotal(utxos, tx, n);
    CreatesTotal(utxos, FromTransaction(tx.Id()), tx.core.outputs, m);
    assert tx.core.outputs[..m] == tx.core.outputs && SpentOutputs(utxos, tx)[..n] == SpentOutputs(utxos, tx);
  }

  lemma {:induction false} BodyTotals(c: Contents, body: Body, k: nat)
    requires k <= |body.transactions| && AllInputsKnown(c.tables.peg.utxos, body.transactions)
    ensures CreatedTotal(BodyMoves(body, k)) == TotalValue(body.coinbase) + CreatedValue(body.transactions, k)
    ensures SpentTotal(c.tables.peg.utxos, BodyMoves(body, k)) ==
            TotalValue(AllSpent(c.tables.peg.utxos, body.transactions, k))
  {
    var utxos, txs := c.tables.peg.utxos, body.transactions;
    if k == 0 {
      CreatesTotal(utxos, FromCoinbase(MerkleRootOf(body)), body.coinbase, |body.coinbase|);
      assert body.coinbase[..|body.coinbase|] == body.coinbase;
    } else {
      BodyTotals(c, body, k - 1);
      TotalsConcat(utxos, BodyMoves(body, k - 1), AllOf(txs[k - 1]));
      TxTotals(utxos, txs[k - 1]);
      TotalValueConcat(AllSpent(utxos, txs, k - 1), SpentOutputs(utxos, txs[k - 1]));
    }
  }

  lemma {:induction false} CreatesAreBlockMoves(origin: Origin, outputs: seq<Output>, n: nat)
    requires n <= |outputs|
    requires forall vout | 0 <= vout < |outputs| :: CommittedOutput(origin.At(vout)) == Some(outputs[vout])
    ensures BlockMoves(Creates(origin, outputs, n))
  {
    if n > 0 {
      CreatesAreBlockMoves(origin, outputs, n - 1);
    }
  }

  lemma {:induction false} SpendsAreBlockMoves(txid: Txid, inputs: seq<(OutPoint, Leaf)>, n: nat)
    requires n <= |inputs|
    ensures BlockMoves(Spends(txid, inputs, n))
  {
    if n > 0 {
      SpendsAreBlockMoves(txid, inputs, n - 1);
    }
  }

  lemma BlockMovesConcat(a: seq<Move>, b: seq<Move>)
    requires BlockMoves(a) && BlockMoves(b)
    ensures BlockMoves(a + b)
  {
    forall m {:trigger m in a + b} | m in a + b
      ensures m in a || m in b
    {
    }
  }

  lemma {:induction false} BodyIsBlockMoves(body: Body, k: nat)
    requires k <= |body.transactions|
    ensures BlockMoves(BodyMoves(body, k))
  {
    if k == 0 {
      CreatesAreBlockMoves(FromCoinbase(MerkleRootOf(body)), body.coinbase, |body.coinbase|);
    } else {
      var tx := body.transactions[k - 1];
      BodyIsBlockMoves(body, k - 1);
      SpendsAreBlockMoves(tx.Id(), tx.core.inputs, |tx.core.inputs|);
      CreatesAreBlockMoves(FromTransaction(tx.Id()), tx.core.outputs, |tx.core.outputs|);
      BlockMovesConcat(Spends(tx.Id(), tx.core.inputs, |tx.core.inputs|),
                       Creates(FromTransaction(tx.Id()), tx.core.outputs, |tx.core.outputs|));
      BlockMovesConcat(BodyMoves(body, k - 1), AllOf(tx));
    }
  }

  /**
   An accepted block leaves the wealth alone. What leaves the unspent outputs goes into the shielded
   pool or stays behind as fees that the coinbase does not claim, and nothing else does.
   */
  lemma BlockConserves(c: Contents, foreign: Foreign, header: Header, body: Body)
    requires Verdict(c, foreign, header, body).Ok?
    requires c.tables.peg.utxos.Keys !! c.tables.peg.stxos.Keys
    requires Fresh(Ledger(c.tables.peg.utxos, c.tables.peg.stxos), MovesOf(body))
    ensures var l := Ledger(c.tables.peg.utxos, c.tables.peg.stxos);
            var after := AllAtOnce(l, MovesOf(body));
            var unclaimed := Verdict(c, foreign, header, body).value - TotalValue(body.coinbase);
            && unclaimed >= 0 && WealthOf(after.utxos, after.stxos) == WealthOf(l.utxos, l.stxos)
            && Elsewhere(after) == Elsewhere(l) + unclaimed - BalanceSum(body.transactions, |body.transactions|)
  {
    AcceptedExactly(c, foreign, header, body);
    AcceptedMoves(c, foreign, header, body);
    BodyIsBlockMoves(body, |body.transactions|);
    MovesConserve(Ledger(c.tables.peg.utxos, c.tables.peg.stxos), MovesOf(body));
    BodyTotals(c, body, |body.transactions|);
  }

  // ------------------------------------------------------------------- peg events

  ghost function PegElsewhere(p: PegState): int {
    Elsewhere(Ledger(p.utxos, p.stxos))
  }

  lemma {:induction false} WithdrawConserves(p: PegState, spend: map<OutPoint, Output>, m: M6id)
    requires p.utxos.Keys !! p.stxos.Keys
    requires forall o | o in spend :: o in p.utxos && p.utxos[o] == spend[o]
    ensures PegElsewhere(Withdraw(p, spend, m)) == PegElsewhere(p)
    ensures Circulating(Withdraw(p, spend, m).utxos) == Circulating(p.utxos) - Circulating(spend)
    decreases |spend|
  {
    if spend == map[] {
      assert SpentBy(spend, m) == map[] && Withdraw(p, spend, m) == p;
    } else {
      var o :| o in spend;
      var less := spend - {o};
      WithdrawConserves(p, less, m);
      WithdrawAdds(p, spend, m, o);
      var before := Withdraw(p, less, m);
      SpendChanges(Ledger(before.utxos, before.stxos), o, WithdrawalIn(m));
      SumTakesAny(spend, ValueAt, o);
    }
  }

  lemma WithdrawAdds(p: PegState, spend: map<OutPoint, Output>, m: M6id, o: OutPoint)
    requires o in spend && o in p.utxos && p.utxos[o] == spend[o] && o !in p.stxos
    ensures var before, after := Withdraw(p, spend - {o}, m), Withdraw(p, spend, m);
            && o in before.utxos && before.utxos[o] == spend[o] && o !in before.stxos
            && after.utxos == before.utxos - {o}
            && after.stxos == before.stxos[o := SpentOutput(spend[o], WithdrawalIn(m))]
  {
    var s := SpentOutput(spend[o], WithdrawalIn(m));
    assert SpentBy(spend, m) == SpentBy(spend - {o}, m)[o := s];
    assert p.utxos - spend.Keys == p.utxos - (spend - {o}).Keys - {o};
    assert p.stxos + SpentBy(spend - {o}, m)[o := s] == (p.stxos + SpentBy(spend - {o}, m))[o := s];
  }

  /** Reinstating what a bundle withdrew is the withdrawal taken back. */
  lemma ReinstateConserves(p: PegState, spend: map<OutPoint, Output>, m: M6id)
    requires p.utxos.Keys !! p.stxos.Keys && WithdrawnBy(p.stxos, spend, m)
    ensures PegElsewhere(Reinstate(p, spend)) == PegElsewhere(p)
  {
    hide PegElsewhere, Reinstate, Withdraw;
    WithdrawnAgain(p, spend, m);
    WithdrawConserves(Reinstate(p, spend), spend, m);
  }

  lemma WithdrawnAgain(p: PegState, spend: map<OutPoint, Output>, m: M6id)
    requires p.utxos.Keys !! p.stxos.Keys && WithdrawnBy(p.stxos, spend, m)
    ensures Withdraw(Reinstate(p, spend), spend, m) == p
    ensures var q := Reinstate(p, spend);
            q.utxos.Keys !! q.stxos.Keys && forall o | o in spend :: o in q.utxos && q.utxos[o] == spend[o]
  {
    var q := Reinstate(p, spend);
    assert q.utxos - spend.Keys == p.utxos;
    assert q.stxos + SpentBy(spend, m) == p.stxos;
  }

  lemma AuthenticSpend(p: PegState, spend: map<OutPoint, Output>)
    requires OutputsOk(p) && Authentic(spend) && spend.Keys <= p.utxos.Keys
    ensures forall o | o in spend :: o in p.utxos && p.utxos[o] == spend[o]
  {
    forall o | o in spend
      ensures o in p.utxos && p.utxos[o] == spend[o]
    {
      assert CommittedOutput(o) == Some(p.utxos[o]);
    }
  }

  lemma SubmittedConserves(p: PegState, height: nat, m: M6id)
    requires PegInv(p, height) && ConnectSubmitted(p, height, m).Ok?
    ensures PegElsewhere(ConnectSubmitted(p, height, m).value) == PegElsewhere(p)
  {
    hide Elsewhere;
    if p.pending == Some(m) {
      assert EntryOk(p, height, m);
      AuthenticSpend(p, p.bundles[m].info.bundle.spendUtxos);
      WithdrawConserves(p, p.bundles[m].info.bundle.spendUtxos, m);
    }
  }

  lemma ConfirmedConserves(p: PegState, height: nat, m: M6id)
    requires PegInv(p, height) && ConnectConfirmed(p, height, m).Ok?
    ensures PegElsewhere(ConnectConfirmed(p, height, m).value) == PegElsewhere(p)
  {
    hide Elsewhere;
    assert EntryOk(p, height, m);
    var BundleEntry(info, status) := p.bundles[m];
    if info.Unknown? {
      WithdrawConserves(p, p.utxos, m);
    } else if info.Known? && status.Latest().value.SubmittedUnexpected? {
      AuthenticSpend(p, info.bundle.spendUtxos);
      WithdrawConserves(p, info.bundle.spendUtxos, m);
    }
  }

  lemma FailedConserves(p: PegState, height: nat, m: M6id)
    requires PegInv(p, height) && ConnectFailed(p, height, m).Ok?
    ensures PegElsewhere(ConnectFailed(p, height, m).value) == PegElsewhere(p)
  {
    hide Elsewhere;
    assert EntryOk(p, height, m);
    var BundleEntry(info, status) := p.bundles[m];
    if info.Known? && status.Latest().value.Submitted? {
      ReinstateConserves(p, info.bundle.spendUtxos, m);
    }
  }

  /** Peg events change the wealth and what circulates alike. */
  lemma EventConserves(p: PegState, height: nat, e: BlockEvent)
    requires PegInv(p, height) && GenuineEvent(p, e) && ConnectEvent(p, height, e).Ok?
    ensures PegElsewhere(ConnectEvent(p, height, e).value) == PegElsewhere(p)
  {
    match e
    case DepositEvent(txid, vout, output) => CreateChanges(Ledger(p.utxos, p.stxos), Deposit(txid, vout), output);
    case BundleEvent(m, EventSubmitted) => SubmittedConserves(p, height, m);
    case BundleEvent(m, EventConfirmed) => ConfirmedConserves(p, height, m);
    case BundleEvent(m, EventFailed) => FailedConserves(p, height, m);
  }

  /** ... and so does a whole list of them. */
  lemma {:induction false} EventsConserve(p: PegState, height: nat, events: seq<BlockEvent>, n: nat)
    requires PegInv(p, height) && GenuineEvents(p, events) && n <= |events|
    requires ConnectEvents(p, height, events[..n]).Ok?
    ensures PegElsewhere(ConnectEvents(p, height, events[..n]).value) == PegElsewhere(p)
    decreases n
  {
    if n > 0 {
      assert events[..n][..n - 1] == events[..n - 1] && events[..n][n - 1] == events[n - 1];
      ConnectEventsKeepInv(p, height, events, n - 1);
      EventsConserve(p, height, events, n - 1);
      var q := ConnectEvents(p, height, events[..n - 1]).value;
      assert GenuineEvent(q, events[n - 1]);
      EventConserves(q, height, events[n - 1]);
    }
  }
}
