/** What an accepted block guarantees: the declarative reading of the checks. */
module Acceptance {
  import opened Types
  import opened Accumulator
  import opened State
  import opened Moves
  import opened Validation

  ghost predicate TxAcceptable(c: Contents, foreign: Foreign, tx: Transaction)
    requires InputsKnown(c.tables.peg.utxos, tx)
  {
    var f := FilledOf(c.tables.peg.utxos, tx);
    && (tx.core.orchardBundle.Some? ==>
          var b := tx.core.orchardBundle.value;
          b.anchor in c.orchard.roots.historicalRoots && (b.spendsEnabled ==> b.anchor != Root([])))
    && HashesMatch(f) && ValueOut(f) <= ValueIn(f) <= MAX_AMOUNT
    && foreign.proofHolds(c.accumulator, tx.proof, ClaimedLeaves(tx))
  }

  ghost predicate AllAcceptable(c: Contents, foreign: Foreign, txs: seq<Transaction>, k: nat)
    requires k <= |txs|
  {
    k == 0 ||
    (&& AllAcceptable(c, foreign, txs, k - 1)
     && InputsKnown(c.tables.peg.utxos, txs[k - 1]) && TxAcceptable(c, foreign, txs[k - 1]))
  }

  /** The values of the outputs created by the first `k` transactions. */
  function CreatedValue(txs: seq<Transaction>, k: nat): nat
    requires k <= |txs|
  {
    if k == 0 then 0 else CreatedValue(txs, k - 1) + TotalValue(txs[k - 1].core.outputs)
  }

  /** The net value that the first `k` transactions move out of the shielded pool. */
  function BalanceSum(txs: seq<Transaction>, k: nat): int
    requires k <= |txs|
  {
    if k == 0 then 0 else BalanceSum(txs, k - 1) + BalanceOf(txs[k - 1])
  }

  lemma {:induction false} TotalValueConcat(a: seq<Output>, b: seq<Output>)
    ensures TotalValue(a + b) == TotalValue(a) + TotalValue(b)
    decreases |b|
  {
    if b == [] {
      assert a + b == a;
    } else {
      assert (a + b)[..|a + b| - 1] == a + b[..|b| - 1];
      TotalValueConcat(a, b[..|b| - 1]);
    }
  }

  /** The fees that the first `k` transactions leave: what they spend less what they create. */
  ghost function FeesLeft(c: Contents, txs: seq<Transaction>, k: nat): int
    requires k <= |txs| && AllInputsKnown(c.tables.peg.utxos, txs)
  {
    TotalValue(AllSpent(c.tables.peg.utxos, txs, k)) + BalanceSum(txs, k) - CreatedValue(txs, k)
  }

  lemma FeesLeftStep(c: Contents, foreign: Foreign, txs: seq<Transaction>, k: nat)
    requires k < |txs| && AllInputsKnown(c.tables.peg.utxos, txs)
    ensures var f := FilledOf(c.tables.peg.utxos, txs[k]);
            FeesLeft(c, txs, k + 1) == FeesLeft(c, txs, k) + ValueIn(f) - ValueOut(f)
  {
    TotalValueConcat(AllSpent(c.tables.peg.utxos, txs, k), SpentOutputs(c.tables.peg.utxos, txs[k]));
  }

  lemma CheckOneMeans(c: Contents, foreign: Foreign, tx: Transaction, fees: nat)
    requires InputsKnown(c.tables.peg.utxos, tx)
    ensures var r, f := CheckOne(c, foreign, tx, fees), FilledOf(c.tables.peg.utxos, tx);
            && (r.Ok? <==> TxAcceptable(c, foreign, tx) && fees + ValueIn(f) - ValueOut(f) <= MAX_AMOUNT)
            && (r.Ok? ==> r.value == fees + ValueIn(f) - ValueOut(f))
  {
  }

  /** All transactions pass exactly when each is acceptable and their fees fit; no value appears. */
  lemma {:induction false} ChecksMean(c: Contents, foreign: Foreign, txs: seq<Transaction>, k: nat)
    requires k <= |txs| && AllInputsKnown(c.tables.peg.utxos, txs)
    ensures CheckAll(c, foreign, txs, k).Ok? <==> AllAcceptable(c, foreign, txs, k) && FeesLeft(c, txs, k) <= MAX_AMOUNT
    ensures CheckAll(c, foreign, txs, k).Ok? ==> CheckAll(c, foreign, txs, k).value == FeesLeft(c, txs, k)
  {
    if k > 0 {
      ChecksMean(c, foreign, txs, k - 1);
      FeesLeftStep(c, foreign, txs, k - 1);
      var before := CheckAll(c, foreign, txs, k - 1);
      if before.Ok? {
        CheckOneMeans(c, foreign, txs[k - 1], before.value);
      }
    }
  }

  /** The block extends the tip, passes every check, and commits to the accumulator after it. */
  ghost predicate Acceptable(c: Contents, foreign: Foreign, header: Header, body: Body) {
    var utxos, txs, n := c.tables.peg.utxos, body.transactions, |body.transactions|;
    && header.prevSideHash == c.tip && header.merkleRoot == MerkleRootOf(body)
    && foreign.sigopsFit(|body.authorizations|, NextHeight(c.height)) && foreign.sizeFits(body, NextHeight(c.height))
    && AllInputsKnown(utxos, txs) && Distinct(SpentKeys(MovesOf(body)))
    && AllAcceptable(c, foreign, txs, n)
    && TotalValue(body.coinbase) <= FeesLeft(c, txs, n) <= MAX_AMOUNT
    && AddressesMatch(body.authorizations, AllSpent(utxos, txs, n)) && foreign.signaturesHold(body)
    && Modify(c.accumulator, Adds(DiffOf(body)), Dels(DiffOf(body))) == Ok(header.roots)
  }

  /** The checks accept exactly the acceptable blocks, and the fees are all the value left over. */
  lemma AcceptedExactly(c: Contents, foreign: Foreign, header: Header, body: Body)
    ensures Verdict(c, foreign, header, body).Ok? <==> Acceptable(c, foreign, header, body)
    ensures Verdict(c, foreign, header, body).Ok? ==>
              Verdict(c, foreign, header, body).value == FeesLeft(c, body.transactions, |body.transactions|)
  {
    if AllInputsKnown(c.tables.peg.utxos, body.transactions) {
      ChecksMean(c, foreign, body.transactions, |body.transactions|);
    }
  }

  // ------------------------------------------------------- moves of accepted blocks

  lemma {:induction false} TxSpendsMatch(utxos: map<OutPoint, Output>, tx: Transaction, n: nat)
    requires InputsKnown(utxos, tx) && HashesMatch(FilledOf(utxos, tx)) && n <= |tx.core.inputs|
    ensures LeavesMatch(utxos, Spends(tx.Id(), tx.core.inputs, n))
  {
    if n > 0 {
      TxSpendsMatch(utxos, tx, n - 1);
      assert FilledOf(utxos, tx).spentUtxos[n - 1] == utxos[tx.core.inputs[n - 1].0];
    }
  }

  lemma {:induction false} CreatesMatch(utxos: map<OutPoint, Output>, origin: Origin, outputs: seq<Output>, n: nat)
    requires n <= |outputs|
    ensures LeavesMatch(utxos, Creates(origin, outputs, n))
  {
    if n > 0 {
      CreatesMatch(utxos, origin, outputs, n - 1);
    }
  }

  lemma MatchConcat(utxos: map<OutPoint, Output>, a: seq<Move>, b: seq<Move>)
    requires LeavesMatch(utxos, a) && LeavesMatch(utxos, b)
    ensures LeavesMatch(utxos, a + b)
  {
    forall m {:trigger m in a + b} | m in a + b && m.Spend?
      ensures m.outpoint in utxos && m.leaf == Leaf(m.outpoint, utxos[m.outpoint])
    {
      assert m in a || m in b;
    }
  }

  lemma {:induction false} BodyMatches(c: Contents, foreign: Foreign, body: Body, k: nat)
    requires k <= |body.transactions| && AllAcceptable(c, foreign, body.transactions, k)
    ensures LeavesMatch(c.tables.peg.utxos, BodyMoves(body, k))
  {
    var utxos := c.tables.peg.utxos;
    if k == 0 {
      CreatesMatch(utxos, FromCoinbase(MerkleRootOf(body)), body.coinbase, |body.coinbase|);
    } else {
      var tx := body.transactions[k - 1];
      BodyMatches(c, foreign, body, k - 1);
      TxSpendsMatch(utxos, tx, |tx.core.inputs|);
      CreatesMatch(utxos, FromTransaction(tx.Id()), tx.core.outputs, |tx.core.outputs|);
      MatchConcat(utxos, Spends(tx.Id(), tx.core.inputs, |tx.core.inputs|),
                  Creates(FromTransaction(tx.Id()), tx.core.outputs, |tx.core.outputs|));
      MatchConcat(utxos, BodyMoves(body, k - 1), AllOf(tx));
    }
  }

  lemma {:induction false} SpentKeyIsSpend(moves: seq<Move>, o: OutPoint)
    requires o in SpentKeys(moves)
    ensures exists m :: m in moves && m.Spend? && m.outpoint == o
  {
    var init, last := moves[..|moves| - 1], moves[|moves| - 1];
    assert moves == init + [last];
    if o in SpentKeys(init) {
      SpentKeyIsSpend(init, o);
    } else {
      assert last in moves && last.Spend? && last.outpoint == o;
    }
  }

  /** An accepted block spends unspent outputs, each once, under their own leaves. */
  lemma AcceptedMoves(c: Contents, foreign: Foreign, header: Header, body: Body)
    requires Verdict(c, foreign, header, body).Ok?
    ensures Spendable(c.tables.peg.utxos, MovesOf(body)) && LeavesMatch(c.tables.peg.utxos, MovesOf(body))
  {
    AcceptedExactly(c, foreign, header, body);
    BodyMatches(c, foreign, body, |body.transactions|);
    forall o | o in SpentKeys(MovesOf(body))
      ensures o in c.tables.peg.utxos
    {
      SpentKeyIsSpend(MovesOf(body), o);
    }
  }

  lemma AcceptedExtends(c: Contents, foreign: Foreign, header: Header, body: Body)
    requires Verdict(c, foreign, header, body).Ok?
    ensures header.prevSideHash == c.tip
  {
  }
}
