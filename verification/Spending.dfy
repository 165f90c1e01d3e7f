/**
 When a block is accepted, said of its transactions and the unspent outputs alone: who may spend what, what
 comes in and goes out, and what is left for the coinbase.
 */
module Spending {
  import opened Types
  import opened Accumulator
  import opened State
  import opened Moves
  import opened Validation
  import opened Acceptance
  import opened BlockEffect
  import BodyLists

  const MAX: nat := 0xFFFF_FFFF_FFFF_FFFF

  // -------------------------------------------------------------------- positions

  /** The number of inputs of the first `k` transactions. */
  function Inputs(txs: seq<Transaction>, k: nat): nat
    requires k <= |txs|
  {
    if k == 0 then 0 else Inputs(txs, k - 1) + |txs[k - 1].core.inputs|
  }

  /** The position of input `i` of transaction `k` among all inputs of the body. */
  function Position(body: Body, k: nat, i: nat): nat
    requires IsInput(body, k, i)
  {
    Inputs(body.transactions, k) + i
  }

  lemma {:induction false} InputsGrow(txs: seq<Transaction>, k: nat, n: nat)
    requires k <= n <= |txs|
    ensures Inputs(txs, k) <= Inputs(txs, n)
    ensures k < n ==> Inputs(txs, k) + |txs[k].core.inputs| <= Inputs(txs, n)
    decreases n
  {
    if k < n {
      InputsGrow(txs, k, n - 1);
    }
  }

  /** Every position below the total is that of one input. */
  lemma {:induction false} InputAtPosition(body: Body, n: nat, x: nat) returns (k: nat, i: nat)
    requires n <= |body.transactions| && x < Inputs(body.transactions, n)
    ensures k < n && IsInput(body, k, i) && Position(body, k, i) == x
    decreases n
  {
    if x < Inputs(body.transactions, n - 1) {
      k, i := InputAtPosition(body, n - 1, x);
    } else {
      k, i := n - 1, x - Inputs(body.transactions, n - 1);
    }
  }

  /** Different inputs have different positions. */
  lemma PositionsDiffer(body: Body, k: nat, i: nat, l: nat, j: nat)
    requires IsInput(body, k, i) && IsInput(body, l, j) && Position(body, k, i) == Position(body, l, j)
    ensures k == l && i == j
  {
    if k < l {
      InputsGrow(body.transactions, k, l);
    } else if l < k {
      InputsGrow(body.transactions, l, k);
    }
  }

  /** The outputs that are spent, by position. */
  lemma {:induction false} SpentAt(utxos: map<OutPoint, Output>, body: Body, n: nat, k: nat, i: nat)
    requires n <= |body.transactions| && AllInputsKnown(utxos, body.transactions)
    requires k < n && IsInput(body, k, i)
    ensures InputOf(body, k, i).0 in utxos
    ensures |AllSpent(utxos, body.transactions, n)| == Inputs(body.transactions, n) > Position(body, k, i)
    ensures AllSpent(utxos, body.transactions, n)[Position(body, k, i)] == utxos[InputOf(body, k, i).0]
    decreases n
  {
    var txs := body.transactions;
    assert InputsKnown(utxos, txs[k]);
    SpentCount(utxos, txs, n - 1);
    if k < n - 1 {
      SpentAt(utxos, body, n - 1, k, i);
    }
  }

  lemma {:induction false} SpentCount(utxos: map<OutPoint, Output>, txs: seq<Transaction>, n: nat)
    requires n <= |txs| && AllInputsKnown(utxos, txs)
    ensures |AllSpent(utxos, txs, n)| == Inputs(txs, n)
  {
    if n > 0 {
      SpentCount(utxos, txs, n - 1);
    }
  }

  /** The spent outpoints, by position. */
  lemma {:induction false} SpentKeyCount(body: Body, n: nat)
    requires n <= |body.transactions|
    ensures |SpentKeys(BodyMoves(body, n))| == Inputs(body.transactions, n)
  {
    if n == 0 {
      CreatesSpendNothing(FromCoinbase(MerkleRootOf(body)), body.coinbase, |body.coinbase|);
    } else {
      SpentKeyCount(body, n - 1);
      SpentKeysConcat(BodyMoves(body, n - 1), AllOf(body.transactions[n - 1]));
      TxSpendsInputs(body.transactions[n - 1]);
    }
  }

  lemma {:induction false} SpentKeyAt(body: Body, n: nat, k: nat, i: nat)
    requires k < n <= |body.transactions| && IsInput(body, k, i)
    ensures Position(body, k, i) < |SpentKeys(BodyMoves(body, n))|
    ensures SpentKeys(BodyMoves(body, n))[Position(body, k, i)] == InputOf(body, k, i).0
    decreases n
  {
    hide AllOf, SpentKeys, MerkleRootOf;
    SpentKeyCount(body, n - 1);
    SpentKeyCount(body, n);
    SpentKeysConcat(BodyMoves(body, n - 1), AllOf(body.transactions[n - 1]));
    TxSpendsInputs(body.transactions[n - 1]);
    InputsGrow(body.transactions, k, n);
    if k < n - 1 {
      SpentKeyAt(body, n - 1, k, i);
    }
  }

  /** No outpoint is spent by two inputs. */
  ghost predicate NoDoubleSpend(body: Body) {
    forall k: nat, i: nat, l: nat, j: nat {:trigger IsInput(body, k, i), IsInput(body, l, j)} |
      IsInput(body, k, i) && IsInput(body, l, j) && (k != l || i != j) :: InputOf(body, k, i).0 != InputOf(body, l, j).0
  }

  lemma DistinctMeans(body: Body)
    ensures Distinct(SpentKeys(MovesOf(body))) <==> NoDoubleSpend(body)
  {
    hide SpentKeys, BodyMoves, IsInput, Position;
    var n, keys := |body.transactions|, SpentKeys(MovesOf(body));
    SpentKeyCount(body, n);
    if Distinct(keys) {
      forall k: nat, i: nat, l: nat, j: nat {:trigger IsInput(body, k, i), IsInput(body, l, j)} |
        IsInput(body, k, i) && IsInput(body, l, j) && (k != l || i != j)
        ensures InputOf(body, k, i).0 != InputOf(body, l, j).0
      {
        KeysOfBoth(body, k, i, l, j);
      }
    }
    if NoDoubleSpend(body) {
      forall x, y | 0 <= x < y < |keys|
        ensures keys[x] != keys[y]
      {
        var k, i := InputAtPosition(body, n, x);
        var l, j := InputAtPosition(body, n, y);
        KeysOfBoth(body, k, i, l, j);
      }
    }
  }

  lemma KeysOfBoth(body: Body, k: nat, i: nat, l: nat, j: nat)
    requires IsInput(body, k, i) && IsInput(body, l, j)
    ensures var keys := SpentKeys(MovesOf(body));
            && Position(body, k, i) < |keys| && keys[Position(body, k, i)] == InputOf(body, k, i).0
            && Position(body, l, j) < |keys| && keys[Position(body, l, j)] == InputOf(body, l, j).0
            && (Position(body, k, i) == Position(body, l, j) ==> k == l && i == j)
  {
    SpentKeyAt(body, |body.transactions|, k, i);
    SpentKeyAt(body, |body.transactions|, l, j);
    if Position(body, k, i) == Position(body, l, j) {
      PositionsDiffer(body, k, i, l, j);
    }
  }

  // ---------------------------------------------------------------- who may spend

  /** Every authorization at the position of an input is by the owner of the output that is spent. */
  ghost predicate OwnersAuthorize(utxos: map<OutPoint, Output>, body: Body) {
    forall k: nat, i: nat {:trigger IsInput(body, k, i)} | IsInput(body, k, i) && Position(body, k, i) < |body.authorizations| ::
      InputOf(body, k, i).0 in utxos && body.authorizations[Position(body, k, i)].address == utxos[InputOf(body, k, i).0].address
  }

  lemma OwnersMean(utxos: map<OutPoint, Output>, body: Body)
    requires AllInputsKnown(utxos, body.transactions)
    ensures AddressesMatch(body.authorizations, AllSpent(utxos, body.transactions, |body.transactions|)) <==> OwnersAuthorize(utxos, body)
  {
    hide AllSpent, IsInput, Position, AllInputsKnown;
    var n := |body.transactions|;
    var spent := AllSpent(utxos, body.transactions, n);
    SpentCount(utxos, body.transactions, n);
    if AddressesMatch(body.authorizations, spent) {
      forall k: nat, i: nat {:trigger IsInput(body, k, i)} | IsInput(body, k, i) && Position(body, k, i) < |body.authorizations|
        ensures InputOf(body, k, i).0 in utxos
        ensures body.authorizations[Position(body, k, i)].address == utxos[InputOf(body, k, i).0].address
      {
        SpentAtInput(utxos, body, k, i);
      }
    }
    if OwnersAuthorize(utxos, body) {
      forall x | 0 <= x < |body.authorizations| && x < |spent|
        ensures body.authorizations[x].address == spent[x].address
      {
        var k, i := InputAtPosition(body, n, x);
        SpentAtInput(utxos, body, k, i);
      }
    }
  }

  lemma SpentAtInput(utxos: map<OutPoint, Output>, body: Body, k: nat, i: nat)
    requires AllInputsKnown(utxos, body.transactions) && IsInput(body, k, i)
    ensures InputOf(body, k, i).0 in utxos
    ensures Position(body, k, i) < |AllSpent(utxos, body.transactions, |body.transactions|)|
    ensures AllSpent(utxos, body.transactions, |body.transactions|)[Position(body, k, i)] == utxos[InputOf(body, k, i).0]
  {
    SpentAt(utxos, body, |body.transactions|, k, i);
  }

  /** The transactions that an accepted body unpacks to are authorized by the owners of what they spend. */
  lemma UnpackedOwners(utxos: map<OutPoint, Output>, body: Body, k: nat, i: nat)
    requires OwnersAuthorize(utxos, body) && IsInput(body, k, i)
    requires BodyLists.Unpack(body.transactions, body.authorizations).Some?
    ensures var tx := BodyLists.Unpack(body.transactions, body.authorizations).value;
            && k < |tx| && i < |tx[k].authorizations| && InputOf(body, k, i).0 in utxos
            && tx[k].authorizations[i].address == utxos[InputOf(body, k, i).0].address
  {
    assert body.transactions[..|body.transactions|] == body.transactions;
    UnpackedAt(body.transactions, body.authorizations, |body.transactions|, k);
  }

  lemma {:induction false} UnpackedAt(txs: seq<Transaction>, authorizations: seq<Authorization>, n: nat, k: nat)
    requires k < n <= |txs| && BodyLists.Unpack(txs[..n], authorizations).Some?
    ensures var unpacked := BodyLists.Unpack(txs[..n], authorizations).value;
            && |unpacked| == n && Inputs(txs, k) + |txs[k].core.inputs| <= |authorizations|
            && unpacked[k].authorizations == authorizations[Inputs(txs, k)..Inputs(txs, k) + |txs[k].core.inputs|]
    decreases n
  {
    CountsAgree(txs, n);
    CountsAgree(txs, n - 1);
    assert txs[..n][..n - 1] == txs[..n - 1];
    if n > 1 {
      UnpackedAt(txs, authorizations, n - 1, if k < n - 1 then k else 0);
    }
  }

  lemma {:induction false} CountsAgree(txs: seq<Transaction>, n: nat)
    requires n <= |txs|
    ensures BodyLists.InputCount(txs[..n]) == Inputs(txs, n)
  {
    if n > 0 {
      assert txs[..n][..n - 1] == txs[..n - 1];
      CountsAgree(txs, n - 1);
    }
  }

  // ----------------------------------------------------------- what comes in and out

  /** What an output costs whoever creates it: its amount, or its payout and its mainchain fee. */
  function CostOf(output: Output): nat {
    match output.content
    case Value(amount) => amount
    case Withdrawal(payout, mainFee, _) => payout + mainFee
  }

  /** The costs of outputs, each capped at the largest amount. */
  function CappedCosts(outputs: seq<Output>): nat {
    if outputs == [] then 0
    else CappedCosts(outputs[1..]) + if CostOf(outputs[0]) <= MAX then CostOf(outputs[0]) else MAX
  }

  function CostsOf(outputs: seq<Output>): nat {
    if outputs == [] then 0 else CostsOf(outputs[1..]) + CostOf(outputs[0])
  }

  lemma {:induction false} CappedIsTotal(outputs: seq<Output>)
    ensures CappedCosts(outputs) == TotalValue(outputs)
  {
    if outputs != [] {
      CappedIsTotal(outputs[1..]);
      assert outputs == [outputs[0]] + outputs[1..];
      TotalValueConcat([outputs[0]], outputs[1..]);
      assert [outputs[0]][..0] == [];
      assert TotalValue([outputs[0]]) == outputs[0].GetValue();
    }
  }

  /** Without capped outputs the costs are just added up. */
  lemma {:induction false} UncappedCosts(outputs: seq<Output>)
    ensures CappedCosts(outputs) <= CostsOf(outputs)
    ensures CappedCosts(outputs) == CostsOf(outputs) <==> forall i | 0 <= i < |outputs| :: CostOf(outputs[i]) <= MAX
    ensures forall i | 0 <= i < |outputs| && CostOf(outputs[i]) <= MAX :: CostOf(outputs[i]) <= CappedCosts(outputs)
  {
    if outputs != [] {
      UncappedCosts(outputs[1..]);
      assert forall i | 0 < i < |outputs| :: outputs[i] == outputs[1..][i - 1];
    }
  }

  /** What the shielded pool hands out to a transaction; negative when it takes in. */
  function FromPool(tx: Transaction): int {
    if tx.core.orchardBundle.Some? then tx.core.orchardBundle.value.valueBalance else 0
  }

  function OutputsSpent(utxos: map<OutPoint, Output>, tx: Transaction): seq<Output>
    requires forall i | 0 <= i < |tx.core.inputs| :: tx.core.inputs[i].0 in utxos
  {
    seq(|tx.core.inputs|, i requires 0 <= i < |tx.core.inputs| => utxos[tx.core.inputs[i].0])
  }

  /** The value that comes into a transaction, and that goes out of it. */
  function ComesIn(utxos: map<OutPoint, Output>, tx: Transaction): nat
    requires forall i | 0 <= i < |tx.core.inputs| :: tx.core.inputs[i].0 in utxos
  {
    CappedCosts(OutputsSpent(utxos, tx)) + if FromPool(tx) > 0 then FromPool(tx) else 0
  }

  function GoesOut(tx: Transaction): nat {
    CappedCosts(tx.core.outputs) + if FromPool(tx) < 0 then -FromPool(tx) else 0
  }

  /** The leaves that the inputs claim. */
  function Claims(inputs: seq<(OutPoint, Leaf)>): seq<Leaf> {
    seq(|inputs|, i requires 0 <= i < |inputs| => inputs[i].1)
  }

  /** The transaction spends unspent outputs under their leaves, with a known anchor and a proof, and pays for what it creates. */
  ghost predicate LawfulTx(c: Contents, foreign: Foreign, tx: Transaction) {
    var utxos, inputs := c.tables.peg.utxos, tx.core.inputs;
    && (forall i | 0 <= i < |inputs| :: inputs[i].0 in utxos)
    && (forall i | 0 <= i < |inputs| :: inputs[i].1 == Leaf(inputs[i].0, utxos[inputs[i].0]))
    && GoesOut(tx) <= ComesIn(utxos, tx) <= MAX
    && (tx.core.orchardBundle.Some? ==>
          var b := tx.core.orchardBundle.value;
          b.anchor in c.orchard.roots.historicalRoots && !(b.spendsEnabled && b.anchor.commitments == []))
    && foreign.proofHolds(c.accumulator, tx.proof, Claims(inputs))
  }

  /** The inputs of all transactions are unspent. */
  ghost predicate AllUnspent(utxos: map<OutPoint, Output>, txs: seq<Transaction>) {
    forall k, i {:trigger txs[k].core.inputs[i]} | 0 <= k < |txs| && 0 <= i < |txs[k].core.inputs| :: txs[k].core.inputs[i].0 in utxos
  }

  /** What the first `n` transactions leave over. */
  ghost function LeftOver(utxos: map<OutPoint, Output>, txs: seq<Transaction>, n: nat): int
    requires n <= |txs| && AllUnspent(utxos, txs)
  {
    if n == 0 then 0 else LeftOver(utxos, txs, n - 1) + ComesIn(utxos, txs[n - 1]) - GoesOut(txs[n - 1])
  }

  lemma ValuesAgree(utxos: map<OutPoint, Output>, tx: Transaction)
    requires InputsKnown(utxos, tx)
    ensures ComesIn(utxos, tx) == ValueIn(FilledOf(utxos, tx)) && GoesOut(tx) == ValueOut(FilledOf(utxos, tx))
  {
    assert OutputsSpent(utxos, tx) == SpentOutputs(utxos, tx);
    CappedIsTotal(SpentOutputs(utxos, tx));
    CappedIsTotal(tx.core.outputs);
  }

  lemma LawfulMeans(c: Contents, foreign: Foreign, tx: Transaction)
    requires InputsKnown(c.tables.peg.utxos, tx)
    ensures TxAcceptable(c, foreign, tx) <==> LawfulTx(c, foreign, tx)
  {
    hide ValueIn, ValueOut, ComesIn, GoesOut;
    ValuesAgree(c.tables.peg.utxos, tx);
    assert ClaimedLeaves(tx) == Claims(tx.core.inputs);
  }

  lemma AllUnspentMeans(utxos: map<OutPoint, Output>, txs: seq<Transaction>)
    ensures AllUnspent(utxos, txs) <==> AllInputsKnown(utxos, txs)
  {
    if AllUnspent(utxos, txs) {
      forall k {:trigger txs[k]} | 0 <= k < |txs|
        ensures InputsKnown(utxos, txs[k])
      {
      }
    }
  }

  lemma {:induction false} AllLawfulMeans(c: Contents, foreign: Foreign, txs: seq<Transaction>, n: nat)
    requires n <= |txs| && AllInputsKnown(c.tables.peg.utxos, txs)
    ensures AllAcceptable(c, foreign, txs, n) <==> forall k | 0 <= k < n :: LawfulTx(c, foreign, txs[k])
  {
    hide TxAcceptable, LawfulTx, InputsKnown;
    if n > 0 {
      AllLawfulMeans(c, foreign, txs, n - 1);
      LawfulMeans(c, foreign, txs[n - 1]);
    }
  }

  lemma {:induction false} FeesAreLeftOver(c: Contents, foreign: Foreign, txs: seq<Transaction>, n: nat)
    requires n <= |txs| && AllInputsKnown(c.tables.peg.utxos, txs) && AllUnspent(c.tables.peg.utxos, txs)
    ensures FeesLeft(c, txs, n) == LeftOver(c.tables.peg.utxos, txs, n)
  {
    hide ValueIn, ValueOut, ComesIn, GoesOut;
    if n > 0 {
      FeesAreLeftOver(c, foreign, txs, n - 1);
      assert InputsKnown(c.tables.peg.utxos, txs[n - 1]);
      ValuesAgree(c.tables.peg.utxos, txs[n - 1]);
      FeesLeftStep(c, foreign, txs, n - 1);
    } else {
      assert TotalValue([]) == 0;
    }
  }

  // --------------------------------------------------------------- accepted blocks

  /** The header commits to the rewards and to the transactions, in order. */
  ghost predicate CommitsToBody(root: MerkleRoot, body: Body) {
    && root.coinbase == body.coinbase && |root.transactions| == |body.transactions|
    && forall k | 0 <= k < |body.transactions| :: root.transactions[k] == body.transactions[k].core
  }

  lemma RootMeans(root: MerkleRoot, body: Body)
    ensures root == MerkleRootOf(body) <==> CommitsToBody(root, body)
  {
    if CommitsToBody(root, body) {
      assert root.transactions == MerkleRootOf(body).transactions;
    }
  }

  /** A block that extends the tip, spends what is unspent, and pays for what it creates. */
  ghost predicate Sound(c: Contents, foreign: Foreign, header: Header, body: Body) {
    var utxos, txs := c.tables.peg.utxos, body.transactions;
    && header.prevSideHash == c.tip && CommitsToBody(header.merkleRoot, body)
    && foreign.sigopsFit(|body.authorizations|, if c.height.Some? then c.height.value + 1 else 0)
    && foreign.sizeFits(body, if c.height.Some? then c.height.value + 1 else 0)
    && AllUnspent(utxos, txs) && NoDoubleSpend(body)
    && (forall k | 0 <= k < |txs| :: LawfulTx(c, foreign, txs[k]))
    && CappedCosts(body.coinbase) <= LeftOver(utxos, txs, |txs|) <= MAX
  }

  /** A block that may become the tip. */
  ghost predicate Lawful(c: Contents, foreign: Foreign, header: Header, body: Body) {
    && Sound(c, foreign, header, body)
    && OwnersAuthorize(c.tables.peg.utxos, body) && foreign.signaturesHold(body)
    && Modify(c.accumulator, Adds(DiffOf(body)), Dels(DiffOf(body))) == Ok(header.roots)
  }

  /** Exactly the lawful blocks are accepted, and their fees are what is left over. */
  lemma AcceptedIsLawful(c: Contents, foreign: Foreign, header: Header, body: Body)
    ensures Verdict(c, foreign, header, body).Ok? <==> Lawful(c, foreign, header, body)
    ensures Lawful(c, foreign, header, body) ==>
              Verdict(c, foreign, header, body) == Ok(LeftOver(c.tables.peg.utxos, body.transactions, |body.transactions|))
  {
    hide Verdict, MerkleRootOf, CommitsToBody, NoDoubleSpend, OwnersAuthorize, LawfulTx, FeesLeft, AllSpent, AddressesMatch, SpentKeys, BodyMoves, AllUnspent, AllInputsKnown, DiffOf, AllAcceptable;
    var utxos, txs := c.tables.peg.utxos, body.transactions;
    AcceptedExactly(c, foreign, header, body);
    RootMeans(header.merkleRoot, body);
    DistinctMeans(body);
    AllUnspentMeans(utxos, txs);
    CappedIsTotal(body.coinbase);
    if AllInputsKnown(utxos, txs) {
      AllLawfulMeans(c, foreign, txs, |txs|);
      FeesAreLeftOver(c, foreign, txs, |txs|);
      OwnersMean(utxos, body);
    }
  }

  /** A sound block is refused for a wrong address exactly when some input is authorized by another than its owner. */
  lemma OthersAreRefused(c: Contents, foreign: Foreign, header: Header, body: Body)
    ensures Verdict(c, foreign, header, body) == Err(WrongPubKeyForAddress) <==>
              Sound(c, foreign, header, body) && !OwnersAuthorize(c.tables.peg.utxos, body)
  {
    hide MerkleRootOf, CommitsToBody, NoDoubleSpend, OwnersAuthorize, LawfulTx, FeesLeft, AllSpent, AddressesMatch, SpentKeys, BodyMoves, AllUnspent, AllInputsKnown, DiffOf, AllAcceptable;
    var utxos, txs := c.tables.peg.utxos, body.transactions;
    RootMeans(header.merkleRoot, body);
    DistinctMeans(body);
    AllUnspentMeans(utxos, txs);
    CappedIsTotal(body.coinbase);
    if AllInputsKnown(utxos, txs) {
      AllLawfulMeans(c, foreign, txs, |txs|);
      FeesAreLeftOver(c, foreign, txs, |txs|);
      ChecksMean(c, foreign, txs, |txs|);
      ChecksNameOthers(c, foreign, txs, |txs|);
      OwnersMean(utxos, body);
    }
  }

  lemma {:induction false} ChecksNameOthers(c: Contents, foreign: Foreign, txs: seq<Transaction>, n: nat)
    requires n <= |txs| && AllInputsKnown(c.tables.peg.utxos, txs)
    ensures CheckAll(c, foreign, txs, n) != Err(WrongPubKeyForAddress)
  {
    if n > 0 {
      ChecksNameOthers(c, foreign, txs, n - 1);
    }
  }

  /**
   In a lawful transaction a created withdrawal is paid for, with its mainchain fee, by what comes in, exactly
   when payout and fee together fit an amount.
   */
  lemma WithdrawalsArePaidFor(c: Contents, foreign: Foreign, tx: Transaction, v: nat)
    requires LawfulTx(c, foreign, tx) && v < |tx.core.outputs|
    ensures CostOf(tx.core.outputs[v]) <= ComesIn(c.tables.peg.utxos, tx) <==> CostOf(tx.core.outputs[v]) <= MAX
  {
    UncappedCosts(tx.core.outputs);
  }

  /** A capped withdrawal is not paid for: 50 satoshis of mainchain fee come for free on top of the largest payout. */
  lemma CappedWithdrawalIsFree(address: MainAddress)
    ensures var f := FilledTransaction(
              Transaction(TxCore([(OUTPOINT, Leaf(OUTPOINT, RICH))], [Output(0, Withdrawal(MAX, 50, address))], None), 0), [RICH]);
            FeeOf(f) == Ok(0) && CostOf(f.transaction.core.outputs[0]) == CostOf(RICH) + 50
  {
    var created := Output(0, Withdrawal(MAX, 50, address));
    assert [created][..0] == [] && [RICH][..0] == [];
    assert TotalValue([created]) == MAX && TotalValue([RICH]) == MAX;
  }

  const RICH: Output := Output(0, Value(MAX))
  const OUTPOINT: OutPoint := Deposit(MainTxid(0, [RICH]), 0)
}
