/** What makes a block body acceptable on top of the current state, and the method that checks it. */
module Validation {
  import opened Types
  import opened Accumulator
  import opened State
  import opened Moves
  import opened SortScan
  import opened PegDiff

  datatype ValidationError =
    | PrevSideHash | TooManySigops | BodyTooLarge | InvalidBody | AmountOverflow | NoUtxo | UtxoDoubleSpent
    | EmptyAnchor | InvalidAnchor | UtxoHashMismatch | NotEnoughValueIn | UtreexoProofFailed | NotEnoughFees
    | WrongPubKeyForAddress | AuthorizationError | UtreexoFailed | UtreexoRootsMismatch

  /**
   Foreign code: size limits, proof and signature verification, the making of proofs, the encoding of
   outpoints as keys, and the order of outpoints.
   */
  datatype Foreign = Foreign(
    sigopsFit: (nat, nat) -> bool,
    sizeFits: (Body, nat) -> bool,
    proofHolds: (Forest, nat, seq<Leaf>) -> bool,
    signaturesHold: Body -> bool,
    key: OutPoint -> nat,
    rank: Rank,
    prove: (Forest, seq<Leaf>) -> Option<nat>)

  datatype FilledTransaction = FilledTransaction(transaction: Transaction, spentUtxos: seq<Output>)

  datatype PrevalidatedBlock = PrevalidatedBlock(
    filled: seq<FilledTransaction>, merkleRoot: MerkleRoot, totalFees: nat, coinbaseValue: nat,
    nextHeight: nat, diff: Diff)

  // --------------------------------------------------------------- filling inputs

  predicate InputsKnown(utxos: map<OutPoint, Output>, tx: Transaction) {
    forall i :: 0 <= i < |tx.core.inputs| ==> tx.core.inputs[i].0 in utxos
  }

  function SpentOutputs(utxos: map<OutPoint, Output>, tx: Transaction): seq<Output>
    requires InputsKnown(utxos, tx)
  {
    seq(|tx.core.inputs|, i requires 0 <= i < |tx.core.inputs| => utxos[tx.core.inputs[i].0])
  }

  function FilledOf(utxos: map<OutPoint, Output>, tx: Transaction): FilledTransaction
    requires InputsKnown(utxos, tx)
  {
    FilledTransaction(tx, SpentOutputs(utxos, tx))
  }

  predicate AllInputsKnown(utxos: map<OutPoint, Output>, txs: seq<Transaction>) {
    forall k {:trigger txs[k]} :: 0 <= k < |txs| ==> InputsKnown(utxos, txs[k])
  }

  function FillAll(utxos: map<OutPoint, Output>, txs: seq<Transaction>, k: nat): seq<FilledTransaction>
    requires k <= |txs| && AllInputsKnown(utxos, txs)
  {
    if k == 0 then [] else FillAll(utxos, txs, k - 1) + [FilledOf(utxos, txs[k - 1])]
  }

  /** The outputs spent by the first `k` transactions, in order. */
  function AllSpent(utxos: map<OutPoint, Output>, txs: seq<Transaction>, k: nat): seq<Output>
    requires k <= |txs| && AllInputsKnown(utxos, txs)
  {
    if k == 0 then [] else AllSpent(utxos, txs, k - 1) + SpentOutputs(utxos, txs[k - 1])
  }

  method FillTransaction(state: State, tx: Transaction) returns (r: Result<FilledTransaction, ValidationError>)
    ensures r == if InputsKnown(state.utxos, tx) then Ok(FilledOf(state.utxos, tx)) else Err(NoUtxo)
  {
    var spent: seq<Output> := [];
    for i := 0 to |tx.core.inputs|
      invariant |spent| == i
      invariant forall j :: 0 <= j < i ==> tx.core.inputs[j].0 in state.utxos && spent[j] == state.utxos[tx.core.inputs[j].0]
    {
      if tx.core.inputs[i].0 !in state.utxos {
        return Err(NoUtxo);
      }
      spent := spent + [state.utxos[tx.core.inputs[i].0]];
    }
    assert spent == SpentOutputs(state.utxos, tx);
    r := Ok(FilledTransaction(tx, spent));
  }

  // ---------------------------------------------------------------------- values

  function TotalValue(outputs: seq<Output>): nat {
    if outputs == [] then 0 else TotalValue(outputs[..|outputs| - 1]) + outputs[|outputs| - 1].GetValue()
  }

  lemma {:induction false} TotalValueGrows(outputs: seq<Output>, i: nat)
    requires i <= |outputs|
    ensures TotalValue(outputs[..i]) <= TotalValue(outputs)
    decreases |outputs| - i
  {
    if i == |outputs| {
      assert outputs[..i] == outputs;
    } else {
      assert outputs[..i + 1][..i] == outputs[..i];
      TotalValueGrows(outputs, i + 1);
    }
  }

  /** Adds up values with `checked_add`. */
  method CheckedSum(outputs: seq<Output>) returns (r: Option<nat>)
    ensures r == if TotalValue(outputs) <= MAX_AMOUNT then Some(TotalValue(outputs)) else None
  {
    var sum := 0;
    for i := 0 to |outputs|
      invariant sum == TotalValue(outputs[..i]) <= MAX_AMOUNT
    {
      assert outputs[..i + 1][..i] == outputs[..i];
      TotalValueGrows(outputs, i + 1);
      sum := sum + outputs[i].GetValue();
      if sum > MAX_AMOUNT {
        return None;
      }
    }
    assert outputs[..|outputs|] == outputs;
    r := Some(sum);
  }

  /** What the bundle of a transaction moves out of the shielded pool; negative when it moves in. */
  function BalanceOf(tx: Transaction): int {
    match tx.core.orchardBundle
    case None => 0
    case Some(b) => b.valueBalance
  }

  function ValueIn(f: FilledTransaction): nat {
    TotalValue(f.spentUtxos) + if BalanceOf(f.transaction) > 0 then BalanceOf(f.transaction) else 0
  }

  function ValueOut(f: FilledTransaction): nat {
    TotalValue(f.transaction.core.outputs) + if BalanceOf(f.transaction) > 0 then 0 else -BalanceOf(f.transaction)
  }

  /** Every input claims the leaf of the output that it spends. */
  predicate HashesMatch(f: FilledTransaction)
    requires |f.spentUtxos| == |f.transaction.core.inputs|
  {
    var inputs := f.transaction.core.inputs;
    forall i :: 0 <= i < |inputs| ==> inputs[i].1 == Leaf(inputs[i].0, f.spentUtxos[i])
  }

  /** The fee of a filled transaction. */
  function FeeOf(f: FilledTransaction): Result<nat, ValidationError>
    requires |f.spentUtxos| == |f.transaction.core.inputs|
  {
    if !HashesMatch(f) then Err(UtxoHashMismatch)
    else if ValueIn(f) > MAX_AMOUNT || ValueOut(f) > MAX_AMOUNT then Err(AmountOverflow)
    else if ValueOut(f) > ValueIn(f) then Err(NotEnoughValueIn)
    else Ok(ValueIn(f) - ValueOut(f))
  }

  method ValidateFilledTransaction(f: FilledTransaction) returns (r: Result<nat, ValidationError>)
    requires |f.spentUtxos| == |f.transaction.core.inputs|
    ensures r == FeeOf(f)
  {
    var inputs := f.transaction.core.inputs;
    for i := 0 to |inputs|
      invariant forall j :: 0 <= j < i ==> inputs[j].1 == Leaf(inputs[j].0, f.spentUtxos[j])
    {
      if inputs[i].1 != Leaf(inputs[i].0, f.spentUtxos[i]) {
        return Err(UtxoHashMismatch);
      }
    }
    var sumIn := CheckedSum(f.spentUtxos);
    if sumIn.None? {
      return Err(AmountOverflow);
    }
    var sumOut := CheckedSum(f.transaction.core.outputs);
    if sumOut.None? {
      return Err(AmountOverflow);
    }
    var valueIn, valueOut := sumIn.value, sumOut.value;
    match f.transaction.core.orchardBundle {
      case None =>
      case Some(b) =>
        if b.valueBalance > 0 {
          valueIn := valueIn + b.valueBalance;
        } else {
          valueOut := valueOut - b.valueBalance;
        }
    }
    if valueIn > MAX_AMOUNT || valueOut > MAX_AMOUNT {
      return Err(AmountOverflow);
    }
    if valueOut > valueIn {
      return Err(NotEnoughValueIn);
    }
    r := Ok(valueIn - valueOut);
  }

  // ---------------------------------------------------------------- transactions

  /** The anchor must be a root seen on this chain, and not the empty one if the bundle spends notes. */
  function CheckAnchor(roots: RootTables, tx: Transaction): Result<(), ValidationError> {
    match tx.core.orchardBundle
    case None => Ok(())
    case Some(b) =>
      if b.anchor == Root([]) && b.spendsEnabled then Err(EmptyAnchor)
      else if b.anchor !in roots.historicalRoots then Err(InvalidAnchor)
      else Ok(())
  }

  function ClaimedLeaves(tx: Transaction): seq<Leaf> {
    seq(|tx.core.inputs|, i requires 0 <= i < |tx.core.inputs| => tx.core.inputs[i].1)
  }

  /** The fees including those of one more transaction, or the first of its checks that fails. */
  function CheckOne(c: Contents, foreign: Foreign, tx: Transaction, fees: nat): Result<nat, ValidationError>
    requires InputsKnown(c.tables.peg.utxos, tx)
  {
    var _ :- CheckAnchor(c.orchard.roots, tx);
    var fee :- FeeOf(FilledOf(c.tables.peg.utxos, tx));
    if fees + fee > MAX_AMOUNT then Err(AmountOverflow)
    else if !foreign.proofHolds(c.accumulator, tx.proof, ClaimedLeaves(tx)) then Err(UtreexoProofFailed)
    else Ok(fees + fee)
  }

  /** The fees of the first `k` transactions, or the first check that fails. */
  function CheckAll(c: Contents, foreign: Foreign, txs: seq<Transaction>, k: nat): Result<nat, ValidationError>
    requires k <= |txs| && AllInputsKnown(c.tables.peg.utxos, txs)
  {
    if k == 0 then Ok(0)
    else
      var fees :- CheckAll(c, foreign, txs, k - 1);
      CheckOne(c, foreign, txs[k - 1], fees)
  }

  lemma {:induction false} FirstCheckStays(c: Contents, foreign: Foreign, txs: seq<Transaction>, i: nat, k: nat)
    requires i <= k <= |txs| && AllInputsKnown(c.tables.peg.utxos, txs) && CheckAll(c, foreign, txs, i).Err?
    ensures CheckAll(c, foreign, txs, k) == CheckAll(c, foreign, txs, i)
    decreases k
  {
    if i < k {
      FirstCheckStays(c, foreign, txs, i, k - 1);
    }
  }

  /** Each authorization is by the owner of the output in the same position. */
  predicate AddressesMatch(authorizations: seq<Authorization>, spent: seq<Output>) {
    forall i :: 0 <= i < |authorizations| && i < |spent| ==> authorizations[i].address == spent[i].address
  }

  function NextHeight(height: Option<nat>): nat {
    if height.None? then 0 else height.value + 1
  }

  function DiffOf(body: Body): Diff {
    RecordAll(Ops(MovesOf(body)))
  }

  /** The total fees of an acceptable block, or the first check that fails, in the order of the checks. */
  function Verdict(c: Contents, foreign: Foreign, header: Header, body: Body): Result<nat, ValidationError> {
    var height, utxos, txs := NextHeight(c.height), c.tables.peg.utxos, body.transactions;
    if header.prevSideHash != c.tip then Err(PrevSideHash)
    else if !foreign.sigopsFit(|body.authorizations|, height) then Err(TooManySigops)
    else if !foreign.sizeFits(body, height) then Err(BodyTooLarge)
    else if MerkleRootOf(body) != header.merkleRoot then Err(InvalidBody)
    else if TotalValue(body.coinbase) > MAX_AMOUNT then Err(AmountOverflow)
    else if !AllInputsKnown(utxos, txs) then Err(NoUtxo)
    else if !Distinct(SpentKeys(MovesOf(body))) then Err(UtxoDoubleSpent)
    else
      var fees :- CheckAll(c, foreign, txs, |txs|);
      if TotalValue(body.coinbase) > fees then Err(NotEnoughFees)
      else if !AddressesMatch(body.authorizations, AllSpent(utxos, txs, |txs|)) then Err(WrongPubKeyForAddress)
      else if !foreign.signaturesHold(body) then Err(AuthorizationError)
      else
        match Modify(c.accumulator, Adds(DiffOf(body)), Dels(DiffOf(body)))
        case Err(_) => Err(UtreexoFailed)
        case Ok(after) => if after != header.roots then Err(UtreexoRootsMismatch) else Ok(fees)
  }

  // ------------------------------------------------------------ recording the diff

  ghost predicate Recorded(diff: AccumulatorDiff, moves: seq<Move>)
    reads diff
  {
    diff.Valid() && diff.diff == RecordAll(Ops(moves))
  }

  lemma OneMoreCreate(done: seq<Move>, origin: Origin, outputs: seq<Output>, vout: nat)
    requires vout < |outputs|
    ensures done + Creates(origin, outputs, vout + 1) ==
            done + Creates(origin, outputs, vout) + [Create(origin.At(vout), outputs[vout])]
  {
    Associate(done, Creates(origin, outputs, vout), [Create(origin.At(vout), outputs[vout])]);
  }

  lemma OneMoreSpend(done: seq<Move>, txid: Txid, inputs: seq<(OutPoint, Leaf)>, vin: nat)
    requires vin < |inputs|
    ensures done + Spends(txid, inputs, vin + 1) ==
            done + Spends(txid, inputs, vin) + [Spend(inputs[vin].0, inputs[vin].1, RegularIn(txid, vin))]
  {
    Associate(done, Spends(txid, inputs, vin), [Spend(inputs[vin].0, inputs[vin].1, RegularIn(txid, vin))]);
  }

  lemma Associate<T>(a: seq<T>, b: seq<T>, c: seq<T>)
    ensures a + (b + c) == a + b + c
  {
  }

  /** Records one move. */
  method TrackOne(diff: AccumulatorDiff, ghost done: seq<Move>, move: Move)
    requires Recorded(diff, done)
    modifies diff
    ensures Recorded(diff, done + [move])
  {
    RecordOneMore(done, move);
    match move {
      case Create(o, output) => diff.Insert(Leaf(o, output));
      case Spend(_, leaf, _) => diff.Remove(leaf);
    }
  }

  method TrackCreates(diff: AccumulatorDiff, ghost done: seq<Move>, origin: Origin, outputs: seq<Output>)
    requires Recorded(diff, done)
    modifies diff
    ensures Recorded(diff, done + Creates(origin, outputs, |outputs|))
  {
    hide Recorded;
    assert done + Creates(origin, outputs, 0) == done;
    for vout := 0 to |outputs|
      invariant Recorded(diff, done + Creates(origin, outputs, vout))
    {
      OneMoreCreate(done, origin, outputs, vout);
      TrackOne(diff, done + Creates(origin, outputs, vout), Create(origin.At(vout), outputs[vout]));
    }
  }

  method TrackSpends(diff: AccumulatorDiff, ghost done: seq<Move>, txid: Txid, inputs: seq<(OutPoint, Leaf)>)
    requires Recorded(diff, done)
    modifies diff
    ensures Recorded(diff, done + Spends(txid, inputs, |inputs|))
  {
    hide Recorded;
    assert done + Spends(txid, inputs, 0) == done;
    for vin := 0 to |inputs|
      invariant Recorded(diff, done + Spends(txid, inputs, vin))
    {
      OneMoreSpend(done, txid, inputs, vin);
      TrackOne(diff, done + Spends(txid, inputs, vin), Spend(inputs[vin].0, inputs[vin].1, RegularIn(txid, vin)));
    }
  }

  method TrackTransaction(diff: AccumulatorDiff, ghost done: seq<Move>, tx: Transaction)
    requires Recorded(diff, done)
    modifies diff
    ensures Recorded(diff, done + AllOf(tx))
  {
    TrackSpends(diff, done, tx.Id(), tx.core.inputs);
    TrackCreates(diff, done + Spends(tx.Id(), tx.core.inputs, |tx.core.inputs|), FromTransaction(tx.Id()), tx.core.outputs);
    Associate(done, Spends(tx.Id(), tx.core.inputs, |tx.core.inputs|),
              Creates(FromTransaction(tx.Id()), tx.core.outputs, |tx.core.outputs|));
  }

  // ------------------------------------------------------------------ prevalidation

  method FillTransactions(state: State, body: Body) returns (r: Result<seq<FilledTransaction>, ValidationError>)
    ensures r == if AllInputsKnown(state.utxos, body.transactions)
                 then Ok(FillAll(state.utxos, body.transactions, |body.transactions|)) else Err(NoUtxo)
  {
    var txs := body.transactions;
    var filled: seq<FilledTransaction> := [];
    for k := 0 to |txs|
      invariant forall j :: 0 <= j < k ==> InputsKnown(state.utxos, txs[j])
      invariant AllInputsKnown(state.utxos, txs) ==> filled == FillAll(state.utxos, txs, k)
    {
      var f := FillTransaction(state, txs[k]);
      if f.Err? {
        return Err(NoUtxo);
      }
      filled := filled + [f.value];
    }
    r := Ok(filled);
  }

  lemma {:induction false} SpentKeysConcat(a: seq<Move>, b: seq<Move>)
    ensures SpentKeys(a + b) == SpentKeys(a) + SpentKeys(b)
    decreases |b|
  {
    if b == [] {
      assert a + b == a;
    } else {
      assert (a + b)[..|a + b| - 1] == a + b[..|b| - 1];
      SpentKeysConcat(a, b[..|b| - 1]);
    }
  }

  lemma {:induction false} CreatesSpendNothing(origin: Origin, outputs: seq<Output>, n: nat)
    requires n <= |outputs|
    ensures SpentKeys(Creates(origin, outputs, n)) == []
  {
    if n > 0 {
      CreatesSpendNothing(origin, outputs, n - 1);
    }
  }

  function Outpoints(inputs: seq<(OutPoint, Leaf)>): seq<OutPoint> {
    seq(|inputs|, i requires 0 <= i < |inputs| => inputs[i].0)
  }

  lemma {:induction false} SpendsSpendInputs(txid: Txid, inputs: seq<(OutPoint, Leaf)>, n: nat)
    requires n <= |inputs|
    ensures SpentKeys(Spends(txid, inputs, n)) == Outpoints(inputs)[..n]
  {
    if n > 0 {
      SpendsSpendInputs(txid, inputs, n - 1);
    }
  }

  lemma TxSpendsInputs(tx: Transaction)
    ensures SpentKeys(AllOf(tx)) == Outpoints(tx.core.inputs)
  {
    var n, m := |tx.core.inputs|, |tx.core.outputs|;
    SpentKeysConcat(Spends(tx.Id(), tx.core.inputs, n), Creates(FromTransaction(tx.Id()), tx.core.outputs, m));
    SpendsSpendInputs(tx.Id(), tx.core.inputs, n);
    CreatesSpendNothing(FromTransaction(tx.Id()), tx.core.outputs, m);
  }

  /** The inputs of all transactions, in order. */
  method CollectInputs(body: Body) returns (inputs: seq<OutPoint>)
    ensures inputs == SpentKeys(MovesOf(body))
  {
    inputs := [];
    CreatesSpendNothing(FromCoinbase(MerkleRootOf(body)), body.coinbase, |body.coinbase|);
    for k := 0 to |body.transactions|
      invariant inputs == SpentKeys(BodyMoves(body, k))
    {
      var tx := body.transactions[k];
      SpentKeysConcat(BodyMoves(body, k), AllOf(tx));
      TxSpendsInputs(tx);
      ghost var before := inputs;
      for vin := 0 to |tx.core.inputs|
        invariant inputs == before + Outpoints(tx.core.inputs)[..vin]
      {
        inputs := inputs + [tx.core.inputs[vin].0];
      }
      assert Outpoints(tx.core.inputs)[..|tx.core.inputs|] == Outpoints(tx.core.inputs);
    }
  }

  /** Checks one filled transaction, recording its moves in the diff; returns the fees so far. */
  method CheckTransaction(
    state: State, foreign: Foreign, ghost done: seq<Move>, f: FilledTransaction, fees: nat, diff: AccumulatorDiff)
    returns (r: Result<nat, ValidationError>)
    requires Recorded(diff, done) && InputsKnown(state.utxos, f.transaction) && f == FilledOf(state.utxos, f.transaction)
    modifies diff
    ensures r == CheckOne(state.Saved(), foreign, f.transaction, fees)
    ensures r.Ok? ==> Recorded(diff, done + AllOf(f.transaction))
  {
    hide AccumulatorDiff.Valid;
    var tx := f.transaction;
    var anchored := CheckAnchor(state.orchard.roots, tx);
    if anchored.Err? {
      return Err(anchored.error);
    }
    TrackTransaction(diff, done, tx);
    var fee := ValidateFilledTransaction(f);
    if fee.Err? {
      return Err(fee.error);
    }
    if fees + fee.value > MAX_AMOUNT {
      return Err(AmountOverflow);
    }
    if !foreign.proofHolds(state.accumulator, tx.proof, ClaimedLeaves(tx)) {
      return Err(UtreexoProofFailed);
    }
    r := Ok(fees + fee.value);
  }

  /** Checks the filled transactions one by one. */
  method CheckTransactions(state: State, foreign: Foreign, body: Body, filled: seq<FilledTransaction>, diff: AccumulatorDiff)
    returns (r: Result<nat, ValidationError>)
    requires Recorded(diff, BodyMoves(body, 0)) && AllInputsKnown(state.utxos, body.transactions)
    requires filled == FillAll(state.utxos, body.transactions, |body.transactions|)
    modifies diff
    ensures r == CheckAll(state.Saved(), foreign, body.transactions, |body.transactions|)
    ensures r.Ok? ==> Recorded(diff, MovesOf(body))
  {
    hide Recorded, CheckOne, SpentOutputs, InputsKnown;
    ghost var c := state.Saved();
    var fees := 0;
    for k := 0 to |body.transactions|
      invariant Recorded(diff, BodyMoves(body, k)) && CheckAll(c, foreign, body.transactions, k) == Ok(fees)
    {
      FilledAt(state.utxos, body.transactions, k, |body.transactions|);
      NextCheck(c, foreign, body.transactions, k, fees);
      var checked := CheckTransaction(state, foreign, BodyMoves(body, k), filled[k], fees, diff);
      if checked.Err? {
        return checked;
      }
      fees := checked.value;
    }
    r := Ok(fees);
  }

  lemma NextCheck(c: Contents, foreign: Foreign, txs: seq<Transaction>, k: nat, fees: nat)
    requires k < |txs| && AllInputsKnown(c.tables.peg.utxos, txs) && CheckAll(c, foreign, txs, k) == Ok(fees)
    ensures CheckAll(c, foreign, txs, k + 1) == CheckOne(c, foreign, txs[k], fees)
    ensures CheckAll(c, foreign, txs, k + 1).Err? ==> CheckAll(c, foreign, txs, |txs|) == CheckAll(c, foreign, txs, k + 1)
  {
    if CheckAll(c, foreign, txs, k + 1).Err? {
      FirstCheckStays(c, foreign, txs, k + 1, |txs|);
    }
  }

  lemma {:induction false} FilledAt(utxos: map<OutPoint, Output>, txs: seq<Transaction>, i: nat, k: nat)
    requires i < k <= |txs| && AllInputsKnown(utxos, txs)
    ensures InputsKnown(utxos, txs[i])
    ensures |FillAll(utxos, txs, k)| == k && FillAll(utxos, txs, k)[i] == FilledOf(utxos, txs[i])
    decreases k
  {
    if k > 1 {
      FilledAt(utxos, txs, if i < k - 1 then i else k - 2, k - 1);
    }
  }

  /** The outputs spent by the filled transactions, one after another. */
  method FlattenSpent(ghost utxos: map<OutPoint, Output>, ghost txs: seq<Transaction>, filled: seq<FilledTransaction>)
    returns (spent: seq<Output>)
    requires AllInputsKnown(utxos, txs) && filled == FillAll(utxos, txs, |txs|)
    ensures spent == AllSpent(utxos, txs, |txs|)
  {
    spent := [];
    if txs != [] {
      FilledAt(utxos, txs, 0, |txs|);
    }
    for k := 0 to |filled|
      invariant |filled| == |txs| && spent == AllSpent(utxos, txs, k)
    {
      FilledAt(utxos, txs, k, |txs|);
      spent := spent + filled[k].spentUtxos;
    }
  }

  method CheckAuthorizations(authorizations: seq<Authorization>, spent: seq<Output>) returns (ok: bool)
    ensures ok <==> AddressesMatch(authorizations, spent)
  {
    var i := 0;
    while i < |authorizations| && i < |spent|
      invariant forall j :: 0 <= j < i && j < |authorizations| && j < |spent| ==> authorizations[j].address == spent[j].address
    {
      if authorizations[i].address != spent[i].address {
        return false;
      }
      i := i + 1;
    }
    ok := true;
  }

  /** What prevalidation hands to the batched connect. */
  ghost predicate Describes(c: Contents, body: Body, p: PrevalidatedBlock) {
    && AllInputsKnown(c.tables.peg.utxos, body.transactions)
    && p.filled == FillAll(c.tables.peg.utxos, body.transactions, |body.transactions|)
    && p.merkleRoot == MerkleRootOf(body) && p.coinbaseValue == TotalValue(body.coinbase)
    && p.nextHeight == NextHeight(c.height) && p.diff == DiffOf(body)
  }

  /** Checks a block without changing the state. */
  method Prevalidate(state: State, foreign: Foreign, header: Header, body: Body)
    returns (r: Result<PrevalidatedBlock, ValidationError>)
    requires Injective(foreign.key)
    ensures match Verdict(state.Saved(), foreign, header, body)
            case Err(e) => r == Err(e)
            case Ok(fees) => r.Ok? && r.value.totalFees == fees && Describes(state.Saved(), body, r.value)
  {
    if header.prevSideHash != state.tip {
      return Err(PrevSideHash);
    }
    var height := NextHeight(state.height);
    if !foreign.sigopsFit(|body.authorizations|, height) {
      return Err(TooManySigops);
    }
    if !foreign.sizeFits(body, height) {
      return Err(BodyTooLarge);
    }
    var diff := new AccumulatorDiff();
    var merkleRoot := MerkleRootOf(body);
    if merkleRoot != header.merkleRoot {
      return Err(InvalidBody);
    }
    var coinbaseValue := CheckedSum(body.coinbase);
    if coinbaseValue.None? {
      return Err(AmountOverflow);
    }
    TrackCreates(diff, [], FromCoinbase(merkleRoot), body.coinbase);
    assert [] + BodyMoves(body, 0) == BodyMoves(body, 0);
    var filled := FillTransactions(state, body);
    if filled.Err? {
      return Err(filled.error);
    }
    var inputs := CollectInputs(body);
    var repeated := HasRepeat(inputs, foreign.key);
    if repeated {
      return Err(UtxoDoubleSpent);
    }
    var fees := CheckTransactions(state, foreign, body, filled.value, diff);
    if fees.Err? {
      return Err(fees.error);
    }
    if coinbaseValue.value > fees.value {
      return Err(NotEnoughFees);
    }
    var spent := FlattenSpent(state.utxos, body.transactions, filled.value);
    var authorized := CheckAuthorizations(body.authorizations, spent);
    if !authorized {
      return Err(WrongPubKeyForAddress);
    }
    if !foreign.signaturesHold(body) {
      return Err(AuthorizationError);
    }
    var after := ApplyDiff(state.accumulator, diff.diff);
    if after.Err? {
      return Err(UtreexoFailed);
    }
    if after.value != header.roots {
      return Err(UtreexoRootsMismatch);
    }
    r := Ok(PrevalidatedBlock(filled.value, merkleRoot, fees.value, coinbaseValue.value, height, diff.diff));
  }
}
