/** Disconnecting the tip: its transactions are taken back last to first, then its coinbase. */
module Disconnect {
  import opened Types
  import opened Accumulator
  import opened State
  import opened Moves
  import opened Shielded
  import opened Validation
  import opened BlockSpec

  /** The moves `rest` are still to be taken back: doing so leads where taking all back leads. */
  ghost predicate Remaining(state: State, diff: AccumulatorDiff, start: Ledger, all: seq<Move>, rest: seq<Move>)
    reads state`utxos, state`stxos, diff
  {
    && rest <= all && diff.Valid() && |Ops(all)| == |all|
    && diff.diff == RecordAll(TakeBackOps(Ops(all), |rest|))
    && Undo(Ledger(state.utxos, state.stxos), rest) == Undo(start, all)
  }

  lemma NextTakeBack(all: seq<Move>, rest: seq<Move>, m: Move)
    requires rest + [m] <= all && |Ops(all)| == |all|
    ensures var op := OpOf(m);
            RecordAll(TakeBackOps(Ops(all), |rest|)) ==
            Record(RecordAll(TakeBackOps(Ops(all), |rest| + 1)), op.leaf, !op.insert)
  {
    assert all[|rest|] == (rest + [m])[|rest|] == m;
    OpsAt(all, |rest|);
    var ops := TakeBackOps(Ops(all), |rest| + 1);
    assert TakeBackOps(Ops(all), |rest|)[..|ops|] == ops;
  }

  method UncreateOne(
    state: State, diff: AccumulatorDiff, ghost start: Ledger, ghost all: seq<Move>, ghost rest: seq<Move>,
    o: OutPoint, output: Output)
    returns (ok: bool)
    requires Remaining(state, diff, start, all, rest + [Create(o, output)])
    modifies state`utxos, diff
    ensures ok ==> Remaining(state, diff, start, all, rest)
    ensures !ok ==> Undo(start, all) == Err(MissingUtxo)
  {
    NextTakeBack(all, rest, Create(o, output));
    UndoLast(Ledger(state.utxos, state.stxos), rest, Create(o, output));
    diff.Remove(Leaf(o, output));
    ok := o in state.utxos;
    state.utxos := state.utxos - {o};
  }

  method UnspendOne(
    state: State, diff: AccumulatorDiff, ghost start: Ledger, ghost all: seq<Move>, ghost rest: seq<Move>,
    o: OutPoint, leaf: Leaf, ghost inpoint: InPoint)
    returns (ok: bool)
    requires Remaining(state, diff, start, all, rest + [Spend(o, leaf, inpoint)])
    modifies state`utxos, state`stxos, diff
    ensures ok ==> Remaining(state, diff, start, all, rest)
    ensures !ok ==> Undo(start, all) == Err(MissingStxo)
  {
    NextTakeBack(all, rest, Spend(o, leaf, inpoint));
    UndoLast(Ledger(state.utxos, state.stxos), rest, Spend(o, leaf, inpoint));
    if o !in state.stxos {
      return false;
    }
    var spent := state.stxos[o];
    diff.Insert(leaf);
    state.stxos := state.stxos - {o};
    state.utxos := state.utxos[o := spent.output];
    ok := true;
  }

  /** Deletes the outputs, last to first; stops at one that is not unspent. */
  method DisconnectOutputs(
    state: State, diff: AccumulatorDiff, ghost start: Ledger, ghost all: seq<Move>, ghost rest: seq<Move>,
    origin: Origin, outputs: seq<Output>)
    returns (ok: bool)
    requires Remaining(state, diff, start, all, rest + Creates(origin, outputs, |outputs|))
    modifies state`utxos, diff
    ensures ok ==> Remaining(state, diff, start, all, rest)
    ensures !ok ==> Undo(start, all) == Err(MissingUtxo)
  {
    hide Remaining;
    for vout := |outputs| downto 0
      invariant Remaining(state, diff, start, all, rest + Creates(origin, outputs, vout))
    {
      OneMoreCreate(rest, origin, outputs, vout);
      ok := UncreateOne(state, diff, start, all, rest + Creates(origin, outputs, vout), origin.At(vout), outputs[vout]);
      if !ok {
        return;
      }
    }
    assert rest + Creates(origin, outputs, 0) == rest;
    ok := true;
  }

  /** Puts the inputs back, last to first; stops at one that is not in the spent table. */
  method DisconnectInputs(
    state: State, diff: AccumulatorDiff, ghost start: Ledger, ghost all: seq<Move>, ghost rest: seq<Move>,
    txid: Txid, inputs: seq<(OutPoint, Leaf)>)
    returns (ok: bool)
    requires Remaining(state, diff, start, all, rest + Spends(txid, inputs, |inputs|))
    modifies state`utxos, state`stxos, diff
    ensures ok ==> Remaining(state, diff, start, all, rest)
    ensures !ok ==> Undo(start, all) == Err(MissingStxo)
  {
    hide Remaining;
    for vin := |inputs| downto 0
      invariant Remaining(state, diff, start, all, rest + Spends(txid, inputs, vin))
    {
      OneMoreSpend(rest, txid, inputs, vin);
      ok := UnspendOne(state, diff, start, all, rest + Spends(txid, inputs, vin), inputs[vin].0, inputs[vin].1, RegularIn(txid, vin));
      if !ok {
        return;
      }
    }
    assert rest + Spends(txid, inputs, 0) == rest;
    ok := true;
  }

  /** One transaction: its nullifiers, its outputs, then its inputs. */
  method DisconnectTransaction(
    state: State, tx: Transaction, diff: AccumulatorDiff, ghost start: Ledger, ghost all: seq<Move>, ghost rest: seq<Move>)
    returns (missing: Option<MissingOutput>)
    requires Remaining(state, diff, start, all, rest + AllOf(tx))
    modifies state`utxos, state`stxos, state`orchard, diff
    ensures state.orchard == old(state.orchard).(nullifiers := old(state.orchard.nullifiers) - NullifiersOf(tx))
    ensures missing.None? ==> Remaining(state, diff, start, all, rest)
    ensures missing.Some? ==> Undo(start, all) == Err(missing.value)
  {
    hide Remaining;
    if tx.core.orchardBundle.Some? {
      DisconnectOrchard(state, tx.core.orchardBundle.value);
    }
    var txid, inputs, outputs := tx.Id(), tx.core.inputs, tx.core.outputs;
    Associate(rest, Spends(txid, inputs, |inputs|), Creates(FromTransaction(txid), outputs, |outputs|));
    var deleted := DisconnectOutputs(
      state, diff, start, all, rest + Spends(txid, inputs, |inputs|), FromTransaction(txid), outputs);
    if !deleted {
      return Some(MissingUtxo);
    }
    var unspent := DisconnectInputs(state, diff, start, all, rest, txid, inputs);
    missing := if unspent then None else Some(MissingStxo);
  }

  /** Deletes the nullifiers of a bundle; the frontier is not reverted here. */
  method DisconnectOrchard(state: State, bundle: OrchardBundle)
    modifies state`orchard
    ensures state.orchard == old(state.orchard).(nullifiers := old(state.orchard.nullifiers) - ToSet(bundle.nullifiers))
  {
    for i := 0 to |bundle.nullifiers|
      invariant state.orchard == old(state.orchard).(
                  nullifiers := old(state.orchard.nullifiers) - ToSet(bundle.nullifiers[..i]))
    {
      assert ToSet(bundle.nullifiers[..i + 1]) == ToSet(bundle.nullifiers[..i]) + {bundle.nullifiers[i]};
      state.orchard := state.orchard.(nullifiers := state.orchard.nullifiers - {bundle.nullifiers[i]});
    }
    assert bundle.nullifiers[..|bundle.nullifiers|] == bundle.nullifiers;
  }

  /** All transactions last to first, then the coinbase outputs. */
  method DisconnectBody(state: State, body: Body, diff: AccumulatorDiff) returns (missing: Option<MissingOutput>)
    requires diff.Valid() && diff.diff == EMPTY_DIFF
    modifies state`utxos, state`stxos, state`orchard, diff
    ensures missing.Some? ==> Undo(Ledger(old(state.utxos), old(state.stxos)), MovesOf(body)) == Err(missing.value)
    ensures missing.None? ==>
              && Undo(Ledger(old(state.utxos), old(state.stxos)), MovesOf(body)) == Ok(Ledger(state.utxos, state.stxos))
              && diff.diff == UndoDiff(body)
              && state.orchard == old(state.orchard).(
                   nullifiers := WithoutNullifiers(old(state.orchard.nullifiers), body.transactions, |body.transactions|))
  {
    ghost var start, orchard, all := Ledger(state.utxos, state.stxos), state.orchard, MovesOf(body);
    var txs := body.transactions;
    StartTakingBack(all);
    for k := |txs| downto 0
      invariant Remaining(state, diff, start, all, BodyMoves(body, k))
      invariant state.orchard == orchard.(nullifiers := state.orchard.nullifiers)
      invariant WithoutNullifiers(state.orchard.nullifiers, txs, k) == WithoutNullifiers(orchard.nullifiers, txs, |txs|)
    {
      hide Remaining;
      missing := DisconnectTransaction(state, txs[k], diff, start, all, BodyMoves(body, k));
      if missing.Some? {
        return;
      }
    }
    assert [] + BodyMoves(body, 0) == BodyMoves(body, 0);
    var deleted := DisconnectOutputs(state, diff, start, all, [], FromCoinbase(MerkleRootOf(body)), body.coinbase);
    missing := if deleted then None else Some(MissingUtxo);
  }

  lemma StartTakingBack(all: seq<Move>)
    ensures |Ops(all)| == |all| && RecordAll(TakeBackOps(Ops(all), |all|)) == EMPTY_DIFF
  {
    if all != [] {
      OpsAt(all, 0);
    }
  }

  /** Writes the tip, the height, the accumulator and the frontier, and deletes the root of the block. */
  method FinishDisconnect(
    state: State, hash: BlockHash, tip: Option<BlockHash>, height: Option<nat>,
    prevAccumulator: Forest, prevFrontier: Option<seq<nat>>)
    modifies state`tip, state`height, state`accumulator, state`orchard
    ensures state.tip == tip && state.height == height && state.accumulator == prevAccumulator
    ensures state.orchard == OrchardTables(
              if prevFrontier.Some? then prevFrontier.value else old(state.orchard.frontier),
              DeleteRoot(old(state.orchard.roots), hash), old(state.orchard.nullifiers))
  {
    state.tip, state.height, state.accumulator := tip, height, prevAccumulator;
    if prevFrontier.Some? {
      state.orchard := state.orchard.(frontier := prevFrontier.value);
    }
    var deleted := DeleteHistoricalRoot(state, hash);
  }

  /**
   Disconnects the tip. The accumulator is put back as given; so is the frontier, if one is given.
   An error leaves everything as it was.
   */
  method DisconnectTip(
    state: State, header: Header, body: Body, prevAccumulator: Forest, prevFrontier: Option<seq<nat>>)
    returns (r: Result<(), DisconnectError>)
    modifies state
    ensures match Disconnected(old(state.Saved()), header, body, prevAccumulator, prevFrontier)
            case Err(e) => r == Err(e) && state.Saved() == old(state.Saved())
            case Ok(after) => r == Ok(()) && state.Saved() == after
  {
    hide Undo, UndoDiff, WithoutNullifiers, MerkleRootOf, Modify, Lowered, DeleteRoot;
    if state.tip.None? {
      return Err(TipMissing);
    }
    var hash := BlockHash(header);
    if state.tip.value != hash {
      return Err(DisconnectError.WrongTip);
    }
    if MerkleRootOf(body) != header.merkleRoot {
      return Err(DisconnectError.WrongBody);
    }
    var saved := state.Saved();
    var diff := new AccumulatorDiff();
    var missing := DisconnectBody(state, body, diff);
    if missing.Some? {
      state.Restore(saved);
      return Err(Missing(missing.value));
    }
    var lowered := Lowered(header, state.height);
    if lowered.Err? {
      state.Restore(saved);
      return Err(lowered.error);
    }
    var applied := ApplyDiff(state.accumulator, diff.diff);
    if applied.Err? {
      state.Restore(saved);
      return Err(DisconnectError.AccumulatorFailed);
    }
    FinishDisconnect(state, hash, lowered.value.0, lowered.value.1, prevAccumulator, prevFrontier);
    r := Ok(());
  }
}
