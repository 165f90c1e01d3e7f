/** Connecting a block transaction by transaction, and disconnecting the tip the same way. */
module Block {
  import opened Types
  import opened Accumulator
  import opened State
  import opened Moves
  import opened Shielded
  import opened Validation
  import opened BlockSpec

  // -------------------------------------------------------------------- connecting

  /** The tables and the diff are where performing `done` from the ledger `start` leads. */
  ghost predicate Performed(state: State, diff: AccumulatorDiff, start: Ledger, done: seq<Move>)
    reads state`utxos, state`stxos, diff
  {
    Recorded(diff, done) && Perform(start, done) == Some(Ledger(state.utxos, state.stxos))
  }

  method CreateOne(
    state: State, diff: AccumulatorDiff, ghost start: Ledger, ghost done: seq<Move>, o: OutPoint, output: Output)
    requires Performed(state, diff, start, done)
    modifies state`utxos, diff
    ensures Performed(state, diff, start, done + [Create(o, output)])
  {
    RecordOneMore(done, Create(o, output));
    PerformOneMore(start, done, Create(o, output));
    diff.Insert(Leaf(o, output));
    state.utxos := state.utxos[o := output];
  }

  method SpendOne(
    state: State, diff: AccumulatorDiff, ghost start: Ledger, ghost done: seq<Move>, o: OutPoint, leaf: Leaf, inpoint: InPoint)
    returns (ok: bool)
    requires Performed(state, diff, start, done)
    modifies state`utxos, state`stxos, diff
    ensures ok ==> Performed(state, diff, start, done + [Spend(o, leaf, inpoint)])
    ensures !ok ==> Perform(start, done + [Spend(o, leaf, inpoint)]).None?
  {
    RecordOneMore(done, Spend(o, leaf, inpoint));
    PerformOneMore(start, done, Spend(o, leaf, inpoint));
    if o !in state.utxos {
      return false;
    }
    var output := state.utxos[o];
    diff.Remove(leaf);
    state.utxos := state.utxos - {o};
    state.stxos := state.stxos[o := SpentOutput(output, inpoint)];
    ok := true;
  }

  /** Creates the outputs, first to last. */
  method ConnectOutputs(
    state: State, diff: AccumulatorDiff, ghost start: Ledger, ghost done: seq<Move>, origin: Origin, outputs: seq<Output>)
    requires Performed(state, diff, start, done)
    modifies state`utxos, diff
    ensures Performed(state, diff, start, done + Creates(origin, outputs, |outputs|))
  {
    hide Performed;
    assert done + Creates(origin, outputs, 0) == done;
    for vout := 0 to |outputs|
      invariant Performed(state, diff, start, done + Creates(origin, outputs, vout))
    {
      OneMoreCreate(done, origin, outputs, vout);
      CreateOne(state, diff, start, done + Creates(origin, outputs, vout), origin.At(vout), outputs[vout]);
    }
  }

  /** Moves the inputs to the spent table, first to last; stops at one that is not unspent. */
  method ConnectInputs(
    state: State, diff: AccumulatorDiff, ghost start: Ledger, ghost done: seq<Move>, txid: Txid,
    inputs: seq<(OutPoint, Leaf)>)
    returns (ok: bool, ghost tried: nat)
    requires Performed(state, diff, start, done)
    modifies state`utxos, state`stxos, diff
    ensures ok ==> Performed(state, diff, start, done + Spends(txid, inputs, |inputs|))
    ensures tried <= |inputs| && (!ok ==> Perform(start, done + Spends(txid, inputs, tried)).None?)
  {
    hide Performed;
    assert done + Spends(txid, inputs, 0) == done;
    for vin := 0 to |inputs|
      invariant Performed(state, diff, start, done + Spends(txid, inputs, vin))
    {
      OneMoreSpend(done, txid, inputs, vin);
      ok := SpendOne(state, diff, start, done + Spends(txid, inputs, vin), inputs[vin].0, inputs[vin].1, RegularIn(txid, vin));
      if !ok {
        return ok, vin + 1;
      }
    }
    return true, 0;
  }

  lemma {:induction false} SpendsPrefix(txid: Txid, inputs: seq<(OutPoint, Leaf)>, n: nat)
    requires n <= |inputs|
    ensures Spends(txid, inputs, n) <= Spends(txid, inputs, |inputs|)
    decreases |inputs| - n
  {
    if n < |inputs| {
      SpendsPrefix(txid, inputs, n + 1);
    }
  }

  lemma FailedSpend(start: Ledger, done: seq<Move>, txid: Txid, inputs: seq<(OutPoint, Leaf)>, n: nat, all: seq<Move>)
    requires n <= |inputs| && done + Spends(txid, inputs, |inputs|) <= all
    requires Perform(start, done + Spends(txid, inputs, n)).None?
    ensures Perform(start, all).None?
  {
    SpendsPrefix(txid, inputs, n);
    PerformPrefix(start, all, done + Spends(txid, inputs, n));
  }

  /** One transaction: its inputs, its outputs, then its bundle. Returns the frontier after it. */
  method ConnectTransaction(
    state: State, tx: Transaction, diff: AccumulatorDiff, frontier: seq<nat>,
    ghost start: Ledger, ghost done: seq<Move>)
    returns (r: Result<seq<nat>, ConnectError>)
    requires Performed(state, diff, start, done) && |frontier| <= FRONTIER_CAPACITY
    modifies state`utxos, state`stxos, state`orchard, diff
    ensures r == Err(MissingInput) <==> Perform(start, done + AllOf(tx)).None?
    ensures r != Err(MissingInput) ==>
              match ConnectTxBundle(Notes(frontier, old(state.orchard.nullifiers)), tx)
              case Err(e) => r == Err(OrchardFailed(e))
              case Ok(n) =>
                && r == Ok(n.frontier) && state.orchard == old(state.orchard).(nullifiers := n.nullifiers)
                && Performed(state, diff, start, done + AllOf(tx))
  {
    hide Performed;
    var txid, inputs, outputs := tx.Id(), tx.core.inputs, tx.core.outputs;
    Associate(done, Spends(txid, inputs, |inputs|), Creates(FromTransaction(txid), outputs, |outputs|));
    var spent, tried := ConnectInputs(state, diff, start, done, txid, inputs);
    if !spent {
      FailedSpend(start, done, txid, inputs, tried, done + AllOf(tx));
      return Err(MissingInput);
    }
    ConnectOutputs(state, diff, start, done + Spends(txid, inputs, |inputs|), FromTransaction(txid), outputs);
    PerformedIsPossible(state, diff, start, done + AllOf(tx));
    match tx.core.orchardBundle {
      case None =>
        r := Ok(frontier);
      case Some(bundle) =>
        var connected := ConnectOrchard(state, frontier, bundle);
        r := if connected.Ok? then Ok(connected.value) else Err(OrchardFailed(connected.error));
    }
  }

  lemma PerformedIsPossible(state: State, diff: AccumulatorDiff, start: Ledger, done: seq<Move>)
    requires Performed(state, diff, start, done)
    ensures Perform(start, done).Some?
  {
  }

  lemma NextBundle(n: Notes, txs: seq<Transaction>, k: nat)
    requires k < |txs| && ConnectBundles(n, txs, k).Ok?
    ensures ConnectBundles(n, txs, k + 1) == ConnectTxBundle(ConnectBundles(n, txs, k).value, txs[k])
    ensures ConnectBundles(n, txs, k + 1).Err? ==> ConnectBundles(n, txs, |txs|) == ConnectBundles(n, txs, k + 1)
  {
    if ConnectBundles(n, txs, k + 1).Err? {
      FirstRefusalStays(n, txs, k + 1, |txs|);
    }
  }

  lemma NextMoves(body: Body, k: nat)
    requires k < |body.transactions|
    ensures BodyMoves(body, k + 1) == BodyMoves(body, k) + AllOf(body.transactions[k])
  {
  }

  /** All transactions, first to last. */
  method ConnectTransactions(
    state: State, body: Body, diff: AccumulatorDiff, frontier: seq<nat>, ghost start: Ledger)
    returns (r: Result<seq<nat>, ConnectError>)
    requires Performed(state, diff, start, BodyMoves(body, 0)) && |frontier| <= FRONTIER_CAPACITY
    modifies state`utxos, state`stxos, state`orchard, diff
    ensures var notes := Notes(frontier, old(state.orchard.nullifiers));
            match FirstRefusal(start, notes, body, |body.transactions|)
            case Some(e) => r == Err(e)
            case None =>
              var n := ConnectBundles(notes, body.transactions, |body.transactions|);
              && n.Ok? && r == Ok(n.value.frontier) && state.orchard == old(state.orchard).(nullifiers := n.value.nullifiers)
              && Performed(state, diff, start, MovesOf(body))
  {
    hide Performed, Perform, BodyMoves;
    ghost var notes, orchard := Notes(frontier, state.orchard.nullifiers), state.orchard;
    var txs := body.transactions;
    var current := frontier;
    for k := 0 to |txs|
      invariant Performed(state, diff, start, BodyMoves(body, k)) && |current| <= FRONTIER_CAPACITY
      invariant ConnectBundles(notes, txs, k) == Ok(Notes(current, state.orchard.nullifiers))
      invariant FirstRefusal(start, notes, body, k) == None
      invariant state.orchard == orchard.(nullifiers := state.orchard.nullifiers)
    {
      NextMoves(body, k);
      NextBundle(notes, txs, k);
      var connected := ConnectTransaction(state, txs[k], diff, current, start, BodyMoves(body, k));
      if connected.Err? {
        RefusalStays(start, notes, body, k + 1, |txs|);
        return connected;
      }
      current := connected.value;
    }
    r := Ok(current);
  }

  /** The outcome is the specified one: the new contents and the frontier if its root is new, or nothing at all. */
  ghost predicate EndsIn(
    state: State, before: Contents, r: Result<Option<seq<nat>>, ConnectError>, spec: Result<Contents, ConnectError>)
    reads state
  {
    match spec
    case Err(e) => r == Err(e) && state.Saved() == before
    case Ok(after) =>
      && state.Saved() == after
      && r == Ok(if Root(after.orchard.frontier) !in before.orchard.roots.historicalRoots
                 then Some(after.orchard.frontier) else None)
  }

  /** Writes the tip, the height, the accumulator, the frontier and its root. */
  method FinishConnect(state: State, header: Header, height: nat, accumulator: Forest, frontier: seq<nat>)
    returns (changed: Option<seq<nat>>)
    modifies state`tip, state`height, state`accumulator, state`orchard
    ensures state.tip == Some(BlockHash(header)) && state.height == Some(height) && state.accumulator == accumulator
    ensures state.orchard == OrchardTables(
              frontier, PutRoot(old(state.orchard.roots), BlockHash(header), Root(frontier)), old(state.orchard.nullifiers))
    ensures changed == if Root(frontier) !in old(state.orchard.roots.historicalRoots) then Some(frontier) else None
  {
    state.tip := Some(BlockHash(header));
    state.height := Some(height);
    state.accumulator := accumulator;
    state.orchard := state.orchard.(frontier := frontier);
    var isNew := PutHistoricalRoot(state, BlockHash(header), Root(frontier));
    changed := if isNew then Some(frontier) else None;
  }

  /** The new accumulator and frontier, after all moves and bundles have taken effect on the other tables. */
  method ConnectBody(state: State, body: Body) returns (r: Result<(Forest, seq<nat>), ConnectError>)
    requires |state.orchard.frontier| <= FRONTIER_CAPACITY
    modifies state`utxos, state`stxos, state`orchard
    ensures var (l, n) := (Ledger(old(state.utxos), old(state.stxos)), Notes(old(state.orchard.frontier), old(state.orchard.nullifiers)));
            match FirstRefusal(l, n, body, |body.transactions|)
            case Some(e) => r == Err(e)
            case None =>
              var notes := ConnectBundles(n, body.transactions, |body.transactions|);
              && notes.Ok?
              && match Modify(state.accumulator, Adds(DiffOf(body)), Dels(DiffOf(body)))
                 case Err(_) => r == Err(ConnectError.AccumulatorFailed)
                 case Ok(accumulator) =>
                   && r == Ok((accumulator, notes.value.frontier))
                   && state.orchard == old(state.orchard).(nullifiers := notes.value.nullifiers)
                   && Perform(l, MovesOf(body)) == Some(Ledger(state.utxos, state.stxos))
  {
    var diff := new AccumulatorDiff();
    ghost var start := Ledger(state.utxos, state.stxos);
    ConnectOutputs(state, diff, start, [], FromCoinbase(MerkleRootOf(body)), body.coinbase);
    assert [] + BodyMoves(body, 0) == BodyMoves(body, 0);
    var connected := ConnectTransactions(state, body, diff, state.orchard.frontier, start);
    if connected.Err? {
      return Err(connected.error);
    }
    var applied := ApplyDiff(state.accumulator, diff.diff);
    r := if applied.Ok? then Ok((applied.value, connected.value)) else Err(ConnectError.AccumulatorFailed);
  }

  /** Connects a block one transaction at a time. An error leaves everything as it was. */
  method Connect(state: State, header: Header, body: Body) returns (r: Result<Option<seq<nat>>, ConnectError>)
    requires |state.orchard.frontier| <= FRONTIER_CAPACITY
    modifies state
    ensures r.Err? ==> state.Saved() == old(state.Saved())
    ensures header.prevSideHash != old(state.tip) ==> r == Err(ConnectError.WrongTip)
    ensures header.prevSideHash == old(state.tip) && MerkleRootOf(body) != header.merkleRoot ==> r == Err(ConnectError.WrongBody)
    ensures header.prevSideHash == old(state.tip) && MerkleRootOf(body) == header.merkleRoot ==>
              EndsIn(state, old(state.Saved()), r, ConnectedOneByOne(old(state.Saved()), header, body))
  {
    if state.tip != header.prevSideHash {
      return Err(ConnectError.WrongTip);
    }
    if MerkleRootOf(body) != header.merkleRoot {
      return Err(ConnectError.WrongBody);
    }
    var saved := state.Saved();
    NoRefusal(LedgerOf(saved), NotesOf(saved), body, |body.transactions|);
    var connected := ConnectBody(state, body);
    if connected.Err? {
      state.Restore(saved);
      return Err(connected.error);
    }
    var (accumulator, frontier) := connected.value;
    var changed := FinishConnect(state, header, NextHeight(state.height), accumulator, frontier);
    r := Ok(changed);
  }
}
