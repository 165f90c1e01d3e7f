/**
 The fast path: a prevalidated block is applied as sorted deletions and writes. It has the effect
 of connecting the block one transaction at a time.
 */
module BatchConnect {
  import opened Types
  import opened Accumulator
  import opened State
  import opened Sums
  import opened Moves
  import opened Shielded
  import opened SortScan
  import opened Validation
  import opened Acceptance
  import opened BlockSpec
  import opened Block

  // ------------------------------------------------------------- coalesced writes

  type StxoPut = (OutPoint, SpentOutput)
  type UtxoPut = (OutPoint, Output)

  datatype Writes = Writes(deletes: seq<OutPoint>, stxoPuts: seq<StxoPut>, utxoPuts: seq<UtxoPut>)

  function StxoPuts(utxos: map<OutPoint, Output>, moves: seq<Move>): seq<StxoPut> {
    if moves == [] then []
    else
      var m := moves[|moves| - 1];
      StxoPuts(utxos, moves[..|moves| - 1]) +
      if m.Spend? && m.outpoint in utxos then [(m.outpoint, SpentOutput(utxos[m.outpoint], m.inpoint))] else []
  }

  function UtxoPuts(moves: seq<Move>): seq<UtxoPut> {
    if moves == [] then []
    else
      var m := moves[|moves| - 1];
      UtxoPuts(moves[..|moves| - 1]) + if m.Create? then [(m.outpoint, m.output)] else []
  }

  function WritesOf(utxos: map<OutPoint, Output>, moves: seq<Move>): Writes {
    Writes(SpentKeys(moves), StxoPuts(utxos, moves), UtxoPuts(moves))
  }

  lemma OneMoreWrite(utxos: map<OutPoint, Output>, moves: seq<Move>, m: Move)
    requires m.Spend? ==> m.outpoint in utxos
    ensures var w := WritesOf(utxos, moves);
            WritesOf(utxos, moves + [m]) ==
            match m
            case Create(o, output) => w.(utxoPuts := w.utxoPuts + [(o, output)])
            case Spend(o, _, inpoint) =>
              w.(deletes := w.deletes + [o], stxoPuts := w.stxoPuts + [(o, SpentOutput(utxos[o], inpoint))])
  {
    assert (moves + [m])[..|moves|] == moves;
  }

  method CollectCreates(ghost utxos: map<OutPoint, Output>, ghost done: seq<Move>, w: Writes, origin: Origin, outputs: seq<Output>)
    returns (r: Writes)
    requires w == WritesOf(utxos, done)
    ensures r == WritesOf(utxos, done + Creates(origin, outputs, |outputs|))
  {
    hide WritesOf;
    r := w;
    assert done + Creates(origin, outputs, 0) == done;
    for vout := 0 to |outputs|
      invariant r == WritesOf(utxos, done + Creates(origin, outputs, vout))
    {
      OneMoreCreate(done, origin, outputs, vout);
      OneMoreWrite(utxos, done + Creates(origin, outputs, vout), Create(origin.At(vout), outputs[vout]));
      r := r.(utxoPuts := r.utxoPuts + [(origin.At(vout), outputs[vout])]);
    }
  }

  method CollectTransaction(ghost utxos: map<OutPoint, Output>, ghost done: seq<Move>, w: Writes, f: FilledTransaction)
    returns (r: Writes)
    requires w == WritesOf(utxos, done) && InputsKnown(utxos, f.transaction) && f == FilledOf(utxos, f.transaction)
    ensures r == WritesOf(utxos, done + AllOf(f.transaction))
  {
    hide WritesOf;
    var txid, inputs, outputs := f.transaction.Id(), f.transaction.core.inputs, f.transaction.core.outputs;
    r := w;
    assert done + Spends(txid, inputs, 0) == done;
    for vin := 0 to |inputs|
      invariant r == WritesOf(utxos, done + Spends(txid, inputs, vin))
    {
      var (o, leaf) := inputs[vin];
      OneMoreSpend(done, txid, inputs, vin);
      OneMoreWrite(utxos, done + Spends(txid, inputs, vin), Spend(o, leaf, RegularIn(txid, vin)));
      r := r.(deletes := r.deletes + [o], stxoPuts := r.stxoPuts + [(o, SpentOutput(f.spentUtxos[vin], RegularIn(txid, vin)))]);
    }
    Associate(done, Spends(txid, inputs, |inputs|), Creates(FromTransaction(txid), outputs, |outputs|));
    r := CollectCreates(utxos, done + Spends(txid, inputs, |inputs|), r, FromTransaction(txid), outputs);
  }

  /** Collects the writes of all transactions while connecting their bundles. */
  method CollectBody(state: State, body: Body, filled: seq<FilledTransaction>, merkleRoot: MerkleRoot)
    returns (w: Writes, r: Result<seq<nat>, OrchardError>)
    requires AllInputsKnown(state.utxos, body.transactions) && merkleRoot == MerkleRootOf(body)
    requires filled == FillAll(state.utxos, body.transactions, |body.transactions|)
    requires |state.orchard.frontier| <= FRONTIER_CAPACITY
    modifies state`orchard
    ensures match ConnectBundles(
                Notes(old(state.orchard.frontier), old(state.orchard.nullifiers)), body.transactions, |body.transactions|)
            case Err(e) => r == Err(e)
            case Ok(n) =>
              && r == Ok(n.frontier) && state.orchard == old(state.orchard).(nullifiers := n.nullifiers)
              && w == WritesOf(state.utxos, MovesOf(body))
  {
    hide WritesOf, SpentOutputs;
    ghost var notes, orchard := Notes(state.orchard.frontier, state.orchard.nullifiers), state.orchard;
    var frontier := state.orchard.frontier;
    NoWrites(state.utxos);
    w := CollectCreates(state.utxos, [], Writes([], [], []), FromCoinbase(merkleRoot), body.coinbase);
    assert [] + BodyMoves(body, 0) == BodyMoves(body, 0);
    for k := 0 to |body.transactions|
      invariant w == WritesOf(state.utxos, BodyMoves(body, k)) && |frontier| <= FRONTIER_CAPACITY
      invariant ConnectBundles(notes, body.transactions, k) == Ok(Notes(frontier, state.orchard.nullifiers))
      invariant state.orchard == orchard.(nullifiers := state.orchard.nullifiers)
    {
      FilledAt(state.utxos, body.transactions, k, |body.transactions|);
      NextBundle(notes, body.transactions, k);
      w := CollectTransaction(state.utxos, BodyMoves(body, k), w, filled[k]);
      var tx := filled[k].transaction;
      if tx.core.orchardBundle.Some? {
        r := ConnectOrchard(state, frontier, tx.core.orchardBundle.value);
        if r.Err? {
          return;
        }
        frontier := r.value;
      }
    }
    r := Ok(frontier);
  }

  lemma NoWrites(utxos: map<OutPoint, Output>)
    ensures WritesOf(utxos, []) == Writes([], [], [])
  {
  }

  // --------------------------------------------------------------- applying writes

  method ApplyDeletes(state: State, deletes: seq<OutPoint>)
    modifies state`utxos
    ensures state.utxos == old(state.utxos) - ToSet(deletes)
  {
    assert ToSet(deletes[..0]) == {};
    for i := 0 to |deletes|
      invariant state.utxos == old(state.utxos) - ToSet(deletes[..i])
    {
      assert ToSet(deletes[..i + 1]) == ToSet(deletes[..i]) + {deletes[i]};
      state.utxos := state.utxos - {deletes[i]};
    }
    assert deletes[..|deletes|] == deletes;
  }

  method ApplyStxoPuts(state: State, puts: seq<StxoPut>)
    modifies state`stxos
    ensures state.stxos == PutAll(old(state.stxos), puts)
  {
    for i := 0 to |puts|
      invariant state.stxos == PutAll(old(state.stxos), puts[..i])
    {
      assert puts[..i + 1][..i] == puts[..i];
      state.stxos := state.stxos[puts[i].0 := puts[i].1];
    }
    assert puts[..|puts|] == puts;
  }

  method ApplyUtxoPuts(state: State, puts: seq<UtxoPut>)
    modifies state`utxos
    ensures state.utxos == PutAll(old(state.utxos), puts)
  {
    for i := 0 to |puts|
      invariant state.utxos == PutAll(old(state.utxos), puts[..i])
    {
      assert puts[..i + 1][..i] == puts[..i];
      state.utxos := state.utxos[puts[i].0 := puts[i].1];
    }
    assert puts[..|puts|] == puts;
  }

  /** Puts with pairwise different keys are consistent. */
  lemma DistinctKeysConsistent<V(!new)>(puts: seq<(OutPoint, V)>, keys: seq<OutPoint>)
    requires Distinct(keys) && |puts| == |keys| && forall i | 0 <= i < |puts| :: puts[i].0 == keys[i]
    ensures WritesAgree(puts)
  {
    forall p, q | p in puts && q in puts && p.0 == q.0
      ensures p.1 == q.1
    {
      var i :| 0 <= i < |puts| && puts[i] == p;
      var j :| 0 <= j < |puts| && puts[j] == q;
      assert keys[i] == keys[j];
    }
  }

  lemma {:induction false} UtxoPutKeys(moves: seq<Move>)
    ensures |UtxoPuts(moves)| == |CreatedKeys(moves)|
    ensures forall i | 0 <= i < |UtxoPuts(moves)| :: UtxoPuts(moves)[i].0 == CreatedKeys(moves)[i]
  {
    if moves != [] {
      UtxoPutKeys(moves[..|moves| - 1]);
    }
  }

  lemma {:induction false} StxoPutKeys(utxos: map<OutPoint, Output>, moves: seq<Move>)
    requires forall o | o in SpentKeys(moves) :: o in utxos
    ensures |StxoPuts(utxos, moves)| == |SpentKeys(moves)|
    ensures forall i | 0 <= i < |StxoPuts(utxos, moves)| :: StxoPuts(utxos, moves)[i].0 == SpentKeys(moves)[i]
  {
    if moves != [] {
      var init := moves[..|moves| - 1];
      assert forall o | o in SpentKeys(init) :: o in SpentKeys(moves);
      StxoPutKeys(utxos, init);
      if moves[|moves| - 1].Spend? {
        assert moves[|moves| - 1].outpoint in SpentKeys(moves);
      }
    }
  }

  lemma {:induction false} PutsAreTables(m: map<OutPoint, Output>, n: map<OutPoint, SpentOutput>, utxos: map<OutPoint, Output>, moves: seq<Move>)
    ensures PutAll(m, UtxoPuts(moves)) == m + Created(moves)
    ensures PutAll(n, StxoPuts(utxos, moves)) == n + SpentFrom(utxos, moves)
  {
    if moves == [] {
      assert m + Created(moves) == m && n + SpentFrom(utxos, moves) == n;
    } else {
      var init, last := moves[..|moves| - 1], moves[|moves| - 1];
      PutsAreTables(m, n, utxos, init);
      match last
      case Create(o, output) =>
        assert UtxoPuts(moves)[..|UtxoPuts(init)|] == UtxoPuts(init);
        assert StxoPuts(utxos, moves) == StxoPuts(utxos, init);
        MergeUpdate(m, Created(init), o, output);
      case Spend(o, _, inpoint) =>
        assert UtxoPuts(moves) == UtxoPuts(init);
        if o in utxos {
          assert StxoPuts(utxos, moves)[..|StxoPuts(utxos, init)|] == StxoPuts(utxos, init);
          MergeUpdate(n, SpentFrom(utxos, init), o, SpentOutput(utxos[o], inpoint));
        } else {
          assert StxoPuts(utxos, moves) == StxoPuts(utxos, init);
        }
    }
  }

  /** In whatever order the sort leaves them, the writes have the effect of all moves at once. */
  lemma WritesAreMoves(l: Ledger, moves: seq<Move>, w: Writes, kept: map<OutPoint, Output>)
    requires Spendable(l.utxos, moves) && Fresh(l, moves)
    requires multiset(w.deletes) == multiset(SpentKeys(moves))
    requires multiset(w.stxoPuts) == multiset(StxoPuts(l.utxos, moves))
    requires multiset(w.utxoPuts) == multiset(UtxoPuts(moves))
    requires kept == l.utxos - ToSet(w.deletes)
    ensures PutAll(kept, w.utxoPuts) == AllAtOnce(l, moves).utxos
    ensures PutAll(l.stxos, w.stxoPuts) == AllAtOnce(l, moves).stxos
  {
    SameMembers(w.deletes, SpentKeys(moves));
    UtxoPutKeys(moves);
    DistinctKeysConsistent(UtxoPuts(moves), CreatedKeys(moves));
    PutAllReordered(kept, UtxoPuts(moves), w.utxoPuts);
    StxoPutKeys(l.utxos, moves);
    DistinctKeysConsistent(StxoPuts(l.utxos, moves), SpentKeys(moves));
    PutAllReordered(l.stxos, StxoPuts(l.utxos, moves), w.stxoPuts);
    PutsAreTables(kept, l.stxos, l.utxos, moves);
  }

  /** Sorts the writes by key, then deletes, then records what was spent, then adds. */
  method ApplyWrites(state: State, key: OutPoint -> nat, w: Writes, ghost moves: seq<Move>)
    requires w == WritesOf(state.utxos, moves)
    requires Spendable(state.utxos, moves) && Fresh(Ledger(state.utxos, state.stxos), moves)
    modifies state`utxos, state`stxos
    ensures Ledger(state.utxos, state.stxos) == AllAtOnce(old(Ledger(state.utxos, state.stxos)), moves)
  {
    hide PutAll, AllAtOnce, Spendable, Fresh;
    ghost var before := Ledger(state.utxos, state.stxos);
    var deletes := Sort(w.deletes, key);
    var stxoKey, utxoKey := (p: StxoPut) => key(p.0), (p: UtxoPut) => key(p.0);
    var stxoPuts, utxoPuts := Sort(w.stxoPuts, stxoKey), Sort(w.utxoPuts, utxoKey);
    SortSorts(w.deletes, key);
    SortSorts(w.stxoPuts, stxoKey);
    SortSorts(w.utxoPuts, utxoKey);
    ApplyDeletes(state, deletes);
    WritesAreMoves(before, moves, Writes(deletes, stxoPuts, utxoPuts), state.utxos);
    ApplyStxoPuts(state, stxoPuts);
    ApplyUtxoPuts(state, utxoPuts);
  }

  /**
   Connects a prevalidated block. The outcome is the one of connecting its moves one by one, for
   every way of encoding outpoints as sort keys. An error leaves everything as it was.
   */
  method ConnectPrevalidated(state: State, foreign: Foreign, header: Header, body: Body, p: PrevalidatedBlock)
    returns (r: Result<Option<seq<nat>>, ConnectError>)
    requires Describes(state.Saved(), body, p) && |state.orchard.frontier| <= FRONTIER_CAPACITY
    requires Spendable(state.utxos, MovesOf(body)) && Fresh(Ledger(state.utxos, state.stxos), MovesOf(body))
    modifies state
    ensures EndsIn(state, old(state.Saved()), r, Connected(old(state.Saved()), header, body))
  {
    hide WritesOf, Spendable, Fresh, PutRoot, FillAll, ConnectBundles, MovesOf, MerkleRootOf, AllAtOnce;
    var saved := state.Saved();
    PerformIsAllAtOnce(LedgerOf(saved), MovesOf(body));
    var writes, frontier := CollectBody(state, body, p.filled, p.merkleRoot);
    if frontier.Err? {
      state.Restore(saved);
      return Err(OrchardFailed(frontier.error));
    }
    ApplyWrites(state, foreign.key, writes, MovesOf(body));
    var applied := ApplyDiff(state.accumulator, p.diff);
    if applied.Err? {
      state.Restore(saved);
      return Err(ConnectError.AccumulatorFailed);
    }
    var changed := FinishConnect(state, header, p.nextHeight, applied.value, frontier.value);
    r := Ok(changed);
  }

  /** Prevalidates a block and connects it if it is acceptable. An error leaves everything as it was. */
  method ApplyBlock(state: State, foreign: Foreign, header: Header, body: Body)
    returns (r: Result<Option<seq<nat>>, ConnectError>)
    requires Injective(foreign.key) && |state.orchard.frontier| <= FRONTIER_CAPACITY
    requires header.prevSideHash == state.tip ==> Fresh(Ledger(state.utxos, state.stxos), MovesOf(body))
    modifies state
    ensures match Verdict(old(state.Saved()), foreign, header, body)
            case Err(e) => r == Err(Rejected(e)) && state.Saved() == old(state.Saved())
            case Ok(_) => EndsIn(state, old(state.Saved()), r, Connected(old(state.Saved()), header, body))
  {
    hide Verdict, Describes, Spendable, Fresh, Connected, EndsIn;
    var prevalidated := Prevalidate(state, foreign, header, body);
    if prevalidated.Err? {
      return Err(Rejected(prevalidated.error));
    }
    AcceptedMoves(state.Saved(), foreign, header, body);
    AcceptedExtends(state.Saved(), foreign, header, body);
    r := ConnectPrevalidated(state, foreign, header, body, prevalidated.value);
  }
}
