/**
 What a block body does to the unspent and spent outputs, as one list of moves: the coinbase
 outputs are created, then each transaction spends its inputs and creates its outputs. The
 methods that connect, prevalidate and disconnect a block are proved against this list.
 */
module Moves {
  import opened Types
  import opened Accumulator
  import opened State
  import opened Sums

  datatype Ledger = Ledger(utxos: map<OutPoint, Output>, stxos: map<OutPoint, SpentOutput>)

  /** A spend names the leaf that its transaction claims for the outpoint. */
  datatype Move =
    | Create(outpoint: OutPoint, output: Output)
    | Spend(outpoint: OutPoint, leaf: Leaf, inpoint: InPoint)

  // ------------------------------------------------------------ performing moves

  function Step(l: Ledger, m: Move): Option<Ledger> {
    match m
    case Create(o, output) => Some(l.(utxos := l.utxos[o := output]))
    case Spend(o, _, inpoint) =>
      if o in l.utxos
      then Some(Ledger(l.utxos - {o}, l.stxos[o := SpentOutput(l.utxos[o], inpoint)]))
      else None
  }

  /** The moves one by one, or nothing when an output to be spent is missing. */
  function Perform(l: Ledger, moves: seq<Move>): Option<Ledger> {
    if moves == [] then Some(l)
    else
      var before := Perform(l, moves[..|moves| - 1]);
      if before.None? then None else Step(before.value, moves[|moves| - 1])
  }

  datatype MissingOutput = MissingUtxo | MissingStxo

  function StepBack(l: Ledger, m: Move): Result<Ledger, MissingOutput> {
    match m
    case Create(o, _) => if o in l.utxos then Ok(l.(utxos := l.utxos - {o})) else Err(MissingUtxo)
    case Spend(o, _, _) =>
      if o in l.stxos then Ok(Ledger(l.utxos[o := l.stxos[o].output], l.stxos - {o})) else Err(MissingStxo)
  }

  /** Takes the moves back, last to first. */
  function Undo(l: Ledger, moves: seq<Move>): Result<Ledger, MissingOutput>
    decreases |moves|
  {
    if moves == [] then Ok(l)
    else
      var before :- StepBack(l, moves[|moves| - 1]);
      Undo(before, moves[..|moves| - 1])
  }

  /** The tracked operation on the accumulator that goes with a move. */
  function OpOf(m: Move): Op {
    match m
    case Create(o, output) => Op(Leaf(o, output), true)
    case Spend(_, leaf, _) => Op(leaf, false)
  }

  function Ops(moves: seq<Move>): seq<Op> {
    if moves == [] then [] else Ops(moves[..|moves| - 1]) + [OpOf(moves[|moves| - 1])]
  }

  lemma PerformOneMore(l: Ledger, moves: seq<Move>, m: Move)
    ensures Perform(l, moves + [m]) == (var before := Perform(l, moves); if before.None? then None else Step(before.value, m))
    ensures Ops(moves + [m]) == Ops(moves) + [OpOf(m)]
  {
    assert (moves + [m])[..|moves|] == moves;
  }

  lemma RecordOneMore(moves: seq<Move>, m: Move)
    ensures RecordAll(Ops(moves + [m])) == Record(RecordAll(Ops(moves)), OpOf(m).leaf, OpOf(m).insert)
  {
    assert (moves + [m])[..|moves|] == moves;
    assert (Ops(moves) + [OpOf(m)])[..|Ops(moves)|] == Ops(moves);
  }

  lemma {:induction false} OpsAt(moves: seq<Move>, i: nat)
    requires i < |moves|
    ensures |Ops(moves)| == |moves| && Ops(moves)[i] == OpOf(moves[i])
  {
    if |moves| > 1 {
      OpsAt(moves[..|moves| - 1], if i < |moves| - 1 then i else 0);
    }
  }

  lemma UndoLast(l: Ledger, moves: seq<Move>, m: Move)
    ensures Undo(l, moves + [m]) == (var before := StepBack(l, m); if before.Err? then before else Undo(before.value, moves))
  {
    assert (moves + [m])[..|moves|] == moves;
  }

  /** A failed move is never repaired by later ones. */
  lemma {:induction false} PerformPrefix(l: Ledger, moves: seq<Move>, done: seq<Move>)
    requires done <= moves && Perform(l, done).None?
    ensures Perform(l, moves).None?
    decreases |moves|
  {
    if done != moves {
      PerformPrefix(l, moves[..|moves| - 1], done);
    }
  }

  // ------------------------------------------------------------ moves of a body

  function MerkleRootOf(body: Body): MerkleRoot {
    MerkleRoot(body.coinbase, seq(|body.transactions|, i requires 0 <= i < |body.transactions| => body.transactions[i].core))
  }

  datatype Origin = FromCoinbase(merkleRoot: MerkleRoot) | FromTransaction(txid: Txid) {
    function At(vout: nat): OutPoint {
      match this
      case FromCoinbase(root) => Coinbase(root, vout)
      case FromTransaction(txid) => Regular(txid, vout)
    }
  }

  function Creates(origin: Origin, outputs: seq<Output>, n: nat): seq<Move>
    requires n <= |outputs|
  {
    if n == 0 then [] else Creates(origin, outputs, n - 1) + [Create(origin.At(n - 1), outputs[n - 1])]
  }

  function Spends(txid: Txid, inputs: seq<(OutPoint, Leaf)>, n: nat): seq<Move>
    requires n <= |inputs|
  {
    if n == 0 then []
    else Spends(txid, inputs, n - 1) + [Spend(inputs[n - 1].0, inputs[n - 1].1, RegularIn(txid, n - 1))]
  }

  /** The first `i` spends and the first `j` creations of a transaction. */
  function TxMoves(tx: Transaction, i: nat, j: nat): seq<Move>
    requires i <= |tx.core.inputs| && j <= |tx.core.outputs|
  {
    Spends(tx.Id(), tx.core.inputs, i) + Creates(FromTransaction(tx.Id()), tx.core.outputs, j)
  }

  function AllOf(tx: Transaction): seq<Move> {
    TxMoves(tx, |tx.core.inputs|, |tx.core.outputs|)
  }

  /** The coinbase and the first `k` transactions. */
  function BodyMoves(body: Body, k: nat): seq<Move>
    requires k <= |body.transactions|
  {
    if k == 0 then Creates(FromCoinbase(MerkleRootOf(body)), body.coinbase, |body.coinbase|)
    else BodyMoves(body, k - 1) + AllOf(body.transactions[k - 1])
  }

  function MovesOf(body: Body): seq<Move> {
    BodyMoves(body, |body.transactions|)
  }

  // -------------------------------------------------- the moves taken all at once

  function SpentKeys(moves: seq<Move>): seq<OutPoint> {
    if moves == [] then []
    else
      var m := moves[|moves| - 1];
      SpentKeys(moves[..|moves| - 1]) + if m.Spend? then [m.outpoint] else []
  }

  function CreatedKeys(moves: seq<Move>): seq<OutPoint> {
    if moves == [] then []
    else
      var m := moves[|moves| - 1];
      CreatedKeys(moves[..|moves| - 1]) + if m.Create? then [m.outpoint] else []
  }

  /** The created outputs. */
  function Created(moves: seq<Move>): map<OutPoint, Output> {
    if moves == [] then map[]
    else
      var m := moves[|moves| - 1];
      var before := Created(moves[..|moves| - 1]);
      if m.Create? then before[m.outpoint := m.output] else before
  }

  /** The spent-table entries of the outputs that are spent. */
  function SpentFrom(utxos: map<OutPoint, Output>, moves: seq<Move>): map<OutPoint, SpentOutput> {
    if moves == [] then map[]
    else
      var m := moves[|moves| - 1];
      var before := SpentFrom(utxos, moves[..|moves| - 1]);
      if m.Spend? && m.outpoint in utxos
      then before[m.outpoint := SpentOutput(utxos[m.outpoint], m.inpoint)]
      else before
  }

  /** Unspent outputs are spent at most once each. */
  ghost predicate Spendable(utxos: map<OutPoint, Output>, moves: seq<Move>) {
    Distinct(SpentKeys(moves)) && forall o | o in SpentKeys(moves) :: o in utxos
  }

  /** Every created outpoint is new, and no two are the same. */
  ghost predicate Fresh(l: Ledger, moves: seq<Move>) {
    Distinct(CreatedKeys(moves)) && forall o | o in CreatedKeys(moves) :: o !in l.utxos && o !in l.stxos
  }

  lemma DistinctInit<T>(s: seq<T>)
    requires s != [] && Distinct(s)
    ensures Distinct(s[..|s| - 1]) && s[|s| - 1] !in s[..|s| - 1]
  {
  }

  /** Both hypotheses hold of the moves before the last one, and the last one is new to them. */
  lemma LastIsIndependent(l: Ledger, moves: seq<Move>)
    requires moves != [] && Spendable(l.utxos, moves) && Fresh(l, moves)
    ensures var init, m := moves[..|moves| - 1], moves[|moves| - 1];
            && Spendable(l.utxos, init) && Fresh(l, init)
            && match m
               case Create(o, _) => o !in l.utxos && o !in l.stxos && o !in CreatedKeys(init)
               case Spend(o, _, _) => o in l.utxos && o !in SpentKeys(init)
  {
    var init, m := moves[..|moves| - 1], moves[|moves| - 1];
    match m
    case Create(o, _) =>
      assert CreatedKeys(moves) == CreatedKeys(init) + [o] && SpentKeys(moves) == SpentKeys(init);
      DistinctInit(CreatedKeys(moves));
      assert o in CreatedKeys(moves);
    case Spend(o, _, _) =>
      assert SpentKeys(moves) == SpentKeys(init) + [o] && CreatedKeys(moves) == CreatedKeys(init);
      DistinctInit(SpentKeys(moves));
      assert o in SpentKeys(moves);
  }

  lemma {:induction false} KeysOfTables(utxos: map<OutPoint, Output>, moves: seq<Move>)
    ensures Created(moves).Keys == ToSet(CreatedKeys(moves))
    ensures SpentFrom(utxos, moves).Keys == set o | o in SpentKeys(moves) && o in utxos
  {
    if moves != [] {
      KeysOfTables(utxos, moves[..|moves| - 1]);
    }
  }

  /** The ledger after all moves: deletions first, then additions. */
  function AllAtOnce(l: Ledger, moves: seq<Move>): Ledger {
    Ledger(l.utxos - ToSet(SpentKeys(moves)) + Created(moves), l.stxos + SpentFrom(l.utxos, moves))
  }

  lemma CreateOneMore(l: Ledger, moves: seq<Move>, o: OutPoint, output: Output)
    requires o !in l.utxos
    ensures AllAtOnce(l, moves + [Create(o, output)]) ==
            AllAtOnce(l, moves).(utxos := AllAtOnce(l, moves).utxos[o := output])
  {
    assert (moves + [Create(o, output)])[..|moves|] == moves;
    MergeUpdate(l.utxos - ToSet(SpentKeys(moves)), Created(moves), o, output);
  }

  lemma SpendOneMore(l: Ledger, moves: seq<Move>, o: OutPoint, leaf: Leaf, inpoint: InPoint)
    requires o in l.utxos && o !in SpentKeys(moves) && o !in Created(moves)
    ensures var before, after := AllAtOnce(l, moves), AllAtOnce(l, moves + [Spend(o, leaf, inpoint)]);
            && o in before.utxos && before.utxos[o] == l.utxos[o] && after.utxos == before.utxos - {o}
            && after.stxos == before.stxos[o := SpentOutput(l.utxos[o], inpoint)]
  {
    assert (moves + [Spend(o, leaf, inpoint)])[..|moves|] == moves;
    assert ToSet(SpentKeys(moves) + [o]) == ToSet(SpentKeys(moves)) + {o};
    var kept := l.utxos - ToSet(SpentKeys(moves));
    assert l.utxos - (ToSet(SpentKeys(moves)) + {o}) == kept - {o};
    RemoveFromMerge(kept, Created(moves), o);
    MergeUpdate(l.stxos, SpentFrom(l.utxos, moves), o, SpentOutput(l.utxos[o], inpoint));
  }

  lemma RemoveFromMerge<K, V>(a: map<K, V>, b: map<K, V>, k: K)
    requires k !in b
    ensures a - {k} + b == (a + b) - {k}
  {
  }

  /** One by one is all at once, when no output is both created and spent. */
  lemma {:induction false} PerformIsAllAtOnce(l: Ledger, moves: seq<Move>)
    requires Spendable(l.utxos, moves) && Fresh(l, moves)
    ensures Perform(l, moves) == Some(AllAtOnce(l, moves))
  {
    if moves == [] {
      assert l.stxos + SpentFrom(l.utxos, moves) == l.stxos;
      assert l.utxos - ToSet(SpentKeys(moves)) + Created(moves) == l.utxos;
    } else {
      var init, m := moves[..|moves| - 1], moves[|moves| - 1];
      assert moves == init + [m];
      LastIsIndependent(l, moves);
      PerformIsAllAtOnce(l, init);
      KeysOfTables(l.utxos, init);
      match m
      case Create(o, output) => CreateOneMore(l, init, o, output);
      case Spend(o, leaf, inpoint) => SpendOneMore(l, init, o, leaf, inpoint);
    }
  }

  // ---------------------------------------------------------------- taking back

  /** Taking all moves back, last to first, restores the ledger. */
  lemma {:induction false} UndoRestores(l: Ledger, moves: seq<Move>)
    requires l.utxos.Keys !! l.stxos.Keys && Spendable(l.utxos, moves) && Fresh(l, moves)
    ensures Perform(l, moves).Some? && Undo(Perform(l, moves).value, moves) == Ok(l)
  {
    PerformIsAllAtOnce(l, moves);
    if moves != [] {
      var init, m := moves[..|moves| - 1], moves[|moves| - 1];
      LastIsIndependent(l, moves);
      UndoRestores(l, init);
      PerformIsAllAtOnce(l, init);
      KeysOfTables(l.utxos, init);
      var before := Perform(l, init).value;
      match m
      case Create(o, output) =>
        TakeBack(before.utxos, o, output);
      case Spend(o, _, inpoint) =>
        assert o !in before.stxos && o in before.utxos;
        TakeBack(before.stxos, o, SpentOutput(before.utxos[o], inpoint));
        PutBack(before.utxos, o);
    }
  }

  /** No output ends up both unspent and spent. */
  lemma PerformKeepsDisjoint(l: Ledger, moves: seq<Move>)
    requires l.utxos.Keys !! l.stxos.Keys && Spendable(l.utxos, moves) && Fresh(l, moves)
    ensures var r := AllAtOnce(l, moves); r.utxos.Keys !! r.stxos.Keys
  {
    KeysOfTables(l.utxos, moves);
  }

  // ------------------------------------------------------------- the accumulator

  /** Every spend claims the leaf of the output it spends. */
  ghost predicate LeavesMatch(utxos: map<OutPoint, Output>, moves: seq<Move>) {
    forall m {:trigger m in moves} | m in moves && m.Spend? :: m.outpoint in utxos && m.leaf == Leaf(m.outpoint, utxos[m.outpoint])
  }

  lemma MatchInit(utxos: map<OutPoint, Output>, moves: seq<Move>)
    requires moves != [] && LeavesMatch(utxos, moves)
    ensures var m := moves[|moves| - 1]; m.Spend? ==> m.outpoint in utxos && m.leaf == Leaf(m.outpoint, utxos[m.outpoint])
    ensures LeavesMatch(utxos, moves[..|moves| - 1])
  {
    var init, m := moves[..|moves| - 1], moves[|moves| - 1];
    assert m in moves;
    forall x {:trigger x in init} | x in init && x.Spend?
      ensures x.outpoint in utxos && x.leaf == Leaf(x.outpoint, utxos[x.outpoint])
    {
      assert x in moves;
    }
  }

  /** The tracked operations take the leaves of the old unspent outputs to those of the new ones. */
  lemma {:induction false} OpsFollowMoves(l: Ledger, moves: seq<Move>)
    requires Spendable(l.utxos, moves) && Fresh(l, moves) && LeavesMatch(l.utxos, moves)
    ensures Permitted(LeavesOf(l.utxos), Ops(moves))
    ensures PerformAll(LeavesOf(l.utxos), Ops(moves)) == LeavesOf(AllAtOnce(l, moves).utxos)
  {
    hide LeavesMatch;
    if moves == [] {
      assert l.utxos - {} + map[] == l.utxos;
    } else {
      var init, m := moves[..|moves| - 1], moves[|moves| - 1];
      assert moves == init + [m];
      MatchInit(l.utxos, moves);
      LastIsIndependent(l, moves);
      OpsFollowMoves(l, init);
      KeysOfTables(l.utxos, init);
      assert Ops(moves)[..|Ops(init)|] == Ops(init);
      match m
      case Create(o, output) =>
        CreateOneMore(l, init, o, output);
        LeavesInsert(AllAtOnce(l, init).utxos, o, output);
      case Spend(o, leaf, inpoint) =>
        SpendOneMore(l, init, o, leaf, inpoint);
        LeavesRemove(AllAtOnce(l, init).utxos, o);
    }
  }
}
