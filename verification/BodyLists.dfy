/**
 Block bodies as lists: packing authorized transactions into a body and unpacking them again, and the
 leaves that a proposer adds to and deletes from the accumulator.
 */
module BodyLists {
  import opened Types
  import opened Accumulator
  import opened Moves
  import opened Validation

  // ------------------------------------------------------- packing and unpacking

  function TransactionsOf(txs: seq<AuthorizedTransaction>): seq<Transaction> {
    if txs == [] then [] else TransactionsOf(txs[..|txs| - 1]) + [txs[|txs| - 1].transaction]
  }

  function AuthorizationsOf(txs: seq<AuthorizedTransaction>): seq<Authorization> {
    if txs == [] then [] else AuthorizationsOf(txs[..|txs| - 1]) + txs[|txs| - 1].authorizations
  }

  method NewBody(txs: seq<AuthorizedTransaction>, coinbase: seq<Output>) returns (body: Body)
    ensures body == Body(coinbase, TransactionsOf(txs), AuthorizationsOf(txs))
  {
    var authorizations: seq<Authorization>, transactions: seq<Transaction> := [], [];
    for i := 0 to |txs|
      invariant transactions == TransactionsOf(txs[..i]) && authorizations == AuthorizationsOf(txs[..i])
    {
      assert txs[..i + 1][..i] == txs[..i];
      authorizations := authorizations + txs[i].authorizations;
      transactions := transactions + [txs[i].transaction];
    }
    assert txs[..|txs|] == txs;
    body := Body(coinbase, transactions, authorizations);
  }

  function InputCount(txs: seq<Transaction>): nat {
    if txs == [] then 0 else InputCount(txs[..|txs| - 1]) + |txs[|txs| - 1].core.inputs|
  }

  /** One authorization for every input, in order; nothing when they run out, where the source panics. */
  function Unpack(txs: seq<Transaction>, authorizations: seq<Authorization>): Option<seq<AuthorizedTransaction>> {
    if txs == [] then Some([])
    else
      var init, last := txs[..|txs| - 1], txs[|txs| - 1];
      var before := Unpack(init, authorizations);
      if before.None? || InputCount(txs) > |authorizations| then None
      else Some(before.value + [AuthorizedTransaction(last, authorizations[InputCount(init)..InputCount(txs)])])
  }

  method AuthorizedTransactions(body: Body) returns (r: Option<seq<AuthorizedTransaction>>)
    ensures r == Unpack(body.transactions, body.authorizations)
  {
    var txs := body.transactions;
    var next := 0;
    var unpacked: seq<AuthorizedTransaction> := [];
    for k := 0 to |txs|
      invariant next == InputCount(txs[..k]) <= |body.authorizations|
      invariant Unpack(txs[..k], body.authorizations) == Some(unpacked)
    {
      assert txs[..k + 1][..k] == txs[..k];
      ghost var start := next;
      var authorizations: seq<Authorization> := [];
      for i := 0 to |txs[k].core.inputs|
        invariant next == start + i <= |body.authorizations| && authorizations == body.authorizations[start..next]
      {
        if next == |body.authorizations| {
          UnpackFails(txs, body.authorizations, k + 1);
          return None;
        }
        authorizations := authorizations + [body.authorizations[next]];
        next := next + 1;
      }
      unpacked := unpacked + [AuthorizedTransaction(txs[k], authorizations)];
    }
    assert txs[..|txs|] == txs;
    r := Some(unpacked);
  }

  lemma {:induction false} UnpackFails(txs: seq<Transaction>, authorizations: seq<Authorization>, k: nat)
    requires k <= |txs| && InputCount(txs[..k]) > |authorizations|
    ensures Unpack(txs, authorizations).None?
    decreases |txs|
  {
    if k < |txs| {
      assert txs[..|txs| - 1][..k] == txs[..k];
      UnpackFails(txs[..|txs| - 1], authorizations, k);
    } else {
      assert txs[..k] == txs;
    }
  }

  ghost predicate OnePerInput(txs: seq<AuthorizedTransaction>) {
    forall i :: 0 <= i < |txs| ==> |txs[i].authorizations| == |txs[i].transaction.core.inputs|
  }

  /** More authorizations at the end do not matter. */
  lemma {:induction false} UnpackPrefix(txs: seq<Transaction>, a: seq<Authorization>, more: seq<Authorization>)
    requires InputCount(txs) <= |a|
    ensures Unpack(txs, a + more) == Unpack(txs, a)
  {
    if txs != [] {
      UnpackPrefix(txs[..|txs| - 1], a, more);
      var lo, hi := InputCount(txs[..|txs| - 1]), InputCount(txs);
      assert (a + more)[lo..hi] == a[lo..hi];
    }
  }

  lemma {:induction false} UnpackedShape(txs: seq<Transaction>, a: seq<Authorization>)
    requires Unpack(txs, a).Some?
    ensures |Unpack(txs, a).value| == |txs| && OnePerInput(Unpack(txs, a).value) && InputCount(txs) <= |a|
  {
    if txs != [] {
      UnpackedShape(txs[..|txs| - 1], a);
    }
  }

  lemma {:induction false} PackedCounts(txs: seq<AuthorizedTransaction>)
    requires OnePerInput(txs)
    ensures InputCount(TransactionsOf(txs)) == |AuthorizationsOf(txs)|
  {
    if txs != [] {
      var init := txs[..|txs| - 1];
      PackedCounts(init);
      assert TransactionsOf(txs)[..|TransactionsOf(init)|] == TransactionsOf(init);
    }
  }

  /** Unpacking a packed body gives back the transactions exactly when each has one authorization per input. */
  lemma {:induction false} UnpackUndoesPack(txs: seq<AuthorizedTransaction>)
    ensures Unpack(TransactionsOf(txs), AuthorizationsOf(txs)) == Some(txs) <==> OnePerInput(txs)
  {
    if OnePerInput(txs) {
      if txs != [] {
        var init, last := txs[..|txs| - 1], txs[|txs| - 1];
        assert txs == init + [last];
        UnpackUndoesPack(init);
        PackedCounts(init);
        PackedCounts(txs);
        UnpackPrefix(TransactionsOf(init), AuthorizationsOf(init), last.authorizations);
        assert TransactionsOf(txs)[..|TransactionsOf(init)|] == TransactionsOf(init);
        var n := |AuthorizationsOf(init)|;
        assert AuthorizationsOf(txs)[n..n + |last.authorizations|] == last.authorizations;
      }
    } else if Unpack(TransactionsOf(txs), AuthorizationsOf(txs)) == Some(txs) {
      UnpackedShape(TransactionsOf(txs), AuthorizationsOf(txs));
    }
  }

  /** Packing what was unpacked gives back the body, less the authorizations that no input asked for. */
  lemma {:induction false} PackUndoesUnpack(txs: seq<Transaction>, a: seq<Authorization>)
    requires Unpack(txs, a).Some?
    ensures var unpacked := Unpack(txs, a).value;
            && InputCount(txs) <= |a|
            && TransactionsOf(unpacked) == txs && AuthorizationsOf(unpacked) == a[..InputCount(txs)]
  {
    UnpackedShape(txs, a);
    if txs != [] {
      var init, last := txs[..|txs| - 1], txs[|txs| - 1];
      var before := Unpack(init, a).value;
      PackUndoesUnpack(init, a);
      var unpacked := before + [AuthorizedTransaction(last, a[InputCount(init)..InputCount(txs)])];
      assert unpacked[..|unpacked| - 1] == before;
      PrefixJoins(a, InputCount(init), InputCount(txs));
    }
  }

  lemma PrefixJoins<T>(a: seq<T>, lo: nat, hi: nat)
    requires lo <= hi <= |a|
    ensures a[..lo] + a[lo..hi] == a[..hi]
  {
  }

  // ------------------------------------------------------------- the proposer's lists

  function CreatedLeaves(moves: seq<Move>): seq<Leaf> {
    if moves == [] then []
    else
      var m := moves[|moves| - 1];
      CreatedLeaves(moves[..|moves| - 1]) + if m.Create? then [OpOf(m).leaf] else []
  }

  function SpentLeaves(moves: seq<Move>): seq<Leaf> {
    if moves == [] then []
    else
      var m := moves[|moves| - 1];
      SpentLeaves(moves[..|moves| - 1]) + if m.Spend? then [OpOf(m).leaf] else []
  }

  /** Collects the leaves of a body into two lists and modifies the forest by them. */
  method ModifyMemforest(f: Forest, body: Body) returns (r: Result<Forest, UtreexoError>)
    ensures r == Modify(f, CreatedLeaves(MovesOf(body)), SpentLeaves(MovesOf(body)))
  {
    var adds, dels := PushCreates([], [], [], FromCoinbase(MerkleRootOf(body)), body.coinbase);
    assert [] + BodyMoves(body, 0) == BodyMoves(body, 0);
    for k := 0 to |body.transactions|
      invariant adds == CreatedLeaves(BodyMoves(body, k)) && dels == SpentLeaves(BodyMoves(body, k))
    {
      adds, dels := PushTransaction(adds, dels, BodyMoves(body, k), body.transactions[k]);
    }
    r := Modify(f, adds, dels);
  }

  lemma OneMoreLeaf(moves: seq<Move>, m: Move)
    ensures CreatedLeaves(moves + [m]) == CreatedLeaves(moves) + if m.Create? then [OpOf(m).leaf] else []
    ensures SpentLeaves(moves + [m]) == SpentLeaves(moves) + if m.Spend? then [OpOf(m).leaf] else []
  {
    assert (moves + [m])[..|moves|] == moves;
  }

  method PushCreates(adds: seq<Leaf>, dels: seq<Leaf>, ghost done: seq<Move>, origin: Origin, outputs: seq<Output>)
    returns (adds': seq<Leaf>, dels': seq<Leaf>)
    requires adds == CreatedLeaves(done) && dels == SpentLeaves(done)
    ensures adds' == CreatedLeaves(done + Creates(origin, outputs, |outputs|))
    ensures dels' == SpentLeaves(done + Creates(origin, outputs, |outputs|))
  {
    adds', dels' := adds, dels;
    assert done + Creates(origin, outputs, 0) == done;
    for vout := 0 to |outputs|
      invariant adds' == CreatedLeaves(done + Creates(origin, outputs, vout))
      invariant dels' == SpentLeaves(done + Creates(origin, outputs, vout))
    {
      OneMoreCreate(done, origin, outputs, vout);
      OneMoreLeaf(done + Creates(origin, outputs, vout), Create(origin.At(vout), outputs[vout]));
      adds' := adds' + [Leaf(origin.At(vout), outputs[vout])];
    }
  }

  method PushTransaction(adds: seq<Leaf>, dels: seq<Leaf>, ghost done: seq<Move>, tx: Transaction)
    returns (adds': seq<Leaf>, dels': seq<Leaf>)
    requires adds == CreatedLeaves(done) && dels == SpentLeaves(done)
    ensures adds' == CreatedLeaves(done + AllOf(tx)) && dels' == SpentLeaves(done + AllOf(tx))
  {
    var txid, inputs, outputs := tx.Id(), tx.core.inputs, tx.core.outputs;
    adds', dels' := adds, dels;
    assert done + Spends(txid, inputs, 0) == done;
    for vin := 0 to |inputs|
      invariant adds' == CreatedLeaves(done + Spends(txid, inputs, vin))
      invariant dels' == SpentLeaves(done + Spends(txid, inputs, vin))
    {
      OneMoreSpend(done, txid, inputs, vin);
      OneMoreLeaf(done + Spends(txid, inputs, vin), Spend(inputs[vin].0, inputs[vin].1, RegularIn(txid, vin)));
      dels' := dels' + [inputs[vin].1];
    }
    Associate(done, Spends(txid, inputs, |inputs|), Creates(FromTransaction(txid), outputs, |outputs|));
    adds', dels' := PushCreates(adds', dels', done + Spends(txid, inputs, |inputs|), FromTransaction(txid), outputs);
  }

  /** No leaf is created twice, claimed twice, or both created and claimed. */
  predicate LeavesDiffer(moves: seq<Move>) {
    && NoRepeats(CreatedLeaves(moves)) && NoRepeats(SpentLeaves(moves))
    && ToSet(CreatedLeaves(moves)) !! ToSet(SpentLeaves(moves))
  }

  lemma {:induction false} SelectKeepsNoRepeats(s: seq<Leaf>, flag: map<Leaf, bool>, wanted: bool)
    requires NoRepeats(s)
    ensures NoRepeats(Select(s, flag, wanted))
  {
    if s != [] {
      var init, last := s[..|s| - 1], s[|s| - 1];
      SelectKeepsNoRepeats(init, flag, wanted);
      SelectMembers(init, flag, wanted);
      var kept := Select(init, flag, wanted);
      assert Select(s, flag, wanted) == if last in flag && flag[last] == wanted then kept + [last] else kept;
      assert (kept + [last])[..|kept|] == kept;
    }
  }

  lemma {:induction false} RecordAllWellFormed(ops: seq<Op>)
    ensures WellFormed(RecordAll(ops))
  {
    if ops != [] {
      var op := ops[|ops| - 1];
      RecordAllWellFormed(ops[..|ops| - 1]);
      RecordWellFormed(RecordAll(ops[..|ops| - 1]), op.leaf, op.insert);
    }
  }

  lemma LeavesDifferInit(moves: seq<Move>)
    requires moves != [] && LeavesDiffer(moves)
    ensures LeavesDiffer(moves[..|moves| - 1])
    ensures OpOf(moves[|moves| - 1]).leaf !in CreatedLeaves(moves[..|moves| - 1])
    ensures OpOf(moves[|moves| - 1]).leaf !in SpentLeaves(moves[..|moves| - 1])
  {
    var init, m := moves[..|moves| - 1], moves[|moves| - 1];
    if m.Create? {
      assert CreatedLeaves(moves)[..|CreatedLeaves(init)|] == CreatedLeaves(init);
      assert SpentLeaves(moves) == SpentLeaves(init);
      assert OpOf(m).leaf in ToSet(CreatedLeaves(moves)) && OpOf(m).leaf !in ToSet(SpentLeaves(moves));
      assert forall h | h in CreatedLeaves(init) :: h in CreatedLeaves(moves);
    } else {
      assert SpentLeaves(moves)[..|SpentLeaves(init)|] == SpentLeaves(init);
      assert CreatedLeaves(moves) == CreatedLeaves(init);
      assert OpOf(m).leaf in ToSet(SpentLeaves(moves)) && OpOf(m).leaf !in ToSet(CreatedLeaves(moves));
      assert forall h | h in SpentLeaves(init) :: h in SpentLeaves(moves);
    }
  }

  lemma RecordNewLeaf(d: Diff, h: Leaf, insert: bool)
    requires WellFormed(d) && h !in Adds(d) && h !in Dels(d)
    ensures var e := Record(d, h, insert);
            && Adds(e) == Adds(d) + (if insert then [h] else []) && Dels(e) == Dels(d) + if insert then [] else [h]
  {
    SelectMembers(d.order, d.flag, true);
    SelectMembers(d.order, d.flag, false);
    assert h !in d.flag;
    var e := Record(d, h, insert);
    assert e.order[..|d.order|] == d.order;
    SelectAgrees(d.order, e.flag, d.flag, true);
    SelectAgrees(d.order, e.flag, d.flag, false);
  }

  lemma {:induction false} DifferentLeavesAgree(moves: seq<Move>)
    requires LeavesDiffer(moves)
    ensures var d := RecordAll(Ops(moves)); Adds(d) == CreatedLeaves(moves) && Dels(d) == SpentLeaves(moves)
  {
    if moves != [] {
      var init, m := moves[..|moves| - 1], moves[|moves| - 1];
      assert moves == init + [m];
      LeavesDifferInit(moves);
      DifferentLeavesAgree(init);
      RecordAllWellFormed(Ops(init));
      RecordNewLeaf(RecordAll(Ops(init)), OpOf(m).leaf, OpOf(m).insert);
      RecordOneMore(init, m);
    }
  }

  /**
   The proposer's lists are those of the validator's diff exactly when all leaves differ; the two
   then compute the same forest, so the roots in the header match.
   */
  lemma ProposerAgreesWithValidator(body: Body)
    ensures Adds(DiffOf(body)) == CreatedLeaves(MovesOf(body)) && Dels(DiffOf(body)) == SpentLeaves(MovesOf(body))
       <==> LeavesDiffer(MovesOf(body))
  {
    var moves := MovesOf(body);
    if LeavesDiffer(moves) {
      DifferentLeavesAgree(moves);
    } else {
      var d := DiffOf(body);
      RecordAllWellFormed(Ops(moves));
      SelectKeepsNoRepeats(d.order, d.flag, true);
      SelectKeepsNoRepeats(d.order, d.flag, false);
      SelectMembers(d.order, d.flag, true);
      SelectMembers(d.order, d.flag, false);
    }
  }
}
