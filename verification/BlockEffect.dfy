/**
 What a connected block leaves behind, said of its transactions alone: which outputs are spent and by which
 input, which are created and where, and which notes are used and appended.
 */
module BlockEffect {
  import opened Types
  import opened State
  import opened Peg
  import opened PegBlock
  import opened Moves
  import opened Shielded
  import opened Validation
  import opened Acceptance
  import opened BlockSpec

  // ---------------------------------------------------------------- what is moved

  /** Input `i` of transaction `k`. */
  predicate IsInput(body: Body, k: nat, i: nat) {
    k < |body.transactions| && i < |body.transactions[k].core.inputs|
  }

  /** Output `v` of transaction `k`. */
  predicate IsOutput(body: Body, k: nat, v: nat) {
    k < |body.transactions| && v < |body.transactions[k].core.outputs|
  }

  function InputOf(body: Body, k: nat, i: nat): (OutPoint, Leaf)
    requires IsInput(body, k, i)
  {
    body.transactions[k].core.inputs[i]
  }

  function SpendAt(body: Body, k: nat, i: nat): Move
    requires IsInput(body, k, i)
  {
    Spend(InputOf(body, k, i).0, InputOf(body, k, i).1, RegularIn(Txid(body.transactions[k].core), i))
  }

  function CreateAt(body: Body, k: nat, v: nat): Move
    requires IsOutput(body, k, v)
  {
    Create(Regular(Txid(body.transactions[k].core), v), body.transactions[k].core.outputs[v])
  }

  function RewardAt(body: Body, v: nat): Move
    requires v < |body.coinbase|
  {
    Create(Coinbase(MerkleRootOf(body), v), body.coinbase[v])
  }

  lemma {:induction false} SpendsAre(txid: Txid, inputs: seq<(OutPoint, Leaf)>, n: nat, m: Move)
    requires n <= |inputs|
    ensures m in Spends(txid, inputs, n) <==>
              exists i: nat {:trigger inputs[i]} :: i < n && m == Spend(inputs[i].0, inputs[i].1, RegularIn(txid, i))
  {
    if n > 0 {
      SpendsAre(txid, inputs, n - 1, m);
      assert inputs[n - 1] == inputs[n - 1];
    }
  }

  lemma {:induction false} CreatesAre(origin: Origin, outputs: seq<Output>, n: nat, m: Move)
    requires n <= |outputs|
    ensures m in Creates(origin, outputs, n) <==>
              exists v: nat {:trigger outputs[v]} :: v < n && m == Create(origin.At(v), outputs[v])
  {
    if n > 0 {
      CreatesAre(origin, outputs, n - 1, m);
      assert outputs[n - 1] == outputs[n - 1];
    }
  }

  /** The move spends an input of one of the first `n` transactions. */
  ghost predicate SpendsSome(body: Body, n: nat, m: Move) {
    exists k: nat, i: nat {:trigger IsInput(body, k, i)} :: k < n && IsInput(body, k, i) && m == SpendAt(body, k, i)
  }

  ghost predicate CreatesSome(body: Body, n: nat, m: Move) {
    || (exists v: nat :: v < |body.coinbase| && m == RewardAt(body, v))
    || (exists k: nat, v: nat {:trigger IsOutput(body, k, v)} :: k < n && IsOutput(body, k, v) && m == CreateAt(body, k, v))
  }

  lemma OneMoreTransaction(body: Body, n: nat, m: Move)
    requires n < |body.transactions|
    ensures m in AllOf(body.transactions[n]) <==>
              || (exists i: nat {:trigger IsInput(body, n, i)} :: IsInput(body, n, i) && m == SpendAt(body, n, i))
              || (exists v: nat {:trigger IsOutput(body, n, v)} :: IsOutput(body, n, v) && m == CreateAt(body, n, v))
  {
    var tx := body.transactions[n];
    SpendsAre(tx.Id(), tx.core.inputs, |tx.core.inputs|, m);
    CreatesAre(FromTransaction(tx.Id()), tx.core.outputs, |tx.core.outputs|, m);
    forall i: nat | i < |tx.core.inputs| && m == Spend(tx.core.inputs[i].0, tx.core.inputs[i].1, RegularIn(tx.Id(), i))
      ensures IsInput(body, n, i) && m == SpendAt(body, n, i)
    {
    }
    forall v: nat | v < |tx.core.outputs| && m == Create(FromTransaction(tx.Id()).At(v), tx.core.outputs[v])
      ensures IsOutput(body, n, v) && m == CreateAt(body, n, v)
    {
    }
  }

  lemma SomeMore(body: Body, n: nat, m: Move)
    requires n < |body.transactions|
    ensures SpendsSome(body, n + 1, m) || CreatesSome(body, n + 1, m) <==>
              SpendsSome(body, n, m) || CreatesSome(body, n, m) || m in AllOf(body.transactions[n])
  {
    hide MerkleRootOf, AllOf;
    OneMoreTransaction(body, n, m);
  }

  lemma RewardsAre(body: Body, m: Move)
    ensures m in BodyMoves(body, 0) <==> SpendsSome(body, 0, m) || CreatesSome(body, 0, m)
  {
    CreatesAre(FromCoinbase(MerkleRootOf(body)), body.coinbase, |body.coinbase|, m);
    forall v: nat | v < |body.coinbase| && m == Create(FromCoinbase(MerkleRootOf(body)).At(v), body.coinbase[v])
      ensures m == RewardAt(body, v)
    {
    }
  }

  /** The moves of a body are its rewards, and the inputs and outputs of its transactions. */
  lemma {:induction false} MovesAre(body: Body, n: nat, m: Move)
    requires n <= |body.transactions|
    ensures m in BodyMoves(body, n) <==> SpendsSome(body, n, m) || CreatesSome(body, n, m)
  {
    hide SpendsSome, CreatesSome, AllOf;
    if n == 0 {
      RewardsAre(body, m);
    } else {
      MovesAre(body, n - 1, m);
      SomeMore(body, n - 1, m);
    }
  }

  lemma {:induction false} CreatedIs(moves: seq<Move>, o: OutPoint, output: Output)
    requires Distinct(CreatedKeys(moves))
    ensures o in Created(moves) && Created(moves)[o] == output <==> Create(o, output) in moves
  {
    if moves != [] {
      var init, last := moves[..|moves| - 1], moves[|moves| - 1];
      assert moves == init + [last];
      if last.Create? {
        assert CreatedKeys(moves) == CreatedKeys(init) + [last.outpoint];
        DistinctInit(CreatedKeys(moves));
      } else {
        assert CreatedKeys(moves) == CreatedKeys(init);
      }
      KeysOfTables(map[], init);
      CreatedIs(init, o, output);
      if last.Create? && last.outpoint == o {
        CreatedHasKey(init, o, output);
      }
    }
  }

  lemma {:induction false} CreatedHasKey(moves: seq<Move>, o: OutPoint, output: Output)
    ensures Create(o, output) in moves ==> o in CreatedKeys(moves)
  {
    if moves != [] {
      assert moves == moves[..|moves| - 1] + [moves[|moves| - 1]];
      CreatedHasKey(moves[..|moves| - 1], o, output);
    }
  }

  lemma {:induction false} SpentHasKey(moves: seq<Move>, m: Move)
    requires m.Spend? && m in moves
    ensures m.outpoint in SpentKeys(moves)
  {
    var init, last := moves[..|moves| - 1], moves[|moves| - 1];
    assert moves == init + [last];
    if m != last {
      SpentHasKey(init, m);
    }
  }

  lemma {:induction false} SpentIs(utxos: map<OutPoint, Output>, moves: seq<Move>, m: Move)
    requires Distinct(SpentKeys(moves)) && m.Spend? && m in moves && m.outpoint in utxos
    ensures var spent := SpentFrom(utxos, moves);
            m.outpoint in spent && spent[m.outpoint] == SpentOutput(utxos[m.outpoint], m.inpoint)
  {
    var init, last := moves[..|moves| - 1], moves[|moves| - 1];
    assert moves == init + [last];
    if last.Spend? {
      assert SpentKeys(moves) == SpentKeys(init) + [last.outpoint];
      DistinctInit(SpentKeys(moves));
    } else {
      assert SpentKeys(moves) == SpentKeys(init);
    }
    if m != last {
      SpentHasKey(init, m);
      SpentIs(utxos, init, m);
    }
  }

  lemma {:induction false} SpentFromMove(utxos: map<OutPoint, Output>, moves: seq<Move>, o: OutPoint)
    requires o in SpentFrom(utxos, moves)
    ensures exists m :: m in moves && m.Spend? && m.outpoint == o && o in utxos && SpentFrom(utxos, moves)[o] == SpentOutput(utxos[o], m.inpoint)
  {
    var init, last := moves[..|moves| - 1], moves[|moves| - 1];
    assert moves == init + [last];
    if !(last.Spend? && last.outpoint == o && o in utxos) {
      SpentFromMove(utxos, init, o);
    } else {
      assert last in moves;
    }
  }

  // ------------------------------------------------------------- the output tables

  /** Every input is spent and recorded with the input that spent it, and nothing else is. */
  ghost predicate InputsSpent(before: Ledger, body: Body, after: Ledger) {
    && (forall k: nat, i: nat {:trigger IsInput(body, k, i)} | IsInput(body, k, i) ::
          var o := InputOf(body, k, i).0;
          && o in before.utxos && o !in after.utxos && o in after.stxos
          && after.stxos[o] == SpentOutput(before.utxos[o], RegularIn(Txid(body.transactions[k].core), i)))
    && (forall o {:trigger after.stxos[o]} | o in after.stxos ::
          || (o in before.stxos && after.stxos[o] == before.stxos[o])
          || exists k: nat, i: nat {:trigger IsInput(body, k, i)} :: IsInput(body, k, i) && InputOf(body, k, i).0 == o)
    && (forall o | o in before.stxos :: o in after.stxos && after.stxos[o] == before.stxos[o])
  }

  /** The outpoint belongs to a reward or an output of the body. */
  ghost predicate OfBody(body: Body, o: OutPoint) {
    || (exists v: nat :: v < |body.coinbase| && o == Coinbase(MerkleRootOf(body), v))
    || exists k: nat, v: nat {:trigger IsOutput(body, k, v)} :: IsOutput(body, k, v) && o == Regular(Txid(body.transactions[k].core), v)
  }

  /** Every output is created under its own outpoint. */
  ghost predicate OutputsCreated(body: Body, utxos: map<OutPoint, Output>) {
    && (forall v: nat | v < |body.coinbase| ::
          var o := Coinbase(MerkleRootOf(body), v); o in utxos && utxos[o] == body.coinbase[v])
    && (forall k: nat, v: nat {:trigger IsOutput(body, k, v)} | IsOutput(body, k, v) ::
          var o := Regular(Txid(body.transactions[k].core), v);
          o in utxos && utxos[o] == body.transactions[k].core.outputs[v])
  }

  /** Nothing else is unspent, and only inputs are gone. */
  ghost predicate NothingElseMoved(before: map<OutPoint, Output>, body: Body, after: map<OutPoint, Output>) {
    && (forall o {:trigger after[o]} | o in after :: (o in before && after[o] == before[o]) || OfBody(body, o))
    && (forall o | o in before && o !in after ::
          exists k: nat, i: nat {:trigger IsInput(body, k, i)} :: IsInput(body, k, i) && InputOf(body, k, i).0 == o)
  }

  lemma InputsAreSpent(l: Ledger, body: Body)
    requires Spendable(l.utxos, MovesOf(body)) && Fresh(l, MovesOf(body)) && l.utxos.Keys !! l.stxos.Keys
    ensures InputsSpent(l, body, AllAtOnce(l, MovesOf(body)))
  {
    hide BodyMoves, MerkleRootOf;
    var moves, after := MovesOf(body), AllAtOnce(l, MovesOf(body));
    KeysOfTables(l.utxos, moves);
    forall k: nat, i: nat {:trigger IsInput(body, k, i)} | IsInput(body, k, i)
      ensures var o := InputOf(body, k, i).0;
              && o in l.utxos && o !in after.utxos && o in after.stxos
              && after.stxos[o] == SpentOutput(l.utxos[o], RegularIn(Txid(body.transactions[k].core), i))
    {
      var m := SpendAt(body, k, i);
      MovesAre(body, |body.transactions|, m);
      assert SpendsSome(body, |body.transactions|, m);
      SpentHasKey(moves, m);
      SpentIs(l.utxos, moves, m);
    }
    forall o {:trigger after.stxos[o]} | o in after.stxos && o !in l.stxos
      ensures exists k: nat, i: nat {:trigger IsInput(body, k, i)} :: IsInput(body, k, i) && InputOf(body, k, i).0 == o
    {
      SpentFromMove(l.utxos, moves, o);
      var m :| m in moves && m.Spend? && m.outpoint == o;
      MovesAre(body, |body.transactions|, m);
    }
  }

  lemma OutputsAreCreated(l: Ledger, body: Body)
    requires Fresh(l, MovesOf(body))
    ensures OutputsCreated(body, AllAtOnce(l, MovesOf(body)).utxos)
  {
    hide BodyMoves, MerkleRootOf;
    var moves, n, after := MovesOf(body), |body.transactions|, AllAtOnce(l, MovesOf(body)).utxos;
    forall v: nat | v < |body.coinbase|
      ensures var o := Coinbase(MerkleRootOf(body), v); o in after && after[o] == body.coinbase[v]
    {
      MovesAre(body, n, RewardAt(body, v));
      CreatedIs(moves, Coinbase(MerkleRootOf(body), v), body.coinbase[v]);
    }
    forall k: nat, v: nat {:trigger IsOutput(body, k, v)} | IsOutput(body, k, v)
      ensures var o := Regular(Txid(body.transactions[k].core), v);
              o in after && after[o] == body.transactions[k].core.outputs[v]
    {
      MovesAre(body, n, CreateAt(body, k, v));
      assert CreatesSome(body, n, CreateAt(body, k, v));
      CreatedIs(moves, Regular(Txid(body.transactions[k].core), v), body.transactions[k].core.outputs[v]);
    }
  }

  lemma NothingElseIsMoved(l: Ledger, body: Body)
    requires Fresh(l, MovesOf(body))
    ensures NothingElseMoved(l.utxos, body, AllAtOnce(l, MovesOf(body)).utxos)
  {
    hide BodyMoves, MerkleRootOf;
    var moves, n, after := MovesOf(body), |body.transactions|, AllAtOnce(l, MovesOf(body)).utxos;
    forall o {:trigger after[o]} | o in after && o in Created(moves)
      ensures OfBody(body, o)
    {
      CreatedIs(moves, o, Created(moves)[o]);
      MovesAre(body, n, Create(o, Created(moves)[o]));
    }
    forall o | o in l.utxos && o !in after
      ensures exists k: nat, i: nat {:trigger IsInput(body, k, i)} :: IsInput(body, k, i) && InputOf(body, k, i).0 == o
    {
      SpentKeyIsSpend(moves, o);
      var m :| m in moves && m.Spend? && m.outpoint == o;
      MovesAre(body, n, m);
    }
  }

  // -------------------------------------------------------------------- the notes

  /** Nullifier `i` of the bundle of transaction `k`. */
  predicate IsNullifier(body: Body, k: nat, i: nat) {
    k < |body.transactions| && body.transactions[k].core.orchardBundle.Some?
    && i < |body.transactions[k].core.orchardBundle.value.nullifiers|
  }

  function NullifierAt(body: Body, k: nat, i: nat): nat
    requires IsNullifier(body, k, i)
  {
    body.transactions[k].core.orchardBundle.value.nullifiers[i]
  }

  /** The nullifier occurs among the first `n` transactions. */
  ghost predicate UsedIn(body: Body, n: nat, x: nat) {
    exists k: nat, i: nat {:trigger IsNullifier(body, k, i)} :: k < n && IsNullifier(body, k, i) && NullifierAt(body, k, i) == x
  }

  /** No nullifier occurs twice among the first `n` transactions or was used before, and all are used now. */
  ghost predicate NotesUsed(before: set<nat>, body: Body, n: nat, after: set<nat>) {
    && (forall k: nat, i: nat {:trigger IsNullifier(body, k, i)} | k < n && IsNullifier(body, k, i) ::
          NullifierAt(body, k, i) !in before && NullifierAt(body, k, i) in after)
    && (forall k: nat, i: nat, l: nat, j: nat {:trigger IsNullifier(body, k, i), IsNullifier(body, l, j)} |
          k < n && l < n && IsNullifier(body, k, i) && IsNullifier(body, l, j) && (k, i) != (l, j) ::
            NullifierAt(body, k, i) != NullifierAt(body, l, j))
    && (forall x {:trigger x in after} :: x in after <==> (x in before || UsedIn(body, n, x)))
  }

  /** The nullifiers of transaction `k` are new and differ, and all are used now. */
  ghost predicate BundleUses(before: set<nat>, body: Body, k: nat, after: set<nat>) {
    && (forall i: nat {:trigger IsNullifier(body, k, i)} | IsNullifier(body, k, i) ::
          NullifierAt(body, k, i) !in before && NullifierAt(body, k, i) in after)
    && (forall i: nat, j: nat {:trigger IsNullifier(body, k, i), IsNullifier(body, k, j)} |
          IsNullifier(body, k, i) && IsNullifier(body, k, j) && i != j :: NullifierAt(body, k, i) != NullifierAt(body, k, j))
    && (forall x {:trigger x in after} :: x in after <==>
          (x in before || exists i: nat {:trigger IsNullifier(body, k, i)} :: IsNullifier(body, k, i) && NullifierAt(body, k, i) == x))
  }

  lemma OneBundleUses(n: Notes, body: Body, k: nat)
    requires k < |body.transactions| && ConnectTxBundle(n, body.transactions[k]).Ok?
    ensures BundleUses(n.nullifiers, body, k, ConnectTxBundle(n, body.transactions[k]).value.nullifiers)
  {
    if body.transactions[k].core.orchardBundle.Some? {
      var b := body.transactions[k].core.orchardBundle.value;
      forall i: nat | i < |b.nullifiers|
        ensures IsNullifier(body, k, i) && b.nullifiers[i] in ToSet(b.nullifiers)
      {
      }
    }
  }

  lemma OneMoreUsed(before: set<nat>, body: Body, n: nat, mid: set<nat>, after: set<nat>)
    requires NotesUsed(before, body, n, mid) && BundleUses(mid, body, n, after)
    ensures NotesUsed(before, body, n + 1, after)
  {
    hide IsNullifier;
    forall k: nat, i: nat {:trigger IsNullifier(body, k, i)} | k < n && IsNullifier(body, k, i)
      ensures NullifierAt(body, k, i) in mid && NullifierAt(body, k, i) in after
    {
    }
    forall x {:trigger x in after}
      ensures x in after <==> (x in before || UsedIn(body, n + 1, x))
    {
      assert x in after <==>
             (x in mid || exists i: nat {:trigger IsNullifier(body, n, i)} :: IsNullifier(body, n, i) && NullifierAt(body, n, i) == x);
      assert x in mid <==> (x in before || UsedIn(body, n, x));
    }
  }

  lemma {:induction false} BundlesUse(notes: Notes, body: Body, n: nat)
    requires n <= |body.transactions| && ConnectBundles(notes, body.transactions, n).Ok?
    ensures NotesUsed(notes.nullifiers, body, n, ConnectBundles(notes, body.transactions, n).value.nullifiers)
  {
    hide ConnectTxBundle, NotesUsed, BundleUses;
    if n == 0 {
      NothingUsed(notes.nullifiers, body);
    } else {
      var before := ConnectBundles(notes, body.transactions, n - 1).value;
      BundlesUse(notes, body, n - 1);
      OneBundleUses(before, body, n - 1);
      OneMoreUsed(
        notes.nullifiers, body, n - 1, before.nullifiers, ConnectBundles(notes, body.transactions, n).value.nullifiers);
    }
  }

  lemma NothingUsed(before: set<nat>, body: Body)
    ensures NotesUsed(before, body, 0, before)
  {
  }

  // -------------------------------------------------------------------- the block

  /** The commitments of the bundles of the first `n` transactions, in order. */
  function Appended(body: Body, n: nat): seq<nat>
    requires n <= |body.transactions|
  {
    if n == 0 then []
    else
      var bundle := body.transactions[n - 1].core.orchardBundle;
      Appended(body, n - 1) + if bundle.Some? then bundle.value.commitments else []
  }

  lemma {:induction false} AppendedIs(body: Body, n: nat)
    requires n <= |body.transactions|
    ensures Appended(body, n) == AllCommitments(body.transactions, n)
  {
    if n > 0 {
      AppendedIs(body, n - 1);
    }
  }

  /** What connecting a block makes of the state, said of its body alone. */
  ghost predicate Effect(c: Contents, header: Header, body: Body, d: Contents) {
    var n, p, q := |body.transactions|, c.tables.peg, d.tables.peg;
    && d.tip == Some(BlockHash(header)) && d.height == (if c.height.None? then Some(0) else Some(c.height.value + 1))
    && d.tables == c.tables.(peg := p.(utxos := q.utxos, stxos := q.stxos))
    && InputsSpent(LedgerOf(c), body, LedgerOf(d)) && OutputsCreated(body, q.utxos) && NothingElseMoved(p.utxos, body, q.utxos)
    && NotesUsed(c.orchard.nullifiers, body, n, d.orchard.nullifiers)
    && d.orchard.frontier == c.orchard.frontier + Appended(body, n) && |d.orchard.frontier| <= 0x1_0000_0000
    && Root(d.orchard.frontier) in d.orchard.roots.historicalRoots
  }

  /** Connecting an accepted block has exactly this effect. */
  lemma BlockHasEffect(c: Contents, foreign: Foreign, header: Header, body: Body)
    requires Verdict(c, foreign, header, body).Ok? && Connected(c, header, body).Ok? && Fresh(LedgerOf(c), MovesOf(body))
    requires c.tables.peg.utxos.Keys !! c.tables.peg.stxos.Keys && |c.orchard.frontier| <= FRONTIER_CAPACITY
    ensures Effect(c, header, body, Connected(c, header, body).value)
  {
    hide Verdict, MovesOf, InputsSpent, OutputsCreated, NothingElseMoved, NotesUsed, ConnectBundles, Fresh, Spendable, AllAtOnce, Perform;
    AcceptedMoves(c, foreign, header, body);
    PerformIsAllAtOnce(LedgerOf(c), MovesOf(body));
    InputsAreSpent(LedgerOf(c), body);
    OutputsAreCreated(LedgerOf(c), body);
    NothingElseIsMoved(LedgerOf(c), body);
    BundlesUse(NotesOf(c), body, |body.transactions|);
    BundlesRoundTrip(NotesOf(c), body.transactions, |body.transactions|);
    AppendedIs(body, |body.transactions|);
  }
}
