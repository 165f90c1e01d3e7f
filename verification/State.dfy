/** The chain state: its tables as fields, and the views that the specifications are about. */
module State {
  import opened Types
  import opened RollBack
  import opened Accumulator
  import opened Peg
  import opened PegBlock

  /** The roots the note commitment tree had after each block that changed it, indexed both ways. */
  datatype RootTables = RootTables(
    blockHashToRoot: map<Option<BlockHash>, Root>, historicalRoots: map<Root, Option<BlockHash>>)

  /** The shielded pool's tables: the note commitment frontier, its roots, and the used nullifiers. */
  datatype OrchardTables = OrchardTables(frontier: seq<nat>, roots: RootTables, nullifiers: set<nat>)

  const GENESIS_ROOTS := RootTables(map[None := Root([])], map[Root([]) := None])

  /** The accumulator leaves of a set of unspent outputs. */
  function LeavesOf(utxos: map<OutPoint, Output>): set<Leaf> {
    set o | o in utxos :: Leaf(o, utxos[o])
  }

  lemma LeavesRemove(utxos: map<OutPoint, Output>, o: OutPoint)
    requires o in utxos
    ensures Leaf(o, utxos[o]) in LeavesOf(utxos)
    ensures LeavesOf(utxos - {o}) == LeavesOf(utxos) - {Leaf(o, utxos[o])}
  {
    forall x | x in utxos - {o}
      ensures (utxos - {o})[x] == utxos[x]
    {
    }
  }

  lemma LeavesInsert(utxos: map<OutPoint, Output>, o: OutPoint, output: Output)
    requires o !in utxos
    ensures Leaf(o, output) !in LeavesOf(utxos)
    ensures LeavesOf(utxos[o := output]) == LeavesOf(utxos) + {Leaf(o, output)}
  {
    forall x | x in utxos
      ensures utxos[o := output][x] == utxos[x]
    {
    }
    assert utxos[o := output][o] == output;
  }

  /** Everything the state holds. */
  datatype Contents = Contents(
    tip: Option<BlockHash>, height: Option<nat>, tables: PegTables, orchard: OrchardTables, accumulator: Forest)

  class State {
    var tip: Option<BlockHash>
    var height: Option<nat>
    var utxos: map<OutPoint, Output>
    var stxos: map<OutPoint, SpentOutput>
    var pendingWithdrawalBundle: Option<M6id>
    var latestFailedWithdrawalBundle: Option<RollBack<M6id>>
    var withdrawalBundles: map<M6id, BundleEntry>
    var depositBlocks: seq<(MainHash, nat)>
    var withdrawalBundleEventBlocks: seq<(MainHash, nat)>
    var orchard: OrchardTables
    var accumulator: Forest

    constructor ()
      ensures tip == None && height == None && utxos == map[] && stxos == map[]
      ensures Tables() == PegTables(PegState(map[], map[], None, None, map[]), [], [])
      ensures orchard == OrchardTables([], GENESIS_ROOTS, {})
      ensures accumulator == Forest({}, [])
    {
      tip, height, utxos, stxos := None, None, map[], map[];
      pendingWithdrawalBundle, latestFailedWithdrawalBundle, withdrawalBundles := None, None, map[];
      depositBlocks, withdrawalBundleEventBlocks := [], [];
      orchard := OrchardTables([], GENESIS_ROOTS, {});
      accumulator := Forest({}, []);
    }

    ghost function PegView(): PegState
      reads this
    {
      PegState(utxos, stxos, pendingWithdrawalBundle, latestFailedWithdrawalBundle, withdrawalBundles)
    }

    ghost function Tables(): PegTables
      reads this
    {
      PegTables(PegView(), depositBlocks, withdrawalBundleEventBlocks)
    }

    function Saved(): Contents
      reads this
    {
      Contents(
        tip, height,
        PegTables(
          PegState(utxos, stxos, pendingWithdrawalBundle, latestFailedWithdrawalBundle, withdrawalBundles),
          depositBlocks, withdrawalBundleEventBlocks),
        orchard, accumulator)
    }

    /** Drops a write transaction: everything is as it was when `saved` was taken. */
    method Restore(saved: Contents)
      modifies this
      ensures Saved() == saved
    {
      tip, height, orchard, accumulator := saved.tip, saved.height, saved.orchard, saved.accumulator;
      var PegTables(peg, deposits, events) := saved.tables;
      utxos, stxos, depositBlocks, withdrawalBundleEventBlocks := peg.utxos, peg.stxos, deposits, events;
      pendingWithdrawalBundle, latestFailedWithdrawalBundle := peg.pending, peg.latestFailed;
      withdrawalBundles := peg.bundles;
    }
  }
}
