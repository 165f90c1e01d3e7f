/** The shielded pool: connecting bundles, and the historical roots of the note commitment tree. */
module Shielded {
  import opened Types
  import opened State

  /** A note commitment tree of depth 32 is full after this many commitments. */
  const FRONTIER_CAPACITY: nat := 0x1_0000_0000

  datatype OrchardError = AppendCommitment | NullifierDoubleSpent

  // ----------------------------------------------------------- connecting bundles

  datatype Notes = Notes(frontier: seq<nat>, nullifiers: set<nat>)

  /** All commitments are appended and all nullifiers were unused and differ, or the bundle is refused. */
  function ConnectBundle(n: Notes, b: OrchardBundle): Result<Notes, OrchardError> {
    if |n.frontier| + |b.commitments| > FRONTIER_CAPACITY then Err(AppendCommitment)
    else if !Distinct(b.nullifiers) || !(ToSet(b.nullifiers) !! n.nullifiers) then Err(NullifierDoubleSpent)
    else Ok(Notes(n.frontier + b.commitments, n.nullifiers + ToSet(b.nullifiers)))
  }

  function ConnectTxBundle(n: Notes, tx: Transaction): Result<Notes, OrchardError> {
    match tx.core.orchardBundle
    case None => Ok(n)
    case Some(b) => ConnectBundle(n, b)
  }

  /** The bundles of the first `k` transactions. */
  function ConnectBundles(n: Notes, txs: seq<Transaction>, k: nat): Result<Notes, OrchardError>
    requires k <= |txs|
  {
    if k == 0 then Ok(n)
    else
      var before :- ConnectBundles(n, txs, k - 1);
      ConnectTxBundle(before, txs[k - 1])
  }

  lemma {:induction false} FirstRefusalStays(n: Notes, txs: seq<Transaction>, i: nat, k: nat)
    requires i <= k <= |txs| && ConnectBundles(n, txs, i).Err?
    ensures ConnectBundles(n, txs, k) == ConnectBundles(n, txs, i)
    decreases k
  {
    if i < k {
      FirstRefusalStays(n, txs, i, k - 1);
    }
  }

  /** Connects one bundle: appends to the frontier, then stores the nullifiers one by one. */
  method ConnectOrchard(state: State, frontier: seq<nat>, bundle: OrchardBundle) returns (r: Result<seq<nat>, OrchardError>)
    requires |frontier| <= FRONTIER_CAPACITY
    modifies state`orchard
    ensures match ConnectBundle(Notes(frontier, old(state.orchard.nullifiers)), bundle)
            case Err(e) => r == Err(e)
            case Ok(n) => r == Ok(n.frontier) && state.orchard == old(state.orchard).(nullifiers := n.nullifiers)
  {
    var grown := frontier;
    for i := 0 to |bundle.commitments|
      invariant grown == frontier + bundle.commitments[..i] && |grown| <= FRONTIER_CAPACITY
    {
      if |grown| == FRONTIER_CAPACITY {
        return Err(AppendCommitment);
      }
      grown := grown + [bundle.commitments[i]];
    }
    assert bundle.commitments[..|bundle.commitments|] == bundle.commitments;
    for i := 0 to |bundle.nullifiers|
      invariant state.orchard == old(state.orchard).(nullifiers := state.orchard.nullifiers)
      invariant state.orchard.nullifiers == old(state.orchard.nullifiers) + ToSet(bundle.nullifiers[..i])
      invariant Distinct(bundle.nullifiers[..i]) && ToSet(bundle.nullifiers[..i]) !! old(state.orchard.nullifiers)
    {
      var nullifier := bundle.nullifiers[i];
      if nullifier in state.orchard.nullifiers {
        RepeatFound(old(state.orchard.nullifiers), bundle.nullifiers, i);
        return Err(NullifierDoubleSpent);
      }
      assert bundle.nullifiers[..i + 1] == bundle.nullifiers[..i] + [nullifier];
      state.orchard := state.orchard.(nullifiers := state.orchard.nullifiers + {nullifier});
    }
    assert bundle.nullifiers[..|bundle.nullifiers|] == bundle.nullifiers;
    r := Ok(grown);
  }

  lemma RepeatFound(used: set<nat>, nullifiers: seq<nat>, i: nat)
    requires i < |nullifiers| && (nullifiers[i] in used || nullifiers[i] in nullifiers[..i])
    ensures !Distinct(nullifiers) || !(ToSet(nullifiers) !! used)
  {
    if nullifiers[i] in nullifiers[..i] {
      var j :| 0 <= j < i && nullifiers[j] == nullifiers[i];
    } else {
      assert nullifiers[i] in ToSet(nullifiers);
    }
  }

  // -------------------------------------------------------- disconnecting bundles

  function NullifiersOf(tx: Transaction): set<nat> {
    match tx.core.orchardBundle
    case None => {}
    case Some(b) => ToSet(b.nullifiers)
  }

  /** The nullifiers left after those of the first `k` transactions are deleted, last to first. */
  function WithoutNullifiers(nullifiers: set<nat>, txs: seq<Transaction>, k: nat): set<nat>
    requires k <= |txs|
  {
    if k == 0 then nullifiers else WithoutNullifiers(nullifiers - NullifiersOf(txs[k - 1]), txs, k - 1)
  }

  function CommitmentsOf(tx: Transaction): seq<nat> {
    match tx.core.orchardBundle
    case None => []
    case Some(b) => b.commitments
  }

  /** The commitments of the first `k` transactions. */
  function AllCommitments(txs: seq<Transaction>, k: nat): seq<nat>
    requires k <= |txs|
  {
    if k == 0 then [] else AllCommitments(txs, k - 1) + CommitmentsOf(txs[k - 1])
  }

  lemma BundleRoundTrip(n: Notes, tx: Transaction)
    requires ConnectTxBundle(n, tx).Ok?
    ensures var m := ConnectTxBundle(n, tx).value;
            && m.nullifiers - NullifiersOf(tx) == n.nullifiers && m.frontier == n.frontier + CommitmentsOf(tx)
            && (|n.frontier| <= FRONTIER_CAPACITY ==> |m.frontier| <= FRONTIER_CAPACITY)
  {
  }

  /** Deleting the nullifiers restores the set, and the frontier has grown by the commitments. */
  lemma {:induction false} BundlesRoundTrip(n: Notes, txs: seq<Transaction>, k: nat)
    requires k <= |txs| && ConnectBundles(n, txs, k).Ok?
    ensures var m := ConnectBundles(n, txs, k).value;
            && WithoutNullifiers(m.nullifiers, txs, k) == n.nullifiers
            && m.frontier == n.frontier + AllCommitments(txs, k)
            && (|n.frontier| <= FRONTIER_CAPACITY ==> |m.frontier| <= FRONTIER_CAPACITY)
  {
    hide ConnectTxBundle, NullifiersOf, CommitmentsOf;
    if k > 0 {
      BundlesRoundTrip(n, txs, k - 1);
      var before := ConnectBundles(n, txs, k - 1).value;
      BundleRoundTrip(before, txs[k - 1]);
      assert n.frontier + (AllCommitments(txs, k - 1) + CommitmentsOf(txs[k - 1])) == before.frontier + CommitmentsOf(txs[k - 1]);
    }
  }

  // -------------------------------------------------------------- historical roots

  function PutRoot(t: RootTables, hash: BlockHash, root: Root): RootTables {
    if root in t.historicalRoots then t
    else RootTables(t.blockHashToRoot[Some(hash) := root], t.historicalRoots[root := Some(hash)])
  }

  function DeleteRoot(t: RootTables, hash: BlockHash): RootTables {
    if Some(hash) !in t.blockHashToRoot then t
    else RootTables(t.blockHashToRoot - {Some(hash)}, t.historicalRoots - {t.blockHashToRoot[Some(hash)]})
  }

  /** Stores a root if it is new; reports whether it was. */
  method PutHistoricalRoot(state: State, hash: BlockHash, root: Root) returns (changed: bool)
    modifies state`orchard
    ensures changed <==> root !in old(state.orchard.roots.historicalRoots)
    ensures state.orchard == old(state.orchard).(roots := PutRoot(old(state.orchard.roots), hash, root))
  {
    var roots := state.orchard.roots;
    if root in roots.historicalRoots {
      return false;
    }
    roots := roots.(blockHashToRoot := roots.blockHashToRoot[Some(hash) := root]);
    roots := roots.(historicalRoots := roots.historicalRoots[root := Some(hash)]);
    state.orchard := state.orchard.(roots := roots);
    changed := true;
  }

  /** Deletes the root stored for a block, if any; reports whether there was one. */
  method DeleteHistoricalRoot(state: State, hash: BlockHash) returns (deleted: bool)
    modifies state`orchard
    ensures deleted <==> Some(hash) in old(state.orchard.roots.blockHashToRoot)
    ensures state.orchard == old(state.orchard).(roots := DeleteRoot(old(state.orchard.roots), hash))
  {
    var roots := state.orchard.roots;
    if Some(hash) !in roots.blockHashToRoot {
      return false;
    }
    var root := roots.blockHashToRoot[Some(hash)];
    roots := roots.(blockHashToRoot := roots.blockHashToRoot - {Some(hash)});
    roots := roots.(historicalRoots := roots.historicalRoots - {root});
    state.orchard := state.orchard.(roots := roots);
    deleted := true;
  }

  // ------------------------------------------------------ roots along the active chain

  /** The blocks of the active chain from genesis, each with the frontier after it. */
  datatype ChainBlock = ChainBlock(hash: BlockHash, frontier: seq<nat>)
  type History = seq<ChainBlock>

  /** The history is the chain of blocks that ends at `tip`. */
  ghost predicate ChainOf(hist: History, tip: Option<BlockHash>)
    decreases |hist|
  {
    if hist == [] then tip == None
    else tip == Some(hist[|hist| - 1].hash) && ChainOf(hist[..|hist| - 1], hist[|hist| - 1].hash.header.prevSideHash)
  }

  function FrontierOf(hist: History): seq<nat> {
    if hist == [] then [] else hist[|hist| - 1].frontier
  }

  /** Every block only appends to the frontier. */
  ghost predicate Growing(hist: History) {
    hist == [] || (Growing(hist[..|hist| - 1]) && FrontierOf(hist[..|hist| - 1]) <= FrontierOf(hist))
  }

  /** The tables after the roots of all blocks of the chain were put, and no others. */
  function RootsAlong(hist: History): RootTables {
    if hist == [] then GENESIS_ROOTS
    else PutRoot(RootsAlong(hist[..|hist| - 1]), hist[|hist| - 1].hash, Root(hist[|hist| - 1].frontier))
  }

  function Depth(tip: Option<BlockHash>): nat {
    if tip.None? then 0 else Depth(tip.value.header.prevSideHash) + 1
  }

  lemma {:induction false} ChainDepths(hist: History, tip: Option<BlockHash>)
    requires ChainOf(hist, tip)
    ensures Depth(tip) == |hist|
    ensures forall i :: 0 <= i < |hist| ==> Depth(Some(hist[i].hash)) == i + 1
    decreases |hist|
  {
    if hist != [] {
      ChainDepths(hist[..|hist| - 1], hist[|hist| - 1].hash.header.prevSideHash);
    }
  }

  /** A block on top of the tip is not on the chain yet. */
  lemma NewBlockIsNew(hist: History, tip: Option<BlockHash>, header: Header)
    requires ChainOf(hist, tip) && header.prevSideHash == tip
    ensures forall i :: 0 <= i < |hist| ==> hist[i].hash != BlockHash(header)
  {
    ChainDepths(hist, tip);
    assert Depth(Some(BlockHash(header))) == |hist| + 1;
  }

  /** Exactly the roots seen along the chain are known, and exactly its blocks can have one. */
  lemma {:induction false} RootsSeen(hist: History)
    ensures forall r :: r in RootsAlong(hist).historicalRoots <==> r == Root([]) || exists i :: 0 <= i < |hist| && r == Root(hist[i].frontier)
    ensures forall h :: Some(h) in RootsAlong(hist).blockHashToRoot ==> exists i :: 0 <= i < |hist| && hist[i].hash == h
  {
    if hist != [] {
      var init, last := hist[..|hist| - 1], hist[|hist| - 1];
      RootsSeen(init);
      assert hist == init + [last];
    }
  }

  ghost predicate Inverse(t: RootTables) {
    && (forall h | h in t.blockHashToRoot :: t.blockHashToRoot[h] in t.historicalRoots && t.historicalRoots[t.blockHashToRoot[h]] == h)
    && (forall r | r in t.historicalRoots :: t.historicalRoots[r] in t.blockHashToRoot && t.blockHashToRoot[t.historicalRoots[r]] == r)
  }

  lemma PutKeepsInverse(t: RootTables, hash: BlockHash, root: Root)
    requires Inverse(t) && Some(hash) !in t.blockHashToRoot
    ensures Inverse(PutRoot(t, hash, root))
  {
  }

  /** The two tables are inverses of each other along every chain. */
  lemma {:induction false} RootsAreInverse(hist: History, tip: Option<BlockHash>)
    requires ChainOf(hist, tip)
    ensures Inverse(RootsAlong(hist))
    decreases |hist|
  {
    if hist != [] {
      var init, last := hist[..|hist| - 1], hist[|hist| - 1];
      RootsAreInverse(init, last.hash.header.prevSideHash);
      NewBlockIsNew(init, last.hash.header.prevSideHash, last.hash.header);
      RootsSeen(init);
      PutKeepsInverse(RootsAlong(init), last.hash, Root(last.frontier));
    }
  }

  /** Deleting the root of the last block gives the tables of the chain without it. */
  lemma DeleteUndoesPut(hist: History, tip: Option<BlockHash>)
    requires ChainOf(hist, tip) && tip.Some?
    ensures DeleteRoot(RootsAlong(hist), tip.value) == RootsAlong(hist[..|hist| - 1])
  {
    var init, last := hist[..|hist| - 1], hist[|hist| - 1];
    var before := RootsAlong(init);
    NewBlockIsNew(init, last.hash.header.prevSideHash, last.hash.header);
    RootsSeen(init);
    assert Some(last.hash) !in before.blockHashToRoot;
    if Root(last.frontier) !in before.historicalRoots {
      assert before.blockHashToRoot[Some(last.hash) := Root(last.frontier)] - {Some(last.hash)} == before.blockHashToRoot;
      assert before.historicalRoots[Root(last.frontier) := Some(last.hash)] - {Root(last.frontier)} == before.historicalRoots;
    }
  }

  lemma {:induction false} RootsArePrefixes(hist: History)
    requires Growing(hist)
    ensures forall r | r in RootsAlong(hist).historicalRoots :: r.commitments <= FrontierOf(hist)
    ensures Root(FrontierOf(hist)) in RootsAlong(hist).historicalRoots
  {
    if hist != [] {
      RootsArePrefixes(hist[..|hist| - 1]);
    }
  }

  /** A frontier that grew from the last one has a new root exactly when something was appended. */
  lemma RootIsNewIffGrown(hist: History, frontier: seq<nat>)
    requires Growing(hist) && FrontierOf(hist) <= frontier
    ensures Root(frontier) !in RootsAlong(hist).historicalRoots <==> frontier != FrontierOf(hist)
  {
    RootsArePrefixes(hist);
    if Root(frontier) in RootsAlong(hist).historicalRoots {
      assert frontier <= FrontierOf(hist);
    }
  }
}
