/**
 The archive of sidechain and mainchain headers, and blind merged mining: which mainchain
 blocks verify which sidechain blocks.
 */
module Bmm {
  import opened Types
  import opened Lineage
  import opened CommonAncestor

  datatype BmmResult = Verified | Failed

  datatype ArchiveError =
    | InvalidPrevSideHash | NoBlockHash | NoMainBlockHash | NoMainBlockInfo | NoMainHeaderInfo | NoMainHeight

  type BmmTable = map<BlockHash, map<MainHash, BmmResult>>

  // ------------------------------------------------------------------ tables

  /**
   Mainchain tables. A stored header is its entry in `tree.parent`; `work` is the total work
   of the chain that ends with it.
   */
  datatype MainTables = MainTables(
    tree: Tree<MainHash>,
    infos: map<MainHash, BlockInfo>,
    successors: map<MainHash, set<MainHash>>,
    work: map<MainHash, nat>)
  {
    ghost predicate Valid() {
      && tree.Valid() && SingleRoot(tree, ZERO_HASH)
      && tree.parent.Keys == tree.skip.Keys == work.Keys
      && successors.Keys == tree.height.Keys
      && infos.Keys <= tree.parent.Keys
      && (forall m {:trigger WorkAdds(m)} | m in tree.parent :: WorkAdds(m))
      && (forall m {:trigger ParentHasInfo(m)} | m in infos :: ParentHasInfo(m))
      && (forall p {:trigger ListsChildren(p)} | p in successors :: ListsChildren(p))
    }

    /** Total work never decreases along a chain. */
    ghost predicate WorkAdds(m: MainHash)
      requires m in tree.parent && m in work
    {
      work[m] >= ParentWork(tree.Parent(m))
    }

    function ParentWork(prev: MainHash): nat {
      if prev in work then work[prev] else 0
    }

    ghost predicate ParentHasInfo(m: MainHash)
      requires m in tree.parent
    {
      tree.Parent(m) == ZERO_HASH || tree.Parent(m) in infos
    }

    /** The successor set of `p` is the set of its stored children. */
    ghost predicate ListsChildren(p: MainHash)
      requires p in successors
    {
      forall m :: m in successors[p] <==> m in tree.parent && tree.parent[m] == p
    }
  }

  /**
   Sidechain tables. A header is stored under its own hash, so the header table is the set of
   hashes with a height.
   */
  datatype SideTables = SideTables(
    tree: Tree<BlockHash>,
    successors: map<Option<BlockHash>, set<BlockHash>>)
  {
    ghost predicate Valid() {
      && tree.Valid()
      && tree.height.Keys == tree.skip.Keys
      && None in successors && (forall b | b in tree.height :: Some(b) in successors)
      && (forall b {:trigger ParentNamed(b)} | b in tree.height :: ParentNamed(b))
      && (forall p {:trigger ListsChildren(p)} | p in successors :: ListsChildren(p))
    }

    /** A header is stored below the parent it names. */
    ghost predicate ParentNamed(b: BlockHash) {
      b.header.prevSideHash == if b in tree.parent then Some(tree.Parent(b)) else None
    }

    /** The successor set of `p` is the set of its stored children. */
    ghost predicate ListsChildren(p: Option<BlockHash>)
      requires p in successors
    {
      forall b :: b in successors[p] <==> b in tree.height && b.header.prevSideHash == p
    }
  }

  /** `n` holds everything `m` holds. */
  ghost predicate MainExtends(m: MainTables, n: MainTables) {
    && Extends(m.tree, n.tree)
    && m.infos.Keys <= n.infos.Keys && (forall x | x in m.infos :: n.infos[x] == m.infos[x])
  }

  /** Every stored sidechain header was built on a known mainchain block. */
  ghost predicate PrevMainKnown(side: SideTables, main: MainTables) {
    forall b {:trigger BuiltOnKnown(main, b)} | b in side.tree.height :: BuiltOnKnown(main, b)
  }

  ghost predicate BuiltOnKnown(main: MainTables, b: BlockHash) {
    b.header.prevMainHash in main.tree.height
  }

  // ----------------------------------------------------- the meaning of BMM

  /** `m` names `b` in its coinbase, and `b` was built on the parent of `m`. */
  ghost predicate CommitsTo(main: MainTables, b: BlockHash, m: MainHash) {
    && m in main.infos && m in main.tree.parent
    && main.infos[m].bmmCommitment == Some(b)
    && main.tree.parent[m] == b.header.prevMainHash
  }

  /**
   `m` verifies `b`: it commits to `b`, and `b` is a genesis block or its parent is verified
   in the ancestry of `m`.
   */
  ghost predicate IsVerified(main: MainTables, b: BlockHash, m: MainHash)
    requires main.tree.Linked()
    decreases b
  {
    && CommitsTo(main, b, m)
    && (b.header.prevSideHash.Some? ==>
          exists p :: p in main.infos && main.tree.IsAncestor(p, m) && IsVerified(main, b.header.prevSideHash.value, p))
  }

  /** All mainchain ancestors of a block with stored info have stored info. */
  lemma {:induction false} InfosAncestorClosed(main: MainTables, m: MainHash, a: MainHash)
    requires main.Valid() && m in main.infos && main.tree.IsAncestor(a, m) && a != ZERO_HASH
    ensures a in main.infos
    decreases main.tree.height[m]
  {
    if a != m {
      var p := main.tree.Parent(m);
      assert main.ParentHasInfo(m);
      ParentAncestry(main.tree, a, m);
      if p == ZERO_HASH {
        assert false;
      } else {
        InfosAncestorClosed(main, p, a);
      }
    }
  }

  /** Two tables give the blocks that both know the same parents and infos. */
  ghost predicate SharedAgree(main: MainTables, main': MainTables) {
    && (forall m | m in main.tree.parent && m in main'.tree.parent :: main.tree.parent[m] == main'.tree.parent[m])
    && (forall m | m in main.infos && m in main'.infos :: main.infos[m] == main'.infos[m])
  }

  /** The known blocks in the ancestry of a block that both tables know are the same in both. */
  lemma {:induction false} SharedAncestry(main: MainTables, main': MainTables, m: MainHash, p: MainHash)
    requires main.Valid() && main'.Valid() && SharedAgree(main, main') && m in main.infos && m in main'.infos
    requires p in main.infos && main.tree.IsAncestor(p, m)
    ensures p in main'.infos && main'.tree.IsAncestor(p, m)
    decreases main.tree.height[m]
  {
    if p != m {
      var q := main.tree.Parent(m);
      assert main.ParentHasInfo(m) && main'.ParentHasInfo(m);
      assert q in main.tree.height && main'.tree.Parent(m) == q && q in main'.tree.height;
      assert main.tree.height[p] > 0;
      ParentAncestry(main.tree, p, m);
      SharedAncestry(main, main', q, p);
      ParentAncestry(main'.tree, p, m);
    }
  }

  /** A verdict about a mainchain block that both tables know is the same in both. */
  lemma {:induction false} SharedVerdict(main: MainTables, main': MainTables, b: BlockHash, m: MainHash)
    requires main.Valid() && main'.Valid() && SharedAgree(main, main') && m in main.infos && m in main'.infos
    ensures IsVerified(main', b, m) <==> IsVerified(main, b, m)
    decreases b
  {
    if b.header.prevSideHash.Some? {
      var parent := b.header.prevSideHash.value;
      forall p
        ensures p in main'.infos && main'.tree.IsAncestor(p, m) && IsVerified(main', parent, p)
           <==> p in main.infos && main.tree.IsAncestor(p, m) && IsVerified(main, parent, p)
      {
        if p in main.infos && main.tree.IsAncestor(p, m) {
          SharedAncestry(main, main', m, p);
        } else if p in main'.infos && main'.tree.IsAncestor(p, m) {
          SharedAncestry(main', main, m, p);
        }
        if p in main.infos && p in main'.infos {
          SharedVerdict(main, main', parent, p);
        }
      }
    }
  }

  /** A verdict about known blocks is final: it does not change as more blocks arrive. */
  lemma VerdictIsFinal(main: MainTables, later: MainTables, b: BlockHash, m: MainHash)
    requires main.Valid() && later.Valid() && MainExtends(main, later) && m in main.infos
    ensures IsVerified(later, b, m) <==> IsVerified(main, b, m)
  {
    SharedVerdict(main, later, b, m);
  }

  /** The parent of a verified block is verified strictly below, and was built strictly lower. */
  lemma VerifiedParentIsLower(main: MainTables, b: BlockHash, m: MainHash) returns (p: MainHash)
    requires main.Valid() && IsVerified(main, b, m) && b.header.prevSideHash.Some?
    ensures var parent := b.header.prevSideHash.value;
            && IsVerified(main, parent, p) && main.tree.IsAncestor(p, m) && p != m
            && main.tree.IsAncestor(parent.header.prevMainHash, b.header.prevMainHash)
            && parent.header.prevMainHash != b.header.prevMainHash
  {
    var parent := b.header.prevSideHash.value;
    p :| p in main.infos && main.tree.IsAncestor(p, m) && IsVerified(main, parent, p);
    assert main.infos[p].bmmCommitment == Some(parent) && main.infos[m].bmmCommitment == Some(b);
    assert parent != b by {
      assert parent.header.prevSideHash != Some(parent);
    }
    assert main.tree.Parent(p) in main.tree.height;
    ParentAncestry(main.tree, p, m);
    ParentAncestry(main.tree, main.tree.Parent(p), p);
    IsAncestorTransitive(main.tree, main.tree.Parent(p), p, main.tree.Parent(m));
  }
}
