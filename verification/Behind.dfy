/** When the fork choice prefers a tip that is not ahead of the current one. */
module Behind {
  import opened Types
  import opened Lineage
  import opened CommonAncestor
  import opened Bmm
  import opened ForkChoice
  import opened Replay

  /** No mainchain block that verifies the tip's block has more total work than the tip's own. */
  ghost predicate BestVerified(main: MainTables, tip: Tip) {
    && main.Valid() && IsVerified(main, tip.blockHash, tip.mainBlockHash)
    && forall m | m in main.infos && IsVerified(main, tip.blockHash, m) :: main.work[m] <= main.work[tip.mainBlockHash]
  }

  /** The block of the new tip is the old tip's block or one of its ancestors. */
  ghost predicate IsBehind(side: SideTables, newTip: BlockHash, oldTip: Option<BlockHash>) {
    oldTip.Some? && side.Valid() && side.tree.IsAncestor(newTip, oldTip.value)
  }

  lemma VerifiedIsKnown(side: SideTables, main: MainTables, tip: Tip)
    requires main.Valid() && tip.blockHash in side.tree.height && IsVerified(main, tip.blockHash, tip.mainBlockHash)
    ensures KnownTip(side, main, tip)
  {
  }

  /** The block of the current tip, verified elsewhere, is never preferred to the tip with its best verification. */
  lemma SameBlockNeverPreferred(side: SideTables, main: MainTables, oldTip: Tip, newTip: Tip)
    requires ValidTables(side, main) && oldTip.blockHash in side.tree.height && newTip.blockHash == oldTip.blockHash
    requires BestVerified(main, oldTip) && IsVerified(main, newTip.blockHash, newTip.mainBlockHash)
    ensures KnownTip(side, main, oldTip) && KnownTip(side, main, newTip)
    ensures BetterTip(side, main, oldTip, newTip) != Some(newTip)
  {
    var m0, m1 := oldTip.mainBlockHash, newTip.mainBlockHash;
    assert main.tree.Parent(m0) == main.tree.Parent(m1);
    assert main.tree.height[m0] == main.tree.height[m1];
  }

  lemma {:induction false} BuiltBelowIsAncestor(side: SideTables, main: MainTables, b: BlockHash, a: MainHash)
    requires ValidTables(side, main) && b in side.tree.height
    ensures var c := BuiltBelow(main, b, a);
            c.Some? ==>
              && side.tree.IsAncestor(c.value, b)
              && main.tree.IsAncestor(c.value.header.prevMainHash, a) && c.value.header.prevMainHash != a
    decreases b
  {
    if !(main.tree.IsAncestor(b.header.prevMainHash, a) && b.header.prevMainHash != a) && b.header.prevSideHash.Some? {
      assert side.ParentNamed(b);
      var parent := side.tree.Parent(b);
      assert parent in side.tree.height;
      BuiltBelowIsAncestor(side, main, parent, a);
      var c := BuiltBelow(main, parent, a);
      if c.Some? {
        ParentAncestry(side.tree, c.value, b);
      }
    }
  }

  /** Two ancestors of one block lie on one lineage. */
  lemma AncestorsAreOrdered<H>(t: Tree<H>, a: H, b: H, c: H)
    requires t.Linked() && t.IsAncestor(a, c) && t.IsAncestor(b, c) && t.height[a] <= t.height[b]
    ensures t.IsAncestor(a, b)
  {
    AncestorAtThrough(t, b, c, t.height[a]);
  }

  lemma {:induction false} StrictlyHigherIsBuiltHigher(side: SideTables, main: MainTables, b: BlockHash, a: BlockHash)
    requires side.Valid() && main.Valid() && side.tree.IsAncestor(a, b) && a != b && Climbs(main, Some(b))
    ensures Climbs(main, Some(a)) && main.tree.height[a.header.prevMainHash] < main.tree.height[b.header.prevMainHash]
  {
    assert side.ParentNamed(b);
    assert side.tree.height[a] < side.tree.height[b];
    var parent := side.tree.Parent(b);
    ParentAncestry(side.tree, a, b);
    PathClimbs(side, main, parent, a);
  }

  /** On a heavier fork, the current chain had not reached the height of the verified ancestor before the fork. */
  lemma NotReachedBeforeFork(side: SideTables, main: MainTables, oldTip: Tip, newTip: Tip)
    requires ValidTables(side, main) && KnownTip(side, main, oldTip) && KnownTip(side, main, newTip)
    requires IsVerified(main, oldTip.blockHash, oldTip.mainBlockHash)
    requires IsVerified(main, newTip.blockHash, newTip.mainBlockHash)
    requires side.tree.IsAncestor(newTip.blockHash, oldTip.blockHash)
    requires main.work[oldTip.mainBlockHash] < main.work[newTip.mainBlockHash]
    ensures var a := MainFork(main, oldTip.mainBlockHash, newTip.mainBlockHash);
            !AtLeast(ForkHeight(side, main, oldTip.blockHash, a), side.tree.height[newTip.blockHash])
  {
    var b0, m0, b1, m1 := oldTip.blockHash, oldTip.mainBlockHash, newTip.blockHash, newTip.mainBlockHash;
    var a := MainFork(main, m0, m1);
    var c := BuiltBelow(main, b0, a);
    BuiltBelowIsStored(side, main, b0, a);
    BuiltBelowIsAncestor(side, main, b0, a);
    if c.Some? && side.tree.height[c.value] >= side.tree.height[b1] {
      AncestorsAreOrdered(side.tree, b1, c.value, b0);
      VerifiedClimbs(main, b0, m0);
      PathClimbs(side, main, b0, c.value);
      if c.value != b1 {
        StrictlyHigherIsBuiltHigher(side, main, c.value, b1);
      }
      assert main.tree.Parent(m1) == b1.header.prevMainHash;
      assert main.tree.height[m1] == main.tree.height[b1.header.prevMainHash] + 1;
      assert main.tree.height[a] >= main.tree.height[m1];
      assert a == m1;
      WorkMonotone(main, m1, m0);
      assert false;
    }
  }

  /**
   A verified strict ancestor of the verified current tip is preferred to it exactly when it is not a
   genesis block and its mainchain block has more total work.
   */
  lemma AncestorPreferredExactly(side: SideTables, main: MainTables, oldTip: Tip, newTip: Tip)
    requires ValidTables(side, main) && KnownTip(side, main, oldTip) && KnownTip(side, main, newTip)
    requires IsVerified(main, oldTip.blockHash, oldTip.mainBlockHash)
    requires IsVerified(main, newTip.blockHash, newTip.mainBlockHash)
    requires side.tree.IsAncestor(newTip.blockHash, oldTip.blockHash) && newTip.blockHash != oldTip.blockHash
    ensures BetterTip(side, main, oldTip, newTip) == Some(newTip) <==>
            side.tree.height[newTip.blockHash] > 0 && main.work[oldTip.mainBlockHash] < main.work[newTip.mainBlockHash]
  {
    assert side.tree.height[newTip.blockHash] < side.tree.height[oldTip.blockHash];
    if main.work[oldTip.mainBlockHash] < main.work[newTip.mainBlockHash] {
      NotReachedBeforeFork(side, main, oldTip, newTip);
    }
  }

  /** Every ancestor of a verified block is verified. */
  lemma {:induction false} AncestorIsVerified(side: SideTables, main: MainTables, b: BlockHash, m: MainHash, a: BlockHash)
    returns (p: MainHash)
    requires side.Valid() && main.Valid() && IsVerified(main, b, m) && side.tree.IsAncestor(a, b)
    ensures p in main.infos && IsVerified(main, a, p)
    decreases b
  {
    if a == b {
      p := m;
    } else {
      assert side.ParentNamed(b);
      assert side.tree.height[a] < side.tree.height[b];
      ParentAncestry(side.tree, a, b);
      var q := VerifiedParentIsLower(main, b, m);
      p := AncestorIsVerified(side, main, side.tree.Parent(b), q, a);
    }
  }
}
