/**
 The fork choice in terms of ancestors, heights and work alone: which of two tips is preferred, for all
 pairs of tips, without the searches that find it out.
 */
module ForkRule {
  import opened Types
  import opened Lineage
  import opened CommonAncestor
  import opened Bmm
  import opened ForkChoice

  // ------------------------------------------------------------- before the fork

  /** `m` lies strictly below a common mainchain ancestor of `x` and `y`. */
  ghost predicate BeforeFork(main: MainTables, m: MainHash, x: MainHash, y: MainHash)
    requires main.tree.Linked()
  {
    exists d :: main.tree.IsAncestor(m, d) && m != d && main.tree.IsAncestor(d, x) && main.tree.IsAncestor(d, y)
  }

  /** `c` is `b` or one of its ancestors, and was built on a block before the fork. */
  ghost predicate BuiltBefore(side: SideTables, main: MainTables, c: BlockHash, b: BlockHash, x: MainHash, y: MainHash)
    requires side.tree.Linked() && main.tree.Linked()
  {
    side.tree.IsAncestor(c, b) && BeforeFork(main, c.header.prevMainHash, x, y)
  }

  /** Before the fork the lineage of `b` had reached height `h`. */
  ghost predicate Reached(side: SideTables, main: MainTables, b: BlockHash, x: MainHash, y: MainHash, h: nat)
    requires side.tree.Linked() && main.tree.Linked()
  {
    exists c :: BuiltBefore(side, main, c, b, x, y) && side.tree.height[c] >= h
  }

  /**
   `c` is the highest block of the lineage of `b` that was built before the fork, and `k` the mainchain
   block on top of the one it was built on, still shared by `x` and `y`.
   */
  ghost predicate LastBefore(
    side: SideTables, main: MainTables, b: BlockHash, x: MainHash, y: MainHash, c: BlockHash, k: MainHash)
    requires side.tree.Linked() && main.tree.Linked()
  {
    && BuiltBefore(side, main, c, b, x, y) && !Reached(side, main, b, x, y, side.tree.height[c] + 1)
    && k in main.tree.parent && main.tree.parent[k] == c.header.prevMainHash
    && main.tree.IsAncestor(k, x) && main.tree.IsAncestor(k, y)
  }

  lemma StrictlyLower<H>(t: Tree<H>, a: H, b: H)
    requires t.Linked() && t.IsAncestor(a, b) && a != b
    ensures t.height[a] < t.height[b]
  {
  }

  lemma BeforeForkIsBelow(main: MainTables, m: MainHash, x: MainHash, y: MainHash)
    requires main.Valid() && x in main.tree.height && y in main.tree.height
    ensures BeforeFork(main, m, x, y) <==> main.tree.IsAncestor(m, MainFork(main, x, y)) && m != MainFork(main, x, y)
  {
    hide MainTables.Valid;
    var t, a := main.tree, MainFork(main, x, y);
    TreeIsLinked(main);
    LastCommonIsHighest(t, x, y);
    if BeforeFork(main, m, x, y) {
      var d :| t.IsAncestor(m, d) && m != d && t.IsAncestor(d, x) && t.IsAncestor(d, y);
      StrictlyLower(t, m, d);
      IsAncestorTransitive(t, m, d, a);
    }
  }

  lemma TreeIsLinked(main: MainTables)
    requires main.Valid()
    ensures main.tree.Linked()
  {
  }

  /** The walk down from `b` finds the highest block built strictly below `a`. */
  lemma {:induction false} BuiltBelowIsHighest(side: SideTables, main: MainTables, b: BlockHash, a: MainHash, c: BlockHash)
    requires ValidTables(side, main) && b in side.tree.height
    requires side.tree.IsAncestor(c, b) && main.tree.IsAncestor(c.header.prevMainHash, a) && c.header.prevMainHash != a
    ensures var d := BuiltBelow(main, b, a);
            d.Some? && side.tree.IsAncestor(d.value, b) && side.tree.height[c] <= side.tree.height[d.value]
    decreases b
  {
    hide MainTables.WorkAdds, MainTables.ParentHasInfo, MainTables.ListsChildren, PrevMainKnown, SideTables.ListsChildren, Tree.SkipsExact;
    assert side.ParentNamed(b);
    if !(main.tree.IsAncestor(b.header.prevMainHash, a) && b.header.prevMainHash != a) {
      if side.tree.height[b] > 0 {
        ParentAncestry(side.tree, c, b);
        var p := side.tree.Parent(b);
        BuiltBelowIsHighest(side, main, p, a, c);
        ParentAncestry(side.tree, BuiltBelow(main, p, a).value, b);
      }
    }
  }

  lemma {:induction false} BuiltBelowIsAncestor(side: SideTables, main: MainTables, b: BlockHash, a: MainHash)
    requires ValidTables(side, main) && b in side.tree.height
    ensures var d := BuiltBelow(main, b, a);
            d.Some? ==>
              && side.tree.IsAncestor(d.value, b)
              && main.tree.IsAncestor(d.value.header.prevMainHash, a) && d.value.header.prevMainHash != a
    decreases b
  {
    hide MainTables.WorkAdds, MainTables.ParentHasInfo, MainTables.ListsChildren, PrevMainKnown, SideTables.ListsChildren, Tree.SkipsExact;
    assert side.ParentNamed(b);
    if !(main.tree.IsAncestor(b.header.prevMainHash, a) && b.header.prevMainHash != a) && b.header.prevSideHash.Some? {
      var p := side.tree.Parent(b);
      BuiltBelowIsAncestor(side, main, p, a);
      if BuiltBelow(main, p, a).Some? {
        ParentAncestry(side.tree, BuiltBelow(main, p, a).value, b);
      }
    }
  }

  /** The height that the search finds is the greatest that was reached before the fork. */
  lemma ForkHeightIsReached(side: SideTables, main: MainTables, b: BlockHash, x: MainHash, y: MainHash, h: nat)
    requires ValidTables(side, main) && b in side.tree.height && x in main.tree.height && y in main.tree.height
    ensures AtLeast(ForkHeight(side, main, b, MainFork(main, x, y)), h) <==> Reached(side, main, b, x, y, h)
  {
    hide MainTables.Valid, SideTables.Valid, PrevMainKnown, BuiltBelow, BeforeFork;
    var a := MainFork(main, x, y);
    TablesAreLinked(side, main);
    BuiltBelowIsAncestor(side, main, b, a);
    if Reached(side, main, b, x, y, h) {
      var c :| BuiltBefore(side, main, c, b, x, y) && side.tree.height[c] >= h;
      BeforeForkIsBelow(main, c.header.prevMainHash, x, y);
      BuiltBelowIsHighest(side, main, b, a, c);
    }
    var d := BuiltBelow(main, b, a);
    if d.Some? {
      BeforeForkIsBelow(main, d.value.header.prevMainHash, x, y);
      assert BuiltBefore(side, main, d.value, b, x, y);
    }
  }

  lemma TablesAreLinked(side: SideTables, main: MainTables)
    requires ValidTables(side, main)
    ensures side.tree.Linked() && main.tree.Linked()
  {
  }

  lemma ReachedSymmetric(side: SideTables, main: MainTables, b: BlockHash, x: MainHash, y: MainHash, h: nat)
    requires side.tree.Linked() && main.tree.Linked()
    ensures Reached(side, main, b, x, y, h) <==> Reached(side, main, b, y, x, h)
  {
    assert forall m :: BeforeFork(main, m, x, y) <==> BeforeFork(main, m, y, x);
    assert forall c :: BuiltBefore(side, main, c, b, x, y) <==> BuiltBefore(side, main, c, b, y, x);
  }

  // --------------------------------------------------------------------- the rule

  /** Genesis blocks lose against all others, and greater height wins when it comes with no less work. */
  lemma HigherWithWorkWins(side: SideTables, main: MainTables, tip0: Tip, tip1: Tip)
    requires ValidTables(side, main) && KnownTip(side, main, tip0) && KnownTip(side, main, tip1)
    requires side.tree.height[tip0.blockHash] > side.tree.height[tip1.blockHash]
    requires side.tree.height[tip1.blockHash] == 0 || main.work[tip0.mainBlockHash] >= main.work[tip1.mainBlockHash]
    ensures BetterTip(side, main, tip0, tip1) == Some(tip0) == BetterTip(side, main, tip1, tip0)
  {
  }

  /** At equal height the tip with less work wins on one mainchain lineage, and the one with more across a fork. */
  lemma EqualHeightRule(side: SideTables, main: MainTables, tip0: Tip, tip1: Tip)
    requires ValidTables(side, main) && KnownTip(side, main, tip0) && KnownTip(side, main, tip1)
    requires side.tree.height[tip0.blockHash] == side.tree.height[tip1.blockHash] > 0
    requires main.work[tip0.mainBlockHash] < main.work[tip1.mainBlockHash]
    ensures main.tree.Linked()
    ensures var oneLineage := main.tree.IsAncestor(tip0.mainBlockHash, tip1.mainBlockHash)
                              || main.tree.IsAncestor(tip1.mainBlockHash, tip0.mainBlockHash);
            BetterTip(side, main, tip0, tip1) == Some(if oneLineage then tip0 else tip1) == BetterTip(side, main, tip1, tip0)
  {
  }

  /**
   Greater height with less work wins exactly when the lineage had reached the height of the other tip
   before the fork.
   */
  lemma LowerWorkRule(side: SideTables, main: MainTables, tip0: Tip, tip1: Tip)
    requires ValidTables(side, main) && KnownTip(side, main, tip0) && KnownTip(side, main, tip1)
    requires side.tree.height[tip0.blockHash] > side.tree.height[tip1.blockHash] > 0
    requires main.work[tip0.mainBlockHash] < main.work[tip1.mainBlockHash]
    ensures side.tree.Linked() && main.tree.Linked()
    ensures var wins := Reached(
              side, main, tip0.blockHash, tip0.mainBlockHash, tip1.mainBlockHash, side.tree.height[tip1.blockHash]);
            BetterTip(side, main, tip0, tip1) == Some(if wins then tip0 else tip1) == BetterTip(side, main, tip1, tip0)
  {
    hide Reached, ForkHeight;
    var (b0, m0, m1, h1) := (tip0.blockHash, tip0.mainBlockHash, tip1.mainBlockHash, side.tree.height[tip1.blockHash]);
    ForkHeightIsReached(side, main, b0, m0, m1, h1);
    ForkHeightIsReached(side, main, b0, m1, m0, h1);
    ReachedSymmetric(side, main, b0, m0, m1, h1);
  }

  /** One block with two verifications of equal work: the first stays. */
  lemma SameBlockRule(side: SideTables, main: MainTables, tip0: Tip, tip1: Tip)
    requires ValidTables(side, main) && KnownTip(side, main, tip0) && KnownTip(side, main, tip1) && tip0 != tip1
    requires tip0.blockHash == tip1.blockHash && side.tree.height[tip0.blockHash] > 0
    requires main.work[tip0.mainBlockHash] == main.work[tip1.mainBlockHash]
    ensures BetterTip(side, main, tip0, tip1) == Some(tip0)
  {
  }

  lemma OnlyOneLast(
    side: SideTables, main: MainTables, b: BlockHash, x: MainHash, y: MainHash, c: BlockHash, k: MainHash)
    requires ValidTables(side, main) && b in side.tree.height && x in main.tree.height && y in main.tree.height
    requires side.tree.Linked() && main.tree.Linked() && LastBefore(side, main, b, x, y, c, k)
    ensures c in side.tree.height && k in main.work
    ensures ForkHeight(side, main, b, MainFork(main, x, y)) == Some(side.tree.height[c])
    ensures ForkWork(side, main, b, MainFork(main, x, y)) == Some(main.work[k])
  {
    hide SideTables.Valid, PrevMainKnown, BeforeFork, MainTables.WorkAdds, MainTables.ParentHasInfo, MainTables.ListsChildren, Tree.SkipsExact;
    var a, h := MainFork(main, x, y), side.tree.height[c];
    ForkHeightIsReached(side, main, b, x, y, h);
    ForkHeightIsReached(side, main, b, x, y, h + 1);
    BuiltBelowIsAncestor(side, main, b, a);
    LastCommonIsHighest(main.tree, x, y);
    assert BuiltBelow(main, b, a) == Some(c);
    assert main.tree.Parent(k) == c.header.prevMainHash;
    assert main.tree.IsAncestor(k, a);
  }

  lemma LastExists(side: SideTables, main: MainTables, b: BlockHash, x: MainHash, y: MainHash) returns (c: BlockHash, k: MainHash)
    requires ValidTables(side, main) && b in side.tree.height && x in main.tree.height && y in main.tree.height
    requires side.tree.Linked() && main.tree.Linked() && ForkHeight(side, main, b, MainFork(main, x, y)).Some?
    ensures LastBefore(side, main, b, x, y, c, k)
  {
    hide SideTables.Valid, PrevMainKnown, BeforeFork, MainTables.WorkAdds, MainTables.ParentHasInfo, MainTables.ListsChildren, Tree.SkipsExact;
    var a, t := MainFork(main, x, y), main.tree;
    c := BuiltBelow(main, b, a).value;
    BuiltBelowIsAncestor(side, main, b, a);
    BuiltBelowIsStored(side, main, b, a);
    BeforeForkIsBelow(main, c.header.prevMainHash, x, y);
    ForkHeightIsReached(side, main, b, x, y, side.tree.height[c] + 1);
    k := t.AncestorAt(a, t.height[c.header.prevMainHash] + 1);
    assert t.IsAncestor(k, a);
    IsAncestorTransitive(t, k, a, x);
    IsAncestorTransitive(t, k, a, y);
    AncestorAdd(t, a, t.height[a] - t.height[k], 1);
    assert t.Ancestor(k, 1) == t.Parent(k);
  }

  /**
   At equal height and work, the second tip wins exactly when before the fork its lineage had reached a
   greater height, or the same height with less work.
   */
  lemma TieRule(side: SideTables, main: MainTables, tip0: Tip, tip1: Tip)
    requires ValidTables(side, main) && KnownTip(side, main, tip0) && KnownTip(side, main, tip1)
    requires side.tree.height[tip0.blockHash] == side.tree.height[tip1.blockHash] > 0
    requires main.work[tip0.mainBlockHash] == main.work[tip1.mainBlockHash] && tip0.blockHash != tip1.blockHash
    ensures side.tree.Linked() && main.tree.Linked()
    ensures var (b0, b1, m0, m1) := (tip0.blockHash, tip1.blockHash, tip0.mainBlockHash, tip1.mainBlockHash);
            BetterTip(side, main, tip0, tip1) == Some(tip1) <==>
              exists c1, k1 :: LastBefore(side, main, b1, m0, m1, c1, k1) &&
                forall c0, k0 :: LastBefore(side, main, b0, m0, m1, c0, k0) ==>
                  || side.tree.height[c0] < side.tree.height[c1]
                  || (side.tree.height[c0] == side.tree.height[c1] && main.work[k0] > main.work[k1])
  {
    hide SideTables.Valid, PrevMainKnown, LastBefore, ForkHeight, ForkWork, MainTables.WorkAdds, MainTables.ParentHasInfo, MainTables.ListsChildren, Tree.SkipsExact;
    TablesAreLinked(side, main);
    var (b0, b1, x, y) := (tip0.blockHash, tip1.blockHash, tip0.mainBlockHash, tip1.mainBlockHash);
    var a := MainFork(main, x, y);
    forall b, c, k | b in {b0, b1} && LastBefore(side, main, b, x, y, c, k)
      ensures c in side.tree.height && k in main.work
      ensures ForkHeight(side, main, b, a) == Some(side.tree.height[c]) && ForkWork(side, main, b, a) == Some(main.work[k])
    {
      OnlyOneLast(side, main, b, x, y, c, k);
    }
    BothOrNone(side, main, b0, a);
    BothOrNone(side, main, b1, a);
    if ForkHeight(side, main, b0, a).Some? {
      var c0, k0 := LastExists(side, main, b0, x, y);
    }
    if ForkHeight(side, main, b1, a).Some? {
      var c1, k1 := LastExists(side, main, b1, x, y);
    }
  }

  lemma BothOrNone(side: SideTables, main: MainTables, b: BlockHash, a: MainHash)
    requires ValidTables(side, main) && b in side.tree.height
    ensures ForkHeight(side, main, b, a).Some? <==> ForkWork(side, main, b, a).Some?
  {
  }
}
