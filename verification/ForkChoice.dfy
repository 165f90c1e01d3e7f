/** The fork-choice rule: which of two tips, if either, a node should prefer. */
module ForkChoice {
  import opened Types
  import opened Lineage
  import opened CommonAncestor
  import opened Bmm

  /** A sidechain block together with a mainchain block that commits to it. */
  datatype Tip = Tip(blockHash: BlockHash, mainBlockHash: MainHash)

  ghost predicate ValidTables(side: SideTables, main: MainTables) {
    side.Valid() && main.Valid() && PrevMainKnown(side, main)
  }

  ghost predicate KnownTip(side: SideTables, main: MainTables, tip: Tip) {
    tip.blockHash in side.tree.height && tip.mainBlockHash in main.tree.parent
  }

  /** The first of `b` and its ancestors that was built strictly below mainchain block `a`. */
  ghost function BuiltBelow(main: MainTables, b: BlockHash, a: MainHash): Option<BlockHash>
    requires main.tree.Linked()
    decreases b
  {
    if main.tree.IsAncestor(b.header.prevMainHash, a) && b.header.prevMainHash != a then Some(b)
    else if b.header.prevSideHash.None? then None
    else BuiltBelow(main, b.header.prevSideHash.value, a)
  }

  /** `None` is below every height. */
  predicate AtLeast(height: Option<nat>, bound: nat) {
    height.Some? && height.value >= bound
  }

  /** The height a lineage had reached before the fork at `a`. */
  ghost function ForkHeight(side: SideTables, main: MainTables, b: BlockHash, a: MainHash): Option<nat>
    requires ValidTables(side, main) && b in side.tree.height
  {
    var below := BuiltBelow(main, b, a);
    BuiltBelowIsStored(side, main, b, a);
    if below.Some? then Some(side.tree.height[below.value]) else None
  }

  /** The total work of the mainchain block above the one `BuiltBelow` was built on. */
  ghost function ForkWork(side: SideTables, main: MainTables, b: BlockHash, a: MainHash): Option<nat>
    requires ValidTables(side, main) && b in side.tree.height
  {
    var below := BuiltBelow(main, b, a);
    BuiltBelowIsStored(side, main, b, a);
    if below.None? then None
    else
      var next := main.tree.height[below.value.header.prevMainHash] + 1;
      Some(main.work[main.tree.AncestorAt(a, next)])
  }

  lemma {:induction false} BuiltBelowIsStored(side: SideTables, main: MainTables, b: BlockHash, a: MainHash)
    requires ValidTables(side, main) && b in side.tree.height
    ensures var below := BuiltBelow(main, b, a);
            below.Some? ==>
              && below.value in side.tree.height
              && main.tree.IsAncestor(below.value.header.prevMainHash, a)
              && main.tree.height[below.value.header.prevMainHash] + 1 <= main.tree.height[a]
              && main.tree.AncestorAt(a, main.tree.height[below.value.header.prevMainHash] + 1) in main.work
    decreases b
  {
    assert side.ParentNamed(b) && BuiltOnKnown(main, b);
    if main.tree.IsAncestor(b.header.prevMainHash, a) && b.header.prevMainHash != a {
      assert main.tree.height[b.header.prevMainHash] < main.tree.height[a];
    } else if b.header.prevSideHash.Some? {
      assert side.tree.Parent(b) in side.tree.height;
      BuiltBelowIsStored(side, main, b.header.prevSideHash.value, a);
    }
  }

  ghost function MainFork(main: MainTables, x: MainHash, y: MainHash): (a: MainHash)
    requires main.Valid() && x in main.tree.height && y in main.tree.height
    ensures LastCommon(main.tree, x, y) == Some(a) && main.tree.IsAncestor(a, x) && main.tree.IsAncestor(a, y)
  {
    NoCommonIffGenesisDiffers(main.tree, x, y);
    LastCommonIsHighest(main.tree, x, y);
    LastCommon(main.tree, x, y).value
  }

  ghost predicate Shared(main: MainTables, x: MainHash, y: MainHash)
    requires main.Valid()
  {
    main.tree.IsAncestor(x, y) || main.tree.IsAncestor(y, x)
  }

  /** The preferred tip. There is none just when the tips are the same or both are genesis blocks. */
  ghost function BetterTip(side: SideTables, main: MainTables, tip0: Tip, tip1: Tip): (r: Option<Tip>)
    requires ValidTables(side, main) && KnownTip(side, main, tip0) && KnownTip(side, main, tip1)
    ensures r.None? <==> tip0 == tip1 || side.tree.height[tip0.blockHash] == side.tree.height[tip1.blockHash] == 0
    ensures r.Some? ==> r.value == tip0 || r.value == tip1
  {
    var (b0, m0, b1, m1) := (tip0.blockHash, tip0.mainBlockHash, tip1.blockHash, tip1.mainBlockHash);
    var (h0, h1) := (side.tree.height[b0], side.tree.height[b1]);
    var (w0, w1) := (main.work[m0], main.work[m1]);
    if tip0 == tip1 then None
    else if h0 == 0 && h1 == 0 then None
    else if h0 == 0 then Some(tip1)
    else if h1 == 0 then Some(tip0)
    else if w0 <= w1 && h0 < h1 then Some(tip1)
    else if w0 >= w1 && h0 > h1 then Some(tip0)
    else if w0 < w1 && h0 == h1 then Some(if Shared(main, m0, m1) then tip0 else tip1)
    else if w0 > w1 && h0 == h1 then Some(if Shared(main, m0, m1) then tip1 else tip0)
    else
      var a := MainFork(main, m0, m1);
      if w0 < w1 then Some(if AtLeast(ForkHeight(side, main, b0, a), h1) then tip0 else tip1)
      else if w0 > w1 then Some(if AtLeast(ForkHeight(side, main, b1, a), h0) then tip1 else tip0)
      else if b0 == b1 then Some(tip0)
      else Some(if SecondForkWins(side, main, b0, b1, a) then tip1 else tip0)
  }

  /** At equal height and work: the fork records of the second tip are strictly better. */
  ghost predicate SecondForkWins(side: SideTables, main: MainTables, b0: BlockHash, b1: BlockHash, a: MainHash)
    requires ValidTables(side, main) && b0 in side.tree.height && b1 in side.tree.height
  {
    var (f0, f1) := (ForkHeight(side, main, b0, a), ForkHeight(side, main, b1, a));
    var (v0, v1) := (ForkWork(side, main, b0, a), ForkWork(side, main, b1, a));
    || (f1.Some? && !AtLeast(f0, f1.value))
    || (f0 == f1 && f0.Some? && v0.value > v1.value)
  }

  // --------------------------------------------------------------- properties

  /** Two nodes that hold each other's tip never both switch: a strict preference is mutual. */
  lemma PreferenceIsMutual(side: SideTables, main: MainTables, tip0: Tip, tip1: Tip)
    requires ValidTables(side, main) && KnownTip(side, main, tip0) && KnownTip(side, main, tip1)
    requires tip0 != tip1 && BetterTip(side, main, tip0, tip1) == Some(tip1)
    ensures BetterTip(side, main, tip1, tip0) == Some(tip1)
  {
    LastCommonSymmetric(main.tree, tip0.mainBlockHash, tip1.mainBlockHash);
  }

  /** Each of two tips keeps its own node exactly when height, work and fork records all tie. */
  lemma IncumbentsTieExactly(side: SideTables, main: MainTables, tip0: Tip, tip1: Tip)
    requires ValidTables(side, main) && KnownTip(side, main, tip0) && KnownTip(side, main, tip1) && tip0 != tip1
    ensures BetterTip(side, main, tip0, tip1) == Some(tip0) && BetterTip(side, main, tip1, tip0) == Some(tip1)
       <==>
            var (b0, b1) := (tip0.blockHash, tip1.blockHash);
            var a := MainFork(main, tip0.mainBlockHash, tip1.mainBlockHash);
            && side.tree.height[b0] == side.tree.height[b1] > 0
            && main.work[tip0.mainBlockHash] == main.work[tip1.mainBlockHash]
            && (b0 == b1 ||
                (&& ForkHeight(side, main, b0, a) == ForkHeight(side, main, b1, a)
                 && ForkWork(side, main, b0, a) == ForkWork(side, main, b1, a)))
  {
    LastCommonSymmetric(main.tree, tip0.mainBlockHash, tip1.mainBlockHash);
  }

  lemma {:induction false} WorkMonotone(main: MainTables, x: MainHash, y: MainHash)
    requires main.Valid() && main.tree.IsAncestor(x, y) && x in main.work
    ensures y in main.work && main.work[x] <= main.work[y]
    decreases if y in main.tree.height then main.tree.height[y] else 0
  {
    if x != y {
      ParentAncestry(main.tree, x, y);
      assert main.WorkAdds(y);
      WorkMonotone(main, x, main.tree.Parent(y));
    }
  }

  lemma ForkOfAncestor(main: MainTables, x: MainHash, y: MainHash)
    requires main.Valid() && main.tree.IsAncestor(x, y)
    ensures LastCommon(main.tree, x, y) == Some(x)
  {
    EqualizeLeft(main.tree, y, x);
    LastCommonSymmetric(main.tree, x, y);
  }

  /**
   On one mainchain lineage, between verified tips, greater sidechain height always wins. At
   equal height the tip with less work wins, although the comment above the source's rule
   says that it is the one with greater work.
   */
  lemma SharedLineageRule(side: SideTables, main: MainTables, tip0: Tip, tip1: Tip)
    requires ValidTables(side, main) && KnownTip(side, main, tip0) && KnownTip(side, main, tip1)
    requires Shared(main, tip0.mainBlockHash, tip1.mainBlockHash)
    requires IsVerified(main, tip0.blockHash, tip0.mainBlockHash)
    requires var (h0, h1) := (side.tree.height[tip0.blockHash], side.tree.height[tip1.blockHash]);
             h0 > h1 || (h0 == h1 > 0 && main.work[tip0.mainBlockHash] < main.work[tip1.mainBlockHash])
    ensures BetterTip(side, main, tip0, tip1) == Some(tip0) == BetterTip(side, main, tip1, tip0)
  {
    var (m0, m1) := (tip0.mainBlockHash, tip1.mainBlockHash);
    if main.work[m0] < main.work[m1] {
      if main.tree.IsAncestor(m1, m0) {
        WorkMonotone(main, m1, m0);
      }
      ForkOfAncestor(main, m0, m1);
      LastCommonSymmetric(main.tree, m0, m1);
      ParentAncestry(main.tree, main.tree.Parent(m0), m0);
      assert BuiltBelow(main, tip0.blockHash, m0) == Some(tip0.blockHash);
    }
  }

  // ---------------------------------------------------------------- the search

  /** Walks down from `b` to the first block that was built strictly below `a`. */
  method FindBuiltBelow(side: SideTables, main: MainTables, b: BlockHash, a: MainHash) returns (r: Option<BlockHash>)
    requires ValidTables(side, main) && b in side.tree.height && a in main.tree.height
    ensures r == BuiltBelow(main, b, a)
  {
    var cursor := Some(b);
    while cursor.Some?
      invariant cursor.Some? ==> cursor.value in side.tree.height && BuiltBelow(main, cursor.value, a) == BuiltBelow(main, b, a)
      invariant cursor.None? ==> BuiltBelow(main, b, a) == None
      decreases cursor
    {
      var block := cursor.value;
      assert BuiltOnKnown(main, block);
      var descends := IsDescendant(main.tree, block.header.prevMainHash, a);
      if descends.value && block.header.prevMainHash != a {
        return Some(block);
      }
      assert side.ParentNamed(block);
      assert block in side.tree.parent ==> side.tree.Parent(block) in side.tree.height;
      cursor := block.header.prevSideHash;
    }
    r := None;
  }

  /** The height and mainchain work that the lineage of `b` had reached before the fork at `a`. */
  method ForkRecord(side: SideTables, main: MainTables, b: BlockHash, a: MainHash)
    returns (height: Option<nat>, work: Option<nat>)
    requires ValidTables(side, main) && b in side.tree.height && a in main.tree.height
    ensures height == ForkHeight(side, main, b, a) && work == ForkWork(side, main, b, a)
  {
    BuiltBelowIsStored(side, main, b, a);
    var below := FindBuiltBelow(side, main, b, a);
    if below.None? {
      return None, None;
    }
    var next := main.tree.height[below.value.header.prevMainHash] + 1;
    var block, _ := GetNthAncestor(main.tree, a, main.tree.height[a] - next);
    return Some(side.tree.height[below.value]), Some(main.work[block.value]);
  }

  /** Compares two known tips with the archive's ancestor searches. */
  method SelectTip(side: SideTables, main: MainTables, tip0: Tip, tip1: Tip) returns (r: Option<Tip>)
    requires ValidTables(side, main) && KnownTip(side, main, tip0) && KnownTip(side, main, tip1)
    ensures r == BetterTip(side, main, tip0, tip1)
  {
    if tip0 == tip1 {
      return None;
    }
    var b0, m0, b1, m1 := tip0.blockHash, tip0.mainBlockHash, tip1.blockHash, tip1.mainBlockHash;
    var h0, h1 := side.tree.height[b0], side.tree.height[b1];
    if h0 == 0 || h1 == 0 {
      return if h0 == 0 && h1 == 0 then None else if h0 == 0 then Some(tip1) else Some(tip0);
    }
    var w0, w1 := main.work[m0], main.work[m1];
    if w0 <= w1 && h0 < h1 {
      return Some(tip1);
    } else if w0 >= w1 && h0 > h1 {
      return Some(tip0);
    } else if w0 != w1 && h0 == h1 {
      var shared := SharedLineage(main.tree, m0, m1);
      return Some(if (w0 < w1) == shared.value then tip0 else tip1);
    }
    var fork := LastCommonMainAncestor(main.tree, ZERO_HASH, m0, m1);
    var a := fork.value;
    assert a == MainFork(main, m0, m1);
    if w0 < w1 {
      var height, _ := ForkRecord(side, main, b0, a);
      return Some(if AtLeast(height, h1) then tip0 else tip1);
    } else if w0 > w1 {
      var height, _ := ForkRecord(side, main, b1, a);
      return Some(if AtLeast(height, h0) then tip1 else tip0);
    } else if b0 == b1 {
      return Some(tip0);
    }
    var height0, work0 := ForkRecord(side, main, b0, a);
    var height1, work1 := ForkRecord(side, main, b1, a);
    if height0 == height1 {
      r := Some(if work0.Some? && work0.value > work1.value then tip1 else tip0);
    } else {
      r := Some(if height0.Some? && AtLeast(height0, if height1.Some? then height1.value else 0) then tip0 else tip1);
    }
  }
}
