/** The archive object: storing headers and mainchain blocks keeps the BMM table exact. */
module Archive {
  import opened Types
  import opened Lineage
  import opened CommonAncestor
  import opened Bmm
  import opened HeaderWork

  function ResultsOf(bmm: BmmTable, b: BlockHash): map<MainHash, BmmResult> {
    if b in bmm then bmm[b] else map[]
  }

  predicate RecordedVerified(bmm: BmmTable, b: BlockHash, m: MainHash) {
    m in ResultsOf(bmm, b) && ResultsOf(bmm, b)[m] == Verified
  }

  /** The recorded verdicts are exactly the true ones, for all known pairs of blocks. */
  ghost predicate BmmExact(side: SideTables, main: MainTables, bmm: BmmTable)
    requires main.tree.Linked()
  {
    && (forall b | b in bmm :: b in side.tree.height && bmm[b].Keys <= main.infos.Keys)
    && forall b, m | b in side.tree.height && m in main.infos :: RecordedVerified(bmm, b, m) <==> IsVerified(main, b, m)
  }

  /** Some recorded block verifies and is an ancestor of `m`. */
  ghost predicate VerifiedInAncestry(main: MainTables, results: map<MainHash, BmmResult>, m: MainHash)
    requires main.tree.Linked()
  {
    exists p :: p in results && results[p] == Verified && main.tree.IsAncestor(p, m)
  }

  method AnyVerifiedAncestor(main: MainTables, results: map<MainHash, BmmResult>, m: MainHash) returns (found: bool)
    requires main.Valid() && m in main.tree.height && results.Keys <= main.tree.height.Keys
    ensures found <==> VerifiedInAncestry(main, results, m)
  {
    var rest := results.Keys;
    while rest != {}
      invariant rest <= results.Keys
      invariant forall p | p in results.Keys - rest :: !(results[p] == Verified && main.tree.IsAncestor(p, m))
      decreases |rest|
    {
      var p :| p in rest;
      if results[p] == Verified {
        var descends := IsDescendant(main.tree, p, m);
        if descends == Ok(true) {
          return true;
        }
      }
      rest := rest - {p};
    }
    found := false;
  }

  /** The verdict on `b` at a mainchain block that commits to it. */
  method JudgeCommitment(main: MainTables, bmm: BmmTable, b: BlockHash, m: MainHash) returns (verdict: BmmResult)
    requires main.Valid() && m in main.tree.parent
    requires forall x | x in bmm :: bmm[x].Keys <= main.tree.height.Keys
    ensures verdict == Verified <==>
              && main.tree.parent[m] == b.header.prevMainHash
              && (b.header.prevSideHash.Some? ==>
                    VerifiedInAncestry(main, ResultsOf(bmm, b.header.prevSideHash.value), m))
  {
    if b.header.prevMainHash != main.tree.parent[m] {
      return Failed;
    }
    if b.header.prevSideHash.None? {
      return Verified;
    }
    var found := AnyVerifiedAncestor(main, ResultsOf(bmm, b.header.prevSideHash.value), m);
    verdict := if found then Verified else Failed;
  }

  /** Judging by the recorded verdicts of the parent gives the true verdict. */
  lemma JudgementIsTrue(side: SideTables, main: MainTables, later: MainTables, bmm: BmmTable, b: BlockHash, m: MainHash)
    requires main.Valid() && later.Valid() && MainExtends(main, later) && BmmExact(side, main, bmm)
    requires later.infos.Keys <= main.infos.Keys + {m} && CommitsTo(later, b, m)
    requires b.header.prevSideHash.Some? ==> b.header.prevSideHash.value in side.tree.height
    ensures IsVerified(later, b, m) <==>
            (b.header.prevSideHash.Some? ==>
               VerifiedInAncestry(later, ResultsOf(bmm, b.header.prevSideHash.value), m))
  {
    if b.header.prevSideHash.Some? {
      var parent := b.header.prevSideHash.value;
      forall p
        ensures p in ResultsOf(bmm, parent) && ResultsOf(bmm, parent)[p] == Verified
           <==> p in later.infos && IsVerified(later, parent, p)
      {
        RecordedIsTrue(side, main, later, bmm, b, m, p);
      }
    }
  }

  lemma RecordedIsTrue(
    side: SideTables, main: MainTables, later: MainTables, bmm: BmmTable, b: BlockHash, m: MainHash, p: MainHash)
    requires main.Valid() && later.Valid() && MainExtends(main, later) && BmmExact(side, main, bmm)
    requires later.infos.Keys <= main.infos.Keys + {m} && CommitsTo(later, b, m)
    requires b.header.prevSideHash.Some? && b.header.prevSideHash.value in side.tree.height
    ensures var parent := b.header.prevSideHash.value;
            RecordedVerified(bmm, parent, p) <==> p in later.infos && IsVerified(later, parent, p)
  {
    var parent := b.header.prevSideHash.value;
    if p in main.infos {
      VerdictIsFinal(main, later, parent, p);
      assert RecordedVerified(bmm, parent, p) <==> IsVerified(main, parent, p);
    } else if p in later.infos && IsVerified(later, parent, p) {
      assert false;
    }
  }

  // --------------------------------------------------- tables after one step

  function WithMainHeader(main: MainTables, info: MainHeaderInfo, tree: Tree<MainHash>): MainTables
    requires info.prevBlockHash in main.successors
  {
    var m, prev := info.blockHash, info.prevBlockHash;
    var successors := main.successors[prev := main.successors[prev] + {m}];
    MainTables(
      tree, main.infos, successors[m := if m in successors then successors[m] else {}],
      main.work[m := main.ParentWork(prev) + info.work])
  }

  /** A mainchain hash always names the same header. */
  ghost predicate SameHeader(main: MainTables, info: MainHeaderInfo) {
    && info.blockHash != ZERO_HASH
    && (info.blockHash in main.tree.parent && info.blockHash in main.work ==>
          && main.tree.parent[info.blockHash] == info.prevBlockHash
          && main.work[info.blockHash] == main.ParentWork(info.prevBlockHash) + info.work)
  }

  /** `tree` is the tree of `main` with the header linked below its parent. */
  ghost predicate LinksHeader(main: MainTables, info: MainHeaderInfo, tree: Tree<MainHash>) {
    && info.prevBlockHash in main.tree.height && SameHeader(main, info)
    && tree.Linked() && Extends(main.tree, tree)
    && tree.parent == main.tree.parent[info.blockHash := info.prevBlockHash]
    && tree.height.Keys == main.tree.height.Keys + {info.blockHash}
  }

  lemma WithMainHeaderWork(main: MainTables, info: MainHeaderInfo, tree: Tree<MainHash>, x: MainHash)
    requires LinksHeader(main, info, tree) && main.tree.parent.Keys == main.work.Keys && x in tree.parent
    requires info.prevBlockHash in main.successors && main.tree.Linked() && SingleRoot(main.tree, ZERO_HASH)
    requires x in main.tree.parent ==> main.WorkAdds(x)
    ensures WithMainHeader(main, info, tree).WorkAdds(x)
  {
    var m, p := info.blockHash, tree.Parent(x);
    assert tree.height[x] == tree.height[p] + 1;
    if x != m {
      assert p == main.tree.Parent(x) && p in main.tree.height;
    }
    assert p == m ==> m in main.work;
  }

  lemma WithMainHeaderChildren(main: MainTables, info: MainHeaderInfo, tree: Tree<MainHash>, p: MainHash)
    requires main.tree.Linked() && main.successors.Keys == main.tree.height.Keys
    requires LinksHeader(main, info, tree) && p in WithMainHeader(main, info, tree).successors
    requires p in main.successors ==> main.ListsChildren(p)
    requires main.ListsChildren(info.prevBlockHash)
    ensures WithMainHeader(main, info, tree).ListsChildren(p)
  {
    var m := info.blockHash;
    if m !in main.tree.height {
      forall x | x in main.tree.parent
        ensures main.tree.parent[x] != m
      {
        assert main.tree.Parent(x) in main.tree.height;
      }
    }
  }

  /** A header can be linked below its parent if that is stored or the zero hash. */
  lemma CanLink(main: MainTables, info: MainHeaderInfo)
    requires main.Valid() && SameHeader(main, info)
    ensures main.tree.Valid() && main.successors.Keys == main.tree.height.Keys
    ensures info.prevBlockHash in main.tree.height <==> info.prevBlockHash in main.tree.parent || info.prevBlockHash == ZERO_HASH
    ensures info.prevBlockHash in main.tree.height ==> Consistent(main.tree, info.blockHash, Some(info.prevBlockHash))
  {
    hide Tree.SkipsExact, MainTables.WorkAdds, MainTables.ListsChildren, MainTables.ParentHasInfo;
  }

  lemma LinkedHeader(main: MainTables, info: MainHeaderInfo, tree: Tree<MainHash>)
    requires main.Valid() && tree.Valid() && SameHeader(main, info) && info.prevBlockHash in main.tree.height
    requires Extends(main.tree, tree) && info.blockHash in tree.skip
    requires tree == WithLink(main.tree, info.blockHash, Some(info.prevBlockHash)).(skip := main.tree.skip[info.blockHash := tree.skip[info.blockHash]])
    ensures LinksHeader(main, info, tree) && tree.skip.Keys == main.tree.skip.Keys + {info.blockHash}
    ensures tree.parent == main.tree.parent[info.blockHash := info.prevBlockHash]
  {
  }

  lemma WithMainHeaderKeys(main: MainTables, info: MainHeaderInfo, tree: Tree<MainHash>)
    requires main.Valid() && LinksHeader(main, info, tree)
    requires tree.skip.Keys == main.tree.skip.Keys + {info.blockHash}
    ensures var later := WithMainHeader(main, info, tree);
            && later.tree == tree && later.infos == main.infos
            && tree.parent.Keys == tree.skip.Keys == later.work.Keys && later.successors.Keys == tree.height.Keys
            && later.infos.Keys <= tree.parent.Keys && MainExtends(main, later)
    ensures info.prevBlockHash in main.successors && main.tree.Linked() && SingleRoot(main.tree, ZERO_HASH)
  {
    hide Tree.Linked, Tree.SkipsExact, MainTables.WorkAdds, MainTables.ListsChildren, MainTables.ParentHasInfo, SingleRoot;
  }

  /** The total of every header stays, and that of the linked one is known. */
  lemma TotalsStay(main: MainTables, info: MainHeaderInfo, tree: Tree<MainHash>, x: MainHash)
    requires main.tree.Linked() && SingleRoot(main.tree, ZERO_HASH) && main.tree.parent.Keys == main.work.Keys
    requires LinksHeader(main, info, tree) && info.prevBlockHash in main.successors && x in tree.parent
    ensures WithMainHeader(main, info, tree).ParentWork(tree.parent[x]) == main.ParentWork(tree.parent[x])
  {
    var m, p := info.blockHash, tree.Parent(x);
    assert tree.height[x] == tree.height[p] + 1;
    if x != m {
      assert p == main.tree.Parent(x) && p in main.tree.height;
    }
    assert p == m ==> m in main.work;
  }

  /** The new header's total is its own work on top of its parent's. */
  lemma LinkedWork(main: MainTables, info: MainHeaderInfo, tree: Tree<MainHash>, works: map<MainHash, nat>)
    requires main.Valid() && LinksHeader(main, info, tree) && WorkedOut(main, works)
    ensures info.prevBlockHash in main.successors
    ensures WorkedOut(WithMainHeader(main, info, tree), works[info.blockHash := info.work])
  {
    hide Tree.Linked, Tree.SkipsExact, MainTables.WorkAdds, MainTables.ListsChildren, MainTables.ParentHasInfo, MainTables.ParentWork, SingleRoot;
    var m, later, more := info.blockHash, WithMainHeader(main, info, tree), works[info.blockHash := info.work];
    forall x {:trigger more[x]} | x in more
      ensures later.work[x] == later.ParentWork(tree.parent[x]) + more[x]
    {
      TotalsStay(main, info, tree, x);
    }
  }

  lemma InfoKeepsWork(main: MainTables, m: MainHash, info: BlockInfo, works: map<MainHash, nat>)
    requires WorkedOut(main, works)
    ensures WorkedOut(WithInfo(main, m, info), works)
  {
  }

  lemma WithMainHeaderValid(main: MainTables, info: MainHeaderInfo, tree: Tree<MainHash>)
    requires main.Valid() && tree.Valid() && LinksHeader(main, info, tree)
    requires tree.skip.Keys == main.tree.skip.Keys + {info.blockHash}
    ensures WithMainHeader(main, info, tree).Valid()
    ensures MainExtends(main, WithMainHeader(main, info, tree))
  {
    hide MainTables.WorkAdds, MainTables.ListsChildren, MainTables.ParentHasInfo, SingleRoot, Tree.Linked, Tree.SkipsExact;
    WithMainHeaderKeys(main, info, tree);
    SingleRootStays(main.tree, tree, info.blockHash, info.prevBlockHash);
    hide WithMainHeader, MainExtends, Extends;
    var later := WithMainHeader(main, info, tree);
    forall x {:trigger later.WorkAdds(x)} | x in tree.parent
      ensures later.WorkAdds(x)
    {
      assert x in main.tree.parent ==> main.WorkAdds(x);
      WithMainHeaderWork(main, info, tree, x);
    }
    forall p {:trigger later.ListsChildren(p)} | p in later.successors
      ensures later.ListsChildren(p)
    {
      assert p in main.successors ==> main.ListsChildren(p);
      assert main.ListsChildren(info.prevBlockHash);
      WithMainHeaderChildren(main, info, tree, p);
    }
    forall x {:trigger later.ParentHasInfo(x)} | x in later.infos
      ensures later.ParentHasInfo(x)
    {
      assert main.ParentHasInfo(x);
      WithMainHeaderInfo(main, info, tree, x);
    }
  }

  lemma WithMainHeaderInfo(main: MainTables, info: MainHeaderInfo, tree: Tree<MainHash>, x: MainHash)
    requires main.successors.Keys == main.tree.height.Keys && LinksHeader(main, info, tree)
    requires x in main.infos && x in main.tree.parent && x in tree.parent && tree.parent[x] == main.tree.parent[x]
    requires main.ParentHasInfo(x)
    ensures WithMainHeader(main, info, tree).ParentHasInfo(x)
  {
  }

  lemma SingleRootStays(t: Tree<MainHash>, u: Tree<MainHash>, b: MainHash, p: MainHash)
    requires t.Linked() && u.Linked() && Extends(t, u) && SingleRoot(t, ZERO_HASH) && b != ZERO_HASH
    requires u.height.Keys == t.height.Keys + {b} && b in u.parent
    ensures SingleRoot(u, ZERO_HASH)
  {
    assert u.height[b] > 0;
  }

  /** Verdicts stay exact when the mainchain tables grow without new block infos. */
  lemma BmmExactStable(side: SideTables, main: MainTables, later: MainTables, bmm: BmmTable)
    requires main.Valid() && later.Valid() && MainExtends(main, later) && later.infos == main.infos
    requires BmmExact(side, main, bmm)
    ensures BmmExact(side, later, bmm)
  {
    forall b, m | b in side.tree.height && m in later.infos
      ensures RecordedVerified(bmm, b, m) <==> IsVerified(later, b, m)
    {
      VerdictIsFinal(main, later, b, m);
    }
  }

  function WithInfo(main: MainTables, m: MainHash, info: BlockInfo): MainTables {
    main.(infos := main.infos[m := info])
  }

  lemma WithInfoValid(main: MainTables, m: MainHash, info: BlockInfo)
    requires main.Valid() && m in main.tree.parent && main.ParentHasInfo(m)
    requires m in main.infos ==> main.infos[m] == info
    ensures WithInfo(main, m, info).Valid() && MainExtends(main, WithInfo(main, m, info))
  {
    var later := WithInfo(main, m, info);
    forall x {:trigger later.WorkAdds(x)} | x in later.tree.parent
      ensures later.WorkAdds(x)
    {
      assert main.WorkAdds(x);
    }
    forall p {:trigger later.ListsChildren(p)} | p in later.successors
      ensures later.ListsChildren(p)
    {
      assert main.ListsChildren(p);
    }
    forall x {:trigger later.ParentHasInfo(x)} | x in later.infos
      ensures later.ParentHasInfo(x)
    {
      assert main.tree.Parent(x) == later.tree.Parent(x);
      assert x in main.infos ==> main.ParentHasInfo(x);
    }
  }

  /** Verdicts about other pairs than the new one stay exact. */
  lemma OtherVerdict(
    side: SideTables, main: MainTables, later: MainTables, bmm: BmmTable, c: BlockHash, m: MainHash, x: MainHash)
    requires main.Valid() && later.Valid() && MainExtends(main, later) && BmmExact(side, main, bmm)
    requires later.infos.Keys == main.infos.Keys + {m} && c in side.tree.height && x in later.infos
    requires x == m && m !in main.infos ==> later.infos[m].bmmCommitment != Some(c)
    ensures RecordedVerified(bmm, c, x) <==> IsVerified(later, c, x)
  {
    if x in main.infos {
      VerdictIsFinal(main, later, c, x);
      assert RecordedVerified(bmm, c, x) <==> IsVerified(main, c, x);
    }
  }

  lemma RecordOne(bmm: BmmTable, b: BlockHash, m: MainHash, verdict: BmmResult, c: BlockHash, x: MainHash)
    ensures RecordedVerified(bmm[b := ResultsOf(bmm, b)[m := verdict]], c, x) <==>
            if c == b && x == m then verdict == Verified else RecordedVerified(bmm, c, x)
  {
  }

  /** A new verdict at `m`, recorded for the block `m` commits to, keeps all verdicts exact. */
  lemma RecordVerdict(
    side: SideTables, main: MainTables, later: MainTables, bmm: BmmTable, b: BlockHash, m: MainHash, verdict: BmmResult)
    requires main.Valid() && later.Valid() && MainExtends(main, later) && BmmExact(side, main, bmm)
    requires m in later.infos && later.infos.Keys == main.infos.Keys + {m}
    requires b in side.tree.height && later.infos[m].bmmCommitment == Some(b)
    requires verdict == Verified <==> IsVerified(later, b, m)
    ensures BmmExact(side, later, bmm[b := ResultsOf(bmm, b)[m := verdict]])
  {
    hide IsVerified, Tree.SkipsExact, Tree.Linked, MainTables.WorkAdds, MainTables.ParentHasInfo, SingleRoot;
    var after := bmm[b := ResultsOf(bmm, b)[m := verdict]];
    forall c, x | c in side.tree.height && x in later.infos
      ensures RecordedVerified(after, c, x) <==> IsVerified(later, c, x)
    {
      RecordOne(bmm, b, m, verdict, c, x);
      if c != b || x != m {
        OtherVerdict(side, main, later, bmm, c, m, x);
      }
    }
  }

  /** A block that commits to no stored header leaves all verdicts exact. */
  lemma NothingToRecord(side: SideTables, main: MainTables, later: MainTables, bmm: BmmTable, m: MainHash)
    requires main.Valid() && later.Valid() && MainExtends(main, later) && BmmExact(side, main, bmm)
    requires m in later.infos && later.infos.Keys == main.infos.Keys + {m}
    requires forall b | later.infos[m].bmmCommitment == Some(b) :: b !in side.tree.height
    ensures BmmExact(side, later, bmm)
  {
    forall c, x | c in side.tree.height && x in later.infos
      ensures RecordedVerified(bmm, c, x) <==> IsVerified(later, c, x)
    {
      OtherVerdict(side, main, later, bmm, c, m, x);
    }
  }

  // ------------------------------------------------------ storing a side header

  function WithSideHeader(side: SideTables, b: BlockHash, tree: Tree<BlockHash>): SideTables
    requires b.header.prevSideHash in side.successors
  {
    var prev := b.header.prevSideHash;
    var successors := side.successors[prev := side.successors[prev] + {b}];
    SideTables(tree, successors[Some(b) := if Some(b) in successors then successors[Some(b)] else {}])
  }

  /** A header can be linked below its stored parent, and all verdicts are about stored blocks. */
  lemma CanLinkSide(side: SideTables, main: MainTables, bmm: BmmTable, b: BlockHash)
    requires side.Valid() && main.Valid() && BmmExact(side, main, bmm)
    requires b.header.prevSideHash.Some? ==> b.header.prevSideHash.value in side.tree.height
    ensures side.tree.Valid() && Consistent(side.tree, b, b.header.prevSideHash) && b.header.prevSideHash in side.successors
    ensures forall x | x in bmm :: bmm[x].Keys <= main.tree.height.Keys
    ensures side.tree.height.Keys == side.tree.skip.Keys && main.tree.Linked() && main.successors.Keys == main.tree.height.Keys
  {
    hide Tree.SkipsExact, MainTables.Valid, SideTables.ListsChildren, BmmExact;
    InfosAreLinked(main);
    VerdictsAreKnown(side, main, bmm);
    ParentHasSuccessors(side, b.header.prevSideHash);
    if b in side.tree.height {
      SideParentConsistent(side, b);
    }
  }

  /** A stored header can be judged by the verdicts on its stored parent. */
  lemma CanJudge(side: SideTables, main: MainTables, bmm: BmmTable, b: BlockHash)
    requires side.Valid() && main.Valid() && BmmExact(side, main, bmm) && b in side.tree.height
    ensures b.header.prevSideHash.Some? ==> b.header.prevSideHash.value in side.tree.height
    ensures forall x | x in bmm :: bmm[x].Keys <= main.tree.height.Keys
  {
    hide Tree.SkipsExact, MainTables.Valid, SideTables.ListsChildren, BmmExact;
    InfosAreLinked(main);
    VerdictsAreKnown(side, main, bmm);
    assert side.ParentNamed(b);
  }

  lemma ParentHasSuccessors(side: SideTables, prev: Option<BlockHash>)
    requires side.Valid() && (prev.Some? ==> prev.value in side.tree.height)
    ensures prev in side.successors
  {
    hide Tree.Valid, SideTables.ListsChildren;
    assert prev.Some? ==> Some(prev.value) in side.successors;
  }

  lemma InfosAreLinked(main: MainTables)
    requires main.Valid()
    ensures main.infos.Keys <= main.tree.height.Keys && main.tree.Linked() && main.successors.Keys == main.tree.height.Keys
  {
    hide Tree.Linked, MainTables.WorkAdds, MainTables.ParentHasInfo, MainTables.ListsChildren;
    assert main.tree.parent.Keys <= main.tree.skip.Keys <= main.tree.height.Keys;
  }

  lemma VerdictsAreKnown(side: SideTables, main: MainTables, bmm: BmmTable)
    requires main.tree.Linked() && BmmExact(side, main, bmm) && main.infos.Keys <= main.tree.height.Keys
    ensures forall x | x in bmm :: bmm[x].Keys <= main.tree.height.Keys
  {
    hide Tree.Linked, IsVerified, RecordedVerified;
  }

  lemma SideParentConsistent(side: SideTables, b: BlockHash)
    requires side.Valid() && b in side.tree.height
    ensures Consistent(side.tree, b, b.header.prevSideHash)
  {
    assert side.ParentNamed(b);
  }

  lemma WithSideHeaderValid(side: SideTables, b: BlockHash, tree: Tree<BlockHash>)
    requires side.Valid() && tree.Valid() && Extends(side.tree, tree) && b.header.prevSideHash in side.successors
    requires b.header.prevSideHash.Some? ==> b.header.prevSideHash.value in side.tree.height
    requires b in tree.skip && tree == WithLink(side.tree, b, b.header.prevSideHash).(skip := tree.skip)
    requires tree.skip.Keys == side.tree.skip.Keys + {b}
    requires Consistent(side.tree, b, b.header.prevSideHash)
    ensures WithSideHeader(side, b, tree).Valid()
  {
    var later := WithSideHeader(side, b, tree);
    forall x {:trigger later.ParentNamed(x)} | x in tree.height
      ensures later.ParentNamed(x)
    {
      if x != b {
        assert side.ParentNamed(x);
        assert x in tree.parent ==> tree.Parent(x) == side.tree.Parent(x);
      } else {
        assert b in tree.parent ==> Some(tree.Parent(b)) == b.header.prevSideHash;
      }
    }
    forall p {:trigger later.ListsChildren(p)} | p in later.successors
      ensures later.ListsChildren(p)
    {
      WithSideHeaderChildren(side, b, tree, p);
    }
  }

  /** Storing a header again changes nothing. */
  lemma KnownHeaderStays(side: SideTables, b: BlockHash)
    requires side.Valid() && b in side.tree.height
    ensures b.header.prevSideHash in side.successors && WithSideHeader(side, b, side.tree) == side
  {
    var prev := b.header.prevSideHash;
    assert side.ParentNamed(b);
    assert prev.Some? ==> prev.value == side.tree.Parent(b) && prev.value in side.tree.height;
    assert side.ListsChildren(prev);
    assert side.successors[prev] + {b} == side.successors[prev];
  }

  lemma WithSideHeaderChildren(side: SideTables, b: BlockHash, tree: Tree<BlockHash>, p: Option<BlockHash>)
    requires side.Valid() && b.header.prevSideHash in side.successors
    requires tree.height.Keys == side.tree.height.Keys + {b}
    requires p in WithSideHeader(side, b, tree).successors
    ensures WithSideHeader(side, b, tree).ListsChildren(p)
  {
    assert p in side.successors ==> side.ListsChildren(p);
    assert side.ListsChildren(b.header.prevSideHash);
    if b !in side.tree.height {
      forall x | x in side.tree.height
        ensures x.header.prevSideHash != Some(b)
      {
        assert side.ParentNamed(x);
        assert x in side.tree.parent ==> side.tree.Parent(x) in side.tree.height;
      }
    }
  }

  /** The verdict on `b` at a child of the block it was built on, by the parent's recorded verdicts. */
  ghost predicate JudgedVerified(main: MainTables, bmm: BmmTable, b: BlockHash, m: MainHash)
    requires main.tree.Linked() && m in main.infos
  {
    && main.infos[m].bmmCommitment == Some(b)
    && (b.header.prevSideHash.Some? ==>
          VerifiedInAncestry(main, ResultsOf(bmm, b.header.prevSideHash.value), m))
  }

  method JudgeSuccessor(main: MainTables, bmm: BmmTable, b: BlockHash, m: MainHash) returns (verdict: BmmResult)
    requires main.Valid() && forall x | x in bmm :: bmm[x].Keys <= main.tree.height.Keys
    requires m in main.infos && main.tree.parent[m] == b.header.prevMainHash
    ensures verdict == Verified <==> JudgedVerified(main, bmm, b, m)
  {
    verdict := Failed;
    if main.infos[m].bmmCommitment == Some(b) {
      verdict := JudgeCommitment(main, bmm, b, m);
    }
  }

  /** `results` holds the old results and a judgement for each of `judged`. */
  ghost predicate JudgedExactly(
    main: MainTables, bmm: BmmTable, b: BlockHash, judged: set<MainHash>, results: map<MainHash, BmmResult>)
    requires main.tree.Linked() && judged <= main.infos.Keys
  {
    && results.Keys == ResultsOf(bmm, b).Keys + judged
    && (forall m | m in results && m !in judged :: results[m] == ResultsOf(bmm, b)[m])
    && (forall m | m in judged :: results[m] == Verified <==> JudgedVerified(main, bmm, b, m))
  }

  /** Why a header cannot be judged: its mainchain block, or the info of one of that block's children, is not stored. */
  function SuccessorsMissing(main: MainTables, header: Header): Option<ArchiveError> {
    if header.prevMainHash !in main.successors then Some(NoMainBlockHash)
    else if !(main.successors[header.prevMainHash] <= main.infos.Keys) then Some(NoMainBlockInfo)
    else None
  }

  /** Judges `b` at every stored child of the mainchain block it was built on. */
  method JudgeSuccessors(main: MainTables, bmm: BmmTable, b: BlockHash)
    returns (r: Result<map<MainHash, BmmResult>, ArchiveError>)
    requires main.Valid() && forall x | x in bmm :: bmm[x].Keys <= main.tree.height.Keys
    ensures b.header.prevMainHash !in main.successors ==> r == Err(NoMainBlockHash)
    ensures b.header.prevMainHash in main.successors ==>
              var children := main.successors[b.header.prevMainHash];
              && (!(children <= main.infos.Keys) ==> r == Err(NoMainBlockInfo))
              && (children <= main.infos.Keys ==> r.Ok? && JudgedExactly(main, bmm, b, children, r.value))
  {
    if b.header.prevMainHash !in main.successors {
      return Err(NoMainBlockHash);
    }
    var results := ResultsOf(bmm, b);
    var children := main.successors[b.header.prevMainHash];
    assert main.ListsChildren(b.header.prevMainHash);
    var judged: set<MainHash> := {};
    while children - judged != {}
      invariant judged <= children && judged <= main.infos.Keys
      invariant JudgedExactly(main, bmm, b, judged, results)
      decreases children - judged
    {
      var m :| m in children - judged;
      if m !in main.infos {
        return Err(NoMainBlockInfo);
      }
      var verdict := JudgeSuccessor(main, bmm, b, m);
      results := results[m := verdict];
      judged := judged + {m};
    }
    assert judged == children;
    r := Ok(results);
  }

  /** The judged results of a stored header keep all verdicts exact. */
  lemma RecordHeader(side: SideTables, later: SideTables, main: MainTables, bmm: BmmTable,
                     b: BlockHash, results: map<MainHash, BmmResult>)
    requires main.Valid() && BmmExact(side, main, bmm)
    requires later.tree.height.Keys == side.tree.height.Keys + {b}
    requires b.header.prevSideHash.Some? ==> b.header.prevSideHash.value in side.tree.height
    requires b.header.prevMainHash in main.successors
    requires main.successors[b.header.prevMainHash] <= main.infos.Keys
    requires JudgedExactly(main, bmm, b, main.successors[b.header.prevMainHash], results)
    ensures BmmExact(later, main, bmm[b := results])
  {
    hide Tree.SkipsExact, Tree.Linked, MainTables.WorkAdds, MainTables.ParentHasInfo, SingleRoot;
    var after := bmm[b := results];
    var children := main.successors[b.header.prevMainHash];
    assert main.ListsChildren(b.header.prevMainHash);
    forall c, x | c in later.tree.height && x in main.infos
      ensures RecordedVerified(after, c, x) <==> IsVerified(main, c, x)
    {
      if c != b {
        assert RecordedVerified(bmm, c, x) <==> IsVerified(main, c, x);
      } else if x in children {
        if main.infos[x].bmmCommitment == Some(b) {
          JudgementIsTrue(side, main, main, bmm, b, x);
        }
      } else {
        assert !IsVerified(main, b, x);
        assert b in side.tree.height ==> !RecordedVerified(bmm, b, x);
      }
    }
  }

  /**
   Two archives that hold the same about the mainchain blocks both know agree on every pair of blocks
   both know, whatever else each of them holds and in whatever order they were filled.
   */
  lemma VerdictsAgree(side: SideTables, main: MainTables, bmm: BmmTable,
                      side': SideTables, main': MainTables, bmm': BmmTable, b: BlockHash, m: MainHash)
    requires main.Valid() && main'.Valid() && SharedAgree(main, main')
    requires BmmExact(side, main, bmm) && BmmExact(side', main', bmm')
    requires b in side.tree.height && b in side'.tree.height && m in main.infos && m in main'.infos
    ensures RecordedVerified(bmm', b, m) <==> RecordedVerified(bmm, b, m)
  {
    SharedVerdict(main, main', b, m);
    assert RecordedVerified(bmm, b, m) <==> IsVerified(main, b, m);
    assert RecordedVerified(bmm', b, m) <==> IsVerified(main', b, m);
  }

  lemma PrevMainStaysKnown(side: SideTables, main: MainTables, later: MainTables)
    requires PrevMainKnown(side, main) && main.tree.height.Keys <= later.tree.height.Keys
    ensures PrevMainKnown(side, later)
  {
    forall c {:trigger BuiltOnKnown(later, c)} | c in side.tree.height
      ensures BuiltOnKnown(later, c)
    {
      assert BuiltOnKnown(main, c);
    }
  }

  lemma NewPrevMainKnown(side: SideTables, later: SideTables, main: MainTables, b: BlockHash)
    requires PrevMainKnown(side, main) && BuiltOnKnown(main, b)
    requires later.tree.height.Keys == side.tree.height.Keys + {b}
    ensures PrevMainKnown(later, main)
  {
    forall c {:trigger BuiltOnKnown(main, c)} | c in later.tree.height
      ensures BuiltOnKnown(main, c)
    {
      assert c != b ==> c in side.tree.height;
    }
  }

  class Archive {
    var main: MainTables
    var side: SideTables
    var bmm: BmmTable
    /** The work in each stored mainchain header. */
    var works: map<MainHash, nat>

    ghost predicate Valid()
      reads this
    {
      main.Valid() && side.Valid() && PrevMainKnown(side, main) && BmmExact(side, main, bmm) && WorkedOut(main, works)
    }

    constructor ()
      ensures Valid() && main.infos == map[] && side.tree.height == map[]
    {
      main := MainTables(Tree(map[ZERO_HASH := 0], map[], map[]), map[], map[ZERO_HASH := {}], map[]);
      side := SideTables(Tree(map[], map[], map[]), map[None := {}]);
      bmm := map[];
      works := map[];
    }

    /** Stores a mainchain header below its parent, with the total work of its chain. */
    method PutMainHeaderInfo(info: MainHeaderInfo) returns (r: Result<(), ArchiveError>)
      requires Valid() && SameHeader(main, info)
      requires info.prevBlockHash in main.tree.height ==> main.tree.height[info.prevBlockHash] + 1 < U32_SIZE
      modifies this`main, this`works
      ensures Valid()
      ensures works == if r.Ok? then old(works)[info.blockHash := info.work] else old(works)
      ensures r.Err? <==> old(info.prevBlockHash !in main.tree.height)
      ensures r.Err? ==> r.error == NoMainHeaderInfo && main == old(main)
      ensures r.Ok? ==>
                && MainExtends(old(main), main)
                && main.tree.parent == old(main.tree.parent)[info.blockHash := info.prevBlockHash]
                && main == WithMainHeader(old(main), info, main.tree)
    {
      hide BmmExact, PrevMainKnown, SideTables.Valid, MainTables.Valid, SingleRoot, Tree.SkipsExact, Tree.Linked, LinksHeader, WorkedOut;
      CanLink(main, info);
      if info.prevBlockHash !in main.tree.parent && info.prevBlockHash != ZERO_HASH {
        return Err(NoMainHeaderInfo);
      }
      var tree := PutLink(main.tree, info.blockHash, Some(info.prevBlockHash));
      LinkedHeader(main, info, tree);
      WithMainHeaderValid(main, info, tree);
      ghost var before := main;
      LinkedWork(before, info, tree, works);
      main := WithMainHeader(main, info, tree);
      works := works[info.blockHash := info.work];
      BmmExactStable(side, before, main, bmm);
      PrevMainStaysKnown(side, before, main);
      r := Ok(());
    }

    /** Stores a mainchain block's info and judges the sidechain block it commits to. */
    method PutMainBlockInfo(m: MainHash, info: BlockInfo) returns (r: Result<(), ArchiveError>)
      requires Valid() && (m in main.infos ==> main.infos[m] == info)
      modifies this`main, this`bmm
      ensures Valid()
      ensures r.Ok? <==> old(m in main.tree.parent && main.ParentHasInfo(m))
      ensures r.Err? ==> main == old(main) && bmm == old(bmm)
      ensures r.Err? ==> r.error == if m !in main.tree.parent then NoMainHeaderInfo else NoMainBlockInfo
      ensures r.Ok? ==> main == WithInfo(old(main), m, info) && MainExtends(old(main), main)
    {
      hide MainTables.Valid, SideTables.Valid, BmmExact, PrevMainKnown, MainExtends, WorkedOut;
      if m !in main.tree.parent {
        return Err(NoMainHeaderInfo);
      }
      var prev := main.tree.Parent(m);
      if prev != ZERO_HASH && prev !in main.infos {
        return Err(NoMainBlockInfo);
      }
      WithInfoValid(main, m, info);
      ghost var before := main;
      main := WithInfo(main, m, info);
      PrevMainStaysKnown(side, before, main);
      InfoKeepsWork(before, m, info, works);
      if info.bmmCommitment.None? || info.bmmCommitment.value !in side.tree.height {
        NothingToRecord(side, before, main, bmm, m);
        return Ok(());
      }
      var b := info.bmmCommitment.value;
      CanJudge(side, before, bmm, b);
      var verdict := JudgeCommitment(main, bmm, b, m);
      if main.tree.parent[m] == b.header.prevMainHash {
        JudgementIsTrue(side, before, main, bmm, b, m);
      }
      RecordVerdict(side, before, main, bmm, b, m, verdict);
      bmm := bmm[b := ResultsOf(bmm, b)[m := verdict]];
      r := Ok(());
    }

    /** Stores a sidechain header and judges it at all candidate mainchain blocks. */
    method PutHeader(header: Header) returns (r: Result<(), ArchiveError>)
      requires Valid()
      requires header.prevSideHash.Some? && header.prevSideHash.value in side.tree.height ==>
                 side.tree.height[header.prevSideHash.value] + 1 < U32_SIZE
      modifies this`side, this`bmm
      ensures Valid()
      ensures r.Ok? <==>
                && old(header.prevSideHash.Some? ==> header.prevSideHash.value in side.tree.height)
                && SuccessorsMissing(main, header).None?
      ensures r.Err? ==> side == old(side) && bmm == old(bmm)
      ensures r.Err? ==>
                r.error == old(if header.prevSideHash.Some? && header.prevSideHash.value !in side.tree.height
                               then InvalidPrevSideHash else SuccessorsMissing(main, header).value)
      ensures r.Ok? ==>
                && side.tree.height.Keys == old(side.tree.height.Keys) + {BlockHash(header)}
                && Extends(old(side.tree), side.tree)
      ensures old(BlockHash(header) in side.tree.height) ==> side == old(side)
    {
      hide SideTables.Valid, MainTables.Valid, PrevMainKnown, BmmExact, JudgedExactly, Consistent, Tree.Valid, Tree.Linked, WorkedOut;
      var prev := header.prevSideHash;
      if prev.Some? && prev.value !in side.tree.height {
        return Err(InvalidPrevSideHash);
      }
      var b := BlockHash(header);
      CanLinkSide(side, main, bmm, b);
      var tree := PutLink(side.tree, b, prev);
      WithSideHeaderValid(side, b, tree);
      var judged := JudgeSuccessors(main, bmm, b);
      if judged.Err? {
        return Err(judged.error);
      }
      ghost var before := side;
      side := WithSideHeader(side, b, tree);
      if b in before.tree.height {
        KnownHeaderStays(before, b);
      }
      RecordHeader(before, side, main, bmm, b, judged.value);
      NewPrevMainKnown(before, side, main, b);
      bmm := bmm[b := judged.value];
      r := Ok(());
    }
  }
}
