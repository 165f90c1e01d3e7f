/** A concrete forked mainchain on which reorganisations do not do what one might expect. */
module ExampleFork {
  import opened Types
  import opened Lineage
  import opened CommonAncestor
  import opened Bmm
  import opened PegBlock
  import opened State
  import opened Validation
  import opened BlockSpec
  import opened Chain
  import opened ForkChoice
  import opened Replay
  import opened Behind
  import opened Snapshots
  import opened PoolRun
  import opened Goal
  import opened ExampleRun
  import Archive

  const M0 := MainHash(1)
  const M1 := MainHash(2)
  const M2 := MainHash(3)
  const M3 := MainHash(4)
  const N2 := MainHash(5)
  const N3 := MainHash(6)

  /** An empty block at height `i`. */
  function MakeBlock(prev: Option<BlockHash>, main: MainHash, i: nat): BlockHash {
    BlockHash(Header(MerkleRoot([], []), prev, main, Forest({}, Batches(2 * i + 1))))
  }

  // a sidechain whose genesis block was built on the zero hash
  const B0 := MakeBlock(None, ZERO_HASH, 0)
  const B1 := MakeBlock(Some(B0), M0, 1)
  const B2 := MakeBlock(Some(B1), M1, 2)
  const B3 := MakeBlock(Some(B2), M2, 3)
  const C3 := MakeBlock(Some(B2), N2, 3)

  /**
   The mainchain forks above `M1`. `M3` commits to `B3` and `N3` to `C3`; the fork with `N2` has more work,
   and `N2` commits to `B2` as `M2` does.
   */
  const FORKED := MainTables(
    Tree(
      map[ZERO_HASH := 0, M0 := 1, M1 := 2, M2 := 3, M3 := 4, N2 := 3, N3 := 4],
      map[M0 := ZERO_HASH, M1 := M0, M2 := M1, M3 := M2, N2 := M1, N3 := N2],
      map[M0 := [], M1 := [ZERO_HASH], M2 := [M0], M3 := [M1, ZERO_HASH], N2 := [M0], N3 := [M1, ZERO_HASH]]),
    map[M0 := BlockInfo(Some(B0), []), M1 := BlockInfo(Some(B1), []), M2 := BlockInfo(Some(B2), []),
        M3 := BlockInfo(Some(B3), []), N2 := BlockInfo(Some(B2), []), N3 := BlockInfo(Some(C3), [])],
    map[ZERO_HASH := {M0}, M0 := {M1}, M1 := {M2, N2}, M2 := {M3}, M3 := {}, N2 := {N3}, N3 := {}],
    map[M0 := 1, M1 := 2, M2 := 3, M3 := 4, N2 := 9, N3 := 10])

  const SIDE := SideTables(
    Tree(
      map[B0 := 0, B1 := 1, B2 := 2, B3 := 3, C3 := 3], map[B1 := B0, B2 := B1, B3 := B2, C3 := B2],
      map[B0 := [], B1 := [], B2 := [B0], B3 := [B1], C3 := [B1]]),
    map[None := {B0}, Some(B0) := {B1}, Some(B1) := {B2}, Some(B2) := {B3, C3}, Some(B3) := {}, Some(C3) := {}])

  // ------------------------------------------------------------- the tables are valid

  lemma MainRoots(b: MainHash)
    requires b in FORKED.tree.height
    ensures FORKED.tree.height[b] > 0 <==> b in FORKED.tree.parent
    ensures FORKED.tree.height[b] == 0 <==> b == ZERO_HASH
  {
  }

  lemma MainParents(b: MainHash)
    requires b in FORKED.tree.parent
    ensures var (h, p) := (FORKED.tree.height, FORKED.tree.parent[b]); b in h && p in h && h[b] == h[p] + 1
  {
  }

  lemma MainIsLinked()
    ensures FORKED.tree.Linked() && SingleRoot(FORKED.tree, ZERO_HASH)
  {
    var t := FORKED.tree;
    forall b {:trigger t.height[b]} | b in t.height
      ensures t.height[b] > 0 <==> b in t.parent
      ensures t.height[b] == 0 <==> b == ZERO_HASH
    {
      MainRoots(b);
    }
    forall b {:trigger t.Parent(b)} | b in t.parent
      ensures b in t.height && t.Parent(b) in t.height && t.height[b] == t.height[t.Parent(b)] + 1
    {
      MainParents(b);
    }
  }

  lemma ForkedLinks()
    ensures var t := FORKED.tree;
            && {M0, M1, M2, M3, N2, N3} <= t.parent.Keys
            && t.parent[M0] == ZERO_HASH && t.parent[M1] == M0 && t.parent[M2] == M1 && t.parent[M3] == M2
            && t.parent[N2] == M1 && t.parent[N3] == N2
    ensures var t := FORKED.tree;
            && {M0, M1, M2, M3, N2, N3} <= t.height.Keys
            && t.height[M0] == 1 && t.height[M1] == 2 && t.height[M2] == 3 && t.height[M3] == 4
            && t.height[N2] == 3 && t.height[N3] == 4
  {
  }

  lemma MainAncestors()
    ensures FORKED.tree.Linked()
    ensures FORKED.tree.Ancestor(M1, 2) == ZERO_HASH && FORKED.tree.Ancestor(M3, 4) == ZERO_HASH
    ensures FORKED.tree.Ancestor(M2, 2) == M0 == FORKED.tree.Ancestor(N2, 2) && FORKED.tree.Ancestor(M3, 2) == M1
    ensures FORKED.tree.Ancestor(M2, 1) == M1 == FORKED.tree.Ancestor(N2, 1) && FORKED.tree.Ancestor(M3, 1) == M2
    ensures FORKED.tree.Ancestor(M1, 1) == M0 && FORKED.tree.Ancestor(N3, 1) == N2
    ensures FORKED.tree.Ancestor(N3, 2) == M1 && FORKED.tree.Ancestor(N3, 4) == ZERO_HASH
  {
    MainIsLinked();
    ForkedLinks();
    ClimbFrom(FORKED.tree, ZERO_HASH, M0, M1, M2, M3);
    ClimbFrom(FORKED.tree, ZERO_HASH, M0, M1, N2, N3);
  }

  /** Along a lineage of five blocks. */
  lemma ClimbFrom<H>(t: Tree<H>, r: H, a: H, b: H, c: H, d: H)
    requires t.Linked() && {a, b, c, d} <= t.parent.Keys && {a, b, c, d} <= t.height.Keys
    requires t.parent[a] == r && t.parent[b] == a && t.parent[c] == b && t.parent[d] == c
    requires t.height[a] == 1 && t.height[b] == 2 && t.height[c] == 3 && t.height[d] == 4
    ensures t.Ancestor(b, 1) == a && t.Ancestor(b, 2) == r
    ensures t.Ancestor(c, 1) == b && t.Ancestor(c, 2) == a
    ensures t.Ancestor(d, 1) == c && t.Ancestor(d, 2) == b && t.Ancestor(d, 4) == r
  {
    assert t.Ancestor(a, 1) == r;
    assert t.Ancestor(c, 3) == r;
  }

  lemma MainSkip(b: MainHash)
    requires b in FORKED.tree.skip
    ensures FORKED.tree.Linked() && b in FORKED.tree.height && FORKED.tree.SkipsExact(b)
  {
    hide Tree.Linked;
    MainIsLinked();
    MainAncestors();
    assert Log2(1) == 0 && Log2(2) == 1 && Log2(3) == 1 && Log2(4) == 2 && Pow2(1) == 2 && Pow2(2) == 4;
  }

  lemma MainTreeIsValid()
    ensures FORKED.tree.Valid()
  {
    hide Tree.Linked, Tree.SkipsExact;
    MainIsLinked();
    MainKeys();
    var t := FORKED.tree;
    forall b {:trigger t.SkipsExact(b)} | b in t.skip
      ensures t.SkipsExact(b)
    {
      MainSkip(b);
    }
  }

  lemma MainChildren(p: MainHash)
    requires p in FORKED.successors
    ensures FORKED.ListsChildren(p)
  {
  }

  lemma MainBlocks(m: MainHash)
    requires m in FORKED.tree.parent && m in FORKED.work && m in FORKED.infos
    ensures FORKED.WorkAdds(m) && FORKED.ParentHasInfo(m)
  {
  }

  lemma MainKeys()
    ensures FORKED.tree.parent.Keys == FORKED.tree.skip.Keys == FORKED.work.Keys == FORKED.infos.Keys == {M0, M1, M2, M3, N2, N3}
    ensures FORKED.successors.Keys == FORKED.tree.height.Keys == {ZERO_HASH, M0, M1, M2, M3, N2, N3}
  {
  }

  lemma MainIsValid()
    ensures FORKED.Valid()
  {
    MainIsLinked();
    MainTreeIsValid();
    MainKeys();
    hide Tree.Valid, Tree.Linked, MainTables.ListsChildren, MainTables.WorkAdds, MainTables.ParentHasInfo, SingleRoot;
    forall p {:trigger FORKED.ListsChildren(p)} | p in FORKED.successors
      ensures FORKED.ListsChildren(p)
    {
      MainChildren(p);
    }
    forall m {:trigger FORKED.WorkAdds(m)} {:trigger FORKED.ParentHasInfo(m)} | m in FORKED.tree.parent
      ensures FORKED.WorkAdds(m) && FORKED.ParentHasInfo(m)
    {
      MainBlocks(m);
    }
  }

  lemma BlocksDiffer()
    ensures B0 != B1 && B0 != B2 && B0 != B3 && B1 != B2 && B1 != B3 && B2 != B3
    ensures C3 != B0 && C3 != B1 && C3 != B2 && C3 != B3
  {
    var ids := [B0.header.prevMainHash.id, B1.header.prevMainHash.id, B2.header.prevMainHash.id, B3.header.prevMainHash.id,
                C3.header.prevMainHash.id];
    assert ids == [0, 1, 2, 3, 5];
  }

  lemma SideLink(b: BlockHash)
    requires b in SIDE.tree.height
    ensures SIDE.tree.height[b] > 0 <==> b in SIDE.tree.parent
    ensures b in SIDE.tree.parent ==>
              SIDE.tree.parent[b] in SIDE.tree.height && SIDE.tree.height[b] == SIDE.tree.height[SIDE.tree.parent[b]] + 1
  {
    BlocksDiffer();
  }

  lemma SideIsLinked()
    ensures SIDE.tree.Linked()
  {
    var t := SIDE.tree;
    assert t.parent.Keys <= t.height.Keys;
    forall b {:trigger t.height[b]} | b in t.height
      ensures t.height[b] > 0 <==> b in t.parent
    {
      SideLink(b);
    }
    forall b {:trigger t.Parent(b)} | b in t.parent
      ensures b in t.height && t.Parent(b) in t.height && t.height[b] == t.height[t.Parent(b)] + 1
    {
      SideLink(b);
    }
  }

  lemma SideAncestors()
    ensures SIDE.tree.Linked()
    ensures SIDE.tree.Ancestor(B2, 2) == B0 && SIDE.tree.Ancestor(B3, 2) == B1 && SIDE.tree.Ancestor(B3, 1) == B2
    ensures SIDE.tree.Ancestor(C3, 2) == B1 && SIDE.tree.Ancestor(C3, 1) == B2
  {
    hide Tree.Linked;
    SideIsLinked();
    BlocksDiffer();
    var t := SIDE.tree;
    assert t.Ancestor(B1, 1) == B0 && t.Ancestor(B2, 1) == B1 && t.Ancestor(B3, 1) == B2 && t.Ancestor(C3, 1) == B2;
  }

  lemma SideTreeIsValid()
    ensures SIDE.tree.Valid()
  {
    hide Tree.Linked;
    BlocksDiffer();
    SideAncestors();
    var t := SIDE.tree;
    assert Log2(0) == 0 && Log2(1) == 0 && Log2(2) == 1 && Log2(3) == 1 && Pow2(1) == 2;
    forall b {:trigger t.SkipsExact(b)} | b in t.skip
      ensures t.SkipsExact(b)
    {
    }
  }

  lemma SideChildren(p: Option<BlockHash>)
    requires p in SIDE.successors
    ensures SIDE.ListsChildren(p)
  {
    BlocksDiffer();
  }

  lemma SideIsValid()
    ensures SIDE.Valid()
  {
    hide Tree.Linked, Tree.Valid, SideTables.ListsChildren;
    BlocksDiffer();
    SideTreeIsValid();
    forall p {:trigger SIDE.ListsChildren(p)} | p in SIDE.successors
      ensures SIDE.ListsChildren(p)
    {
      SideChildren(p);
    }
  }

  lemma TablesAreValid()
    ensures ValidTables(SIDE, FORKED)
  {
    hide MainTables.Valid, SideTables.Valid;
    MainIsValid();
    SideIsValid();
    assert PrevMainKnown(SIDE, FORKED);
  }

  lemma MainLineages()
    ensures FORKED.tree.Linked() && FORKED.tree.IsAncestor(M0, M1) && FORKED.tree.IsAncestor(M2, M3)
    ensures FORKED.tree.IsAncestor(M1, M2) && FORKED.tree.IsAncestor(M1, N2)
    ensures FORKED.tree.IsAncestor(N2, N3)
  {
    MainAncestors();
  }

  lemma Commitments()
    ensures CommitsTo(FORKED, B0, M0) && CommitsTo(FORKED, B1, M1) && CommitsTo(FORKED, B2, M2)
    ensures CommitsTo(FORKED, B2, N2) && CommitsTo(FORKED, B3, M3) && CommitsTo(FORKED, C3, N3)
  {
  }

  lemma VerifiedOnTop(main: MainTables, b: BlockHash, m: MainHash, p: MainHash)
    requires main.tree.Linked() && CommitsTo(main, b, m)
    requires b.header.prevSideHash.Some? && IsVerified(main, b.header.prevSideHash.value, p)
    requires main.tree.IsAncestor(p, m)
    ensures IsVerified(main, b, m)
  {
    assert p in main.infos;
  }

  lemma GenesisVerified()
    ensures FORKED.tree.Linked() && IsVerified(FORKED, B0, M0)
  {
    MainIsLinked();
    Commitments();
  }

  lemma AllVerified()
    ensures FORKED.Valid() && IsVerified(FORKED, B2, M2) && IsVerified(FORKED, B2, N2) && BestVerified(FORKED, Tip(B3, M3))
    ensures IsVerified(FORKED, C3, N3)
  {
    hide MainTables.Valid, Tree.Linked, Tree.IsAncestor, IsVerified, CommitsTo;
    MainIsValid();
    MainLineages();
    Commitments();
    GenesisVerified();
    VerifiedOnTop(FORKED, B1, M1, M0);
    VerifiedOnTop(FORKED, B2, M2, M1);
    VerifiedOnTop(FORKED, B2, N2, M1);
    VerifiedOnTop(FORKED, B3, M3, M2);
    VerifiedOnTop(FORKED, C3, N3, N2);
    OnlyM3();
  }

  lemma OnlyM3()
    ensures FORKED.tree.Linked() && forall m | m in FORKED.infos && IsVerified(FORKED, B3, m) :: m == M3
  {
    MainIsLinked();
    forall m | m in FORKED.infos && IsVerified(FORKED, B3, m)
      ensures m == M3
    {
      OneCommitment(m);
    }
  }

  lemma OneCommitment(m: MainHash)
    requires m in FORKED.infos && FORKED.infos[m].bmmCommitment == Some(B3)
    ensures m == M3
  {
    BlocksDiffer();
  }

  // ------------------------------------------------- a verified ancestor with more work

  lemma B2IsBehind()
    ensures SIDE.Valid() && IsBehind(SIDE, B2, Some(B3)) && B2 != B3 && B2 in SIDE.tree.height && SIDE.tree.height[B2] == 2
    ensures M3 in FORKED.work && N2 in FORKED.work && FORKED.work[M3] < FORKED.work[N2]
  {
    hide SideTables.Valid, Tree.Linked;
    SideIsValid();
    BlocksDiffer();
    SideAncestors();
    WorksOfForks();
  }

  lemma WorksOfForks()
    ensures M3 in FORKED.work && N2 in FORKED.work && FORKED.work[M3] < FORKED.work[N2]
  {
  }

  /**
   A node on `B3` prefers `B2`, which lies behind it but was verified again on a fork with more work. The
   reorganisation that it then attempts is refused, whatever else the node holds.
   */
  lemma PreferredButBehind(bodies: map<BlockHash, Body>, foreign: Foreign, log: Log, pool: Pool)
    requires Sensible(SIDE, FORKED, bodies, log, Tip(B2, N2)) && TipOf(log) == Some(B3) && StateAfter(foreign, log).Ok?
    requires PoolDown(foreign, pool, log, |Kept(SIDE, FORKED, bodies, log, Tip(B2, N2))|).Ok?
    ensures BestVerified(FORKED, Tip(B3, M3))
    ensures Preferred(SIDE, FORKED, Some(Tip(B3, M3)), Tip(B2, N2))
    ensures Outcome(SIDE, FORKED, bodies, foreign, Some(Tip(B3, M3)), log, pool, Tip(B2, N2))
            == Err(ConnectFailed(StateRefused(BlockFailed(Rejected(PrevSideHash)))))
  {
    hide MainTables.Valid, SideTables.Valid, IsVerified, Sensible, Preferred, StateAfter, PoolDown, Kept, Outcome, IsBehind;
    AllVerified();
    B2IsBehind();
    NeverBackwards(SIDE, FORKED, bodies, foreign, Tip(B3, M3), log, pool, Tip(B2, N2));
  }

  // --------------------------------------------- a genesis block built on the zero hash

  lemma ShareOfGenesis()
    ensures FORKED.Valid() && Climbs(FORKED, Some(B2))
    ensures PopUntil(ToShare(FORKED, B2, None), ZERO_HASH).0 == [(M0, FORKED.infos[M0]), (M1, FORKED.infos[M1])]
  {
    hide MainTables.Valid, SideTables.Valid, IsVerified, Tree.IsAncestor;
    AllVerified();
    TablesAreValid();
    MainIsLinked();
    VerifiedClimbs(FORKED, B2, M2);
    B2Descends();
    PathClimbs(SIDE, FORKED, B2, B0);
    ZeroHashSweeps(FORKED, B2, B0);
    SliceOfTwo();
  }

  lemma B2Descends()
    ensures SIDE.Valid() && SIDE.tree.IsAncestor(B0, B2)
  {
    SideIsValid();
    SideAncestors();
  }

  /** When `B2` is applied from genesis, its genesis block is given the events of all mainchain blocks. */
  lemma FirstBlockGetsEverything(bodies: map<BlockHash, Body>)
    requires BodiesDown(bodies, Some(B2))
    ensures Sensible(SIDE, FORKED, bodies, [], Tip(B2, M2)) && Climbs(FORKED, Some(B2))
    ensures var target := Target(SIDE, FORKED, bodies, [], Tip(B2, M2));
            && target != [] && target[0].data == [(M0, FORKED.infos[M0]), (M1, FORKED.infos[M1])]
            && target != Canonical(FORKED, bodies, Some(B2))
  {
    hide MainTables.Valid, SideTables.Valid, IsVerified, Tree.IsAncestor, PopUntil, ToShare, Canonical, Stack;
    AllVerified();
    TablesAreValid();
    MainIsLinked();
    ShareOfGenesis();
    PlanIsCanonicalExactly(SIDE, FORKED, bodies, B2);
    FirstOfPlan(bodies, ToShare(FORKED, B2, None), B2);
    assert Path(Some(B2), None) == BlocksFor(B2, None);
    assert GenesisOf(B2) == B0;
  }

  lemma SliceOfTwo()
    ensures InfosDown(FORKED, M1) && Slice(FORKED, M1, 0, 2) == [(M0, FORKED.infos[M0]), (M1, FORKED.infos[M1])]
  {
    hide MainTables.Valid;
    MainIsValid();
    MainAncestors();
    assert Slice(FORKED, M1, 0, 0) == [];
    assert Slice(FORKED, M1, 0, 1) == [Entry(FORKED, M1, 1)];
  }

  // ------------------------------------------------------ the hypotheses can be met

  const BODIES := map[B0 := NO_BODY, B1 := NO_BODY, B2 := NO_BODY, B3 := NO_BODY, C3 := NO_BODY]

  function Silent(b: BlockHash): TipStep {
    TipStep(b.header, NO_BODY, [])
  }

  const ON_B3: Log := [Silent(B0), Silent(B1), Silent(B2), Silent(B3)]

  lemma LogIsQuiet()
    ensures Quiet(ON_B3) && Chained(ON_B3) && BodiesMatch(BODIES, ON_B3) && TipOf(ON_B3) == Some(B3)
  {
    BlocksDiffer();
    var one, two, three := [Silent(B0)], [Silent(B0), Silent(B1)], [Silent(B0), Silent(B1), Silent(B2)];
    assert ON_B3[..3] == three && three[..2] == two && two[..1] == one && one[..0] == [];
    assert Quiet(one) && Chained(one) && BodiesMatch(BODIES, one);
    assert Quiet(two) && Chained(two) && BodiesMatch(BODIES, two);
    assert Quiet(three) && Chained(three) && BodiesMatch(BODIES, three);
  }

  lemma B3IsKnown()
    ensures SIDE.Valid() && KnownVerified(SIDE, FORKED, B3) && !Rooted(B3) && B2 in SIDE.tree.height && C3 in SIDE.tree.height
    ensures Climbs(FORKED, Some(B3))
  {
    hide MainTables.Valid, SideTables.Valid, IsVerified, Tree.Linked;
    AllVerified();
    TablesAreValid();
    VerifiedClimbs(FORKED, B3, M3);
    assert !Rooted(B0) && !Rooted(B1) && !Rooted(B2);
  }

  /** There is a node on `B3` as `PreferredButBehind` assumes it. */
  lemma SomeNodeIsOnB3(foreign: Foreign)
    requires Lenient(foreign)
    ensures Sensible(SIDE, FORKED, BODIES, ON_B3, Tip(B2, N2)) && TipOf(ON_B3) == Some(B3)
    ensures Sensible(SIDE, FORKED, BODIES, ON_B3, Tip(C3, N3))
    ensures StateAfter(foreign, ON_B3).Ok? && GenuineLog(foreign, ON_B3) && Undone(foreign, BODIES, ON_B3, 0)
    ensures forall k :: 0 <= k <= 4 ==> PoolDown(foreign, map[], ON_B3, k) == Ok(map[])
  {
    hide MainTables.Valid, SideTables.Valid, IsVerified, BodiesMatch, Quiet, Chained, KnownVerified, Climbs, BodiesDown, Rooted;
    hide StateAfter, GenuineLog, Undone, PrevMainKnown, Tree.Linked, OwnShares, PoolDown;
    LogIsQuiet();
    AllVerified();
    TablesAreValid();
    QuietRun(foreign, ON_B3);
    B3IsKnown();
    BodiesAreStored();
    forall k | 0 <= k <= 4
      ensures PoolDown(foreign, map[], ON_B3, k) == Ok(map[])
    {
      QuietDown(foreign, ON_B3, k);
    }
  }

  /** An empty mempool stays empty on the way back along empty blocks. */
  lemma {:induction false} QuietDown(foreign: Foreign, log: Log, k: nat)
    requires Quiet(log) && StateAfter(foreign, log).Ok?
    ensures PoolDown(foreign, map[], log, k) == Ok(map[])
    decreases |log|
  {
    if |log| > k {
      LogPrefix(foreign, log, |log| - 1);
      NothingPutBack(foreign, StateAfter(foreign, log[..|log| - 1]).value);
      QuietDown(foreign, log[..|log| - 1], k);
    }
  }

  lemma NothingPutBack(foreign: Foreign, c: Contents)
    ensures PoolBack(foreign, map[], c, NO_BODY) == Ok(map[])
  {
  }

  lemma BodiesAreStored()
    ensures BodiesDown(BODIES, Some(B3)) && BodiesDown(BODIES, Some(B2)) && BodiesDown(BODIES, Some(C3))
  {
    assert BodiesDown(BODIES, Some(B0)) && BodiesDown(BODIES, Some(B1));
  }

  lemma InfosAreQuiet()
    ensures forall m | m in FORKED.infos :: FORKED.infos[m].events == []
  {
  }

  /** Where no block has events, no stack of blocks has any. */
  lemma {:induction false} StackIsQuiet(main: MainTables, m: MainHash, lo: nat, hi: nat)
    requires InfosDown(main, m) && hi <= main.tree.height[m]
    requires forall x | x in main.infos :: main.infos[x].events == []
    ensures NoEvents(Stack(main, m, lo, hi))
    decreases hi - lo
  {
    if lo < hi {
      StackIsQuiet(main, m, lo + 1, hi);
      EntryKnown(main, m, lo + 1);
    }
  }

  lemma {:induction false} PoppedIsQuiet(batch: PegData, target: MainHash)
    requires NoEvents(batch)
    ensures NoEvents(PopUntil(batch, target).0) && NoEvents(PopUntil(batch, target).1)
  {
    if batch != [] {
      PoppedIsQuiet(batch[..|batch| - 1], target);
    }
  }

  lemma DealtIsQuiet(log: Log, rest: PegData, b: BlockHash)
    requires Quiet(log) && Chained(log) && NoEvents(rest) && b in BODIES && BODIES[b] == NO_BODY
    requires b.header.prevSideHash == TipOf(log) && QuietStep(Silent(b), |log|)
    ensures var dealt := DealOne(BODIES, (log, rest), b);
            Quiet(dealt.0) && Chained(dealt.0) && NoEvents(dealt.1) && TipOf(dealt.0) == Some(b) && |dealt.0| == |log| + 1
  {
    PoppedIsQuiet(rest, b.header.prevMainHash);
    var dealt := DealOne(BODIES, (log, rest), b);
    assert dealt.0[..|log|] == log;
  }

  lemma BlocksAreQuiet()
    ensures QuietStep(Silent(B0), 0) && QuietStep(Silent(B1), 1) && QuietStep(Silent(B2), 2)
  {
  }

  lemma PathToB2()
    ensures BlocksFor(B2, None) == [B2, B1, B0]
  {
    assert Path(Some(B0), None) == [B0] && Path(Some(B1), None) == [B1, B0];
  }

  lemma DealThree(start: (Log, PegData))
    ensures Deal(BODIES, start, [B2, B1, B0]) ==
            DealOne(BODIES, DealOne(BODIES, DealOne(BODIES, start, B0), B1), B2)
  {
    hide DealOne;
    var one := DealOne(BODIES, start, B0);
    var two := DealOne(BODIES, one, B1);
    assert [B2, B1, B0][..2] == [B2, B1] && [B2, B1][..1] == [B2] && [B2][..0] == [];
    assert Deal(BODIES, two, [B2]) == DealOne(BODIES, two, B2);
    assert Deal(BODIES, one, [B2, B1]) == Deal(BODIES, two, [B2]);
  }

  lemma DealingIsQuiet(batch: PegData)
    requires NoEvents(batch)
    ensures var target := Deal(BODIES, ([], batch), BlocksFor(B2, None)).0; Quiet(target) && Chained(target)
  {
    hide DealOne, QuietStep, NoEvents, Deal, BlocksFor;
    PathToB2();
    BlocksAreQuiet();
    DealThree(([], batch));
    DealtIsQuiet([], batch, B0);
    var one := DealOne(BODIES, ([], batch), B0);
    DealtIsQuiet(one.0, one.1, B1);
    var two := DealOne(BODIES, one, B1);
    DealtIsQuiet(two.0, two.1, B2);
  }

  lemma FirstTargetIsQuiet()
    ensures Sensible(SIDE, FORKED, BODIES, [], Tip(B2, M2)) && FORKED.Valid() && Climbs(FORKED, Some(B2))
    ensures var target := Target(SIDE, FORKED, BODIES, [], Tip(B2, M2)); Quiet(target) && Chained(target)
    ensures Kept(SIDE, FORKED, BODIES, [], Tip(B2, M2)) == []
  {
    hide MainTables.Valid, SideTables.Valid, IsVerified, Quiet, Chained, Deal, BlocksFor, Sensible;
    AllVerified();
    MainIsLinked();
    BodiesAreStored();
    FirstBlockGetsEverything(BODIES);
    VerifiedClimbs(FORKED, B2, M2);
    InfosAreQuiet();
    StackIsQuiet(FORKED, M1, 0, 2);
    DealingIsQuiet(ToShare(FORKED, B2, None));
  }

  /** A new node meets the hypotheses of a reorganisation to `B2`, and it succeeds. */
  lemma NewNodeReachesB2(foreign: Foreign)
    requires Lenient(foreign)
    ensures Passable(SIDE, FORKED, BODIES, foreign, [], Tip(B2, M2))
    ensures Outcome(SIDE, FORKED, BODIES, foreign, None, [], map[], Tip(B2, M2)) == Ok(true)
  {
    hide MainTables.Valid, SideTables.Valid, IsVerified, Quiet, Chained, Sensible, Undone, PoolDown, Passable, Outcome, HeadersStorable;
    FirstTargetIsQuiet();
    BodiesAreStored();
    var target := Target(SIDE, FORKED, BODIES, [], Tip(B2, M2));
    TargetEnds(SIDE, FORKED, BODIES, [], Tip(B2, M2));
    HeadersAreStorable(target, 0);
    NothingBack(foreign);
    QuietReorg(SIDE, FORKED, BODIES, foreign, None, [], Tip(B2, M2));
  }

  /** With an empty mempool, a target of quiet blocks is reached. */
  lemma QuietReorg(
    side: SideTables, main: MainTables, bodies: map<BlockHash, Body>, foreign: Foreign, oldTip: Option<Tip>, log: Log, newTip: Tip)
    requires Lenient(foreign) && Sensible(side, main, bodies, log, newTip)
    requires Preferred(side, main, oldTip, newTip) && BodiesDown(bodies, Some(newTip.blockHash))
    requires var target, kept := Target(side, main, bodies, log, newTip), |Kept(side, main, bodies, log, newTip)|;
             && Quiet(target) && Chained(target) && HeadersStorable(main, target, kept)
             && Undone(foreign, bodies, log, kept) && FrontierFound(log, kept)
             && PoolDown(foreign, map[], log, kept) == Ok(map[])
    ensures Passable(side, main, bodies, foreign, log, newTip)
    ensures Outcome(side, main, bodies, foreign, oldTip, log, map[], newTip) == Ok(true)
  {
    hide Sensible, Preferred, BodiesDown, Quiet, Chained, Undone, FrontierFound, PoolDown, StateAfter, GenuineLog, Target, Kept;
    var target, kept := Target(side, main, bodies, log, newTip), |Kept(side, main, bodies, log, newTip)|;
    QuietRun(foreign, target);
    TargetEnds(side, main, bodies, log, newTip);
    LogPrefix(foreign, target, kept);
    EmptyAlong(foreign, main, target, kept);
  }

  lemma NothingBack(foreign: Foreign)
    ensures Undone(foreign, BODIES, [], 0) && PoolDown(foreign, map[], [], 0) == Ok(map[])
  {
  }

  lemma SuccessorsAreKnown(m: MainHash)
    requires m in FORKED.successors
    ensures FORKED.successors[m] <= FORKED.infos.Keys
  {
  }

  lemma {:induction false} ClimbingIsKnown(main: MainTables, log: Log)
    requires main.Valid() && Chained(log) && Climbs(main, TipOf(log))
    ensures forall i {:trigger log[i]} | 0 <= i < |log| :: log[i].header.prevMainHash in main.tree.height
  {
    if log != [] {
      ClimbingIsKnown(main, log[..|log| - 1]);
      assert log == log[..|log| - 1] + [log[|log| - 1]];
    }
  }

  /** All mainchain infos are stored, so every header can be. */
  lemma HeadersAreStorable(log: Log, kept: nat)
    requires Chained(log) && FORKED.Valid() && Climbs(FORKED, TipOf(log))
    ensures HeadersStorable(FORKED, log, kept)
  {
    ClimbingIsKnown(FORKED, log);
    MainKeys();
    forall i {:trigger log[i]} | kept <= i < |log|
      ensures Archive.SuccessorsMissing(FORKED, log[i].header).None?
    {
      SuccessorsAreKnown(log[i].header.prevMainHash);
    }
  }

  // ------------------------------------------------------------- to another fork

  lemma ForkedAtB2()
    ensures SIDE.Valid() && LastCommon(SIDE.tree, B3, C3) == Some(B2) && BlocksFor(C3, Some(B2)) == [C3]
  {
    hide SideTables.Valid;
    SideIsValid();
    BlocksDiffer();
    assert SIDE.tree.Linked() by {
      SideAncestors();
    }
    assert SIDE.tree.Parent(B3) == B2 == SIDE.tree.Parent(C3);
    assert LastCommon(SIDE.tree, B2, B2) == Some(B2);
  }

  lemma NotShared()
    ensures FORKED.Valid() && !Shared(FORKED, M3, N3)
  {
    hide MainTables.Valid;
    MainIsValid();
    MainIsLinked();
    var t := FORKED.tree;
    assert t.AncestorAt(M3, 4) == M3 && t.AncestorAt(N3, 4) == N3;
  }

  lemma PreferredToB3()
    ensures Preferred(SIDE, FORKED, Some(Tip(B3, M3)), Tip(C3, N3))
  {
    hide MainTables.Valid, SideTables.Valid, Shared, IsVerified;
    TablesAreValid();
    NotShared();
    BlocksDiffer();
    assert SIDE.tree.height[B3] == 3 == SIDE.tree.height[C3] && FORKED.work[M3] == 4 && FORKED.work[N3] == 10;
  }

  lemma KeptOnFork()
    requires Sensible(SIDE, FORKED, BODIES, ON_B3, Tip(C3, N3))
    ensures Kept(SIDE, FORKED, BODIES, ON_B3, Tip(C3, N3)) == ON_B3[..3] && FrontierFound(ON_B3, 3)
    ensures Common(SIDE, ON_B3, C3) == Some(B2)
  {
    hide Sensible, SideTables.Valid, FrontierFound, LogOk, Chained, LastCommon;
    ForkedAtB2();
    BlocksDiffer();
    FoundOnFork();
    assert HeightAbove(SIDE, Some(B2)) == 3;
  }

  lemma FoundOnFork()
    ensures FrontierFound(ON_B3, 3)
  {
    assert !Appends(NO_BODY);
  }

  lemma TargetOnFork()
    requires Sensible(SIDE, FORKED, BODIES, ON_B3, Tip(C3, N3))
    ensures var target := Target(SIDE, FORKED, BODIES, ON_B3, Tip(C3, N3));
            Quiet(target) && Chained(target) && |target| == 4 && TipOf(target) == Some(C3) && target[..3] == ON_B3[..3]
  {
    hide Sensible, MainTables.Valid, IsVerified, Quiet, Chained, DealOne;
    KeptOnFork();
    ForkedAtB2();
    LogIsQuiet();
    BlocksDiffer();
    AllVerified();
    InfosAreQuiet();
    VerifiedClimbs(FORKED, C3, N3);
    var kept := ON_B3[..3];
    assert TipOf(kept) == Some(B2);
    MainIsLinked();
    VerifiedClimbs(FORKED, B2, M2);
    var share := ToShare(FORKED, C3, Some(B2));
    StackIsQuiet(FORKED, N2, BuiltAt(FORKED, Some(B2)), FORKED.tree.height[N2]);
    QuietPrefix(ON_B3, 3);
    ChainedPrefixes(ON_B3, 3);
    QuietC3();
    DealtIsQuiet(kept, share, C3);
    DealSingle(kept, share);
    TargetKeeps(SIDE, FORKED, BODIES, ON_B3, Tip(C3, N3));
  }

  lemma QuietC3()
    ensures QuietStep(Silent(C3), 3)
  {
  }

  lemma DealSingle(kept: Log, share: PegData)
    ensures Deal(BODIES, (kept, share), [C3]) == DealOne(BODIES, (kept, share), C3)
  {
    assert [C3][..0] == [];
    assert Deal(BODIES, DealOne(BODIES, (kept, share), C3), []) == DealOne(BODIES, (kept, share), C3);
  }

  lemma {:induction false} QuietPrefix(log: Log, n: nat)
    requires Quiet(log) && n <= |log|
    ensures Quiet(log[..n])
    decreases |log|
  {
    if n == |log| {
      assert log[..n] == log;
    } else {
      assert log[..|log| - 1][..n] == log[..n];
      QuietPrefix(log[..|log| - 1], n);
    }
  }

  /** A node on `B3` meets the hypotheses of a reorganisation to `C3`: it gives up one tip for another, and succeeds. */
  lemma NodeSwitchesToC3(foreign: Foreign)
    requires Lenient(foreign)
    ensures Passable(SIDE, FORKED, BODIES, foreign, ON_B3, Tip(C3, N3))
    ensures |Kept(SIDE, FORKED, BODIES, ON_B3, Tip(C3, N3))| == |ON_B3| - 1
    ensures BestVerified(FORKED, Tip(B3, M3)) && TipOf(ON_B3) == Some(B3) && StateAfter(foreign, ON_B3).Ok?
    ensures Outcome(SIDE, FORKED, BODIES, foreign, Some(Tip(B3, M3)), ON_B3, map[], Tip(C3, N3)) == Ok(true)
  {
    hide MainTables.Valid, SideTables.Valid, IsVerified, Quiet, Chained, StateAfter, Sensible, Undone, PoolDown, Passable, Outcome, Preferred;
    SomeNodeIsOnB3(foreign);
    AllVerified();
    PreferredToB3();
    KeptOnFork();
    TargetOnFork();
    BodiesAreStored();
    UndoneFewer(foreign, ON_B3, 3);
    var target := Target(SIDE, FORKED, BODIES, ON_B3, Tip(C3, N3));
    VerifiedClimbs(FORKED, C3, N3);
    HeadersAreStorable(target, 3);
    QuietReorg(SIDE, FORKED, BODIES, foreign, Some(Tip(B3, M3)), ON_B3, Tip(C3, N3));
  }

  lemma {:induction false} UndoneFewer(foreign: Foreign, log: Log, k: nat)
    requires Undone(foreign, BODIES, log, 0)
    ensures Undone(foreign, BODIES, log, k)
    decreases |log|
  {
    if |log| > k {
      UndoneFewer(foreign, log[..|log| - 1], k);
    }
  }
}
