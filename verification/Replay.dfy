/**
 Which mainchain blocks' events every block of a chain brings in, when the chain is replayed from
 its genesis: the canonical log that a reorganisation must end with.
 */
module Replay {
  import opened Types
  import opened Lineage
  import opened CommonAncestor
  import opened Bmm
  import opened PegBlock
  import opened Chain

  // -------------------------------------------------------- slices of the mainchain

  /** Every block from `m` down to its genesis has stored info. */
  ghost predicate InfosDown(main: MainTables, m: MainHash) {
    && main.Valid() && m in main.tree.height
    && (m == ZERO_HASH || m in main.infos)
  }

  /** The ancestor of `m` at height `h`, with its info. */
  ghost function Entry(main: MainTables, m: MainHash, h: nat): (MainHash, BlockInfo)
    requires InfosDown(main, m) && 0 < h <= main.tree.height[m]
  {
    var a := main.tree.AncestorAt(m, h);
    EntryKnown(main, m, h);
    (a, main.infos[a])
  }

  lemma EntryKnown(main: MainTables, m: MainHash, h: nat)
    requires InfosDown(main, m) && 0 < h <= main.tree.height[m]
    ensures main.tree.AncestorAt(m, h) in main.infos && main.tree.AncestorAt(m, h) != ZERO_HASH
  {
    var a := main.tree.AncestorAt(m, h);
    assert main.tree.IsAncestor(a, m);
    assert main.tree.height[a] == h;
    InfosAncestorClosed(main, m, a);
  }

  /** The mainchain blocks at heights `lo + 1` to `hi` below or at `m`, in mainchain order. */
  ghost function Slice(main: MainTables, m: MainHash, lo: nat, hi: nat): PegData
    requires InfosDown(main, m) && hi <= main.tree.height[m]
    decreases hi
  {
    if hi <= lo then [] else Slice(main, m, lo, hi - 1) + [Entry(main, m, hi)]
  }

  /** A slice holds the ancestors at its heights, lowest first, each with its info. */
  lemma {:induction false} SliceAt(main: MainTables, m: MainHash, lo: nat, hi: nat, i: nat)
    requires InfosDown(main, m) && lo <= hi <= main.tree.height[m] && i < hi - lo
    ensures |Slice(main, m, lo, hi)| == hi - lo
    ensures var a := main.tree.AncestorAt(m, lo + 1 + i); a in main.infos && Slice(main, m, lo, hi)[i] == (a, main.infos[a])
    decreases hi
  {
    hide MainTables.Valid;
    SliceLength(main, m, lo, hi - 1);
    if i < hi - 1 - lo {
      SliceAt(main, m, lo, hi - 1, i);
    } else {
      EntryKnown(main, m, hi);
    }
  }

  /** A slice below an ancestor is a slice below the block itself. */
  lemma {:induction false} SliceThrough(main: MainTables, m: MainHash, a: MainHash, lo: nat, hi: nat)
    requires InfosDown(main, m) && InfosDown(main, a) && main.tree.IsAncestor(a, m) && hi <= main.tree.height[a]
    ensures Slice(main, a, lo, hi) == Slice(main, m, lo, hi)
    decreases hi
  {
    if hi > lo {
      SliceThrough(main, m, a, lo, hi - 1);
      AncestorAtThrough(main.tree, a, m, hi);
    }
  }

  lemma {:induction false} SlicesJoin(main: MainTables, m: MainHash, lo: nat, mid: nat, hi: nat)
    requires InfosDown(main, m) && lo <= mid <= hi <= main.tree.height[m]
    ensures Slice(main, m, lo, mid) + Slice(main, m, mid, hi) == Slice(main, m, lo, hi)
    decreases hi
  {
    if hi > mid {
      SlicesJoin(main, m, lo, mid, hi - 1);
    }
  }

  /** The same blocks newest first, so that the oldest is popped first. */
  ghost function Stack(main: MainTables, m: MainHash, lo: nat, hi: nat): PegData
    requires InfosDown(main, m) && hi <= main.tree.height[m]
    decreases hi - lo
  {
    if hi <= lo then [] else Stack(main, m, lo + 1, hi) + [Entry(main, m, lo + 1)]
  }

  lemma {:induction false} SliceLength(main: MainTables, m: MainHash, lo: nat, hi: nat)
    requires InfosDown(main, m) && lo <= hi <= main.tree.height[m]
    ensures |Slice(main, m, lo, hi)| == hi - lo
    decreases hi
  {
    if hi > lo {
      SliceLength(main, m, lo, hi - 1);
    }
  }

  /** Pops blocks off the end up to and including `target`, or all of them; what was popped, and what is left. */
  function PopUntil(batch: PegData, target: MainHash): (PegData, PegData) {
    if batch == [] then ([], [])
    else
      var init, last := batch[..|batch| - 1], batch[|batch| - 1];
      if last.0 == target then ([last], init)
      else
        var (data, rest) := PopUntil(init, target);
        ([last] + data, rest)
  }

  lemma PopNothing(target: MainHash)
    ensures PopUntil([], target) == ([], [])
  {
  }

  /** The oldest block is popped first, and the search ends there or goes on below it. */
  lemma PopOldest(main: MainTables, m: MainHash, lo: nat, hi: nat, target: MainHash)
    requires InfosDown(main, m) && lo < hi <= main.tree.height[m]
    ensures var first, rest := Entry(main, m, lo + 1), Stack(main, m, lo + 1, hi);
            PopUntil(Stack(main, m, lo, hi), target) ==
            if first.0 == target then ([first], rest)
            else ([first] + PopUntil(rest, target).0, PopUntil(rest, target).1)
  {
    var rest := Stack(main, m, lo + 1, hi);
    assert Stack(main, m, lo, hi)[..|rest|] == rest;
  }

  /** Popping a stack until the block at height `k`, or to its end, takes the slice up to there. */
  lemma {:induction false} PopStack(main: MainTables, m: MainHash, lo: nat, hi: nat, k: nat, target: MainHash)
    requires InfosDown(main, m) && lo <= k <= hi <= main.tree.height[m]
    requires forall h {:trigger main.tree.AncestorAt(m, h)} | lo < h < k :: main.tree.AncestorAt(m, h) != target
    requires k < hi ==> lo < k && main.tree.AncestorAt(m, k) == target
    ensures PopUntil(Stack(main, m, lo, hi), target) == (Slice(main, m, lo, k), Stack(main, m, k, hi))
    decreases hi - lo
  {
    hide PopUntil, Tree.AncestorAt, InfosDown;
    if lo == hi {
      PopNothing(target);
    } else {
      var first := Entry(main, m, lo + 1);
      PopOldest(main, m, lo, hi, target);
      assert Slice(main, m, lo, lo + 1) == [first];
      if first.0 != target {
        PopStack(main, m, lo + 1, hi, k, target);
        SlicesJoin(main, m, lo, lo + 1, k);
      }
    }
  }

  // ------------------------------------------------------------- the canonical log

  /** All bodies from `b` down to genesis are stored. */
  ghost predicate BodiesDown(bodies: map<BlockHash, Body>, b: Option<BlockHash>)
    decreases b
  {
    b.Some? ==> b.value in bodies && BodiesDown(bodies, b.value.header.prevSideHash)
  }

  /** Every block of the chain was built on a known mainchain block, strictly above its parent's. */
  ghost predicate Climbs(main: MainTables, b: Option<BlockHash>)
    requires main.tree.Linked()
    decreases b
  {
    b.Some? ==>
      && InfosDown(main, b.value.header.prevMainHash)
      && Climbs(main, b.value.header.prevSideHash)
      && (b.value.header.prevSideHash.Some? ==>
            var below := b.value.header.prevSideHash.value.header.prevMainHash;
            main.tree.IsAncestor(below, b.value.header.prevMainHash) && below != b.value.header.prevMainHash)
  }

  /** The height of the mainchain block that `b` was built on; 0 before genesis. */
  ghost function BuiltAt(main: MainTables, b: Option<BlockHash>): nat
    requires main.tree.Linked() && Climbs(main, b)
  {
    if b.None? then 0 else main.tree.height[b.value.header.prevMainHash]
  }

  /** The mainchain blocks after the one the parent was built on, up to the one `b` was built on. */
  ghost function BatchOf(main: MainTables, b: BlockHash): PegData
    requires main.tree.Linked() && Climbs(main, Some(b))
  {
    Slice(main, b.header.prevMainHash, BuiltAt(main, b.header.prevSideHash), BuiltAt(main, Some(b)))
  }

  ghost function Canonical(main: MainTables, bodies: map<BlockHash, Body>, b: Option<BlockHash>): Log
    requires main.tree.Linked() && Climbs(main, b) && BodiesDown(bodies, b)
    decreases b
  {
    if b.None? then []
    else Canonical(main, bodies, b.value.header.prevSideHash) + [TipStep(b.value.header, bodies[b.value], BatchOf(main, b.value))]
  }

  function AllData(log: Log): PegData {
    if log == [] then [] else AllData(log[..|log| - 1]) + log[|log| - 1].data
  }

  /**
   The share of a block holds exactly the mainchain blocks of the lineage that it was built on, down to but
   without the one that its parent was built on.
   */
  lemma ShareHolds(main: MainTables, b: BlockHash, x: MainHash)
    requires main.tree.Linked() && Climbs(main, Some(b))
    ensures (exists i :: 0 <= i < |BatchOf(main, b)| && BatchOf(main, b)[i].0 == x) <==>
              && main.tree.IsAncestor(x, b.header.prevMainHash) && main.tree.height[x] > 0
              && (b.header.prevSideHash.Some? ==>
                    main.tree.height[x] > main.tree.height[b.header.prevSideHash.value.header.prevMainHash])
  {
    hide MainTables.Valid, Slice;
    var m := b.header.prevMainHash;
    var lo, hi := BuiltAt(main, b.header.prevSideHash), BuiltAt(main, Some(b));
    SliceLength(main, m, lo, hi);
    forall i | 0 <= i < hi - lo
      ensures BatchOf(main, b)[i].0 == main.tree.AncestorAt(m, lo + 1 + i)
    {
      SliceAt(main, m, lo, hi, i);
    }
    if main.tree.IsAncestor(x, m) && main.tree.height[x] > lo {
      assert BatchOf(main, b)[main.tree.height[x] - lo - 1].0 == x;
    }
  }

  /** Each tip extends the one before it. */
  ghost predicate Chained(log: Log) {
    log != [] ==> log[|log| - 1].header.prevSideHash == TipOf(log[..|log| - 1]) && Chained(log[..|log| - 1])
  }

  /** Each tip was connected with its own share of the mainchain's blocks. */
  ghost predicate OwnShares(main: MainTables, log: Log)
    requires main.tree.Linked()
  {
    log != [] ==>
      var b := BlockHash(log[|log| - 1].header);
      Climbs(main, Some(b)) && log[|log| - 1].data == BatchOf(main, b) && OwnShares(main, log[..|log| - 1])
  }

  /**
   The shares of a chain partition the history of the mainchain: one after another they are all
   mainchain blocks up to the one the tip was built on, in order, each exactly once.
   */
  lemma {:induction false} SharesPartition(main: MainTables, log: Log)
    requires main.tree.Linked() && Chained(log) && OwnShares(main, log) && log != []
    ensures var m := log[|log| - 1].header.prevMainHash;
            InfosDown(main, m) && AllData(log) == Slice(main, m, 0, main.tree.height[m])
  {
    var init, b := log[..|log| - 1], BlockHash(log[|log| - 1].header);
    var m := b.header.prevMainHash;
    if init != [] {
      var below := init[|init| - 1].header.prevMainHash;
      SharesPartition(main, init);
      SliceThrough(main, m, below, 0, main.tree.height[below]);
      SlicesJoin(main, m, 0, main.tree.height[below], main.tree.height[m]);
    }
  }

  /** The connected bodies are the stored ones. */
  ghost predicate BodiesMatch(bodies: map<BlockHash, Body>, log: Log) {
    log != [] ==>
      && BlockHash(log[|log| - 1].header) in bodies && bodies[BlockHash(log[|log| - 1].header)] == log[|log| - 1].body
      && BodiesMatch(bodies, log[..|log| - 1])
  }

  lemma CanonicalLast(main: MainTables, bodies: map<BlockHash, Body>, b: BlockHash)
    requires main.tree.Linked() && Climbs(main, Some(b)) && BodiesDown(bodies, Some(b))
    ensures Climbs(main, b.header.prevSideHash) && BodiesDown(bodies, b.header.prevSideHash) && b in bodies
    ensures Canonical(main, bodies, Some(b)) ==
            Canonical(main, bodies, b.header.prevSideHash) + [TipStep(b.header, bodies[b], BatchOf(main, b))]
    ensures TipOf(Canonical(main, bodies, b.header.prevSideHash)) == b.header.prevSideHash
  {
    CanonicalTip(main, bodies, b.header.prevSideHash);
  }

  lemma SameLast(log: Log, before: Log, s: TipStep)
    requires log != []
    ensures log == before + [s] <==> log[..|log| - 1] == before && log[|log| - 1] == s
  {
    assert log == log[..|log| - 1] + [log[|log| - 1]];
  }

  /** The canonical log is the only chained one with stored bodies and own shares. */
  lemma {:induction false} CanonicalExactly(main: MainTables, bodies: map<BlockHash, Body>, log: Log)
    requires main.tree.Linked() && Climbs(main, TipOf(log)) && BodiesDown(bodies, TipOf(log))
    ensures log == Canonical(main, bodies, TipOf(log)) <==> Chained(log) && OwnShares(main, log) && BodiesMatch(bodies, log)
  {
    hide Tree.Linked, BatchOf, Climbs, BodiesDown, Canonical;
    if log == [] {
      CanonicalOfNone(main, bodies);
    } else {
      var init, last := log[..|log| - 1], log[|log| - 1];
      var b := BlockHash(last.header);
      CanonicalLast(main, bodies, b);
      SameLast(log, Canonical(main, bodies, last.header.prevSideHash), TipStep(b.header, bodies[b], BatchOf(main, b)));
      if last.header.prevSideHash == TipOf(init) {
        CanonicalExactly(main, bodies, init);
      }
    }
  }

  lemma CanonicalOfNone(main: MainTables, bodies: map<BlockHash, Body>)
    requires main.tree.Linked()
    ensures Climbs(main, None) && BodiesDown(bodies, None) && Canonical(main, bodies, None) == []
  {
  }

  lemma CanonicalTip(main: MainTables, bodies: map<BlockHash, Body>, b: Option<BlockHash>)
    requires main.tree.Linked() && Climbs(main, b) && BodiesDown(bodies, b)
    ensures TipOf(Canonical(main, bodies, b)) == b
  {
  }

  /** The batches of a canonical log partition the history of the mainchain. */
  lemma BatchesPartition(main: MainTables, bodies: map<BlockHash, Body>, b: BlockHash)
    requires main.tree.Linked() && Climbs(main, Some(b)) && BodiesDown(bodies, Some(b))
    ensures AllData(Canonical(main, bodies, Some(b))) ==
            Slice(main, b.header.prevMainHash, 0, main.tree.height[b.header.prevMainHash])
  {
    var log := Canonical(main, bodies, Some(b));
    CanonicalTip(main, bodies, Some(b));
    CanonicalExactly(main, bodies, log);
    SharesPartition(main, log);
  }

  /** The genesis block of the chain was built on a mainchain block, not on the zero hash. */
  predicate Rooted(b: BlockHash)
    decreases b
  {
    if b.header.prevSideHash.None? then b.header.prevMainHash != ZERO_HASH else Rooted(b.header.prevSideHash.value)
  }

  /** A chain that ends in a verified block climbs. */
  lemma {:induction false} VerifiedClimbs(main: MainTables, b: BlockHash, m: MainHash)
    requires main.Valid() && IsVerified(main, b, m)
    ensures Climbs(main, Some(b))
    decreases b
  {
    assert main.ParentHasInfo(m) && main.tree.Parent(m) == b.header.prevMainHash;
    assert main.tree.Parent(m) in main.tree.height;
    if b.header.prevSideHash.Some? {
      var p := VerifiedParentIsLower(main, b, m);
      VerifiedClimbs(main, b.header.prevSideHash.value, p);
    }
  }

  // --------------------------------------------------------- the log and the tree

  lemma {:induction false} CanonicalLength(side: SideTables, main: MainTables, bodies: map<BlockHash, Body>, b: BlockHash)
    requires side.Valid() && b in side.tree.height
    requires main.tree.Linked() && Climbs(main, Some(b)) && BodiesDown(bodies, Some(b))
    ensures |Canonical(main, bodies, Some(b))| == side.tree.height[b] + 1
    decreases b
  {
    assert side.ParentNamed(b);
    if b.header.prevSideHash.Some? {
      assert side.tree.Parent(b) in side.tree.height;
      CanonicalLength(side, main, bodies, b.header.prevSideHash.value);
    }
  }

  /** Dropping tips off a canonical log leaves the canonical log of an ancestor. */
  lemma {:induction false} CanonicalPrefix(
    side: SideTables, main: MainTables, bodies: map<BlockHash, Body>, b: BlockHash, a: BlockHash)
    requires side.Valid() && side.tree.IsAncestor(a, b)
    requires main.tree.Linked() && Climbs(main, Some(b)) && BodiesDown(bodies, Some(b))
    ensures Climbs(main, Some(a)) && BodiesDown(bodies, Some(a))
    ensures |Canonical(main, bodies, Some(b))| == side.tree.height[b] + 1
    ensures Canonical(main, bodies, Some(b))[..side.tree.height[a] + 1] == Canonical(main, bodies, Some(a))
    decreases b
  {
    CanonicalLength(side, main, bodies, b);
    if a == b {
      assert Canonical(main, bodies, Some(b))[..side.tree.height[a] + 1] == Canonical(main, bodies, Some(b));
    } else {
      assert side.ParentNamed(b);
      assert side.tree.height[a] < side.tree.height[b];
      var parent := side.tree.Parent(b);
      assert parent in side.tree.height;
      ParentAncestry(side.tree, a, b);
      CanonicalPrefix(side, main, bodies, parent, a);
      var log := Canonical(main, bodies, Some(parent));
      assert Canonical(main, bodies, Some(b))[..|log|] == log;
      assert log[..side.tree.height[a] + 1] == Canonical(main, bodies, Some(b))[..side.tree.height[a] + 1];
    }
  }

  // ------------------------------------------------------------------ dealing out

  /** The blocks from `b` down to, and without, `common`, newest first. */
  ghost function Path(b: Option<BlockHash>, common: Option<BlockHash>): seq<BlockHash>
    decreases b
  {
    if b.None? || b == common then [] else [b.value] + Path(b.value.header.prevSideHash, common)
  }

  /** The new tip, and its ancestors down to the common one: all of them when the new tip is itself common. */
  ghost function BlocksFor(newTip: BlockHash, common: Option<BlockHash>): seq<BlockHash> {
    [newTip] + Path(newTip.header.prevSideHash, common)
  }

  function BodyOf(bodies: map<BlockHash, Body>, b: BlockHash): Body {
    if b in bodies then bodies[b] else Body([], [], [])
  }

  /** One block is given the batch up to the mainchain block that it was built on. */
  function DealOne(bodies: map<BlockHash, Body>, dealt: (Log, PegData), b: BlockHash): (Log, PegData) {
    var (data, rest) := PopUntil(dealt.1, b.header.prevMainHash);
    (dealt.0 + [TipStep(b.header, BodyOf(bodies, b), data)], rest)
  }

  /** The log and the rest of the batch after all blocks, oldest and last one first, have been given their share. */
  function Deal(bodies: map<BlockHash, Body>, dealt: (Log, PegData), blocks: seq<BlockHash>): (Log, PegData)
    decreases |blocks|
  {
    if blocks == [] then dealt
    else Deal(bodies, DealOne(bodies, dealt, blocks[|blocks| - 1]), blocks[..|blocks| - 1])
  }

  lemma {:induction false} DealNewest(
    bodies: map<BlockHash, Body>, dealt: (Log, PegData), b: BlockHash, blocks: seq<BlockHash>)
    ensures Deal(bodies, dealt, [b] + blocks) == DealOne(bodies, Deal(bodies, dealt, blocks), b)
    decreases |blocks|
  {
    var all := [b] + blocks;
    if blocks == [] {
      assert all[..0] == [];
    } else {
      assert all[..|all| - 1] == [b] + blocks[..|blocks| - 1];
      DealNewest(bodies, DealOne(bodies, dealt, blocks[|blocks| - 1]), b, blocks[..|blocks| - 1]);
    }
  }

  lemma {:induction false} DealKeeps(bodies: map<BlockHash, Body>, dealt: (Log, PegData), blocks: seq<BlockHash>)
    ensures dealt.0 <= Deal(bodies, dealt, blocks).0 && |Deal(bodies, dealt, blocks).0| == |dealt.0| + |blocks|
    decreases |blocks|
  {
    if blocks != [] {
      DealKeeps(bodies, DealOne(bodies, dealt, blocks[|blocks| - 1]), blocks[..|blocks| - 1]);
    }
  }

  /** The mainchain blocks above the one that `done` was built on, up to the one the new tip was built on. */
  ghost function ToShare(main: MainTables, newTip: BlockHash, done: Option<BlockHash>): PegData
    requires main.tree.Linked() && Climbs(main, Some(newTip)) && Climbs(main, done)
  {
    var m := newTip.header.prevMainHash;
    Stack(main, m, BuiltAt(main, done), main.tree.height[m])
  }

  /** The log that the driver aims at: what it keeps, and then its blocks with the shares that it deals out. */
  ghost function Plan(main: MainTables, bodies: map<BlockHash, Body>, kept: Log, newTip: BlockHash): Log
    requires main.tree.Linked() && Climbs(main, Some(newTip)) && Climbs(main, TipOf(kept))
  {
    Deal(bodies, (kept, ToShare(main, newTip, TipOf(kept))), BlocksFor(newTip, TipOf(kept))).0
  }

  // -------------------------------------------------------- what is dealt is canonical

  ghost predicate BuiltBelowTip(main: MainTables, newTip: BlockHash, b: BlockHash) {
    && main.Valid() && Climbs(main, Some(newTip)) && Climbs(main, Some(b))
    && main.tree.IsAncestor(b.header.prevMainHash, newTip.header.prevMainHash)
  }

  /** A block that was not built on the zero hash is given exactly its own share. */
  lemma ShareIsCanonical(main: MainTables, newTip: BlockHash, b: BlockHash)
    requires BuiltBelowTip(main, newTip, b) && b.header.prevMainHash != ZERO_HASH
    ensures PopUntil(ToShare(main, newTip, b.header.prevSideHash), b.header.prevMainHash) ==
            (BatchOf(main, b), ToShare(main, newTip, Some(b)))
  {
    var m, target := newTip.header.prevMainHash, b.header.prevMainHash;
    var lo, k := BuiltAt(main, b.header.prevSideHash), BuiltAt(main, Some(b));
    assert lo < k;
    PopStack(main, m, lo, main.tree.height[m], k, target);
    SliceThrough(main, m, target, lo, k);
  }

  /** The search for the zero hash sweeps up every block that is left. */
  lemma ZeroHashSweeps(main: MainTables, newTip: BlockHash, b: BlockHash)
    requires BuiltBelowTip(main, newTip, b) && b.header.prevMainHash == ZERO_HASH
    ensures var m := newTip.header.prevMainHash;
            PopUntil(ToShare(main, newTip, None), ZERO_HASH) == (Slice(main, m, 0, main.tree.height[m]), [])
  {
    var m := newTip.header.prevMainHash;
    PopStack(main, m, 0, main.tree.height[m], main.tree.height[m], ZERO_HASH);
  }

  lemma {:induction false} PathClimbs(side: SideTables, main: MainTables, b: BlockHash, a: BlockHash)
    requires side.Valid() && main.Valid() && side.tree.IsAncestor(a, b) && Climbs(main, Some(b))
    ensures Climbs(main, Some(a)) && main.tree.IsAncestor(a.header.prevMainHash, b.header.prevMainHash)
    ensures Rooted(a) <==> Rooted(b)
    decreases b
  {
    if a != b {
      assert side.ParentNamed(b);
      assert side.tree.height[a] < side.tree.height[b];
      var parent := side.tree.Parent(b);
      ParentAncestry(side.tree, a, b);
      PathClimbs(side, main, parent, a);
      IsAncestorTransitive(main.tree, a.header.prevMainHash, parent.header.prevMainHash, b.header.prevMainHash);
    }
  }

  /** Only a genesis block can have been built on the zero hash. */
  lemma ChildIsNotOnZero(main: MainTables, b: BlockHash)
    requires main.Valid() && Climbs(main, Some(b)) && b.header.prevSideHash.Some?
    ensures b.header.prevMainHash != ZERO_HASH
  {
    assert main.tree.height[b.header.prevSideHash.value.header.prevMainHash] < main.tree.height[b.header.prevMainHash];
  }

  /** Dealing to a rooted chain from the log of one of its blocks gives the canonical log. */
  lemma {:induction false} DealIsCanonical(
    side: SideTables, main: MainTables, bodies: map<BlockHash, Body>, newTip: BlockHash, common: Option<BlockHash>, b: BlockHash)
    requires side.Valid() && main.Valid() && Climbs(main, Some(newTip)) && side.tree.IsAncestor(b, newTip)
    requires Rooted(newTip) && BodiesDown(bodies, Some(b)) && (common.Some? ==> side.tree.IsAncestor(common.value, b))
    ensures Climbs(main, Some(b)) && Climbs(main, common) && BodiesDown(bodies, common)
    ensures Deal(bodies, (Canonical(main, bodies, common), ToShare(main, newTip, common)), Path(Some(b), common)) ==
            (Canonical(main, bodies, Some(b)), ToShare(main, newTip, Some(b)))
    decreases b
  {
    PathClimbs(side, main, newTip, b);
    if common != Some(b) {
      var prev := b.header.prevSideHash;
      CommonIsBelow(side, b, common);
      if prev.Some? {
        ParentAncestry(side.tree, prev.value, b);
        assert side.ParentNamed(b);
        IsAncestorTransitive(side.tree, prev.value, b, newTip);
        DealIsCanonical(side, main, bodies, newTip, common, prev.value);
      } else {
        assert common.None?;
        assert Path(prev, common) == [];
      }
      if prev.Some? {
        ChildIsNotOnZero(main, b);
      }
      ShareIsCanonical(main, newTip, b);
      DealNewest(bodies, (Canonical(main, bodies, common), ToShare(main, newTip, common)), b, Path(prev, common));
    }
  }

  lemma CommonIsBelow(side: SideTables, b: BlockHash, common: Option<BlockHash>)
    requires side.Valid() && b in side.tree.height
    ensures b.header.prevSideHash.Some? ==>
              && b.header.prevSideHash.value in side.tree.height
              && side.tree.height[b.header.prevSideHash.value] + 1 == side.tree.height[b]
    ensures common.Some? && common.value != b && side.tree.IsAncestor(common.value, b) ==>
              b.header.prevSideHash.Some? && side.tree.IsAncestor(common.value, b.header.prevSideHash.value)
  {
    assert side.ParentNamed(b);
    if b in side.tree.parent {
      assert side.tree.Parent(b) in side.tree.height;
      if common.Some? {
        ParentAncestry(side.tree, common.value, b);
      }
    }
  }

  /** From a canonical log below the new tip, the plan for a rooted chain is its canonical log. */
  lemma PlanIsCanonical(
    side: SideTables, main: MainTables, bodies: map<BlockHash, Body>, kept: Log, newTip: BlockHash)
    requires side.Valid() && main.Valid() && newTip in side.tree.height && Climbs(main, Some(newTip)) && Rooted(newTip)
    requires BodiesDown(bodies, Some(newTip)) && TipOf(kept) != Some(newTip)
    requires TipOf(kept).Some? ==> side.tree.IsAncestor(TipOf(kept).value, newTip)
    requires Climbs(main, TipOf(kept)) && BodiesDown(bodies, TipOf(kept)) && kept == Canonical(main, bodies, TipOf(kept))
    ensures Plan(main, bodies, kept, newTip) == Canonical(main, bodies, Some(newTip))
  {
    DealIsCanonical(side, main, bodies, newTip, TipOf(kept), newTip);
    assert Path(Some(newTip), TipOf(kept)) == BlocksFor(newTip, TipOf(kept));
  }

  /** The first block of the plan for a chain that is applied from its genesis. */
  lemma {:induction false} FirstOfPlan(bodies: map<BlockHash, Body>, batch: PegData, newTip: BlockHash)
    ensures var log := Deal(bodies, ([], batch), Path(Some(newTip), None)).0;
            log != [] && log[0].data == PopUntil(batch, GenesisOf(newTip).header.prevMainHash).0
    decreases newTip
  {
    var prev := newTip.header.prevSideHash;
    DealNewest(bodies, ([], batch), newTip, Path(prev, None));
    if prev.Some? {
      FirstOfPlan(bodies, batch, prev.value);
    } else {
      assert Path(prev, None) == [];
    }
  }

  function GenesisOf(b: BlockHash): BlockHash
    decreases b
  {
    if b.header.prevSideHash.None? then b else GenesisOf(b.header.prevSideHash.value)
  }

  lemma {:induction false} FirstOfCanonical(side: SideTables, main: MainTables, bodies: map<BlockHash, Body>, b: BlockHash)
    requires side.Valid() && main.Valid() && b in side.tree.height && Climbs(main, Some(b)) && BodiesDown(bodies, Some(b))
    ensures var g := GenesisOf(b);
            && side.tree.IsAncestor(g, b) && g.header.prevSideHash == None && Climbs(main, Some(g))
            && Canonical(main, bodies, Some(b)) != [] && Canonical(main, bodies, Some(b))[0].data == BatchOf(main, g)
            && (Rooted(b) <==> g.header.prevMainHash != ZERO_HASH)
    decreases b
  {
    if b.header.prevSideHash.Some? {
      CommonIsBelow(side, b, None);
      assert side.ParentNamed(b);
      FirstOfCanonical(side, main, bodies, b.header.prevSideHash.value);
      ParentAncestry(side.tree, GenesisOf(b), b);
    }
  }

  /**
   What the driver deals out to a chain that it applies from genesis is canonical exactly when the
   chain's first block was not built on the zero hash, or there is nothing to share.
   */
  lemma PlanIsCanonicalExactly(side: SideTables, main: MainTables, bodies: map<BlockHash, Body>, newTip: BlockHash)
    requires side.Valid() && main.Valid() && newTip in side.tree.height && Climbs(main, Some(newTip))
    requires BodiesDown(bodies, Some(newTip))
    ensures Plan(main, bodies, [], newTip) == Canonical(main, bodies, Some(newTip)) <==>
            Rooted(newTip) || newTip.header.prevMainHash == ZERO_HASH
  {
    hide MainTables.WorkAdds, MainTables.ParentHasInfo, MainTables.ListsChildren, SideTables.ListsChildren, Tree.SkipsExact, PopUntil;
    var m := newTip.header.prevMainHash;
    if Rooted(newTip) {
      PlanIsCanonical(side, main, bodies, [], newTip);
    } else {
      var g, batch := GenesisOf(newTip), ToShare(main, newTip, None);
      FirstOfCanonical(side, main, bodies, newTip);
      PathClimbs(side, main, newTip, g);
      ZeroHashSweeps(main, newTip, g);
      FirstOfPlan(bodies, batch, newTip);
      SliceLength(main, m, 0, main.tree.height[m]);
      assert Path(Some(newTip), None) == BlocksFor(newTip, None);
      assert BatchOf(main, g) == [];
      if m == ZERO_HASH {
        if newTip.header.prevSideHash.Some? {
          ChildIsNotOnZero(main, newTip);
        }
        assert Path(newTip.header.prevSideHash, None) == [];
        assert BlocksFor(newTip, None) == [newTip];
        assert [newTip][..0] == [];
      }
    }
  }

  // ------------------------------------------------------------------ more arrivals

  /** The bodies of a chain are stored in both tables alike. */
  ghost predicate BodiesAgree(bodies: map<BlockHash, Body>, later: map<BlockHash, Body>, b: Option<BlockHash>)
    decreases b
  {
    b.Some? ==>
      && b.value in bodies && b.value in later && later[b.value] == bodies[b.value]
      && BodiesAgree(bodies, later, b.value.header.prevSideHash)
  }

  lemma {:induction false} ClimbsStable(main: MainTables, later: MainTables, b: Option<BlockHash>)
    requires main.Valid() && later.Valid() && MainExtends(main, later) && Climbs(main, b)
    ensures Climbs(later, b) && BuiltAt(later, b) == BuiltAt(main, b)
    decreases b
  {
    if b.Some? {
      ClimbsStable(main, later, b.value.header.prevSideHash);
      if b.value.header.prevSideHash.Some? {
        var below := b.value.header.prevSideHash.value.header.prevMainHash;
        IsAncestorStable(main.tree, later.tree, below, b.value.header.prevMainHash);
      }
    }
  }

  lemma EntryStable(main: MainTables, later: MainTables, m: MainHash, h: nat)
    requires main.Valid() && later.Valid() && MainExtends(main, later) && InfosDown(main, m) && 0 < h <= main.tree.height[m]
    ensures InfosDown(later, m) && later.tree.height[m] == main.tree.height[m] && Entry(later, m, h) == Entry(main, m, h)
  {
    hide MainTables.WorkAdds, MainTables.ParentHasInfo, MainTables.ListsChildren, SingleRoot, Tree.SkipsExact;
    EntryKnown(main, m, h);
    AncestorStable(main.tree, later.tree, m, main.tree.height[m] - h);
  }

  lemma InfosStay(main: MainTables, later: MainTables, m: MainHash)
    requires main.Valid() && later.Valid() && MainExtends(main, later) && InfosDown(main, m)
    ensures InfosDown(later, m) && later.tree.height[m] == main.tree.height[m]
  {
    hide MainTables.WorkAdds, MainTables.ParentHasInfo, MainTables.ListsChildren, SingleRoot, Tree.SkipsExact;
  }

  lemma {:induction false} SliceStable(main: MainTables, later: MainTables, m: MainHash, lo: nat, hi: nat)
    requires main.Valid() && later.Valid() && MainExtends(main, later) && InfosDown(main, m) && hi <= main.tree.height[m]
    ensures InfosDown(later, m) && Slice(later, m, lo, hi) == Slice(main, m, lo, hi)
    decreases hi
  {
    hide MainTables.Valid, MainExtends, InfosDown, Tree.Linked, Entry;
    InfosStay(main, later, m);
    if hi > lo {
      SliceStable(main, later, m, lo, hi - 1);
      EntryStable(main, later, m, hi);
    }
  }

  lemma ShareStable(main: MainTables, later: MainTables, b: BlockHash)
    requires main.Valid() && later.Valid() && MainExtends(main, later) && Climbs(main, Some(b))
    ensures Climbs(later, Some(b)) && BatchOf(later, b) == BatchOf(main, b)
  {
    ClimbsStable(main, later, Some(b));
    ClimbsStable(main, later, b.header.prevSideHash);
    SliceStable(main, later, b.header.prevMainHash, BuiltAt(main, b.header.prevSideHash), BuiltAt(main, Some(b)));
  }

  /** The share of every connected tip stays its own as headers and mainchain blocks arrive. */
  lemma {:induction false} SharesStable(main: MainTables, later: MainTables, log: Log)
    requires main.Valid() && later.Valid() && MainExtends(main, later) && OwnShares(main, log)
    ensures OwnShares(later, log)
  {
    if log != [] {
      SharesStable(main, later, log[..|log| - 1]);
      ShareStable(main, later, BlockHash(log[|log| - 1].header));
    }
  }

  lemma {:induction false} SharesPrefix(main: MainTables, log: Log, n: nat)
    requires main.tree.Linked() && OwnShares(main, log) && n <= |log|
    ensures OwnShares(main, log[..n])
    decreases |log|
  {
    if n == |log| {
      assert log[..n] == log;
    } else {
      assert log[..|log| - 1][..n] == log[..n];
      SharesPrefix(main, log[..|log| - 1], n);
    }
  }

  /** The canonical log of a chain does not change as headers, mainchain blocks and bodies arrive. */
  lemma {:induction false} CanonicalStable(
    main: MainTables, later: MainTables, bodies: map<BlockHash, Body>, more: map<BlockHash, Body>, b: Option<BlockHash>)
    requires main.Valid() && later.Valid() && MainExtends(main, later) && BodiesAgree(bodies, more, b)
    requires Climbs(main, b) && BodiesDown(bodies, b)
    ensures Climbs(later, b) && BodiesDown(more, b)
    ensures Canonical(later, more, b) == Canonical(main, bodies, b)
    decreases b
  {
    ClimbsStable(main, later, b);
    if b.Some? {
      var prev := b.value.header.prevSideHash;
      CanonicalStable(main, later, bodies, more, prev);
      ShareStable(main, later, b.value);
    }
  }
}
