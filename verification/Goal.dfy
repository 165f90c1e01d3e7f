/** What a reorganisation aims at, and how it must end. */
module Goal {
  import opened Types
  import opened Lineage
  import opened CommonAncestor
  import opened Bmm
  import opened PegBlock
  import opened State
  import opened Shielded
  import opened Validation
  import opened BlockSpec
  import opened Chain
  import opened ForkChoice
  import opened Replay
  import opened Behind
  import opened Snapshots
  import opened PoolRun

  datatype ReorgError =
    | NoBmmResult | NoBody | NoMainInfo | ConnectFailed(reason: StepError) | DisconnectFailed(cause: StepError)

  // -------------------------------------------------------------------- the target

  /** The block that the connected chain shares with the chain of the new tip. */
  ghost function Common(side: SideTables, log: Log, newTip: BlockHash): Option<BlockHash>
    requires side.Valid() && newTip in side.tree.height && (TipOf(log).Some? ==> TipOf(log).value in side.tree.height)
  {
    if TipOf(log).None? then None else LastCommon(side.tree, TipOf(log).value, newTip)
  }

  /** A known and verified new tip over a well-formed log. */
  ghost predicate Sensible(side: SideTables, main: MainTables, bodies: map<BlockHash, Body>, log: Log, newTip: Tip) {
    && LogOk(side, main, bodies, log) && Chained(log) && PrevMainKnown(side, main)
    && newTip.blockHash in side.tree.height && IsVerified(main, newTip.blockHash, newTip.mainBlockHash)
  }

  /** The tips that stay connected. */
  ghost function Kept(side: SideTables, main: MainTables, bodies: map<BlockHash, Body>, log: Log, newTip: Tip): (kept: Log)
    requires Sensible(side, main, bodies, log, newTip)
    ensures |kept| <= |log| && kept == log[..|kept|]
    ensures LogOk(side, main, bodies, kept) && Chained(kept) && TipOf(kept) == Common(side, log, newTip.blockHash)
  {
    var common := Common(side, log, newTip.blockHash);
    CommonIsShared(side, log, newTip.blockHash);
    PrefixKeepsLog(side, main, bodies, log, common);
    ChainedPrefixes(log, HeightAbove(side, common));
    log[..HeightAbove(side, common)]
  }

  lemma CommonIsShared(side: SideTables, log: Log, newTip: BlockHash)
    requires side.Valid() && newTip in side.tree.height && (TipOf(log).Some? ==> TipOf(log).value in side.tree.height)
    ensures var common := Common(side, log, newTip);
            && (common.Some? ==>
                  && TipOf(log).Some? && side.tree.IsAncestor(common.value, TipOf(log).value)
                  && side.tree.IsAncestor(common.value, newTip))
            && (common == Some(newTip) <==> IsBehind(side, newTip, TipOf(log)))
  {
    if TipOf(log).Some? {
      var oldTip := TipOf(log).value;
      LastCommonIsHighest(side.tree, oldTip, newTip);
      if IsBehind(side, newTip, TipOf(log)) {
        assert side.tree.IsAncestor(newTip, LastCommon(side.tree, oldTip, newTip).value);
      }
    }
  }

  lemma {:induction false} ChainedPrefixes(log: Log, n: nat)
    requires Chained(log) && n <= |log|
    ensures Chained(log[..n])
    decreases |log|
  {
    if n == |log| {
      assert log[..n] == log;
    } else {
      assert log[..|log| - 1][..n] == log[..n];
      ChainedPrefixes(log[..|log| - 1], n);
    }
  }

  /** The log that the reorganisation aims at. */
  ghost function Target(side: SideTables, main: MainTables, bodies: map<BlockHash, Body>, log: Log, newTip: Tip): Log
    requires Sensible(side, main, bodies, log, newTip)
  {
    VerifiedClimbs(main, newTip.blockHash, newTip.mainBlockHash);
    Plan(main, bodies, Kept(side, main, bodies, log, newTip), newTip.blockHash)
  }

  /** What is taken for granted: connected blocks are new, and the tips to disconnect can be undone. */
  ghost predicate Passable(
    side: SideTables, main: MainTables, bodies: map<BlockHash, Body>, foreign: Foreign, log: Log, newTip: Tip)
  {
    && Sensible(side, main, bodies, log, newTip)
    && GenuineLog(foreign, Target(side, main, bodies, log, newTip))
    && Undone(foreign, bodies, log, |Kept(side, main, bodies, log, newTip)|)
    && FrontierFound(log, |Kept(side, main, bodies, log, newTip)|)
  }

  // ------------------------------------------------------------------- the outcome

  /** The original tip, if there is one, loses against `c`. */
  ghost predicate Preferred(side: SideTables, main: MainTables, oldTip: Option<Tip>, c: Tip) {
    oldTip.Some? ==>
      && ValidTables(side, main) && KnownTip(side, main, oldTip.value) && KnownTip(side, main, c)
      && BetterTip(side, main, oldTip.value, c) == Some(c)
  }

  /**
   Whether a reorganisation is attempted, what is missing, and which tip is refused on the way back or
   forward, by what, and why.
   */
  ghost function Outcome(
    side: SideTables, main: MainTables, bodies: map<BlockHash, Body>, foreign: Foreign, oldTip: Option<Tip>, log: Log,
    pool: Pool, newTip: Tip)
    : Result<bool, ReorgError>
    requires Sensible(side, main, bodies, log, newTip)
  {
    var kept := |Kept(side, main, bodies, log, newTip)|;
    if !Preferred(side, main, oldTip, newTip) then Ok(false)
    else if !BodiesDown(bodies, Some(newTip.blockHash)) then Err(NoBody)
    else
      match PoolDown(foreign, pool, log, kept)
      case Err(e) => Err(DisconnectFailed(e))
      case Ok(p) =>
        match PoolAlong(foreign, main, p, Target(side, main, bodies, log, newTip), kept)
        case Err(e) => Err(ConnectFailed(e))
        case Ok(_) => Ok(true)
  }

  /** For each block connected on the way, the tip with the best mainchain block that verifies it. */
  ghost predicate TriedOk(main: MainTables, target: Log, kept: nat, tried: seq<Tip>) {
    && kept + |tried| <= |target|
    && forall j {:trigger tried[j]} | 0 <= j < |tried| ::
         BestVerified(main, tried[j]) && TipOf(target[..kept + j + 1]) == Some(tried[j].blockHash)
  }

  /** How many tips of the target were last committed: up to the last tried one that is preferred, if there is one. */
  ghost function LastCommit(
    side: SideTables, main: MainTables, oldTip: Option<Tip>, kept: nat, tried: seq<Tip>): (n: Option<nat>)
    ensures n.Some? ==> n.value <= kept + |tried|
  {
    if tried == [] then None
    else if Preferred(side, main, oldTip, tried[|tried| - 1]) then Some(kept + |tried|)
    else LastCommit(side, main, oldTip, kept, tried[..|tried| - 1])
  }

  /** The log committed in the end. */
  ghost function CommittedLog(before: Log, target: Log, n: Option<nat>): Log {
    if n.None? || n.value > |target| then before else target[..n.value]
  }

  /** The mempool along the target, or the one before when nothing was committed. */
  ghost function CommittedPool(
    foreign: Foreign, main: MainTables, before: Pool, down: Pool, target: Log, kept: nat, n: Option<nat>): Pool
  {
    if n.None? || n.value > |target| then before
    else
      match PoolAlong(foreign, main, down, target[..n.value], kept)
      case Err(_) => before
      case Ok(p) => p
  }

  /** The mempool at the common ancestor. */
  ghost function DownPool(foreign: Foreign, pool: Pool, log: Log, kept: nat): Pool {
    match PoolDown(foreign, pool, log, kept)
    case Err(_) => pool
    case Ok(p) => p
  }

  /** How many tips of the target were connected in the end. */
  ghost predicate StoppedAt(
    foreign: Foreign, main: MainTables, down: Pool, target: Log, kept: nat, n: nat, r: Result<bool, ReorgError>)
  {
    match r
    case Ok(true) => n == |target|
    case Err(ConnectFailed(e)) =>
      && n < |target| && PoolAlong(foreign, main, down, target[..n], kept).Ok?
      && PoolAlong(foreign, main, down, target[..n + 1], kept) == Err(e)
    case _ => n == kept
  }

  /**
   A reorganisation ended as it must: with the right outcome, after connecting the blocks of the
   target one by one up to the first refused one, and with the right log and mempool committed.
   */
  ghost predicate Ended(
    side: SideTables, main: MainTables, bodies: map<BlockHash, Body>, foreign: Foreign, oldTip: Option<Tip>, before: Log,
    pool: Pool, newTip: Tip, r: Result<bool, ReorgError>, tried: seq<Tip>, after: Log, poolAfter: Pool)
  {
    && Sensible(side, main, bodies, before, newTip)
    && var target, kept := Target(side, main, bodies, before, newTip), |Kept(side, main, bodies, before, newTip)|;
       var down := DownPool(foreign, pool, before, kept);
       var n := if r == Ok(true) then Some(|target|) else LastCommit(side, main, oldTip, kept, tried);
       r == Outcome(side, main, bodies, foreign, oldTip, before, pool, newTip)
       && TriedOk(main, target, kept, tried) && StoppedAt(foreign, main, down, target, kept, kept + |tried|, r)
       && after == CommittedLog(before, target, n)
       && poolAfter == CommittedPool(foreign, main, pool, down, target, kept, n)
  }

  // ------------------------------------------------------- what the outcome amounts to

  lemma TargetEnds(side: SideTables, main: MainTables, bodies: map<BlockHash, Body>, log: Log, newTip: Tip)
    requires Sensible(side, main, bodies, log, newTip)
    ensures TipOf(Target(side, main, bodies, log, newTip)) == Some(newTip.blockHash)
    ensures |Target(side, main, bodies, log, newTip)| > |Kept(side, main, bodies, log, newTip)|
  {
    VerifiedClimbs(main, newTip.blockHash, newTip.mainBlockHash);
    var kept, b := Kept(side, main, bodies, log, newTip), newTip.blockHash;
    var start := (kept, ToShare(main, b, TipOf(kept)));
    DealNewest(bodies, start, b, Path(b.header.prevSideHash, TipOf(kept)));
    DealKeeps(bodies, start, BlocksFor(b, TipOf(kept)));
  }

  /** Unless the new tip is behind the current one, each block of the target extends the one before it. */
  lemma {:induction false} DealIsChained(
    side: SideTables, bodies: map<BlockHash, Body>, dealt: (Log, PegData), b: BlockHash, common: Option<BlockHash>)
    requires side.Valid() && b in side.tree.height && Chained(dealt.0) && TipOf(dealt.0) == common
    requires common.Some? ==> side.tree.IsAncestor(common.value, b)
    ensures var log := Deal(bodies, dealt, Path(Some(b), common)).0; Chained(log) && TipOf(log) == Some(b)
    decreases b
  {
    if common != Some(b) {
      var prev := b.header.prevSideHash;
      CommonIsBelow(side, b, common);
      DealNewest(bodies, dealt, b, Path(prev, common));
      var log := Deal(bodies, dealt, Path(prev, common)).0;
      if prev.Some? {
        DealIsChained(side, bodies, dealt, prev.value, common);
      }
      var longer := Deal(bodies, dealt, Path(Some(b), common)).0;
      assert longer[..|log|] == log;
    }
  }

  lemma {:induction false} LowerPath(b: Option<BlockHash>, c: BlockHash)
    requires Depth(b) < Depth(Some(c))
    ensures Path(b, Some(c)) == Path(b, None)
    decreases b
  {
    if b.Some? {
      LowerPath(b.value.header.prevSideHash, c);
    }
  }

  lemma {:induction false} PathEndsAtGenesis(b: BlockHash)
    ensures var path := Path(Some(b), None); path != [] && path[|path| - 1].header.prevSideHash == None
    decreases b
  {
    var prev := b.header.prevSideHash;
    if prev.Some? {
      PathEndsAtGenesis(prev.value);
      assert Path(Some(b), None) == [b] + Path(prev, None);
    }
  }

  /** A new tip behind the current one is dealt out from genesis, and the first block does not fit. */
  lemma BehindIsRefused(foreign: Foreign, bodies: map<BlockHash, Body>, kept: Log, batch: PegData, newTip: BlockHash)
    requires TipOf(kept) == Some(newTip) && StateAfter(foreign, kept).Ok?
    ensures StateAfter(foreign, Deal(bodies, (kept, batch), BlocksFor(newTip, Some(newTip))).0)
            == Err(BlockFailed(Rejected(PrevSideHash)))
    ensures forall main: MainTables, pool: Pool :: PoolAlong(foreign, main, pool, Deal(bodies, (kept, batch), BlocksFor(newTip, Some(newTip))).0, |kept|)
                              == Err(StateRefused(BlockFailed(Rejected(PrevSideHash))))
  {
    hide TipAfter, GenuineLog, PopUntil, StateAfter;
    var blocks := BlocksFor(newTip, Some(newTip));
    LowerPath(newTip.header.prevSideHash, newTip);
    PathEndsAtGenesis(newTip);
    assert blocks == Path(Some(newTip), None);
    var first, rest := blocks[|blocks| - 1], blocks[..|blocks| - 1];
    var dealt := DealOne(bodies, (kept, batch), first);
    var target := Deal(bodies, (kept, batch), blocks).0;
    DealKeeps(bodies, dealt, rest);
    RunIsChained(foreign, kept);
    OneMoreTip(foreign, kept, dealt.0[|kept|]);
    MisalignedExactly(StateAfter(foreign, kept).value, foreign, dealt.0[|kept|]);
    assert target[..|kept| + 1] == dealt.0 == kept + [dealt.0[|kept|]];
    LogPrefix(foreign, target, |kept| + 1);
    forall main: MainTables, pool: Pool
      ensures PoolAlong(foreign, main, pool, target, |kept|) == Err(StateRefused(BlockFailed(Rejected(PrevSideHash))))
    {
      OneMoreAlong(foreign, main, pool, kept, |kept|, dealt.0[|kept|]);
      AlongPrefix(foreign, main, pool, target, |kept|, |kept| + 1);
    }
  }

  /**
   The state refuses a block of the target for not extending its tip exactly when the new tip is the
   current tip or one of its ancestors.
   */
  lemma RefusedExactlyBehind(
    side: SideTables, main: MainTables, bodies: map<BlockHash, Body>, foreign: Foreign, log: Log, newTip: Tip)
    requires Sensible(side, main, bodies, log, newTip) && StateAfter(foreign, log).Ok?
    ensures StateAfter(foreign, Target(side, main, bodies, log, newTip)) == Err(BlockFailed(Rejected(PrevSideHash)))
            <==> IsBehind(side, newTip.blockHash, TipOf(log))
    ensures forall pool: Pool ::
              PoolAlong(foreign, main, pool, Target(side, main, bodies, log, newTip), |Kept(side, main, bodies, log, newTip)|)
              == Err(StateRefused(BlockFailed(Rejected(PrevSideHash))))
              <==> IsBehind(side, newTip.blockHash, TipOf(log))
  {
    hide TipAfter, GenuineLog, PopUntil, StateAfter, PoolAlong, Deal;
    VerifiedClimbs(main, newTip.blockHash, newTip.mainBlockHash);
    var kept, b := Kept(side, main, bodies, log, newTip), newTip.blockHash;
    var target := Target(side, main, bodies, log, newTip);
    var batch := ToShare(main, b, TipOf(kept));
    CommonIsShared(side, log, b);
    LogPrefix(foreign, log, |kept|);
    if IsBehind(side, b, TipOf(log)) {
      BehindIsRefused(foreign, bodies, kept, batch, b);
    } else {
      DealIsChained(side, bodies, (kept, batch), b, TipOf(kept));
      assert Path(Some(b), TipOf(kept)) == BlocksFor(b, TipOf(kept));
      ChainedIsAligned(foreign, target);
      TargetKeeps(side, main, bodies, log, newTip);
      forall pool: Pool
        ensures PoolAlong(foreign, main, pool, target, |kept|) != Err(StateRefused(BlockFailed(Rejected(PrevSideHash))))
      {
        AlongConnects(foreign, main, pool, target, |kept|);
      }
    }
  }

  lemma TargetKeeps(side: SideTables, main: MainTables, bodies: map<BlockHash, Body>, log: Log, newTip: Tip)
    requires Sensible(side, main, bodies, log, newTip)
    ensures var kept, target := Kept(side, main, bodies, log, newTip), Target(side, main, bodies, log, newTip);
            |kept| <= |target| && target[..|kept|] == kept
  {
    VerifiedClimbs(main, newTip.blockHash, newTip.mainBlockHash);
    var kept, b := Kept(side, main, bodies, log, newTip), newTip.blockHash;
    DealKeeps(bodies, (kept, ToShare(main, b, TipOf(kept))), BlocksFor(b, TipOf(kept)));
  }

  /** Ahead of a rooted chain, the target is the canonical log of the new tip. */
  lemma TargetIsCanonical(
    side: SideTables, main: MainTables, bodies: map<BlockHash, Body>, log: Log, newTip: Tip)
    requires Sensible(side, main, bodies, log, newTip) && Rooted(newTip.blockHash)
    requires BodiesMatch(bodies, Kept(side, main, bodies, log, newTip))
    requires BodiesDown(bodies, Some(newTip.blockHash)) && !IsBehind(side, newTip.blockHash, TipOf(log))
    ensures Climbs(main, Some(newTip.blockHash))
    ensures Target(side, main, bodies, log, newTip) == Canonical(main, bodies, Some(newTip.blockHash))
  {
    VerifiedClimbs(main, newTip.blockHash, newTip.mainBlockHash);
    CommonIsShared(side, log, newTip.blockHash);
    var kept := Kept(side, main, bodies, log, newTip);
    if TipOf(kept).Some? {
      PathClimbs(side, main, newTip.blockHash, TipOf(kept).value);
    }
    CanonicalExactly(main, bodies, kept);
    PlanIsCanonical(side, main, bodies, kept, newTip.blockHash);
  }

  /**
   On a rooted chain a reorganisation succeeds exactly when the new tip is preferred and ahead, its bodies
   are stored, the mempool takes back what is disconnected, and the new blocks, each with its own share of
   events, are all accepted by the state, the archive and the mempool.
   */
  lemma SucceedsExactly(
    side: SideTables, main: MainTables, bodies: map<BlockHash, Body>, foreign: Foreign, oldTip: Option<Tip>, log: Log,
    pool: Pool, newTip: Tip)
    requires Sensible(side, main, bodies, log, newTip) && StateAfter(foreign, log).Ok? && Rooted(newTip.blockHash)
    requires BodiesMatch(bodies, Kept(side, main, bodies, log, newTip))
    ensures Climbs(main, Some(newTip.blockHash))
    ensures Outcome(side, main, bodies, foreign, oldTip, log, pool, newTip) == Ok(true) <==>
              && Preferred(side, main, oldTip, newTip) && !IsBehind(side, newTip.blockHash, TipOf(log))
              && BodiesDown(bodies, Some(newTip.blockHash))
              && var kept := |Kept(side, main, bodies, log, newTip)|;
                 var down := PoolDown(foreign, pool, log, kept);
                 down.Ok? && PoolAlong(foreign, main, down.value, Canonical(main, bodies, Some(newTip.blockHash)), kept).Ok?
  {
    hide StateAfter, Target, Canonical, Preferred, PoolAlong, PoolDown;
    VerifiedClimbs(main, newTip.blockHash, newTip.mainBlockHash);
    RefusedExactlyBehind(side, main, bodies, foreign, log, newTip);
    if !IsBehind(side, newTip.blockHash, TipOf(log)) && BodiesDown(bodies, Some(newTip.blockHash)) {
      TargetIsCanonical(side, main, bodies, log, newTip);
    }
  }

  /** A new node with an empty mempool: only the state and missing mainchain infos can refuse a block. */
  lemma NewNodeSucceedsExactly(
    side: SideTables, main: MainTables, bodies: map<BlockHash, Body>, foreign: Foreign, newTip: Tip)
    requires Sensible(side, main, bodies, [], newTip) && Rooted(newTip.blockHash)
    ensures Climbs(main, Some(newTip.blockHash))
    ensures Outcome(side, main, bodies, foreign, None, [], map[], newTip) == Ok(true) <==>
              && BodiesDown(bodies, Some(newTip.blockHash))
              && var log := Canonical(main, bodies, Some(newTip.blockHash));
                 StateAfter(foreign, log).Ok? && HeadersStorable(main, log, 0)
  {
    hide StateAfter, PoolAlong, PoolDown, Canonical, HeadersStorable, Outcome, Sensible, Kept, Preferred, BodiesDown, BodiesMatch, IsBehind;
    NothingConnected(side, main, bodies, foreign, newTip);
    SucceedsExactly(side, main, bodies, foreign, None, [], map[], newTip);
    if BodiesDown(bodies, Some(newTip.blockHash)) {
      var log := Canonical(main, bodies, Some(newTip.blockHash));
      assert log[..0] == [];
      EmptyAlong(foreign, main, log, 0);
    }
  }

  lemma NothingConnected(
    side: SideTables, main: MainTables, bodies: map<BlockHash, Body>, foreign: Foreign, newTip: Tip)
    requires Sensible(side, main, bodies, [], newTip)
    ensures Kept(side, main, bodies, [], newTip) == [] && BodiesMatch(bodies, []) && !IsBehind(side, newTip.blockHash, None)
    ensures StateAfter(foreign, []).Ok? && PoolDown(foreign, map[], [], 0) == Ok(map[])
    ensures Preferred(side, main, None, newTip)
  {
    hide Sensible;
    var none: Log := [];
    assert none[..0] == none;
  }

  /**
   A reorganisation to the current block or one of its ancestors is never carried out. It is attempted
   exactly towards a verified strict ancestor, no genesis block, with more work; then all tips above it are
   disconnected, and the first block is refused.
   */
  lemma NeverBackwards(
    side: SideTables, main: MainTables, bodies: map<BlockHash, Body>, foreign: Foreign, oldTip: Tip, log: Log, pool: Pool,
    newTip: Tip)
    requires Sensible(side, main, bodies, log, newTip) && StateAfter(foreign, log).Ok?
    requires TipOf(log) == Some(oldTip.blockHash) && BestVerified(main, oldTip)
    requires IsBehind(side, newTip.blockHash, TipOf(log))
    ensures Preferred(side, main, Some(oldTip), newTip) <==>
              && newTip.blockHash != oldTip.blockHash && side.tree.height[newTip.blockHash] > 0
              && main.work[oldTip.mainBlockHash] < main.work[newTip.mainBlockHash]
    ensures Outcome(side, main, bodies, foreign, Some(oldTip), log, pool, newTip) ==
            if newTip.blockHash != oldTip.blockHash && side.tree.height[newTip.blockHash] > 0
               && main.work[oldTip.mainBlockHash] < main.work[newTip.mainBlockHash]
            then
              match PoolDown(foreign, pool, log, |Kept(side, main, bodies, log, newTip)|)
              case Err(e) => Err(DisconnectFailed(e))
              case Ok(_) => Err(ConnectFailed(StateRefused(BlockFailed(Rejected(PrevSideHash)))))
            else Ok(false)
  {
    hide StateAfter, Target, PoolAlong, PoolDown, IsVerified, BetterTip;
    RefusedExactlyBehind(side, main, bodies, foreign, log, newTip);
    VerifiedIsKnown(side, main, oldTip);
    VerifiedIsKnown(side, main, newTip);
    BodiesDownPrefix(side, bodies, oldTip.blockHash, newTip.blockHash);
    if newTip.blockHash == oldTip.blockHash {
      SameBlockNeverPreferred(side, main, oldTip, newTip);
    } else {
      AncestorPreferredExactly(side, main, oldTip, newTip);
    }
  }

  // ------------------------------------------------------------- one block at a time

  /** A block on the way to the new tip: it may be connected, and its share is below the new tip's. */
  ghost predicate OnWay(side: SideTables, main: MainTables, bodies: map<BlockHash, Body>, newTip: BlockHash, b: BlockHash) {
    && Connectable(side, main, bodies, b) && BuiltBelowTip(main, newTip, b) && (Rooted(b) <==> Rooted(newTip))
  }

  lemma {:induction false} PathOnWay(
    side: SideTables, main: MainTables, bodies: map<BlockHash, Body>, newTip: Tip, b: BlockHash, common: Option<BlockHash>)
    requires side.Valid() && main.Valid() && side.tree.IsAncestor(b, newTip.blockHash)
    requires IsVerified(main, newTip.blockHash, newTip.mainBlockHash) && BodiesDown(bodies, Some(newTip.blockHash))
    ensures forall x | x in Path(Some(b), common) :: OnWay(side, main, bodies, newTip.blockHash, x)
    ensures OnWay(side, main, bodies, newTip.blockHash, b)
    decreases b
  {
    VerifiedClimbs(main, newTip.blockHash, newTip.mainBlockHash);
    PathClimbs(side, main, newTip.blockHash, b);
    var p := AncestorIsVerified(side, main, newTip.blockHash, newTip.mainBlockHash, b);
    BodiesDownPrefix(side, bodies, newTip.blockHash, b);
    if b.header.prevSideHash.Some? {
      var parent := b.header.prevSideHash.value;
      CommonIsBelow(side, b, None);
      assert side.ParentNamed(b);
      ParentAncestry(side.tree, parent, b);
      IsAncestorTransitive(side.tree, parent, b, newTip.blockHash);
      PathOnWay(side, main, bodies, newTip, parent, common);
    }
  }

  lemma BlocksOnWay(
    side: SideTables, main: MainTables, bodies: map<BlockHash, Body>, log: Log, newTip: Tip, common: Option<BlockHash>)
    requires Sensible(side, main, bodies, log, newTip) && BodiesDown(bodies, Some(newTip.blockHash))
    ensures forall x | x in BlocksFor(newTip.blockHash, common) :: OnWay(side, main, bodies, newTip.blockHash, x)
  {
    PathOnWay(side, main, bodies, newTip, newTip.blockHash, common);
    var prev := newTip.blockHash.header.prevSideHash;
    if prev.Some? {
      CommonIsBelow(side, newTip.blockHash, None);
      assert side.ParentNamed(newTip.blockHash);
      ParentAncestry(side.tree, prev.value, newTip.blockHash);
      PathOnWay(side, main, bodies, newTip, prev.value, common);
    }
  }

  /** What is dealt out stays what it must be when the next block has been connected. */
  ghost predicate Dealing(
    side: SideTables, main: MainTables, bodies: map<BlockHash, Body>, newTip: BlockHash, log: Log, rest: PegData)
  {
    && LogOk(side, main, bodies, log) && Climbs(main, Some(newTip))
    && (Rooted(newTip) ==> rest == ToShare(main, newTip, TipOf(log)))
  }

  lemma DealingStep(
    side: SideTables, main: MainTables, bodies: map<BlockHash, Body>, newTip: BlockHash, log: Log, rest: PegData, b: BlockHash)
    requires Dealing(side, main, bodies, newTip, log, rest) && OnWay(side, main, bodies, newTip, b)
    requires b.header.prevSideHash == TipOf(log)
    ensures var (longer, left) := DealOne(bodies, (log, rest), b);
            Dealing(side, main, bodies, newTip, longer, left) && TipOf(longer) == Some(b)
  {
    var data := PopUntil(rest, b.header.prevMainHash).0;
    if Rooted(newTip) {
      if b.header.prevSideHash.Some? {
        ChildIsNotOnZero(main, b);
      }
      ShareIsCanonical(main, newTip, b);
    }
    PushKeepsLog(side, main, bodies, log, b, data);
  }

  /** Back at the common ancestor, the mainchain blocks above it are to be shared among the blocks to apply. */
  ghost predicate Aimed(
    side: SideTables, main: MainTables, bodies: map<BlockHash, Body>, before: Log, newTip: Tip, common: Option<BlockHash>)
    requires Sensible(side, main, bodies, before, newTip)
  {
    var m, b, kept := newTip.blockHash.header.prevMainHash, newTip.blockHash, Kept(side, main, bodies, before, newTip);
    var stop := if common.Some? then Some(common.value.header.prevMainHash) else None;
    && TipOf(kept) == common && |kept| == HeightAbove(side, common)
    && InfosDown(main, m) && (stop.Some? ==> main.tree.IsAncestor(stop.value, m))
    && var batch := Stack(main, m, if stop.Some? then main.tree.height[stop.value] else 0, main.tree.height[m]);
       Dealing(side, main, bodies, b, kept, batch)
       && Target(side, main, bodies, before, newTip) == Deal(bodies, (kept, batch), BlocksFor(b, common)).0
  }

  /** What holds when the driver has gone back to the common ancestor. */
  lemma StartApplying(
    side: SideTables, main: MainTables, bodies: map<BlockHash, Body>, oldTip: Option<Tip>, before: Log, newTip: Tip)
    requires Sensible(side, main, bodies, before, newTip) && BodiesDown(bodies, Some(newTip.blockHash))
    ensures var common := Common(side, before, newTip.blockHash);
            && Aimed(side, main, bodies, before, newTip, common)
            && (forall x | x in BlocksFor(newTip.blockHash, common) :: OnWay(side, main, bodies, newTip.blockHash, x))
    ensures var target, kept := Target(side, main, bodies, before, newTip), |Kept(side, main, bodies, before, newTip)|;
            && kept < |target| && TriedOk(main, target, kept, []) && target[..kept] == before[..kept]
            && LastCommit(side, main, oldTip, kept, []) == None
  {
    hide OnWay, StateAfter, BestVerified, Preferred, IsVerified, BodiesMatch, Canonical, Deal, PopUntil;
    var kept, common := Kept(side, main, bodies, before, newTip), Common(side, before, newTip.blockHash);
    VerifiedClimbs(main, newTip.blockHash, newTip.mainBlockHash);
    CommonIsShared(side, before, newTip.blockHash);
    PrefixKeepsLog(side, main, bodies, before, common);
    BlocksOnWay(side, main, bodies, before, newTip, common);
    TargetEnds(side, main, bodies, before, newTip);
    var target := Target(side, main, bodies, before, newTip);
    DealKeeps(bodies, (kept, ToShare(main, newTip.blockHash, common)), BlocksFor(newTip.blockHash, common));
    assert target[..|kept|] == kept;
    if common.Some? {
      PathClimbs(side, main, newTip.blockHash, common.value);
    }
  }

  lemma OneMoreTried(
    side: SideTables, main: MainTables, oldTip: Option<Tip>, target: Log, kept: nat, tried: seq<Tip>, t: Tip)
    requires TriedOk(main, target, kept, tried) && kept + |tried| < |target|
    requires BestVerified(main, t) && TipOf(target[..kept + |tried| + 1]) == Some(t.blockHash)
    ensures TriedOk(main, target, kept, tried + [t])
    ensures LastCommit(side, main, oldTip, kept, tried + [t]) ==
            if Preferred(side, main, oldTip, t) then Some(kept + |tried| + 1)
            else LastCommit(side, main, oldTip, kept, tried)
  {
    assert (tried + [t])[..|tried|] == tried;
  }

  /** Of two tips at most one is preferred to the other: no node goes back and forth between them. */
  lemma PreferenceIsOneWay(side: SideTables, main: MainTables, a: Tip, b: Tip)
    requires Preferred(side, main, Some(a), b)
    ensures !Preferred(side, main, Some(b), a)
  {
    PreferenceIsMutual(side, main, a, b);
  }

  /** The last commit is at the last tip that is preferred to the original one; there is none when no tip is. */
  lemma {:induction false} LastCommitIsLast(
    side: SideTables, main: MainTables, oldTip: Option<Tip>, kept: nat, tried: seq<Tip>)
    ensures match LastCommit(side, main, oldTip, kept, tried)
            case None => forall j | 0 <= j < |tried| :: !Preferred(side, main, oldTip, tried[j])
            case Some(n) =>
              && kept < n <= kept + |tried| && Preferred(side, main, oldTip, tried[n - kept - 1])
              && forall j | n - kept <= j < |tried| :: !Preferred(side, main, oldTip, tried[j])
  {
    hide Preferred;
    if tried != [] && !Preferred(side, main, oldTip, tried[|tried| - 1]) {
      LastCommitIsLast(side, main, oldTip, kept, tried[..|tried| - 1]);
    }
  }

  // ----------------------------------------------------------------- how it ends

  lemma SensibleTips(
    side: SideTables, main: MainTables, bodies: map<BlockHash, Body>, log: Log, newTip: Tip, oldTip: Option<Tip>)
    requires Sensible(side, main, bodies, log, newTip)
    requires if TipOf(log).None? then oldTip == None
             else oldTip.Some? && TipOf(log) == Some(oldTip.value.blockHash) && BestVerified(main, oldTip.value)
    ensures ValidTables(side, main) && KnownTip(side, main, newTip) && LogOk(side, main, bodies, log)
    ensures TipOf(log).Some? ==> TipOf(log).value in side.tree.height
    ensures oldTip.Some? ==> KnownTip(side, main, oldTip.value)
  {
    VerifiedIsKnown(side, main, newTip);
    if oldTip.Some? {
      VerifiedIsKnown(side, main, oldTip.value);
    }
  }

  lemma SensibleLog(side: SideTables, main: MainTables, bodies: map<BlockHash, Body>, log: Log, newTip: Tip)
    requires Sensible(side, main, bodies, log, newTip)
    ensures LogOk(side, main, bodies, log) && newTip.blockHash in side.tree.height
    ensures TipOf(log).Some? ==> TipOf(log).value in side.tree.height
    ensures var common := Common(side, log, newTip.blockHash);
            && BodiesDown(bodies, common)
            && (common.Some? ==>
                  && TipOf(log).Some? && side.tree.IsAncestor(common.value, TipOf(log).value)
                  && side.tree.IsAncestor(common.value, newTip.blockHash))
            && |Kept(side, main, bodies, log, newTip)| == HeightAbove(side, common)
  {
    CommonIsShared(side, log, newTip.blockHash);
    PrefixKeepsLog(side, main, bodies, log, Common(side, log, newTip.blockHash));
  }

  /** Nothing is attempted when the tip is not preferred, or a body is missing. */
  lemma EndedAtOnce(
    side: SideTables, main: MainTables, bodies: map<BlockHash, Body>, foreign: Foreign, oldTip: Option<Tip>, log: Log,
    pool: Pool, newTip: Tip)
    requires Sensible(side, main, bodies, log, newTip)
    requires !Preferred(side, main, oldTip, newTip) || !BodiesDown(bodies, Some(newTip.blockHash))
    ensures Ended(
              side, main, bodies, foreign, oldTip, log, pool, newTip,
              if !Preferred(side, main, oldTip, newTip) then Ok(false) else Err(NoBody), [], log, pool)
  {
    hide Sensible, Preferred, StateAfter, IsVerified, BodiesDown, BestVerified, Target, Kept, PoolAlong, PoolDown;
    TargetEnds(side, main, bodies, log, newTip);
  }

  /** Nothing is connected when the mempool does not take back what is disconnected. */
  lemma EndedGoingBack(
    side: SideTables, main: MainTables, bodies: map<BlockHash, Body>, foreign: Foreign, oldTip: Option<Tip>, log: Log,
    pool: Pool, newTip: Tip)
    requires Sensible(side, main, bodies, log, newTip)
    requires Preferred(side, main, oldTip, newTip) && BodiesDown(bodies, Some(newTip.blockHash))
    requires PoolDown(foreign, pool, log, |Kept(side, main, bodies, log, newTip)|).Err?
    ensures var r := DownResult(PoolDown(foreign, pool, log, |Kept(side, main, bodies, log, newTip)|));
            Ended(side, main, bodies, foreign, oldTip, log, pool, newTip, r, [], log, pool)
  {
    hide Sensible, Preferred, StateAfter, IsVerified, BodiesDown, BestVerified, Target, Kept, PoolAlong, PoolDown;
    TargetEnds(side, main, bodies, log, newTip);
  }

  ghost function DownResult(down: Result<Pool, StepError>): Result<bool, ReorgError> {
    match down
    case Ok(_) => Ok(true)
    case Err(e) => Err(DisconnectFailed(e))
  }

  function ReorgResult(applied: Result<(), StepError>): Result<bool, ReorgError> {
    match applied
    case Ok(_) => Ok(true)
    case Err(e) => Err(ConnectFailed(e))
  }

  lemma EndedOnTip(
    side: SideTables, main: MainTables, bodies: map<BlockHash, Body>, foreign: Foreign, oldTip: Option<Tip>, before: Log,
    pool: Pool, newTip: Tip, r: Result<bool, ReorgError>, tried: seq<Tip>, after: Log, poolAfter: Pool)
    requires Ended(side, main, bodies, foreign, oldTip, before, pool, newTip, r, tried, after, poolAfter)
    ensures r == Ok(true) ==> TipOf(after) == Some(newTip.blockHash)
  {
    hide Sensible, Outcome, TriedOk, StoppedAt, CommittedPool, DownPool;
    TargetEnds(side, main, bodies, before, newTip);
    var target := Target(side, main, bodies, before, newTip);
    assert target[..|target|] == target;
  }

  /** The blocks were applied up to the new tip, or up to the first that was refused. */
  lemma EndedApplied(
    side: SideTables, main: MainTables, bodies: map<BlockHash, Body>, foreign: Foreign, oldTip: Option<Tip>, before: Log,
    pool: Pool, down: Pool, newTip: Tip, applied: Result<(), StepError>, tried: seq<Tip>, n: nat, after: Log, poolAfter: Pool)
    requires Sensible(side, main, bodies, before, newTip)
    requires Preferred(side, main, oldTip, newTip) && BodiesDown(bodies, Some(newTip.blockHash))
    requires var target, kept := Target(side, main, bodies, before, newTip), |Kept(side, main, bodies, before, newTip)|;
             && PoolDown(foreign, pool, before, kept) == Ok(down)
             && TriedOk(main, target, kept, tried) && n == kept + |tried| && PoolAlong(foreign, main, down, target[..n], kept).Ok?
             && (match PoolAlong(foreign, main, down, target, kept)
                 case Err(e) => applied == Err(e) && n < |target| && PoolAlong(foreign, main, down, target[..n + 1], kept) == Err(e)
                 case Ok(_) => applied == Ok(()) && n == |target|)
             && var m := if applied.Ok? then Some(|target|) else LastCommit(side, main, oldTip, kept, tried);
                after == CommittedLog(before, target, m)
                && poolAfter == CommittedPool(foreign, main, pool, down, target, kept, m)
    ensures Ended(
              side, main, bodies, foreign, oldTip, before, pool, newTip, ReorgResult(applied), tried, after, poolAfter)
  {
    hide Sensible, Preferred, TriedOk, LastCommit, StateAfter, PoolAlong, PoolDown, CommittedLog, CommittedPool, BodiesDown, Target, Kept, LogOk, Chained, Common;
  }
}
