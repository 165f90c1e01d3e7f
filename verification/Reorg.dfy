/**
 The node: headers, mainchain blocks, bodies and transactions arrive, and the reorganisation driver
 moves the state back to the last common ancestor and forward to the new tip, slicing the mainchain's
 events among the blocks that are applied.
 */
module Reorg {
  import opened Types
  import opened Lineage
  import opened CommonAncestor
  import opened Bmm
  import opened HeaderWork
  import opened PegDiff
  import opened PegInvariant
  import opened PegSync
  import opened PegBlock
  import opened State
  import opened Shielded
  import opened SortScan
  import opened Validation
  import opened BlockSpec
  import opened Chain
  import opened ForkChoice
  import opened Replay
  import opened Behind
  import opened Snapshots
  import opened PoolRun
  import opened Goal
  import Archive
  import BodyLists
  import MemPool
  import Connection = Tip

  class Node {
    const archive: Archive.Archive
    const state: State
    const pool: MemPool.MemPool
    const foreign: Foreign
    var bodies: map<BlockHash, Body>
    var accumulators: map<Option<BlockHash>, Forest>
    var frontiers: map<Option<BlockHash>, seq<nat>>
    // the connected tips, each with the peg data that it was connected with
    var log: Log
    // what the last committed transaction left in the database
    var committed: Snapshot
    var committedPool: MemPool.PoolTables
    var committedVerdicts: BmmTable

    /** What the open transaction would commit, beside the mempool and the recorded verdicts. */
    ghost function Open(): Snapshot
      reads this, state
    {
      Snapshot(state.Saved(), accumulators, frontiers, log)
    }

    /** The committed state is the one that the committed log leads to, and nothing is uncommitted. */
    ghost predicate Valid()
      reads this, state, archive, pool
    {
      && Steady() && Open() == committed && pool.Saved() == committedPool && archive.bmm == committedVerdicts
      && Booked(foreign, Open()) && LogOk(archive.side, archive.main, bodies, log)
    }

    /** What the database holds is in order. */
    ghost predicate Steady()
      reads this, archive, pool
    {
      && archive.Valid() && pool.Valid() && Injective(foreign.key) && TotalOrder(foreign.rank)
      && Booked(foreign, committed) && LogOk(archive.side, archive.main, bodies, committed.log)
      && MemPool.PoolExact(committedPool) && Archive.BmmExact(archive.side, archive.main, committedVerdicts)
    }

    constructor (foreign: Foreign)
      requires Injective(foreign.key) && TotalOrder(foreign.rank)
      ensures Valid() && committed == START && fresh(archive) && fresh(state) && fresh(pool)
    {
      hide Booked, LogOk, MainTables.Valid, SideTables.Valid, PrevMainKnown, Archive.BmmExact, WorkedOut, MemPool.PoolExact;
      this.foreign := foreign;
      archive := new Archive.Archive();
      state := new State();
      pool := new MemPool.MemPool();
      bodies, accumulators, frontiers, log := map[], map[None := Forest({}, [])], map[None := []], [];
      committed := START;
      new;
      committedPool, committedVerdicts := pool.Saved(), archive.bmm;
      StartIsBooked(foreign);
      EmptyLogOk(archive.side, archive.main, bodies);
      assert Open() == START;
    }

    // ------------------------------------------------------------------- arrivals

    /** Stores a mainchain header. */
    method PutMainHeaderInfo(info: MainHeaderInfo) returns (r: Result<(), ArchiveError>)
      requires Valid() && Archive.SameHeader(archive.main, info)
      requires info.prevBlockHash in archive.main.tree.height ==> archive.main.tree.height[info.prevBlockHash] + 1 < U32_SIZE
      modifies archive`main, archive`works
      ensures Valid() && MainExtends(old(archive.main), archive.main)
      ensures r.Err? <==> old(info.prevBlockHash !in archive.main.tree.height)
      ensures archive.main.tree.parent ==
              if r.Ok? then old(archive.main.tree.parent)[info.blockHash := info.prevBlockHash] else old(archive.main.tree.parent)
    {
      hide Booked, LogOk, MainTables.Valid, SideTables.Valid, PrevMainKnown, Archive.BmmExact, WorkedOut, MemPool.PoolExact;
      r := archive.PutMainHeaderInfo(info);
      ArrivalKeepsLog(archive.side, old(archive.main), bodies, archive.side, archive.main, bodies, log);
    }

    /** Stores the info of a mainchain block. */
    method PutMainBlockInfo(m: MainHash, info: BlockInfo) returns (r: Result<(), ArchiveError>)
      requires Valid() && (m in archive.main.infos ==> archive.main.infos[m] == info)
      modifies archive`main, archive`bmm, this`committedVerdicts
      ensures Valid() && MainExtends(old(archive.main), archive.main)
      ensures r.Ok? <==> old(m in archive.main.tree.parent && archive.main.ParentHasInfo(m))
      ensures archive.main == if r.Ok? then Archive.WithInfo(old(archive.main), m, info) else old(archive.main)
    {
      hide Booked, LogOk, MainTables.Valid, SideTables.Valid, PrevMainKnown, Archive.BmmExact, WorkedOut, MemPool.PoolExact;
      r := archive.PutMainBlockInfo(m, info);
      committedVerdicts := archive.bmm;
      ArrivalKeepsLog(archive.side, old(archive.main), bodies, archive.side, archive.main, bodies, log);
    }

    /** Stores a sidechain header. */
    method PutHeader(header: Header) returns (r: Result<(), ArchiveError>)
      requires Valid()
      requires header.prevSideHash.Some? && header.prevSideHash.value in archive.side.tree.height ==>
                 archive.side.tree.height[header.prevSideHash.value] + 1 < U32_SIZE
      modifies archive`side, archive`bmm, this`committedVerdicts
      ensures Valid()
      ensures r.Ok? <==>
                && old(header.prevSideHash.Some? ==> header.prevSideHash.value in archive.side.tree.height)
                && Archive.SuccessorsMissing(archive.main, header).None?
      ensures r.Err? ==> archive.side == old(archive.side)
      ensures r.Ok? ==> archive.side.tree.height.Keys == old(archive.side.tree.height.Keys) + {BlockHash(header)}
    {
      hide Booked, LogOk, MainTables.Valid, SideTables.Valid, PrevMainKnown, Archive.BmmExact, WorkedOut, MemPool.PoolExact;
      r := archive.PutHeader(header);
      committedVerdicts := archive.bmm;
      ArrivalKeepsLog(old(archive.side), archive.main, bodies, archive.side, archive.main, bodies, log);
    }

    /** Stores a body below its header, whatever was stored before. */
    method PutBody(b: BlockHash, body: Body) returns (r: Result<(), ArchiveError>)
      requires Valid()
      modifies this`bodies
      ensures Valid()
      ensures if b in archive.side.tree.height then r == Ok(()) && bodies == old(bodies)[b := body]
              else r == Err(NoBlockHash) && bodies == old(bodies)
    {
      hide Booked, LogOk, MainTables.Valid, SideTables.Valid, PrevMainKnown, Archive.BmmExact, WorkedOut, MemPool.PoolExact;
      if b !in archive.side.tree.height {
        return Err(NoBlockHash);
      }
      ArrivalKeepsLog(archive.side, archive.main, bodies, archive.side, archive.main, bodies[b := body], log);
      bodies := bodies[b := body];
      r := Ok(());
    }

    /** Adds a transaction to the mempool, or refuses it and changes nothing. */
    method PutTransaction(tx: AuthorizedTransaction) returns (r: Result<(), MemPool.MemPoolError>)
      requires Valid()
      modifies pool, this`committedPool
      ensures Valid()
      ensures match MemPool.WithTransaction(old(pool.transactions), tx)
              case Err(e) => r == Err(e) && pool.Saved() == old(pool.Saved())
              case Ok(p) => r == Ok(()) && pool.transactions == p
    {
      hide Booked, LogOk, MainTables.Valid, SideTables.Valid, PrevMainKnown, Archive.BmmExact, WorkedOut, MemPool.PoolExact;
      r := pool.Put(tx);
      committedPool := pool.Saved();
    }

    // -------------------------------------------------------------------- queries

    /** The mainchain block with the greatest total work that verifies `b`. */
    method BestMainVerification(b: BlockHash) returns (r: Result<MainHash, ReorgError>)
      requires archive.Valid() && b in archive.side.tree.height
      ensures r.Ok? ==> BestVerified(archive.main, Tip(b, r.value))
      ensures r.Err? ==> r.error == NoBmmResult && forall m | m in archive.main.infos :: !IsVerified(archive.main, b, m)
    {
      hide SideTables.Valid, MainTables.Valid, PrevMainKnown, Archive.BmmExact, WorkedOut, IsVerified;
      var main, bmm := archive.main, archive.bmm;
      VerdictsKnown(archive.side, main, bmm, b);
      var results := Archive.ResultsOf(bmm, b);
      var rest := results.Keys;
      var best: Option<MainHash> := None;
      while rest != {}
        invariant rest <= results.Keys
        invariant best.Some? ==> Archive.RecordedVerified(bmm, b, best.value)
        invariant forall m | m in results && m !in rest && results[m] == Verified ::
            best.Some? && main.work[m] <= main.work[best.value]
        decreases |rest|
      {
        var m :| m in rest;
        if results[m] == Verified && (best.None? || main.work[m] >= main.work[best.value]) {
          best := Some(m);
        }
        rest := rest - {m};
      }
      r := if best.None? then Err(NoBmmResult) else Ok(best.value);
    }

    /** The new tip and its ancestors down to the common one, newest first, if all their bodies are stored. */
    method BlocksToApply(newTip: BlockHash, common: Option<BlockHash>) returns (r: Result<seq<BlockHash>, ReorgError>)
      requires archive.Valid() && newTip in archive.side.tree.height && BodiesDown(bodies, common)
      requires common.Some? ==> archive.side.tree.IsAncestor(common.value, newTip)
      ensures r == if BodiesDown(bodies, Some(newTip)) then Ok(BlocksFor(newTip, common)) else Err(NoBody)
    {
      if newTip !in bodies {
        return Err(NoBody);
      }
      var blocks := [newTip];
      var cursor := newTip.header.prevSideHash;
      while cursor.Some? && cursor != common
        invariant BlocksFor(newTip, common) == blocks + Path(cursor, common)
        invariant BodiesDown(bodies, Some(newTip)) <==> BodiesDown(bodies, cursor)
        decreases cursor
      {
        var b := cursor.value;
        if b !in bodies {
          return Err(NoBody);
        }
        blocks := blocks + [b];
        cursor := b.header.prevSideHash;
      }
      assert blocks + [] == blocks;
      r := Ok(blocks);
    }

    /** The mainchain blocks from `m` down to, and without, `stop`, newest first. */
    method MainBlocksAbove(m: MainHash, stop: Option<MainHash>) returns (r: Result<PegData, ReorgError>)
      requires InfosDown(archive.main, m) && (stop.Some? ==> archive.main.tree.IsAncestor(stop.value, m))
      ensures var tree := archive.main.tree;
              r == Ok(Stack(archive.main, m, if stop.Some? then tree.height[stop.value] else 0, tree.height[m]))
    {
      var main := archive.main;
      var cursor := m;
      var blocks: PegData := [];
      while cursor != ZERO_HASH && Some(cursor) != stop
        invariant main.tree.IsAncestor(cursor, m)
        invariant stop.Some? ==> main.tree.IsAncestor(stop.value, cursor)
        invariant blocks == Stack(main, m, main.tree.height[cursor], main.tree.height[m])
        decreases main.tree.height[cursor]
      {
        EntryKnown(main, m, main.tree.height[cursor]);
        if cursor !in main.tree.parent || cursor !in main.infos {
          return Err(NoMainInfo);
        }
        blocks := blocks + [(cursor, main.infos[cursor])];
        var prev := main.tree.Parent(cursor);
        NextMainAncestor(main, cursor, m, stop);
        cursor := prev;
      }
      r := Ok(blocks);
    }

    /** The connected tip with the best mainchain block that verifies it. */
    method CurrentTip() returns (tip: Option<Tip>)
      requires Valid()
      ensures if TipOf(log).None? then tip == None
              else tip.Some? && Some(tip.value.blockHash) == TipOf(log) && BestVerified(archive.main, tip.value)
    {
      RunIsChained(foreign, log);
      if state.tip == None {
        return None;
      }
      // a connected block is verified, so there is a best verification
      var best := BestMainVerification(state.tip.value);
      tip := Some(Tip(state.tip.value, best.value));
    }

    // ---------------------------------------------------------------------- steps

    /** What connecting relies on. */
    ghost predicate Running()
      reads this, state, archive, pool
    {
      && archive.Valid() && pool.Valid() && Injective(foreign.key) && TotalOrder(foreign.rank)
      && Booked(foreign, Open())
    }

    /** Takes back what was written since the given tables were read. */
    method Drop(saved: Snapshot, savedPool: MemPool.PoolTables, savedVerdicts: BmmTable)
      modifies this`log, this`accumulators, this`frontiers, state, pool, archive`bmm
      ensures Open() == saved && pool.Saved() == savedPool && archive.bmm == savedVerdicts
    {
      state.Restore(saved.contents);
      pool.Restore(savedPool);
      archive.bmm := savedVerdicts;
      accumulators, frontiers, log := saved.accumulators, saved.frontiers, saved.log;
    }

    /** Stores the header of a connected block again and updates the mempool. An error leaves both as they were. */
    method AcceptBlock(b: BlockHash, body: Body, accumulator: Forest) returns (r: Result<(), StepError>)
      requires archive.Valid() && pool.Valid() && b in archive.side.tree.height
      modifies pool, archive`side, archive`bmm
      ensures archive.Valid() && pool.Valid() && archive.side == old(archive.side)
      ensures match Accepted(foreign, archive.main, b.header, old(pool.transactions), accumulator, body)
              case Err(e) => r == Err(e) && pool.Saved() == old(pool.Saved()) && archive.bmm == old(archive.bmm)
              case Ok(p) => r == Ok(()) && pool.transactions == p
    {
      hide MainTables.Valid, SideTables.Valid, PrevMainKnown, Archive.BmmExact, WorkedOut, MemPool.PoolExact, MemPool.PoolAfter;
      var savedPool, savedVerdicts := pool.Saved(), archive.bmm;
      KnownHeight(archive.side, b);
      var stored := archive.PutHeader(b.header);
      if stored.Err? {
        return Err(HeaderRefused(stored.error));
      }
      var pooled, gone := pool.ConnectBlock(foreign.prove, accumulator, body);
      if pooled.Err? {
        pool.Restore(savedPool);
        archive.bmm := savedVerdicts;
        return Err(PoolRefused(pooled.error));
      }
      r := Ok(());
    }

    /**
     Connects one block in the open transaction: the state, the archived frontier, header and
     accumulator, then the mempool. An error leaves everything as it was.
     */
    method ConnectOne(b: BlockHash, body: Body, data: PegData) returns (r: Result<(), StepError>)
      requires Running() && b in archive.side.tree.height && Genuine(state.Saved(), TipStep(b.header, body, data))
      modifies this`log, this`accumulators, this`frontiers, state, pool, archive`side, archive`bmm
      ensures Running() && archive.side == old(archive.side)
      ensures var step := TipStep(b.header, body, data);
              match StepResult(foreign, archive.main, old(state.Saved()), old(pool.transactions), step)
              case Err(e) =>
                r == Err(e) && Open() == old(Open()) && pool.Saved() == old(pool.Saved()) && archive.bmm == old(archive.bmm)
              case Ok(p) =>
                && r == Ok(()) && pool.transactions == p && step.header.prevSideHash == TipOf(old(log))
                && TipAfter(old(state.Saved()), foreign, step) == Ok(state.Saved())
                && Open() == Pushed(old(Open()), step, state.Saved())
    {
      hide Genuine, TipAfter, NodeInv, Booked, StateAfter, Accepted, Archive.BmmExact, WorkedOut;
      hide MainTables.Valid, SideTables.Valid, PrevMainKnown, MemPool.PoolExact;
      var step := TipStep(b.header, body, data);
      var saved := state.Saved();
      ghost var before := Open();
      BookedRuns(foreign, before);
      var connected := Connection.ConnectTip(state, foreign, step, HistoryOf(foreign, log));
      if connected.Err? {
        return Err(StateRefused(connected.error));
      }
      PushKeepsBooks(foreign, before, step, state.Saved());
      var accepted := AcceptBlock(b, body, state.accumulator);
      if accepted.Err? {
        state.Restore(saved);
        return accepted;
      }
      if connected.value.Some? {
        frontiers := frontiers[Some(b) := connected.value.value];
      }
      accumulators := accumulators[Some(b) := state.accumulator];
      log := log + [step];
      r := Ok(());
    }

    /** What disconnecting relies on. */
    ghost predicate GoingBack(start: Log)
      reads this, state, pool
    {
      pool.Valid() && TotalOrder(foreign.rank) && Rewinding(foreign, start, Open())
    }

    /**
     Disconnects the tip in the open transaction, with the stored body and what is archived for its
     parent, and puts its transactions back into the mempool. An error leaves everything as it was.
     */
    method DisconnectOne(ghost start: Log) returns (r: Result<(), StepError>)
      requires GoingBack(start) && log != []
      modifies this`log, state, pool
      ensures pool.Valid()
      ensures var init, last := old(log)[..|old(log)| - 1], old(log)[|old(log)| - 1];
              var b := BlockHash(last.header);
              TipOf(init) in accumulators &&
              if b !in bodies then
                r == Err(BodyMissing) && Open() == old(Open()) && pool.Saved() == old(pool.Saved())
              else
                match TipBefore(
                    old(state.Saved()), foreign, last.(body := bodies[b]), accumulators[TipOf(init)], Lookup(frontiers, TipOf(init)))
                case Err(e) => r == Err(StateRefused(e)) && Open() == old(Open()) && pool.Saved() == old(pool.Saved())
                case Ok(d) =>
                  match PoolBack(foreign, old(pool.transactions), StateAfter(foreign, init).value, bodies[b])
                  case Err(e) => r == Err(e) && Open() == old(Open()) && pool.Saved() == old(pool.Saved())
                  case Ok(p) => r == Ok(()) && Open() == Popped(old(Open()), d) && pool.transactions == p
    {
      hide Genuine, TipAfter, TipBefore, NodeInv, StateAfter, MemPool.PoolExact;
      var savedState, savedPool := state.Saved(), pool.Saved();
      RewindingPrefix(foreign, start, Open());
      RewindingHolds(foreign, start, Open());
      var tip := state.tip.value;
      if tip !in bodies {
        return Err(BodyMissing);
      }
      var step := TipStep(tip.header, bodies[tip], log[|log| - 1].data);
      var parent := tip.header.prevSideHash;
      var undone := Connection.DisconnectTip(state, foreign, step, accumulators[parent], Lookup(frontiers, parent));
      if undone.Err? {
        return Err(StateRefused(undone.error));
      }
      var unpacked := BodyLists.AuthorizedTransactions(bodies[tip]);
      if unpacked.None? {
        state.Restore(savedState);
        return Err(AuthorizationsMissing);
      }
      var back := pool.DisconnectBlock(foreign.prove, accumulators[parent], unpacked.value);
      if back.Err? {
        state.Restore(savedState);
        pool.Restore(savedPool);
        return Err(PoolRefused(back.error));
      }
      log := log[..|log| - 1];
      r := Ok(());
    }

    // ----------------------------------------------------------------- the driver

    /** A tip that can be undone is disconnected, unless the mempool does not take its transactions back. */
    method DisconnectUndoable(ghost start: Log) returns (r: Result<(), StepError>)
      requires GoingBack(start) && log != [] && LastUndone(foreign, bodies, log)
      modifies this`log, state, pool
      ensures pool.Valid()
      ensures var init, last := old(log)[..|old(log)| - 1], old(log)[|old(log)| - 1];
              && StateAfter(foreign, init).Ok?
              && match PoolBack(foreign, old(pool.transactions), StateAfter(foreign, init).value, last.body)
                 case Err(e) => r == Err(e)
                 case Ok(p) => r == Ok(()) && log == init && pool.transactions == p && GoingBack(start)
    {
      hide Rewinding, TipBefore, StateAfter, PoolBack, MemPool.PoolExact, TotalOrder;
      RewindingPrefix(foreign, start, Open());
      PopKeepsRewinding(foreign, bodies, start, Open());
      ghost var last := log[|log| - 1];
      assert last.(body := bodies[BlockHash(last.header)]) == last;
      r := DisconnectOne(start);
    }

    method DisconnectMany(disconnects: nat) returns (r: Result<(), ReorgError>)
      requires pool.Valid() && GoingBack(log) && disconnects <= |log| && Undone(foreign, bodies, log, |log| - disconnects)
      modifies this`log, state, pool
      ensures pool.Valid()
      ensures match PoolDown(foreign, old(pool.transactions), old(log), |old(log)| - disconnects)
              case Err(e) => r == Err(DisconnectFailed(e))
              case Ok(p) =>
                && r == Ok(()) && pool.transactions == p && log == old(log)[..|old(log)| - disconnects]
                && GoingBack(old(log))
    {
      hide GoingBack, LastUndone, StateAfter, PoolBack;
      ghost var start, first := log, pool.transactions;
      ghost var k := |start| - disconnects;
      for i := 0 to disconnects
        invariant pool.Valid() && log == start[..|start| - i] && GoingBack(start) && Undone(foreign, bodies, log, k)
        invariant PoolDown(foreign, first, start, k) == PoolDown(foreign, pool.transactions, log, k)
      {
        ghost var tips := log;
        var undone := DisconnectUndoable(start);
        if undone.Err? {
          return Err(DisconnectFailed(undone.error));
        }
        assert tips[..|tips| - 1] == start[..|start| - i - 1];
      }
      r := Ok(());
    }

    /**
     Disconnects down to the common ancestor: as many tips as the heights differ by. The state is then the
     one at the common ancestor, with the last frontier found on the way.
     */
    method Rewind(common: Option<BlockHash>) returns (r: Result<(), ReorgError>)
      requires Running() && LogOk(archive.side, archive.main, bodies, log)
      requires common.Some? ==> TipOf(log).Some? && archive.side.tree.IsAncestor(common.value, TipOf(log).value)
      requires Undone(foreign, bodies, log, HeightAbove(archive.side, common))
      modifies this`log, state, pool
      ensures pool.Valid()
      ensures match PoolDown(foreign, old(pool.transactions), old(log), HeightAbove(archive.side, common))
              case Err(e) => r == Err(DisconnectFailed(e))
              case Ok(p) =>
                && r == Ok(()) && pool.transactions == p
                && |log| == HeightAbove(archive.side, common) <= |old(log)| && log == old(log)[..|log|]
                && LogOk(archive.side, archive.main, bodies, log) && TipOf(log) == common == state.tip
                && StateAfter(foreign, log).Ok?
                && state.Saved() == Stale(StateAfter(foreign, log).value, RewoundFrontier(foreign, old(log), |log|))
                && (Running() <==> FrontierFound(old(log), |log|))
    {
      hide Booked, Rewinding, LogOk, Chained, Undone, StateAfter, PoolDown, FrontierFound, TotalOrder, Injective, MainTables.Valid, SideTables.Valid, PrevMainKnown, Archive.BmmExact, WorkedOut, MemPool.PoolExact;
      hide Tree.Linked, Tree.IsAncestor;
      ghost var start := log;
      BookedIsOnTip(foreign, Open());
      PrefixKeepsLog(archive.side, archive.main, bodies, log, common);
      BookedStartsRewinding(foreign, Open());
      var tipHeight := state.height;
      if tipHeight.Some? {
        r := DisconnectMany(tipHeight.value + 1 - HeightAbove(archive.side, common));
        if r.Err? {
          return;
        }
      } else {
        NothingDown(foreign, pool.transactions, log);
      }
      assert log == start[..HeightAbove(archive.side, common)];
      RewindingEnds(foreign, start, Open());
      r := Ok(());
    }

    /** Connects one block with its share of the mainchain's events. */
    method ApplyOne(b: BlockHash, batch: PegData) returns (r: Result<PegData, StepError>)
      requires Running() && b in archive.side.tree.height && b in bodies
      requires GenuineLog(foreign, DealOne(bodies, (log, batch), b).0)
      modifies this`log, this`accumulators, this`frontiers, state, pool, archive`side, archive`bmm
      ensures Running() && archive.side == old(archive.side)
      ensures var (longer, rest) := DealOne(bodies, (old(log), batch), b);
              && StateAfter(foreign, old(log)).Ok?
              && match StepResult(
                   foreign, archive.main, StateAfter(foreign, old(log)).value, old(pool.transactions), longer[|longer| - 1])
                 case Err(e) =>
                   r == Err(e) && Open() == old(Open()) && pool.Saved() == old(pool.Saved()) && archive.bmm == old(archive.bmm)
                 case Ok(p) => r == Ok(rest) && log == longer && pool.transactions == p && b.header.prevSideHash == TipOf(old(log))
    {
      hide Genuine, TipAfter, Booked, GenuineLog, Injective, TotalOrder, StepResult, StateAfter, MainTables.Valid, SideTables.Valid, PrevMainKnown, Archive.BmmExact, WorkedOut, MemPool.PoolExact;
      BookedState(foreign, Open());
      var data, rest := FillData(batch, b.header.prevMainHash);
      OneMoreTip(foreign, log, TipStep(b.header, bodies[b], data));
      var connected := ConnectOne(b, bodies[b], data);
      if connected.Err? {
        return Err(connected.error);
      }
      r := Ok(rest);
    }

    /** Commits the connected tip, unless the original tip is still preferred to it. */
    method CommitIfBetter(oldTip: Option<Tip>) returns (ghost tip: Tip)
      requires archive.Valid() && log != [] && Booked(foreign, Open()) && LogOk(archive.side, archive.main, bodies, log)
      requires oldTip.Some? ==> KnownTip(archive.side, archive.main, oldTip.value)
      modifies this`committed, this`committedPool, this`committedVerdicts
      ensures BestVerified(archive.main, tip) && TipOf(log) == Some(tip.blockHash)
      ensures if Preferred(archive.side, archive.main, oldTip, tip)
              then committed == Open() && committedPool == pool.Saved() && committedVerdicts == archive.bmm
              else committed == old(committed) && committedPool == old(committedPool) && committedVerdicts == old(committedVerdicts)
    {
      hide Booked, LogOk, IsVerified, MainTables.Valid, SideTables.Valid, PrevMainKnown, Archive.BmmExact, WorkedOut, MemPool.PoolExact, BetterTip, StateAfter;
      LogOkTip(archive.side, archive.main, bodies, log);
      BookedIsOnTip(foreign, Open());
      // the new tip is verified, like every ancestor of a verified block
      var best := BestMainVerification(state.tip.value);
      var newTip := Tip(state.tip.value, best.value);
      tip := newTip;
      VerifiedIsKnown(archive.side, archive.main, tip);
      if oldTip.Some? {
        var better := SelectTip(archive.side, archive.main, oldTip.value, newTip);
        if better != Some(newTip) {
          return;
        }
      }
      committed := Snapshot(state.Saved(), accumulators, frontiers, log);
      committedPool, committedVerdicts := pool.Saved(), archive.bmm;
    }

    /** What a reorganisation started from and leads to. */
    ghost predicate Underway(g: Journey, tried: seq<Tip>, rest: PegData)
      reads this, state, archive, pool
    {
      && Running() && Steady()
      && Dealing(archive.side, archive.main, bodies, g.newTip, log, rest)
      && TriedOk(archive.main, g.target, g.kept, tried) && |log| == g.kept + |tried| && log == g.target[..|log|]
      && PoolAlong(foreign, archive.main, g.down, log, g.kept) == Ok(pool.transactions)
      && var n := LastCommit(archive.side, archive.main, g.oldTip, g.kept, tried);
         committed.log == CommittedLog(g.before, g.target, n)
         && committedPool.transactions == CommittedPool(foreign, archive.main, g.pool, g.down, g.target, g.kept, n)
    }

    /** Applies the next block, and commits the tip if it is better than the original one. */
    method ApplyNext(b: BlockHash, batch: PegData, oldTip: Option<Tip>, ghost g: Journey, ghost tried: seq<Tip>, ghost later: seq<BlockHash>)
      returns (r: Result<PegData, StepError>, ghost tip: Tip)
      requires Underway(g, tried, batch) && GenuineLog(foreign, g.target) && g.oldTip == oldTip
      requires OnWay(archive.side, archive.main, bodies, g.newTip, b)
      requires g.target == Deal(bodies, (log, batch), later + [b]).0
      requires oldTip.Some? ==> KnownTip(archive.side, archive.main, oldTip.value)
      modifies this`log, this`accumulators, this`frontiers, this`committed, this`committedPool, this`committedVerdicts
      modifies state, pool, archive`side, archive`bmm
      ensures archive.side == old(archive.side)
      ensures match r
              case Err(e) =>
                && Underway(g, tried, batch) && log == old(log) && |log| < |g.target|
                && PoolAlong(foreign, archive.main, g.down, g.target, g.kept) == Err(e)
                && PoolAlong(foreign, archive.main, g.down, g.target[..|log| + 1], g.kept) == Err(e)
              case Ok(rest) => Underway(g, tried + [tip], rest) && g.target == Deal(bodies, (log, rest), later).0
    {
      hide OnWay, GenuineLog, StateAfter, Dealing, TriedOk, LastCommit, BestVerified, Preferred, Booked, LogOk, CommittedLog, CommittedPool;
      hide MainTables.Valid, SideTables.Valid, PrevMainKnown, Archive.BmmExact, WorkedOut, MemPool.PoolExact, Tree.Linked, Injective, TotalOrder;
      hide Deal, DealOne, Rooted, PoolAlong, StepResult;
      BookedState(foreign, Open());
      assert (later + [b])[..|later|] == later;
      TargetStep(foreign, archive.main, g, bodies, (log, batch), later + [b], pool.transactions);
      DealingLog(archive.side, archive.main, bodies, g.newTip, log, batch);
      ghost var init := log;
      OnWayIsStored(archive.side, archive.main, bodies, g.newTip, b);
      tip := Tip(b, ZERO_HASH);
      r := ApplyOne(b, batch);
      if r.Err? {
        return;
      }
      DealingStep(archive.side, archive.main, bodies, g.newTip, init, batch, b);
      DealingLog(archive.side, archive.main, bodies, g.newTip, log, r.value);
      tip := CommitIfBetter(oldTip);
      OneMoreTried(archive.side, archive.main, oldTip, g.target, g.kept, tried, tip);
      OneMoreCommit(foreign, archive.main, g, log, pool.transactions);
    }

    /** Applies the blocks, oldest first, committing every tip that is better than the original one. */
    method ApplyBlocks(oldTip: Option<Tip>, blocks: seq<BlockHash>, batch: PegData, ghost g: Journey)
      returns (r: Result<(), StepError>, ghost tried: seq<Tip>)
      requires Underway(g, [], batch) && GenuineLog(foreign, g.target) && g.oldTip == oldTip
      requires forall b | b in blocks :: OnWay(archive.side, archive.main, bodies, g.newTip, b)
      requires g.target == Deal(bodies, (log, batch), blocks).0
      requires oldTip.Some? ==> KnownTip(archive.side, archive.main, oldTip.value)
      modifies this`log, this`accumulators, this`frontiers, this`committed, this`committedPool, this`committedVerdicts
      modifies state, pool, archive`side, archive`bmm
      ensures archive.side == old(archive.side)
      ensures exists rest :: Underway(g, tried, rest)
      ensures LogOk(archive.side, archive.main, bodies, log)
      ensures match PoolAlong(foreign, archive.main, g.down, g.target, g.kept)
              case Err(e) => r == Err(e) && |log| < |g.target| && PoolAlong(foreign, archive.main, g.down, g.target[..|log| + 1], g.kept) == Err(e)
              case Ok(_) => r == Ok(()) && log == g.target
    {
      hide OnWay, GenuineLog, StateAfter, Dealing, TriedOk, LastCommit, BestVerified, Preferred, Booked, LogOk, CommittedLog, CommittedPool;
      hide MainTables.Valid, SideTables.Valid, PrevMainKnown, Archive.BmmExact, WorkedOut, MemPool.PoolExact, Tree.Linked, Injective, TotalOrder;
      hide Deal, DealOne, Rooted, PoolAlong, StepResult;
      var rest := batch;
      tried := [];
      assert blocks[..|blocks|] == blocks;
      for i := |blocks| downto 0
        invariant Underway(g, tried, rest) && archive.side == old(archive.side)
        invariant g.target == Deal(bodies, (log, rest), blocks[..i]).0
      {
        assert blocks[..i + 1] == blocks[..i] + [blocks[i]];
        ghost var tip;
        var applied;
        applied, tip := ApplyNext(blocks[i], rest, oldTip, g, tried, blocks[..i]);
        if applied.Err? {
          DealingLog(archive.side, archive.main, bodies, g.newTip, log, rest);
          return Err(applied.error), tried;
        }
        rest := applied.value;
        tried := tried + [tip];
      }
      assert blocks[..0] == [];
      DealNothing(bodies, (log, rest));
      assert log == g.target[..|log|];
      DealingLog(archive.side, archive.main, bodies, g.newTip, log, rest);
      r := Ok(());
    }

    /** The highest block shared by the connected chain and the new tip's. */
    method FindCommon(newTip: BlockHash) returns (common: Option<BlockHash>)
      requires archive.Valid() && newTip in archive.side.tree.height && Booked(foreign, Open())
      requires TipOf(log).Some? ==> TipOf(log).value in archive.side.tree.height
      ensures common == Common(archive.side, log, newTip)
    {
      BookedIsOnTip(foreign, Open());
      if state.tip == None {
        return None;
      }
      var found := LastCommonAncestor(archive.side.tree, state.tip.value, newTip);
      common := found.value;
    }

    /** Commits the open transaction, which has reached the new tip, or drops it. */
    method Conclude(newTip: BlockHash, reached: bool)
      requires Steady()
      requires reached ==>
                 Booked(foreign, Open()) && LogOk(archive.side, archive.main, bodies, log) && TipOf(log) == Some(newTip)
      modifies this`log, this`accumulators, this`frontiers, this`committed, this`committedPool, this`committedVerdicts
      modifies state, pool, archive`bmm
      ensures Valid()
      ensures log == if reached then old(log) else old(committed.log)
      ensures pool.transactions == if reached then old(pool.transactions) else old(committedPool.transactions)
    {
      hide Booked, LogOk, StateAfter, MainTables.Valid, SideTables.Valid, PrevMainKnown, Archive.BmmExact, WorkedOut, MemPool.PoolExact;
      if reached {
        BookedIsOnTip(foreign, Open());
        assert state.tip == Some(newTip);
        committed := Snapshot(state.Saved(), accumulators, frontiers, log);
        committedPool, committedVerdicts := pool.Saved(), archive.bmm;
      } else {
        Drop(committed, committedPool, committedVerdicts);
      }
    }

    /** The current tip, and whether the new tip is better. */
    method CompareTips(newTip: Tip) returns (current: Option<Tip>, better: bool)
      requires Valid() && Sensible(archive.side, archive.main, bodies, log, newTip)
      ensures if TipOf(log).None? then current == None
              else current.Some? && TipOf(log) == Some(current.value.blockHash) && BestVerified(archive.main, current.value)
      ensures current.Some? ==> KnownTip(archive.side, archive.main, current.value)
      ensures better <==> Preferred(archive.side, archive.main, current, newTip)
      ensures !better ==>
                Ended(archive.side, archive.main, bodies, foreign, current, log, pool.transactions, newTip, Ok(false), [], log, pool.transactions)
    {
      hide Sensible, Booked, LogOk, StateAfter, BestVerified, BetterTip, Ended, MainTables.Valid, SideTables.Valid, PrevMainKnown, Archive.BmmExact, WorkedOut, MemPool.PoolExact;
      current := CurrentTip();
      SensibleTips(archive.side, archive.main, bodies, log, newTip, current);
      better := true;
      if current.Some? {
        var best := SelectTip(archive.side, archive.main, current.value, newTip);
        better := best == Some(newTip);
      }
      if !better {
        EndedAtOnce(archive.side, archive.main, bodies, foreign, current, log, pool.transactions, newTip);
      }
    }

    /** The blocks to apply and the mainchain blocks to share among them, back at the common ancestor. */
    ghost predicate ReadyFor(oldTip: Option<Tip>, newTip: Tip, start: Log, first: MemPool.Pool, blocks: seq<BlockHash>, batch: PegData, g: Journey)
      reads this, state, archive, pool
    {
      && Sensible(archive.side, archive.main, bodies, start, newTip) && BodiesDown(bodies, Some(newTip.blockHash))
      && g == Journey(
           oldTip, newTip.blockHash, start, first, g.down, Target(archive.side, archive.main, bodies, start, newTip),
           |Kept(archive.side, archive.main, bodies, start, newTip)|)
      && PoolDown(foreign, first, start, g.kept) == Ok(g.down)
      && Underway(g, [], batch) && GenuineLog(foreign, g.target)
      && (forall b | b in blocks :: OnWay(archive.side, archive.main, bodies, g.newTip, b))
      && g.target == Deal(bodies, (log, batch), blocks).0
    }

    /** Checks the bodies, goes back to the common ancestor, and collects what is to be applied. */
    method GoBack(oldTip: Option<Tip>, newTip: Tip) returns (r: Result<(seq<BlockHash>, PegData), ReorgError>, ghost g: Journey)
      requires Valid() && Passable(archive.side, archive.main, bodies, foreign, log, newTip)
      requires Preferred(archive.side, archive.main, oldTip, newTip)
      modifies this`log, this`accumulators, this`frontiers, state, pool, archive`bmm
      ensures Steady()
      ensures match r
              case Ok(work) => ReadyFor(oldTip, newTip, old(log), old(pool.transactions), work.0, work.1, g)
              case Err(e) =>
                Ended(
                  archive.side, archive.main, bodies, foreign, oldTip, old(log), old(pool.transactions), newTip, Err(e), [],
                  committed.log, committedPool.transactions)
    {
      hide Ended, Sensible, Booked, LogOk, Preferred, Target, Kept, Common, Dealing, TriedOk, LastCommit, OnWay, MainTables.Valid, SideTables.Valid, PrevMainKnown, Archive.BmmExact, WorkedOut, MemPool.PoolExact;
      hide StateAfter, GenuineLog, Undone, FrontierFound, Deal, Stack, IsVerified, PoolAlong, PoolDown, CommittedPool, CommittedLog;
      hide Tree.Linked, Tree.IsAncestor, BlocksFor, Climbs, BodiesDown;
      ghost var side, main, start, first := archive.side, archive.main, log, pool.transactions;
      ghost var target, kept := Target(side, main, bodies, log, newTip), |Kept(side, main, bodies, log, newTip)|;
      g := Journey(oldTip, newTip.blockHash, start, first, first, target, kept);
      SensibleLog(side, main, bodies, log, newTip);
      var common := FindCommon(newTip.blockHash);
      var blocks := BlocksToApply(newTip.blockHash, common);
      if blocks.Err? {
        EndedAtOnce(side, main, bodies, foreign, oldTip, log, first, newTip);
        return Err(NoBody), g;
      }
      StartApplying(side, main, bodies, oldTip, start, newTip);
      var rewound := Rewind(common);
      if rewound.Err? {
        EndedGoingBack(side, main, bodies, foreign, oldTip, start, first, newTip);
        return Err(rewound.error), g;
      }
      assert state.tip == common;
      var stop := if common.Some? then Some(common.value.header.prevMainHash) else None;
      var batch := MainBlocksAbove(newTip.blockHash.header.prevMainHash, stop);
      g := g.(down := pool.transactions);
      StartAlong(foreign, main, g);
      r := Ok((blocks.value, batch.value));
    }

    /** Goes back to the common ancestor, and applies the blocks up to the new tip. */
    method Reorganise(oldTip: Option<Tip>, newTip: Tip) returns (r: Result<bool, ReorgError>, ghost tried: seq<Tip>)
      requires Valid() && Passable(archive.side, archive.main, bodies, foreign, log, newTip)
      requires Preferred(archive.side, archive.main, oldTip, newTip)
      requires oldTip.Some? ==> KnownTip(archive.side, archive.main, oldTip.value)
      modifies this`log, this`accumulators, this`frontiers, this`committed, this`committedPool, this`committedVerdicts
      modifies state, pool, archive`side, archive`bmm
      ensures Steady() && archive.side == old(archive.side)
      ensures r.Ok? ==> r.value && Booked(foreign, Open()) && LogOk(archive.side, archive.main, bodies, log)
      ensures Ended(
                archive.side, archive.main, bodies, foreign, oldTip, old(log), old(pool.transactions), newTip, r, tried,
                if r.Ok? then log else committed.log, if r.Ok? then pool.transactions else committedPool.transactions)
    {
      hide Ended, Sensible, Booked, LogOk, Preferred, Target, Kept, Common, Dealing, TriedOk, LastCommit, OnWay, MainTables.Valid, SideTables.Valid, PrevMainKnown, Archive.BmmExact, WorkedOut, MemPool.PoolExact;
      hide StateAfter, GenuineLog, Undone, FrontierFound, Deal, Stack, IsVerified, PoolAlong, PoolDown, CommittedPool, CommittedLog;
      hide Tree.Linked, Tree.IsAncestor, BlocksFor, Climbs, BodiesDown;
      var work: Result<(seq<BlockHash>, PegData), ReorgError>;
      ghost var g;
      work, g := GoBack(oldTip, newTip);
      if work.Err? {
        return Err(work.error), [];
      }
      var applied: Result<(), StepError>;
      applied, tried := ApplyBlocks(oldTip, work.value.0, work.value.1, g);
      EndedFrom(
        archive.side, archive.main, bodies, foreign, oldTip, old(log), old(pool.transactions), newTip, g, applied, tried, log,
        pool.transactions, committed.log, committedPool.transactions);
      r := ReorgResult(applied);
    }

    /**
     Re-organises to the new tip, if it is better than the current one. All of it happens in write
     transactions that an error drops.
     */
    method ReorgToTip(newTip: Tip) returns (r: Result<bool, ReorgError>, ghost oldTip: Option<Tip>, ghost tried: seq<Tip>)
      requires Valid() && Passable(archive.side, archive.main, bodies, foreign, log, newTip)
      modifies this`log, this`accumulators, this`frontiers, this`committed, this`committedPool, this`committedVerdicts
      modifies state, pool, archive`side, archive`bmm
      ensures Valid() && archive.side == old(archive.side)
      // the original tip, with the best mainchain block that verifies it
      ensures if TipOf(old(log)).None? then oldTip == None
              else oldTip.Some? && TipOf(old(log)) == Some(oldTip.value.blockHash) && BestVerified(archive.main, oldTip.value)
      // the outcome, the tips connected on the way, and the log and mempool that are committed in the end
      ensures Ended(
                archive.side, archive.main, bodies, foreign, oldTip, old(log), old(pool.transactions), newTip, r, tried, log,
                pool.transactions)
    {
      hide Ended, Sensible, GenuineLog, Undone, FrontierFound, Target, Kept, Booked, LogOk, StateAfter, Preferred, BestVerified, KnownTip;
      hide MainTables.Valid, SideTables.Valid, PrevMainKnown, Archive.BmmExact, WorkedOut, MemPool.PoolExact;
      var current, better := CompareTips(newTip);
      oldTip, tried := current, [];
      if !better {
        return Ok(false), oldTip, [];
      }
      r, tried := Reorganise(current, newTip);
      EndedOnTip(
        archive.side, archive.main, bodies, foreign, oldTip, old(log), old(pool.transactions), newTip, r, tried,
        if r.Ok? then log else committed.log, if r.Ok? then pool.transactions else committedPool.transactions);
      Conclude(newTip.blockHash, r.Ok?);
    }
  }

  /** Where a reorganisation started, the mempool at the common ancestor, and where it leads. */
  datatype Journey = Journey(
    oldTip: Option<Tip>, newTip: BlockHash, before: Log, pool: Pool, down: Pool, target: Log, kept: nat)

  lemma TargetStep(
    foreign: Foreign, main: MainTables, g: Journey, bodies: map<BlockHash, Body>, dealt: (Log, PegData),
    blocks: seq<BlockHash>, pool: Pool)
    requires blocks != [] && g.target == Deal(bodies, dealt, blocks).0 && GenuineLog(foreign, g.target)
    requires g.kept <= |dealt.0| && StateAfter(foreign, dealt.0).Ok?
    requires PoolAlong(foreign, main, g.down, dealt.0, g.kept) == Ok(pool)
    ensures var next := DealOne(bodies, dealt, blocks[|blocks| - 1]);
            && |next.0| == |dealt.0| + 1 <= |g.target| && g.target[..|dealt.0| + 1] == next.0
            && next.0 == dealt.0 + [next.0[|next.0| - 1]]
            && g.target == Deal(bodies, next, blocks[..|blocks| - 1]).0
            && GenuineLog(foreign, next.0)
            && PoolAlong(foreign, main, g.down, next.0, g.kept) ==
               StepResult(foreign, main, StateAfter(foreign, dealt.0).value, pool, next.0[|next.0| - 1])
            && (PoolAlong(foreign, main, g.down, next.0, g.kept).Err? ==>
                  PoolAlong(foreign, main, g.down, g.target, g.kept) == PoolAlong(foreign, main, g.down, next.0, g.kept))
  {
    hide StepResult, PoolAlong, StateAfter, GenuineLog;
    var next := DealOne(bodies, dealt, blocks[|blocks| - 1]);
    DealKeeps(bodies, next, blocks[..|blocks| - 1]);
    assert g.target[..|next.0|] == next.0;
    LogPrefix(foreign, g.target, |next.0|);
    OneMoreAlong(foreign, main, g.down, dealt.0, g.kept, next.0[|next.0| - 1]);
    AlongPrefix(foreign, main, g.down, g.target, g.kept, |next.0|);
  }

  /** What is committed when the whole log is. */
  lemma OneMoreCommit(foreign: Foreign, main: MainTables, g: Journey, log: Log, pool: Pool)
    requires |log| <= |g.target| && log == g.target[..|log|]
    requires PoolAlong(foreign, main, g.down, log, g.kept) == Ok(pool)
    ensures CommittedLog(g.before, g.target, Some(|log|)) == log
    ensures CommittedPool(foreign, main, g.pool, g.down, g.target, g.kept, Some(|log|)) == pool
  {
  }

  lemma StartAlong(foreign: Foreign, main: MainTables, g: Journey)
    requires g.kept <= |g.target|
    ensures PoolAlong(foreign, main, g.down, g.target[..g.kept], g.kept) == Ok(g.down)
    ensures CommittedLog(g.before, g.target, None) == g.before
    ensures CommittedPool(foreign, main, g.pool, g.down, g.target, g.kept, None) == g.pool
  {
  }

  lemma EndedFrom(
    side: SideTables, main: MainTables, bodies: map<BlockHash, Body>, foreign: Foreign, oldTip: Option<Tip>, before: Log,
    first: Pool, newTip: Tip, g: Journey, applied: Result<(), StepError>, tried: seq<Tip>, log: Log, pool: Pool,
    committedLog: Log, committedPool: Pool)
    requires Sensible(side, main, bodies, before, newTip)
    requires Preferred(side, main, oldTip, newTip) && BodiesDown(bodies, Some(newTip.blockHash))
    requires g == Journey(
               oldTip, newTip.blockHash, before, first, g.down, Target(side, main, bodies, before, newTip),
               |Kept(side, main, bodies, before, newTip)|)
    requires PoolDown(foreign, first, before, g.kept) == Ok(g.down)
    requires TriedOk(main, g.target, g.kept, tried) && |log| == g.kept + |tried| && log == g.target[..|log|]
    requires PoolAlong(foreign, main, g.down, log, g.kept) == Ok(pool)
    requires match PoolAlong(foreign, main, g.down, g.target, g.kept)
             case Err(e) => applied == Err(e) && |log| < |g.target| && PoolAlong(foreign, main, g.down, g.target[..|log| + 1], g.kept) == Err(e)
             case Ok(_) => applied == Ok(()) && log == g.target
    requires var n := LastCommit(side, main, oldTip, g.kept, tried);
             && committedLog == CommittedLog(before, g.target, n)
             && committedPool == CommittedPool(foreign, main, first, g.down, g.target, g.kept, n)
    ensures Ended(
              side, main, bodies, foreign, oldTip, before, first, newTip, ReorgResult(applied), tried,
              if applied.Ok? then log else committedLog, if applied.Ok? then pool else committedPool)
  {
    hide Sensible, Preferred, BodiesDown, Target, Kept, PoolDown, PoolAlong, TriedOk, LastCommit, Ended;
    OneMoreCommit(foreign, main, g, log, pool);
    EndedApplied(
      side, main, bodies, foreign, oldTip, before, first, g.down, newTip, applied, tried, |log|,
      if applied.Ok? then log else committedLog, if applied.Ok? then pool else committedPool);
  }

  lemma DealNothing(bodies: map<BlockHash, Body>, dealt: (Log, PegData))
    ensures Deal(bodies, dealt, []) == dealt
  {
  }

  lemma DealingLog(
    side: SideTables, main: MainTables, bodies: map<BlockHash, Body>, newTip: BlockHash, log: Log, rest: PegData)
    requires Dealing(side, main, bodies, newTip, log, rest)
    ensures LogOk(side, main, bodies, log)
  {
  }

  lemma LogOkTip(side: SideTables, main: MainTables, bodies: map<BlockHash, Body>, log: Log)
    requires LogOk(side, main, bodies, log) && log != []
    ensures TipOf(log).value in side.tree.height && exists m :: m in main.infos && IsVerified(main, TipOf(log).value, m)
  {
  }

  lemma OnWayIsStored(side: SideTables, main: MainTables, bodies: map<BlockHash, Body>, newTip: BlockHash, b: BlockHash)
    requires OnWay(side, main, bodies, newTip, b)
    ensures b in bodies && b in side.tree.height
  {
  }

  /** Pops blocks, oldest first, up to and including `target`, or all of them if it is not there. */
  method FillData(batch: PegData, target: MainHash) returns (data: PegData, rest: PegData)
    ensures (data, rest) == PopUntil(batch, target)
  {
    data, rest := [], batch;
    assert [] + PopUntil(batch, target).0 == PopUntil(batch, target).0;
    while rest != []
      invariant PopUntil(batch, target) == (data + PopUntil(rest, target).0, PopUntil(rest, target).1)
      decreases |rest|
    {
      var (hash, info) := rest[|rest| - 1];
      ghost var later := PopUntil(rest[..|rest| - 1], target).0;
      assert data + ([(hash, info)] + later) == (data + [(hash, info)]) + later;
      rest := rest[..|rest| - 1];
      data := data + [(hash, info)];
      if hash == target {
        return;
      }
    }
    assert data + [] == data;
  }

  /** The state's tip and height are those of the log. */
  lemma BookedIsOnTip(foreign: Foreign, s: Snapshot)
    requires Booked(foreign, s)
    ensures StateAfter(foreign, s.log).Ok? && Chained(s.log) && s.contents.tip == TipOf(s.log)
    ensures s.contents.height == if s.log == [] then None else Some(|s.log| - 1)
  {
    RunIsChained(foreign, s.log);
    StateHeight(foreign, s.log);
  }

  lemma BookedRuns(foreign: Foreign, s: Snapshot)
    requires Booked(foreign, s)
    ensures StateAfter(foreign, s.log) == Ok(s.contents) && GenuineLog(foreign, s.log)
    ensures NodeInv(s.contents, HistoryOf(foreign, s.log))
  {
    EveryRun(foreign, s.log);
  }

  lemma KnownHeight(side: SideTables, b: BlockHash)
    requires side.Valid() && b in side.tree.height
    ensures b.header.prevSideHash.Some? ==>
              b.header.prevSideHash.value in side.tree.height && side.tree.height[b.header.prevSideHash.value] + 1 < U32_SIZE
  {
    CommonIsBelow(side, b, None);
  }

  /** On the way back, the tip is the log's, and the peg tables and the accumulator are in order. */
  lemma RewindingHolds(foreign: Foreign, start: Log, s: Snapshot)
    requires Rewinding(foreign, start, s) && s.log != []
    ensures s.contents.tip == TipOf(s.log) && s.log[|s.log| - 1].header.prevSideHash == TipOf(s.log[..|s.log| - 1])
    ensures PegInvBelow(s.contents.tables.peg, NextHeight(s.contents.height))
    ensures s.contents.accumulator.leaves == LeavesOf(s.contents.tables.peg.utxos)
    ensures AuthenticDeposits(AllEvents(s.log[|s.log| - 1].data))
  {
    RunIsChained(foreign, s.log);
    EveryRun(foreign, s.log);
    LastIsAuthentic(foreign, s.log);
  }

  lemma RewindingEnds(foreign: Foreign, start: Log, s: Snapshot)
    requires Rewinding(foreign, start, s)
    ensures StateAfter(foreign, s.log).Ok? && s.contents.tip == TipOf(s.log)
    ensures s.contents == Stale(StateAfter(foreign, s.log).value, RewoundFrontier(foreign, start, |s.log|))
    ensures Booked(foreign, s) <==> FrontierFound(start, |s.log|)
  {
    RunIsChained(foreign, s.log);
    RewoundExactly(foreign, start, s);
  }

  lemma NothingDown(foreign: Foreign, pool: Pool, log: Log)
    requires log == []
    ensures forall k: nat :: PoolDown(foreign, pool, log, k) == Ok(pool)
  {
  }

  lemma LastIsAuthentic(foreign: Foreign, log: Log)
    requires StateAfter(foreign, log).Ok? && GenuineLog(foreign, log) && log != []
    ensures AuthenticDeposits(AllEvents(log[|log| - 1].data))
  {
    var c, s := StateAfter(foreign, log[..|log| - 1]).value, log[|log| - 1];
    AcceptedIsNew(c, foreign, s);
    GenuineIsAuthentic(Connected(c, s.header, s.body).value.tables.peg, AllEvents(s.data));
  }

  lemma StateHeight(foreign: Foreign, log: Log)
    requires StateAfter(foreign, log).Ok? && GenuineLog(foreign, log)
    ensures StateAfter(foreign, log).value.height == if log == [] then None else Some(|log| - 1)
  {
    hide TipAfter, StateAfter, GenuineLog, HistoryOf, Conserved;
    EveryRun(foreign, log);
    InvHeight(StateAfter(foreign, log).value, HistoryOf(foreign, log));
    HistoryLength(foreign, log);
  }

  lemma InvHeight(c: Contents, hist: History)
    requires NodeInv(c, hist)
    ensures c.height == if hist == [] then None else Some(|hist| - 1)
  {
  }

  lemma {:induction false} HistoryLength(foreign: Foreign, log: Log)
    requires StateAfter(foreign, log).Ok?
    ensures |HistoryOf(foreign, log)| == |log|
  {
    hide TipAfter;
    if log != [] {
      HistoryLength(foreign, log[..|log| - 1]);
    }
  }

  lemma NextMainAncestor(main: MainTables, cursor: MainHash, m: MainHash, stop: Option<MainHash>)
    requires main.Valid() && main.tree.IsAncestor(cursor, m) && cursor in main.tree.parent
    requires stop.Some? ==> main.tree.IsAncestor(stop.value, cursor) && stop.value != cursor
    ensures var prev := main.tree.Parent(cursor);
            && main.tree.IsAncestor(prev, m) && main.tree.height[prev] + 1 == main.tree.height[cursor]
            && (stop.Some? ==> main.tree.IsAncestor(stop.value, prev))
  {
    var prev := main.tree.Parent(cursor);
    ParentAncestry(main.tree, prev, cursor);
    IsAncestorTransitive(main.tree, prev, cursor, m);
    if stop.Some? {
      ParentAncestry(main.tree, stop.value, cursor);
    }
  }

  /** The recorded verdicts on a known block are the true ones, on known mainchain blocks. */
  lemma VerdictsKnown(side: SideTables, main: MainTables, bmm: BmmTable, b: BlockHash)
    requires ValidTables(side, main) && Archive.BmmExact(side, main, bmm) && b in side.tree.height
    ensures Archive.ResultsOf(bmm, b).Keys <= main.infos.Keys && main.infos.Keys <= main.work.Keys
    ensures forall m {:trigger Archive.RecordedVerified(bmm, b, m)} {:trigger IsVerified(main, b, m)} | m in main.infos ::
              Archive.RecordedVerified(bmm, b, m) <==> IsVerified(main, b, m)
  {
  }
}
