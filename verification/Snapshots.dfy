/**
 What a node keeps in its database: the state, the accumulators and frontiers that it archives for
 connected blocks, and the log of the tips that led to the state. How connecting, disconnecting and
 new arrivals keep all of it in step.
 */
module Snapshots {
  import opened Types
  import opened Lineage
  import opened CommonAncestor
  import opened Bmm
  import opened PegBlock
  import opened State
  import opened Moves
  import opened Shielded
  import opened Validation
  import opened Acceptance
  import opened BlockSpec
  import opened Chain
  import opened Replay
  import opened Behind

  datatype Snapshot = Snapshot(
    contents: Contents,
    accumulators: map<Option<BlockHash>, Forest>,
    frontiers: map<Option<BlockHash>, seq<nat>>,
    log: Log)

  const START := Snapshot(GENESIS, map[None := Forest({}, [])], map[None := []], [])

  // ----------------------------------------------------------------- archived data

  predicate Appends(body: Body) {
    AllCommitments(body.transactions, |body.transactions|) != []
  }

  predicate AppendsAny(txs: seq<TxCore>) {
    txs != [] &&
    (var last := txs[|txs| - 1];
     (last.orchardBundle.Some? && last.orchardBundle.value.commitments != []) || AppendsAny(txs[..|txs| - 1]))
  }

  /** Whether a block appends note commitments is committed to by its merkle root. */
  lemma RootTellsAppends(body: Body)
    ensures Appends(body) <==> AppendsAny(MerkleRootOf(body).transactions)
  {
    var cores := MerkleRootOf(body).transactions;
    CoresTellAppends(body.transactions, cores, |cores|);
    assert cores[..|cores|] == cores;
  }

  lemma {:induction false} CoresTellAppends(txs: seq<Transaction>, cores: seq<TxCore>, k: nat)
    requires k <= |txs| == |cores| && forall i :: 0 <= i < |txs| ==> cores[i] == txs[i].core
    ensures AllCommitments(txs, k) != [] <==> AppendsAny(cores[..k])
  {
    if k > 0 {
      CoresTellAppends(txs, cores, k - 1);
      assert cores[..k][..k - 1] == cores[..k - 1];
    }
  }

  /** The archive holds the accumulator after every prefix of the log. */
  ghost predicate AccumulatorsKept(foreign: Foreign, accumulators: map<Option<BlockHash>, Forest>, log: Log) {
    && (StateAfter(foreign, log).Ok? ==>
          TipOf(log) in accumulators && accumulators[TipOf(log)] == StateAfter(foreign, log).value.accumulator)
    && (log != [] ==> AccumulatorsKept(foreign, accumulators, log[..|log| - 1]))
  }

  /** The last block of the log appended to the frontier; before genesis the empty frontier is on file. */
  predicate FrontierFiled(log: Log) {
    log == [] || Appends(log[|log| - 1].body)
  }

  /** The archive holds the frontier after exactly those prefixes of the log that end with a change of it. */
  ghost predicate FrontiersKept(foreign: Foreign, frontiers: map<Option<BlockHash>, seq<nat>>, log: Log) {
    && (TipOf(log) in frontiers <==> FrontierFiled(log))
    && (StateAfter(foreign, log).Ok? && TipOf(log) in frontiers ==>
          frontiers[TipOf(log)] == StateAfter(foreign, log).value.orchard.frontier)
    && (log != [] ==> FrontiersKept(foreign, frontiers, log[..|log| - 1]))
  }

  /** Frontiers are archived only for blocks that append to them. */
  ghost predicate OnlyAppending(frontiers: map<Option<BlockHash>, seq<nat>>) {
    forall h {:trigger Some(h) in frontiers} | Some(h) in frontiers :: AppendsAny(h.header.merkleRoot.transactions)
  }

  /** The state is the one that the log leads to, and the archive fits it. */
  ghost predicate Booked(foreign: Foreign, s: Snapshot) {
    && StateAfter(foreign, s.log) == Ok(s.contents) && GenuineLog(foreign, s.log)
    && AccumulatorsKept(foreign, s.accumulators, s.log)
    && FrontiersKept(foreign, s.frontiers, s.log) && OnlyAppending(s.frontiers)
  }

  lemma StartIsBooked(foreign: Foreign)
    ensures Booked(foreign, START)
  {
  }

  // -------------------------------------------------------------- the shape of a log

  lemma TipAfterMoves(c: Contents, foreign: Foreign, s: TipStep)
    requires TipAfter(c, foreign, s).Ok?
    ensures s.header.prevSideHash == c.tip && TipAfter(c, foreign, s).value.tip == Some(BlockHash(s.header))
  {
  }

  lemma {:induction false} RunIsChained(foreign: Foreign, log: Log)
    requires StateAfter(foreign, log).Ok?
    ensures Chained(log) && StateAfter(foreign, log).value.tip == TipOf(log)
  {
    hide TipAfter;
    if log != [] {
      RunIsChained(foreign, log[..|log| - 1]);
      TipAfterMoves(StateAfter(foreign, log[..|log| - 1]).value, foreign, log[|log| - 1]);
    }
  }

  lemma {:induction false} ChainedHeight(side: SideTables, log: Log)
    requires side.Valid() && Chained(log) && TipOf(log).Some? && TipOf(log).value in side.tree.height
    ensures |log| == side.tree.height[TipOf(log).value] + 1
  {
    CommonIsBelow(side, TipOf(log).value, None);
    assert side.ParentNamed(TipOf(log).value);
    if |log| > 1 {
      ChainedHeight(side, log[..|log| - 1]);
    }
  }

  lemma {:induction false} ChainedPrefix(side: SideTables, log: Log, a: BlockHash)
    requires side.Valid() && Chained(log) && TipOf(log).Some? && side.tree.IsAncestor(a, TipOf(log).value)
    ensures |log| == side.tree.height[TipOf(log).value] + 1
    ensures TipOf(log[..side.tree.height[a] + 1]) == Some(a)
  {
    var b := TipOf(log).value;
    ChainedHeight(side, log);
    if a == b {
      assert log[..side.tree.height[a] + 1] == log;
    } else {
      CommonIsBelow(side, b, Some(a));
      var init := log[..|log| - 1];
      ChainedPrefix(side, init, a);
      assert init[..side.tree.height[a] + 1] == log[..side.tree.height[a] + 1];
    }
  }

  /** A chained log is never refused for a header that does not extend the tip. */
  lemma {:induction false} ChainedIsAligned(foreign: Foreign, log: Log)
    requires Chained(log)
    ensures StateAfter(foreign, log) != Err(BlockFailed(Rejected(PrevSideHash)))
  {
    hide TipAfter;
    if log != [] {
      var init := log[..|log| - 1];
      ChainedIsAligned(foreign, init);
      if StateAfter(foreign, init).Ok? {
        RunIsChained(foreign, init);
        MisalignedExactly(StateAfter(foreign, init).value, foreign, log[|log| - 1]);
      }
    }
  }

  lemma {:induction false} ChecksNameOtherErrors(c: Contents, foreign: Foreign, txs: seq<Transaction>, k: nat)
    requires k <= |txs| && AllInputsKnown(c.tables.peg.utxos, txs)
    ensures CheckAll(c, foreign, txs, k) != Err(PrevSideHash)
  {
    if k > 0 {
      ChecksNameOtherErrors(c, foreign, txs, k - 1);
    }
  }

  lemma MisalignedExactly(c: Contents, foreign: Foreign, s: TipStep)
    ensures TipAfter(c, foreign, s) == Err(BlockFailed(Rejected(PrevSideHash))) <==> s.header.prevSideHash != c.tip
  {
    if s.header.prevSideHash == c.tip && AllInputsKnown(c.tables.peg.utxos, s.body.transactions) {
      ChecksNameOtherErrors(c, foreign, s.body.transactions, |s.body.transactions|);
    }
  }

  // ------------------------------------------------------------------- connecting

  function WithFrontier(
    frontiers: map<Option<BlockHash>, seq<nat>>, b: BlockHash, frontier: Option<seq<nat>>): map<Option<BlockHash>, seq<nat>>
  {
    if frontier.Some? then frontiers[Some(b) := frontier.value] else frontiers
  }

  /** What is archived for a deeper block does not touch the prefixes of the log. */
  lemma {:induction false} DeeperIsOther(foreign: Foreign, s: Snapshot, log: Log, b: BlockHash, f: Forest, frontier: Option<seq<nat>>)
    requires Chained(log) && Depth(TipOf(log)) < Depth(Some(b))
    requires AccumulatorsKept(foreign, s.accumulators, log) && FrontiersKept(foreign, s.frontiers, log)
    ensures AccumulatorsKept(foreign, s.accumulators[Some(b) := f], log)
    ensures FrontiersKept(foreign, WithFrontier(s.frontiers, b, frontier), log)
    decreases |log|
  {
    if log != [] {
      assert Depth(TipOf(log)) == Depth(TipOf(log[..|log| - 1])) + 1;
      DeeperIsOther(foreign, s, log[..|log| - 1], b, f, frontier);
    }
  }

  /** The snapshot with one more tip connected and its accumulator and changed frontier archived. */
  function Pushed(s: Snapshot, step: TipStep, d: Contents): Snapshot {
    var b := BlockHash(step.header);
    Snapshot(
      d, s.accumulators[Some(b) := d.accumulator],
      WithFrontier(s.frontiers, b, if Appends(step.body) then Some(d.orchard.frontier) else None),
      s.log + [step])
  }

  lemma PushKeepsBooks(foreign: Foreign, s: Snapshot, step: TipStep, d: Contents)
    requires Booked(foreign, s) && Genuine(s.contents, step) && TipAfter(s.contents, foreign, step) == Ok(d)
    ensures Booked(foreign, Pushed(s, step, d)) && step.header.prevSideHash == TipOf(s.log)
  {
    RunIsChained(foreign, s.log);
    TipAfterMoves(s.contents, foreign, step);
    OneMoreTip(foreign, s.log, step);
    PushKeepsArchive(foreign, s, step, d);
  }

  lemma PushKeepsArchive(foreign: Foreign, s: Snapshot, step: TipStep, d: Contents)
    requires Booked(foreign, s) && TipAfter(s.contents, foreign, step) == Ok(d) && StateAfter(foreign, s.log + [step]) == Ok(d)
    requires Chained(s.log) && step.header.prevSideHash == TipOf(s.log)
    ensures var p := Pushed(s, step, d);
            && AccumulatorsKept(foreign, p.accumulators, p.log)
            && FrontiersKept(foreign, p.frontiers, p.log) && OnlyAppending(p.frontiers)
  {
    hide TipAfter, Genuine, GenuineLog, StateAfter, MerkleRootOf, AppendsAny, Appends, AccumulatorsKept, FrontiersKept, Chained, Booked;
    AcceptedRoot(s.contents, foreign, step);
    RootTellsAppends(step.body);
    BookedArchive(foreign, s);
    var b, p := BlockHash(step.header), Pushed(s, step, d);
    DeeperIsOther(foreign, s, s.log, b, d.accumulator, if Appends(step.body) then Some(d.orchard.frontier) else None);
    OneMoreKept(foreign, p.accumulators, p.frontiers, s.log, step, d);
    OneMoreFiled(s.frontiers, b, if Appends(step.body) then Some(d.orchard.frontier) else None);
  }

  lemma BookedArchive(foreign: Foreign, s: Snapshot)
    requires Booked(foreign, s)
    ensures AccumulatorsKept(foreign, s.accumulators, s.log) && FrontiersKept(foreign, s.frontiers, s.log)
    ensures OnlyAppending(s.frontiers)
  {
    hide AccumulatorsKept, FrontiersKept, AppendsAny;
  }

  /** An archive that fits the log and what one more tip leads to fits the longer log. */
  lemma OneMoreKept(
    foreign: Foreign, accumulators: map<Option<BlockHash>, Forest>, frontiers: map<Option<BlockHash>, seq<nat>>, log: Log,
    step: TipStep, d: Contents)
    requires AccumulatorsKept(foreign, accumulators, log) && FrontiersKept(foreign, frontiers, log)
    requires StateAfter(foreign, log + [step]) == Ok(d)
    requires Lookup(accumulators, Some(BlockHash(step.header))) == Some(d.accumulator)
    requires Lookup(frontiers, Some(BlockHash(step.header))) == if Appends(step.body) then Some(d.orchard.frontier) else None
    ensures AccumulatorsKept(foreign, accumulators, log + [step]) && FrontiersKept(foreign, frontiers, log + [step])
  {
    hide StateAfter, Appends;
    assert (log + [step])[..|log|] == log;
  }

  lemma OneMoreFiled(frontiers: map<Option<BlockHash>, seq<nat>>, b: BlockHash, frontier: Option<seq<nat>>)
    requires OnlyAppending(frontiers) && (frontier.Some? ==> AppendsAny(b.header.merkleRoot.transactions))
    ensures OnlyAppending(WithFrontier(frontiers, b, frontier))
  {
    hide AppendsAny;
  }

  lemma AcceptedRoot(c: Contents, foreign: Foreign, s: TipStep)
    requires TipAfter(c, foreign, s).Ok?
    ensures MerkleRootOf(s.body) == s.header.merkleRoot
  {
  }

  // ---------------------------------------------------------------- disconnecting

  function Lookup<K, V>(m: map<K, V>, k: K): Option<V> {
    if k in m then Some(m[k]) else None
  }

  /** The last tip can be undone: the stored body is the one that was connected, and the peg data is undoable. */
  ghost predicate LastUndone(foreign: Foreign, bodies: map<BlockHash, Body>, log: Log)
    requires log != []
  {
    var init, last := log[..|log| - 1], log[|log| - 1];
    && Lookup(bodies, BlockHash(last.header)) == Some(last.body)
    && (StateAfter(foreign, init).Ok? ==> PegUndoable(StateAfter(foreign, init).value, last))
  }

  /** All tips after the first `k` can be undone. */
  ghost predicate Undone(foreign: Foreign, bodies: map<BlockHash, Body>, log: Log, k: nat) {
    |log| > k ==> LastUndone(foreign, bodies, log) && Undone(foreign, bodies, log[..|log| - 1], k)
  }

  predicate NoneAppends(log: Log, n: nat) {
    forall i | n <= i < |log| :: !Appends(log[i].body)
  }

  /** Going back to the first `k` tips finds their frontier: it is on file, or nothing was appended to it. */
  predicate FrontierFound(log: Log, k: nat) {
    k <= |log| && (FrontierFiled(log[..k]) || NoneAppends(log, k))
  }

  /** The snapshot before the last tip. What was archived stays. */
  function Popped(s: Snapshot, d: Contents): Snapshot
    requires s.log != []
  {
    s.(contents := d, log := s.log[..|s.log| - 1])
  }

  /** The last step of a log, in the state that it met. */
  lemma LastStep(foreign: Foreign, log: Log)
    requires log != [] && StateAfter(foreign, log).Ok? && GenuineLog(foreign, log)
    ensures var init := log[..|log| - 1];
            && StateAfter(foreign, init).Ok? && GenuineLog(foreign, init)
            && Genuine(StateAfter(foreign, init).value, log[|log| - 1])
            && TipAfter(StateAfter(foreign, init).value, foreign, log[|log| - 1]) == StateAfter(foreign, log)
  {
    hide TipAfter, Genuine;
  }

  lemma PrefixIsKept(foreign: Foreign, s: Snapshot)
    requires Booked(foreign, s) && s.log != []
    ensures var init := s.log[..|s.log| - 1];
            && StateAfter(foreign, init).Ok? && GenuineLog(foreign, init)
            && TipOf(init) in s.accumulators && s.accumulators[TipOf(init)] == StateAfter(foreign, init).value.accumulator
            && AccumulatorsKept(foreign, s.accumulators, init) && FrontiersKept(foreign, s.frontiers, init)
            && (TipOf(init) in s.frontiers <==> FrontierFiled(init))
            && (FrontierFiled(init) ==> s.frontiers[TipOf(init)] == StateAfter(foreign, init).value.orchard.frontier)
  {
    var init := s.log[..|s.log| - 1];
    LogPrefix(foreign, s.log, |init|);
    assert AccumulatorsKept(foreign, s.accumulators, init) && FrontiersKept(foreign, s.frontiers, init);
  }

  /**
   Disconnecting an undoable tip with what is archived for its parent leads back to the state before
   it exactly when the block appended nothing to the frontier, or the parent did too.
   */
  lemma PopRestoresExactly(foreign: Foreign, s: Snapshot)
    requires Booked(foreign, s) && s.log != []
    requires var before := StateAfter(foreign, s.log[..|s.log| - 1]);
             before.Ok? ==> PegUndoable(before.value, s.log[|s.log| - 1])
    ensures var init, last := s.log[..|s.log| - 1], s.log[|s.log| - 1];
            && StateAfter(foreign, init).Ok? && TipOf(init) in s.accumulators
            && var undone := TipBefore(
                 s.contents, foreign, last, s.accumulators[TipOf(init)], Lookup(s.frontiers, TipOf(init)));
               undone.Ok? && (undone == StateAfter(foreign, init) <==> (Appends(last.body) ==> FrontierFiled(init)))
  {
    hide TipAfter, TipBefore, PegUndoable, NodeInv, StateAfter, GenuineLog, Genuine, Conserved, Booked, Appends, AccumulatorsKept, FrontiersKept;
    var init, last := s.log[..|s.log| - 1], s.log[|s.log| - 1];
    PrefixIsKept(foreign, s);
    BookedState(foreign, s);
    LastStep(foreign, s.log);
    var c := StateAfter(foreign, init).value;
    EveryRun(foreign, init);
    TipRoundTrip(c, HistoryOf(foreign, init), foreign, last, Lookup(s.frontiers, TipOf(init)));
    NothingToFit(last.body);
  }

  lemma BookedState(foreign: Foreign, s: Snapshot)
    requires Booked(foreign, s)
    ensures StateAfter(foreign, s.log) == Ok(s.contents) && GenuineLog(foreign, s.log)
  {
  }

  lemma NothingToFit(body: Body)
    ensures Appends(body) <==> AllCommitments(body.transactions, |body.transactions|) != []
  {
  }

  // ------------------------------------------------------------------ going back

  /** The contents with another frontier. */
  function Stale(c: Contents, frontier: seq<nat>): Contents {
    c.(orchard := c.orchard.(frontier := frontier))
  }

  ghost function FrontierAfter(foreign: Foreign, log: Log): seq<nat> {
    match StateAfter(foreign, log)
    case Err(_) => []
    case Ok(c) => c.orchard.frontier
  }

  /** The frontier when all tips of `log` after the first `n` are disconnected: the last one that was found on file. */
  ghost function RewoundFrontier(foreign: Foreign, log: Log, n: nat): seq<nat>
    decreases |log| - n
  {
    if n >= |log| then FrontierAfter(foreign, log)
    else if FrontierFiled(log[..n]) then FrontierAfter(foreign, log[..n])
    else RewoundFrontier(foreign, log, n + 1)
  }

  lemma FrontierGrows(foreign: Foreign, log: Log, n: nat)
    requires n < |log| && StateAfter(foreign, log).Ok?
    ensures |FrontierAfter(foreign, log[..n + 1])| >= |FrontierAfter(foreign, log[..n])|
    ensures if Appends(log[n].body) then |FrontierAfter(foreign, log[..n + 1])| > |FrontierAfter(foreign, log[..n])|
            else FrontierAfter(foreign, log[..n + 1]) == FrontierAfter(foreign, log[..n])
  {
    hide TipAfter, StateAfter, Appends;
    LogPrefix(foreign, log, n + 1);
    StepAt(foreign, log, n);
    NothingToFit(log[n].body);
    TipGrowsFrontier(StateAfter(foreign, log[..n]).value, foreign, log[n]);
  }

  lemma StepAt(foreign: Foreign, log: Log, n: nat)
    requires n < |log| && StateAfter(foreign, log[..n + 1]).Ok?
    ensures StateAfter(foreign, log[..n]).Ok?
    ensures TipAfter(StateAfter(foreign, log[..n]).value, foreign, log[n]) == StateAfter(foreign, log[..n + 1])
  {
    hide TipAfter;
    assert log[..n + 1][..n] == log[..n] && log[..n + 1][n] == log[n];
  }

  lemma TipGrowsFrontier(c: Contents, foreign: Foreign, s: TipStep)
    requires TipAfter(c, foreign, s).Ok?
    ensures TipAfter(c, foreign, s).value.orchard.frontier ==
            c.orchard.frontier + AllCommitments(s.body.transactions, |s.body.transactions|)
  {
    BundlesRoundTrip(NotesOf(c), s.body.transactions, |s.body.transactions|);
  }

  /**
   Going back restores the frontier exactly when it is on file for the block that is reached, or none
   of the disconnected blocks appended to it.
   */
  lemma {:induction false} FrontierFoundExactly(foreign: Foreign, log: Log, n: nat)
    requires StateAfter(foreign, log).Ok? && n <= |log|
    ensures RewoundFrontier(foreign, log, n) == FrontierAfter(foreign, log[..n]) <==> FrontierFound(log, n)
    ensures |RewoundFrontier(foreign, log, n)| >= |FrontierAfter(foreign, log[..n])|
    decreases |log| - n
  {
    if n == |log| {
      assert log[..n] == log;
    } else if !FrontierFiled(log[..n]) {
      FrontierFoundExactly(foreign, log, n + 1);
      FrontierGrows(foreign, log, n);
      assert log[..n + 1][n] == log[n];
      assert NoneAppends(log, n) <==> !Appends(log[n].body) && NoneAppends(log, n + 1);
    }
  }

  /** On the way back from `start`: everything is as it was after the remaining tips, but for the frontier. */
  ghost predicate Rewinding(foreign: Foreign, start: Log, s: Snapshot) {
    && |s.log| <= |start| && s.log == start[..|s.log|]
    && StateAfter(foreign, start).Ok? && StateAfter(foreign, s.log).Ok? && GenuineLog(foreign, s.log)
    && s.contents == Stale(StateAfter(foreign, s.log).value, RewoundFrontier(foreign, start, |s.log|))
    && AccumulatorsKept(foreign, s.accumulators, s.log)
    && FrontiersKept(foreign, s.frontiers, s.log) && OnlyAppending(s.frontiers)
  }

  lemma BookedStartsRewinding(foreign: Foreign, s: Snapshot)
    requires Booked(foreign, s)
    ensures Rewinding(foreign, s.log, s)
  {
    assert s.log[..|s.log|] == s.log;
  }

  /** The state that is reached is the one after the remaining tips exactly when their frontier is found. */
  lemma RewoundExactly(foreign: Foreign, start: Log, s: Snapshot)
    requires Rewinding(foreign, start, s)
    ensures Booked(foreign, s) <==> FrontierFound(start, |s.log|)
  {
    FrontierFoundExactly(foreign, start, |s.log|);
  }

  lemma StalePegBefore(c: Contents, frontier: seq<nat>, foreign: Foreign, data: PegData)
    ensures PegBefore(Stale(c, frontier), foreign.rank, data) ==
            match PegBefore(c, foreign.rank, data)
            case Err(e) => Err(e)
            case Ok(d) => Ok(Stale(d, frontier))
  {
    hide Disconnect;
  }

  lemma StaleDisconnected(
    c: Contents, frontier: seq<nat>, header: Header, body: Body, prevAccumulator: Forest, prevFrontier: Option<seq<nat>>)
    ensures Disconnected(Stale(c, frontier), header, body, prevAccumulator, prevFrontier) ==
            match Disconnected(c, header, body, prevAccumulator, prevFrontier)
            case Err(e) => Err(e)
            case Ok(d) => Ok(if prevFrontier.Some? then d else Stale(d, frontier))
  {
    hide Undo, MovesOf, Lowered, UndoDiff, DeleteRoot, WithoutNullifiers, MerkleRootOf;
  }

  /** The frontier of the contents matters to disconnecting only where none is given. */
  lemma StaleTipBefore(c: Contents, frontier: seq<nat>, foreign: Foreign, s: TipStep, prevAccumulator: Forest, prevFrontier: Option<seq<nat>>)
    ensures TipBefore(Stale(c, frontier), foreign, s, prevAccumulator, prevFrontier) ==
            match TipBefore(c, foreign, s, prevAccumulator, prevFrontier)
            case Err(e) => Err(e)
            case Ok(d) => Ok(if prevFrontier.Some? then d else Stale(d, frontier))
  {
    hide PegBefore, Disconnected;
    StalePegBefore(c, frontier, foreign, s.data);
    if PegBefore(c, foreign.rank, s.data).Ok? {
      StaleDisconnected(PegBefore(c, foreign.rank, s.data).value, frontier, s.header, s.body, prevAccumulator, prevFrontier);
    }
  }

  lemma RewindingPrefix(foreign: Foreign, start: Log, s: Snapshot)
    requires Rewinding(foreign, start, s) && s.log != []
    ensures var init := s.log[..|s.log| - 1];
            && StateAfter(foreign, init).Ok? && GenuineLog(foreign, init)
            && TipOf(init) in s.accumulators && s.accumulators[TipOf(init)] == StateAfter(foreign, init).value.accumulator
            && AccumulatorsKept(foreign, s.accumulators, init) && FrontiersKept(foreign, s.frontiers, init)
            && Lookup(s.frontiers, TipOf(init)) ==
               if FrontierFiled(init) then Some(StateAfter(foreign, init).value.orchard.frontier) else None
  {
    var b := s.(contents := StateAfter(foreign, s.log).value);
    assert Booked(foreign, b);
    PrefixIsKept(foreign, b);
  }

  lemma PopRestoresRest(foreign: Foreign, log: Log, found: Option<seq<nat>>)
    requires log != [] && StateAfter(foreign, log).Ok? && GenuineLog(foreign, log)
    requires var before := StateAfter(foreign, log[..|log| - 1]); before.Ok? ==> PegUndoable(before.value, log[|log| - 1])
    ensures var init := log[..|log| - 1];
            && StateAfter(foreign, init).Ok?
            && var c := StateAfter(foreign, init).value;
               TipBefore(StateAfter(foreign, log).value, foreign, log[|log| - 1], c.accumulator, found) ==
               Ok(Stale(c, if found.Some? then found.value else FrontierAfter(foreign, log)))
  {
    hide TipAfter, TipBefore, PegUndoable, NodeInv, StateAfter, GenuineLog, Genuine, FrontierFits, Conserved;
    var init := log[..|log| - 1];
    LastStep(foreign, log);
    EveryRun(foreign, init);
    TipRoundTrip(StateAfter(foreign, init).value, HistoryOf(foreign, init), foreign, log[|log| - 1], found);
  }

  /** An undoable tip is disconnected without an error, and the node is still on the way back. */
  lemma PopKeepsRewinding(foreign: Foreign, bodies: map<BlockHash, Body>, start: Log, s: Snapshot)
    requires Rewinding(foreign, start, s) && s.log != [] && LastUndone(foreign, bodies, s.log)
    ensures var init, last := s.log[..|s.log| - 1], s.log[|s.log| - 1];
            && TipOf(init) in s.accumulators
            && var undone := TipBefore(
                 s.contents, foreign, last, s.accumulators[TipOf(init)], Lookup(s.frontiers, TipOf(init)));
               undone.Ok? && Rewinding(foreign, start, Popped(s, undone.value))
  {
    hide TipAfter, TipBefore, PegUndoable, NodeInv;
    var init, last := s.log[..|s.log| - 1], s.log[|s.log| - 1];
    RewindingPrefix(foreign, start, s);
    var c := StateAfter(foreign, init).value;
    var found := Lookup(s.frontiers, TipOf(init));
    PopRestoresRest(foreign, s.log, found);
    StaleTipBefore(
      StateAfter(foreign, s.log).value, RewoundFrontier(foreign, start, |s.log|), foreign, last, s.accumulators[TipOf(init)], found);
    assert start[..|s.log| - 1] == init;
  }

  // -------------------------------------------------------------- the log's blocks

  ghost predicate KnownVerified(side: SideTables, main: MainTables, b: BlockHash) {
    main.Valid() && b in side.tree.height && exists m :: m in main.infos && IsVerified(main, b, m)
  }

  /**
   The log leads to a verified block with stored bodies; if its genesis block was built on a mainchain
   block, every tip was connected with its own share of events.
   */
  ghost predicate LogOk(side: SideTables, main: MainTables, bodies: map<BlockHash, Body>, log: Log) {
    && side.Valid() && main.Valid()
    && (TipOf(log).Some? ==> KnownVerified(side, main, TipOf(log).value))
    && Climbs(main, TipOf(log)) && BodiesDown(bodies, TipOf(log))
    && (TipOf(log).Some? && Rooted(TipOf(log).value) ==> OwnShares(main, log))
  }

  /** A block that may be connected next. */
  ghost predicate Connectable(side: SideTables, main: MainTables, bodies: map<BlockHash, Body>, b: BlockHash) {
    KnownVerified(side, main, b) && b in bodies && Climbs(main, Some(b))
  }

  lemma PushKeepsLog(
    side: SideTables, main: MainTables, bodies: map<BlockHash, Body>, log: Log, b: BlockHash, data: PegData)
    requires LogOk(side, main, bodies, log) && b.header.prevSideHash == TipOf(log) && Connectable(side, main, bodies, b)
    requires Rooted(b) ==> data == BatchOf(main, b)
    ensures LogOk(side, main, bodies, log + [TipStep(b.header, bodies[b], data)])
  {
    var longer := log + [TipStep(b.header, bodies[b], data)];
    assert longer[..|log|] == log;
    assert BlockHash(b.header) == b;
  }

  lemma EmptyLogOk(side: SideTables, main: MainTables, bodies: map<BlockHash, Body>)
    requires side.Valid() && main.Valid()
    ensures LogOk(side, main, bodies, [])
  {
  }

  function HeightAbove(side: SideTables, common: Option<BlockHash>): nat {
    if common.Some? && common.value in side.tree.height then side.tree.height[common.value] + 1 else 0
  }

  /** The prefix of the log up to an ancestor of its tip. */
  lemma PrefixKeepsLog(
    side: SideTables, main: MainTables, bodies: map<BlockHash, Body>, log: Log, common: Option<BlockHash>)
    requires LogOk(side, main, bodies, log) && Chained(log)
    requires common.Some? ==> TipOf(log).Some? && side.tree.IsAncestor(common.value, TipOf(log).value)
    ensures TipOf(log).Some? ==> |log| == side.tree.height[TipOf(log).value] + 1
    ensures var n := HeightAbove(side, common);
            n <= |log| && TipOf(log[..n]) == common && LogOk(side, main, bodies, log[..n])
  {
    hide OwnShares, Climbs, BodiesDown, MainTables.WorkAdds, MainTables.ParentHasInfo, MainTables.ListsChildren, SideTables.ListsChildren, Tree.SkipsExact;
    var n := HeightAbove(side, common);
    if TipOf(log).Some? {
      ChainedHeight(side, log);
    }
    if common.Some? {
      var b, a := TipOf(log).value, common.value;
      ChainedPrefix(side, log, a);
      PathClimbs(side, main, b, a);
      BodiesDownPrefix(side, bodies, b, a);
      var m :| m in main.infos && IsVerified(main, b, m);
      var p := AncestorIsVerified(side, main, b, m, a);
      if Rooted(a) {
        SharesPrefix(main, log, n);
      }
    } else {
      EmptyLogOk(side, main, bodies);
    }
  }

  lemma {:induction false} BodiesDownPrefix(side: SideTables, bodies: map<BlockHash, Body>, b: BlockHash, a: BlockHash)
    requires side.Valid() && side.tree.IsAncestor(a, b) && BodiesDown(bodies, Some(b))
    ensures BodiesDown(bodies, Some(a))
    decreases b
  {
    if a != b {
      CommonIsBelow(side, b, Some(a));
      BodiesDownPrefix(side, bodies, b.header.prevSideHash.value, a);
    }
  }

  /**
   Whatever a node has gone through, its state satisfies the invariant for its chain, value is
   conserved, and the connected tips together have brought in all events of the mainchain up to the
   block that the tip was built on, in order and each exactly once.
   */
  lemma CommittedStateIsSound(
    side: SideTables, main: MainTables, bodies: map<BlockHash, Body>, foreign: Foreign, s: Snapshot)
    requires Booked(foreign, s) && LogOk(side, main, bodies, s.log)
    ensures NodeInv(s.contents, HistoryOf(foreign, s.log)) && Conserved(s.contents, BooksAfter(foreign, s.log))
    ensures s.contents.tip == TipOf(s.log)
    ensures s.contents.tip.Some? && Rooted(s.contents.tip.value) ==>
              var m := s.contents.tip.value.header.prevMainHash;
              InfosDown(main, m) && AllData(s.log) == Slice(main, m, 0, main.tree.height[m])
  {
    hide NodeInv, Conserved, GenuineLog, StateAfter, HistoryOf, BooksAfter, Booked, BodiesDown, KnownVerified, Tree.Linked, Climbs, Chained, OwnShares, AllData, Slice, InfosDown;
    BookedState(foreign, s);
    EveryRun(foreign, s.log);
    RunIsChained(foreign, s.log);
    if TipOf(s.log).Some? && Rooted(TipOf(s.log).value) {
      SharesPartition(main, s.log);
    }
  }

  // -------------------------------------------------------------------- arrivals

  lemma {:induction false} MoreBodies(bodies: map<BlockHash, Body>, more: map<BlockHash, Body>, b: Option<BlockHash>)
    requires bodies.Keys <= more.Keys && BodiesDown(bodies, b)
    ensures BodiesDown(more, b)
    decreases b
  {
    if b.Some? {
      assert b.value in bodies.Keys;
      MoreBodies(bodies, more, b.value.header.prevSideHash);
    }
  }

  /** The log stays what it must be as headers, mainchain blocks and bodies arrive. */
  lemma ArrivalKeepsLog(
    side: SideTables, main: MainTables, bodies: map<BlockHash, Body>,
    side': SideTables, main': MainTables, bodies': map<BlockHash, Body>, log: Log)
    requires LogOk(side, main, bodies, log) && side'.Valid() && main'.Valid()
    requires side.tree.height.Keys <= side'.tree.height.Keys && MainExtends(main, main')
    requires bodies.Keys <= bodies'.Keys
    ensures LogOk(side', main', bodies', log)
  {
    ClimbsStable(main, main', TipOf(log));
    MoreBodies(bodies, bodies', TipOf(log));
    if TipOf(log).Some? {
      var b := TipOf(log).value;
      var m :| m in main.infos && IsVerified(main, b, m);
      VerdictIsFinal(main, main', b, m);
      if Rooted(b) {
        SharesStable(main, main', log);
      }
    }
  }
}
