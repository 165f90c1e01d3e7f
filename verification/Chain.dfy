/**
 The tip of the chain: a block and its peg data are connected together and disconnected together.
 What holds in every state of every run from the genesis state.
 */
module Chain {
  import opened Types
  import opened RollBack
  import opened Accumulator
  import opened Peg
  import opened PegInvariant
  import opened PegRoundTrip
  import opened PegRepeats
  import opened PegBlock
  import opened PegBlockRoundTrip
  import opened PegFailures
  import opened State
  import opened Sums
  import opened Moves
  import opened Shielded
  import opened Validation
  import opened Acceptance
  import opened BlockSpec
  import opened Wealth
  import opened PegDiff
  import opened PegSync
  import opened PegTracks

  const GENESIS := Contents(
    None, None, PegTables(PegState(map[], map[], None, None, map[]), [], []),
    OrchardTables([], GENESIS_ROOTS, {}), Forest({}, []))

  // ------------------------------------------------------------------------ steps

  /** A block with the mainchain blocks whose events it brings in. */
  datatype TipStep = TipStep(header: Header, body: Body, data: PegData)

  datatype TipError =
    | BlockFailed(reason: ConnectError) | PegDataFailed(error: BlockError) | UndoFailed(cause: DisconnectError)

  /** The peg data of the block at the tip takes effect on the peg tables and, as one batch, on the accumulator. */
  ghost function PegAfter(c: Contents, rank: Rank, data: PegData): Result<Contents, BlockError> {
    if c.height.None? then Err(NoTip)
    else
      match Connect(c.tables, c.height.value, data)
      case Err(e) => Err(e)
      case Ok(t) =>
        var diff := EventsDiff(c.tables.peg, c.height.value, AllEvents(data), rank);
        Ok(c.(tables := t, accumulator := Applied(c.accumulator, diff)))
  }

  /** ... and is disconnected again. */
  ghost function PegBefore(c: Contents, rank: Rank, data: PegData): Result<Contents, BlockError> {
    if c.height.None? then Err(NoTip)
    else
      match Disconnect(c.tables, c.height.value, data)
      case Err(e) => Err(e)
      case Ok(t) =>
        var diff := UndoEventsDiff(EMPTY_DIFF, c.tables.peg, c.height.value, AllEvents(data), rank);
        Ok(c.(tables := t, accumulator := Applied(c.accumulator, diff)))
  }

  /** The state after a block and its peg data are connected, or the first part that refuses. */
  ghost function TipAfter(c: Contents, foreign: Foreign, s: TipStep): Result<Contents, TipError> {
    var verdict := Verdict(c, foreign, s.header, s.body);
    if verdict.Err? then Err(BlockFailed(Rejected(verdict.error)))
    else
      match Connected(c, s.header, s.body)
      case Err(e) => Err(BlockFailed(e))
      case Ok(mid) =>
        match PegAfter(mid, foreign.rank, s.data)
        case Err(e) => Err(PegDataFailed(e))
        case Ok(d) => Ok(d)
  }

  /** The state after the peg data and then the block are disconnected, or the first part that fails. */
  ghost function TipBefore(
    c: Contents, foreign: Foreign, s: TipStep, prevAccumulator: Forest, prevFrontier: Option<seq<nat>>)
    : Result<Contents, TipError>
  {
    match PegBefore(c, foreign.rank, s.data)
    case Err(e) => Err(PegDataFailed(e))
    case Ok(between) =>
      match Disconnected(between, s.header, s.body, prevAccumulator, prevFrontier)
      case Err(e) => Err(UndoFailed(e))
      case Ok(d) => Ok(d)
  }

  /** What is taken for granted of a step that extends the tip. */
  ghost predicate Genuine(c: Contents, s: TipStep) {
    s.header.prevSideHash == c.tip ==> AllNew(c, s)
  }

  /** Created outpoints, deposits and minted bundle ids are new. */
  ghost predicate AllNew(c: Contents, s: TipStep) {
    && Fresh(LedgerOf(c), MovesOf(s.body))
    && (Connected(c, s.header, s.body).Ok? ==>
          var mid := Connected(c, s.header, s.body).value;
          && GenuineEvents(mid.tables.peg, AllEvents(s.data))
          && MintsFresh(mid.tables.peg, NextHeight(c.height), s.data))
  }

  lemma AcceptedIsNew(c: Contents, foreign: Foreign, s: TipStep)
    requires Genuine(c, s) && Verdict(c, foreign, s.header, s.body).Ok?
    ensures AllNew(c, s)
  {
  }

  // -------------------------------------------------------------------- invariants

  ghost predicate NodeInv(c: Contents, hist: History) {
    ChainInv(c, hist) && PegInvBelow(c.tables.peg, NextHeight(c.height))
  }

  lemma {:induction false} CreatedAuthentic(moves: seq<Move>)
    requires BlockMoves(moves)
    ensures Authentic(Created(moves))
  {
    if moves != [] {
      BlockMovesInit(moves);
      CreatedAuthentic(moves[..|moves| - 1]);
    }
  }

  lemma {:induction false} SpentFromOutputs(utxos: map<OutPoint, Output>, moves: seq<Move>)
    ensures forall o | o in SpentFrom(utxos, moves) :: o in utxos && SpentFrom(utxos, moves)[o].output == utxos[o]
  {
    if moves != [] {
      SpentFromOutputs(utxos, moves[..|moves| - 1]);
    }
  }

  lemma MovesKeepOutputs(p: PegState, moves: seq<Move>)
    requires OutputsOk(p) && BlockMoves(moves)
    requires Spendable(p.utxos, moves) && Fresh(Ledger(p.utxos, p.stxos), moves)
    ensures var l := AllAtOnce(Ledger(p.utxos, p.stxos), moves);
            OutputsOk(p.(utxos := l.utxos, stxos := l.stxos)) && forall m :: KeepsWithdrawn(p, p.(utxos := l.utxos, stxos := l.stxos), m)
  {
    CreatedAuthentic(moves);
    SpentFromOutputs(p.utxos, moves);
    KeysOfTables(p.utxos, moves);
    PerformKeepsDisjoint(Ledger(p.utxos, p.stxos), moves);
    var l := AllAtOnce(Ledger(p.utxos, p.stxos), moves);
    forall o {:trigger CommittedOutput(o)} | o in l.utxos
      ensures CommittedOutput(o) == Some(l.utxos[o])
    {
    }
    forall o {:trigger CommittedOutput(o)} | o in l.stxos
      ensures CommittedOutput(o) == Some(l.stxos[o].output)
    {
      if o in SpentFrom(p.utxos, moves) {
        assert CommittedOutput(o) == Some(p.utxos[o]);
      }
    }
  }

  /** A block body leaves the bundle automaton alone. */
  lemma MovesKeepPegInv(p: PegState, height: nat, moves: seq<Move>)
    requires PegInvBelow(p, height) && BlockMoves(moves)
    requires Spendable(p.utxos, moves) && Fresh(Ledger(p.utxos, p.stxos), moves)
    ensures var l := AllAtOnce(Ledger(p.utxos, p.stxos), moves); PegInvBelow(p.(utxos := l.utxos, stxos := l.stxos), height)
  {
    MovesKeepOutputs(p, moves);
    var l := AllAtOnce(Ledger(p.utxos, p.stxos), moves);
    var q := p.(utxos := l.utxos, stxos := l.stxos);
    forall m {:trigger EntryOk(q, height, m)} | m in q.bundles
      ensures EntryOk(q, height, m)
    {
      assert EntryOk(p, height, m) && KeepsWithdrawn(p, q, m);
    }
  }

  lemma GenesisInv()
    ensures NodeInv(GENESIS, [])
  {
    assert LeavesOf(map[]) == {};
  }

  /** After the block and before its peg data. */
  lemma BodyKeepsInv(c: Contents, hist: History, foreign: Foreign, s: TipStep)
    requires NodeInv(c, hist) && Genuine(c, s) && Verdict(c, foreign, s.header, s.body).Ok?
    requires Connected(c, s.header, s.body).Ok?
    ensures var mid := Connected(c, s.header, s.body).value;
            && ChainInv(mid, Extended(hist, s.header, mid.orchard.frontier))
            && PegInvBelow(mid.tables.peg, mid.height.value)
            && LedgerOf(mid) == AllAtOnce(LedgerOf(c), MovesOf(s.body))
            && mid.tables == WithLedger(c.tables, LedgerOf(mid)) && mid.height == Some(NextHeight(c.height))
    ensures AllNew(c, s)
  {
    AcceptedIsNew(c, foreign, s);
    AcceptedMoves(c, foreign, s.header, s.body);
    BodyIsBlockMoves(s.body, |s.body.transactions|);
    AcceptedConnects(c, hist, foreign, s.header, s.body);
    ConnectKeepsChain(c, hist, foreign, s.header, s.body);
    MovesKeepPegInv(c.tables.peg, NextHeight(c.height), MovesOf(s.body));
  }

  lemma PegAfterInSync(c: Contents, rank: Rank, data: PegData)
    requires c.height.Some? && PegInvBelow(c.tables.peg, c.height.value) && PegAfter(c, rank, data).Ok?
    requires GenuineEvents(c.tables.peg, AllEvents(data)) && c.accumulator.leaves == LeavesOf(c.tables.peg.utxos)
    ensures var d := PegAfter(c, rank, data).value; d.accumulator.leaves == LeavesOf(d.tables.peg.utxos)
  {
    var events := AllEvents(data);
    assert events[..|events|] == events;
    EventsTrack(c.tables.peg, c.height.value, events, |events|, rank);
    MintMovesNothing(c.tables, c.height.value, data);
    ApplyTracked(c.accumulator, EventsDiff(c.tables.peg, c.height.value, events, rank),
                 LeavesOf(ConnectEvents(c.tables.peg, c.height.value, events).value.utxos));
  }

  lemma MintMovesNothing(t: PegTables, height: nat, data: PegData)
    requires Connect(t, height, data).Ok?
    ensures ConnectEvents(t.peg, height, AllEvents(data)).Ok?
    ensures var p, q := ConnectEvents(t.peg, height, AllEvents(data)).value, Connect(t, height, data).value.peg;
            p.utxos == q.utxos && p.stxos == q.stxos
  {
  }

  /** Connecting a block with its peg data keeps the invariant, for the chain with that block added. */
  lemma TipKeepsInv(c: Contents, hist: History, foreign: Foreign, s: TipStep)
    requires NodeInv(c, hist) && Genuine(c, s) && TipAfter(c, foreign, s).Ok?
    ensures var d := TipAfter(c, foreign, s).value;
            NodeInv(d, Extended(hist, s.header, d.orchard.frontier)) && d.tip == Some(BlockHash(s.header))
  {
    hide Verdict, Connected, MovesOf, EventsDiff, Applied;
    BodyKeepsInv(c, hist, foreign, s);
    var mid := Connected(c, s.header, s.body).value;
    PegAfterInSync(mid, foreign.rank, s.data);
    ConnectKeepsInv(mid.tables, mid.height.value, s.data);
  }

  // -------------------------------------------------------------------- round trip

  /** The peg data of the step is undone exactly when it is disconnected. */
  ghost predicate PegUndoable(c: Contents, s: TipStep) {
    Connected(c, s.header, s.body).Ok? ==>
      var mid := Connected(c, s.header, s.body).value;
      && mid.height.Some? && Restorable(mid.tables, mid.height.value, s.data)
  }

  lemma GenuineIsAuthentic(p: PegState, events: seq<BlockEvent>)
    requires GenuineEvents(p, events)
    ensures AuthenticDeposits(events)
  {
    forall e {:trigger AuthenticDeposit(e)} | e in events
      ensures AuthenticDeposit(e)
    {
      var i :| 0 <= i < |events| && events[i] == e;
      assert GenuineEvent(p, events[i]);
    }
  }

  lemma UndoneMintMovesNothing(t: PegTables, height: nat, data: PegData)
    requires Disconnect(t, height, data).Ok?
    ensures DisconnectEvents(t.peg, height, AllEvents(data)).Ok?
    ensures var p, q := DisconnectEvents(t.peg, height, AllEvents(data)).value, Disconnect(t, height, data).value.peg;
            p.utxos == q.utxos && p.stxos == q.stxos
  {
  }

  lemma PegBeforeInSync(c: Contents, bound: nat, rank: Rank, data: PegData)
    requires c.height.Some? && PegInv(c.tables.peg, bound) && PegBefore(c, rank, data).Ok?
    requires AuthenticDeposits(AllEvents(data)) && c.accumulator.leaves == LeavesOf(c.tables.peg.utxos)
    ensures var d := PegBefore(c, rank, data).value; d.accumulator.leaves == LeavesOf(d.tables.peg.utxos)
  {
    var events, p := AllEvents(data), c.tables.peg;
    InvIsBalanced(p, bound);
    UndoneMintMovesNothing(c.tables, c.height.value, data);
    UndoEventsTrack(EMPTY_DIFF, LeavesOf(p.utxos), p, c.height.value, events, rank);
    ApplyTracked(c.accumulator, UndoEventsDiff(EMPTY_DIFF, p, c.height.value, events, rank),
                 LeavesOf(DisconnectEvents(p, c.height.value, events).value.utxos));
  }

  /** Disconnecting undoable peg data restores the state between the block and its peg data, up to the log of batches. */
  lemma PegPartRoundTrip(c: Contents, hist: History, foreign: Foreign, s: TipStep)
    requires NodeInv(c, hist) && Genuine(c, s) && TipAfter(c, foreign, s).Ok? && PegUndoable(c, s)
    ensures var mid, r := Connected(c, s.header, s.body).value, PegBefore(TipAfter(c, foreign, s).value, foreign.rank, s.data);
            r.Ok? && r.value == mid.(accumulator := r.value.accumulator) && r.value.accumulator.leaves == mid.accumulator.leaves
  {
    hide Verdict, Connected, MovesOf, EventsDiff, UndoEventsDiff, Applied;
    BodyKeepsInv(c, hist, foreign, s);
    TipKeepsInv(c, hist, foreign, s);
    var mid, d := Connected(c, s.header, s.body).value, TipAfter(c, foreign, s).value;
    RestorableIsRestored(mid.tables, mid.height.value, s.data);
    GenuineIsAuthentic(mid.tables.peg, AllEvents(s.data));
    PegBeforeInSync(d, NextHeight(d.height), foreign.rank, s.data);
  }

  /**
   Disconnecting a tip: its peg data first, then its block, with the archived accumulator of the
   parent. When the peg data is undoable this succeeds, and it restores the state before the tip
   exactly when the frontier fits too.
   */
  lemma TipRoundTrip(c: Contents, hist: History, foreign: Foreign, s: TipStep, prevFrontier: Option<seq<nat>>)
    requires NodeInv(c, hist) && Genuine(c, s) && TipAfter(c, foreign, s).Ok? && PegUndoable(c, s)
    ensures var r := TipBefore(TipAfter(c, foreign, s).value, foreign, s, c.accumulator, prevFrontier);
            && r.Ok?
            && r.value == c.(orchard := c.orchard.(
                 frontier := if prevFrontier.Some? then prevFrontier.value else TipAfter(c, foreign, s).value.orchard.frontier))
            && (r.value == c <==> FrontierFits(c, s.body, prevFrontier))
  {
    PegPartRoundTrip(c, hist, foreign, s);
    hide Connected, MovesOf, Disconnected, FrontierFits, PegBefore, PegAfter, PegUndoable, Genuine;
    var between := PegBefore(TipAfter(c, foreign, s).value, foreign.rank, s.data).value;
    assert Fresh(LedgerOf(c), MovesOf(s.body)) by {
      AcceptedIsNew(c, foreign, s);
    }
    DisconnectUndoesConnect(c, hist, foreign, s.header, s.body, between.accumulator, c.accumulator, prevFrontier);
  }

  // ----------------------------------------------------------------------- all runs

  /** The connected tips, oldest first. */
  type Log = seq<TipStep>

  /** The state that a log leads to from genesis, or the first error. */
  ghost function StateAfter(foreign: Foreign, log: Log): Result<Contents, TipError> {
    if log == [] then Ok(GENESIS)
    else
      var before :- StateAfter(foreign, log[..|log| - 1]);
      TipAfter(before, foreign, log[|log| - 1])
  }

  /** Every step is genuine in the state that it meets. */
  ghost predicate GenuineLog(foreign: Foreign, log: Log) {
    log == [] ||
    (&& GenuineLog(foreign, log[..|log| - 1])
     && var before := StateAfter(foreign, log[..|log| - 1]);
        before.Ok? ==> Genuine(before.value, log[|log| - 1]))
  }

  lemma OneMoreTip(foreign: Foreign, log: Log, s: TipStep)
    requires StateAfter(foreign, log).Ok?
    ensures StateAfter(foreign, log + [s]) == TipAfter(StateAfter(foreign, log).value, foreign, s)
    ensures GenuineLog(foreign, log + [s]) <==> GenuineLog(foreign, log) && Genuine(StateAfter(foreign, log).value, s)
  {
    assert (log + [s])[..|log|] == log;
  }

  /** A tip that is refused is refused in every longer log, and a genuine log begins with genuine logs. */
  lemma {:induction false} LogPrefix(foreign: Foreign, log: Log, n: nat)
    requires n <= |log|
    ensures StateAfter(foreign, log).Ok? ==> StateAfter(foreign, log[..n]).Ok?
    ensures StateAfter(foreign, log[..n]).Err? ==> StateAfter(foreign, log) == StateAfter(foreign, log[..n])
    ensures GenuineLog(foreign, log) ==> GenuineLog(foreign, log[..n])
    decreases |log|
  {
    if n == |log| {
      assert log[..n] == log;
    } else {
      assert log[..|log| - 1][..n] == log[..n];
      LogPrefix(foreign, log[..|log| - 1], n);
    }
  }

  /** The value in the shielded pool, and the fees that no coinbase has claimed. */
  datatype Books = Books(pool: int, unclaimed: int)

  ghost function NextBooks(foreign: Foreign, books: Books, c: Contents, s: TipStep): Books
    requires Verdict(c, foreign, s.header, s.body).Ok?
  {
    Books(
      books.pool - BalanceSum(s.body.transactions, |s.body.transactions|),
      books.unclaimed + Verdict(c, foreign, s.header, s.body).value - TotalValue(s.body.coinbase))
  }

  ghost function BooksAfter(foreign: Foreign, log: Log): Books
    requires StateAfter(foreign, log).Ok?
  {
    if log == [] then Books(0, 0)
    else
      var init := log[..|log| - 1];
      NextBooks(foreign, BooksAfter(foreign, init), StateAfter(foreign, init).value, log[|log| - 1])
  }

  ghost function HistoryOf(foreign: Foreign, log: Log): History
    requires StateAfter(foreign, log).Ok?
  {
    if log == [] then []
    else
      Extended(HistoryOf(foreign, log[..|log| - 1]), log[|log| - 1].header, StateAfter(foreign, log).value.orchard.frontier)
  }

  /** Whatever circulates, is shielded or is left unclaimed adds up to the sidechain's wealth. */
  ghost predicate Conserved(c: Contents, books: Books) {
    var utxos, stxos := c.tables.peg.utxos, c.tables.peg.stxos;
    && Circulating(utxos) + books.pool + books.unclaimed == WealthOf(utxos, stxos) && books.unclaimed >= 0
    && (books.pool >= 0 ==> Circulating(utxos) <= WealthOf(utxos, stxos))
  }

  lemma TipConserves(c: Contents, hist: History, foreign: Foreign, s: TipStep)
    requires NodeInv(c, hist) && Genuine(c, s) && TipAfter(c, foreign, s).Ok?
    ensures var unclaimed := Verdict(c, foreign, s.header, s.body).value - TotalValue(s.body.coinbase);
            && unclaimed >= 0
            && Elsewhere(LedgerOf(TipAfter(c, foreign, s).value)) ==
               Elsewhere(LedgerOf(c)) + unclaimed - BalanceSum(s.body.transactions, |s.body.transactions|)
  {
    hide Verdict, Connected, MovesOf, Elsewhere, EventsDiff, Applied;
    BodyKeepsInv(c, hist, foreign, s);
    BlockConserves(c, foreign, s.header, s.body);
    var mid := Connected(c, s.header, s.body).value;
    var events := AllEvents(s.data);
    assert events[..|events|] == events;
    EventsConserve(mid.tables.peg, mid.height.value, events, |events|);
    MintMovesNothing(mid.tables, mid.height.value, s.data);
  }

  lemma OneStep(c: Contents, hist: History, foreign: Foreign, books: Books, s: TipStep)
    requires NodeInv(c, hist) && Conserved(c, books) && Genuine(c, s) && TipAfter(c, foreign, s).Ok?
    ensures var d := TipAfter(c, foreign, s).value;
            && NodeInv(d, Extended(hist, s.header, d.orchard.frontier)) && Conserved(d, NextBooks(foreign, books, c, s))
            && d.tip == Some(BlockHash(s.header))
  {
    TipKeepsInv(c, hist, foreign, s);
    TipConserves(c, hist, foreign, s);
    hide Genuine, NodeInv, WealthOf, Circulating;
  }

  lemma GenesisConserved()
    ensures Conserved(GENESIS, Books(0, 0))
  {
    assert WealthOf(map[], map[]) == 0 && Circulating(map[]) == 0;
  }

  function TipOf(log: Log): Option<BlockHash> {
    if log == [] then None else Some(BlockHash(log[|log| - 1].header))
  }

  /** In the state after every run the invariant holds for the chain so far, and value is conserved. */
  lemma {:induction false} EveryRun(foreign: Foreign, log: Log)
    requires StateAfter(foreign, log).Ok? && GenuineLog(foreign, log)
    ensures var c := StateAfter(foreign, log).value;
            NodeInv(c, HistoryOf(foreign, log)) && Conserved(c, BooksAfter(foreign, log)) && c.tip == TipOf(log)
  {
    hide Genuine, NodeInv, Conserved, NextBooks, Extended, TipAfter;
    if log == [] {
      GenesisInv();
      GenesisConserved();
    } else {
      var init := log[..|log| - 1];
      EveryRun(foreign, init);
      OneStep(StateAfter(foreign, init).value, HistoryOf(foreign, init), foreign, BooksAfter(foreign, init), log[|log| - 1]);
    }
  }

  /** The last tip of a run can be undone: its peg data is undoable and the given frontier fits. */
  ghost predicate LastUndoable(foreign: Foreign, log: Log, prevFrontier: Option<seq<nat>>)
    requires log != []
  {
    var before := StateAfter(foreign, log[..|log| - 1]);
    before.Ok? ==>
      && PegUndoable(before.value, log[|log| - 1])
      && FrontierFits(before.value, log[|log| - 1].body, prevFrontier)
  }

  /**
   Disconnecting the tip of a run leads back to the run's previous state: a node that goes back and
   forth only ever is in the state of some run.
   */
  lemma DisconnectStaysOnRun(foreign: Foreign, log: Log, prevFrontier: Option<seq<nat>>)
    requires log != [] && StateAfter(foreign, log).Ok? && GenuineLog(foreign, log)
    requires LastUndoable(foreign, log, prevFrontier)
    ensures var before := StateAfter(foreign, log[..|log| - 1]);
            && before.Ok?
            && TipBefore(StateAfter(foreign, log).value, foreign, log[|log| - 1], before.value.accumulator, prevFrontier) == before
  {
    hide Genuine, NodeInv, Conserved, TipAfter, TipBefore, FrontierFits, PegUndoable;
    var init := log[..|log| - 1];
    EveryRun(foreign, init);
    TipRoundTrip(StateAfter(foreign, init).value, HistoryOf(foreign, init), foreign, log[|log| - 1], prevFrontier);
  }
}
