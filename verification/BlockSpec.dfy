/**
 What connecting a block and disconnecting the tip do to the contents of the state, and what holds
 of the state along every chain of connected blocks.
 */
module BlockSpec {
  import opened Types
  import opened Accumulator
  import opened Peg
  import opened PegBlock
  import opened State
  import opened Moves
  import opened Shielded
  import opened Validation
  import opened Acceptance

  datatype ConnectError =
    | Rejected(reason: ValidationError) | WrongTip | WrongBody | MissingInput
    | OrchardFailed(error: OrchardError) | AccumulatorFailed

  datatype DisconnectError = TipMissing | WrongTip | WrongBody | Missing(what: MissingOutput) | AccumulatorFailed

  function LedgerOf(c: Contents): Ledger {
    Ledger(c.tables.peg.utxos, c.tables.peg.stxos)
  }

  function NotesOf(c: Contents): Notes {
    Notes(c.orchard.frontier, c.orchard.nullifiers)
  }

  function WithLedger(t: PegTables, l: Ledger): PegTables {
    t.(peg := t.peg.(utxos := l.utxos, stxos := l.stxos))
  }

  // -------------------------------------------------------------------- connecting

  /** The block becomes the tip: the moves, the bundles and the accumulator diff all take effect, or none. */
  function Connected(c: Contents, header: Header, body: Body): Result<Contents, ConnectError> {
    var ledger := Perform(LedgerOf(c), MovesOf(body));
    var notes := ConnectBundles(NotesOf(c), body.transactions, |body.transactions|);
    if ledger.None? then Err(MissingInput)
    else if notes.Err? then Err(OrchardFailed(notes.error))
    else
      match Modify(c.accumulator, Adds(DiffOf(body)), Dels(DiffOf(body)))
      case Err(_) => Err(ConnectError.AccumulatorFailed)
      case Ok(accumulator) =>
        Ok(Contents(
             Some(BlockHash(header)), Some(NextHeight(c.height)), WithLedger(c.tables, ledger.value),
             OrchardTables(
               notes.value.frontier,
               PutRoot(c.orchard.roots, BlockHash(header), Root(notes.value.frontier)),
               notes.value.nullifiers),
             accumulator))
  }

  /** What stops the first `k` transactions when they are connected one at a time, inputs before bundle. */
  function FirstRefusal(l: Ledger, n: Notes, body: Body, k: nat): Option<ConnectError>
    requires k <= |body.transactions|
  {
    if k == 0 then None
    else
      var before := FirstRefusal(l, n, body, k - 1);
      if before.Some? then before
      else if Perform(l, BodyMoves(body, k)).None? then Some(MissingInput)
      else
        match ConnectBundles(n, body.transactions, k)
        case Err(e) => Some(OrchardFailed(e))
        case Ok(_) => None
  }

  /** A refusal is final. */
  lemma {:induction false} RefusalStays(l: Ledger, n: Notes, body: Body, i: nat, k: nat)
    requires i <= k <= |body.transactions| && FirstRefusal(l, n, body, i).Some?
    ensures FirstRefusal(l, n, body, k) == FirstRefusal(l, n, body, i)
    decreases k
  {
    hide Perform, BodyMoves, ConnectBundles;
    if i < k {
      RefusalStays(l, n, body, i, k - 1);
    }
  }

  /** Connecting a block one transaction at a time. */
  function ConnectedOneByOne(c: Contents, header: Header, body: Body): Result<Contents, ConnectError> {
    match FirstRefusal(LedgerOf(c), NotesOf(c), body, |body.transactions|)
    case Some(e) => Err(e)
    case None => Connected(c, header, body)
  }

  lemma CreatesPerform(l: Ledger, done: seq<Move>, origin: Origin, outputs: seq<Output>, n: nat)
    requires n <= |outputs| && Perform(l, done).Some?
    ensures Perform(l, done + Creates(origin, outputs, n)).Some?
  {
    if n == 0 {
      assert done + Creates(origin, outputs, 0) == done;
    } else {
      CreatesPerform(l, done, origin, outputs, n - 1);
      PerformOneMore(l, done + Creates(origin, outputs, n - 1), Create(origin.At(n - 1), outputs[n - 1]));
      assert done + Creates(origin, outputs, n - 1) + [Create(origin.At(n - 1), outputs[n - 1])]
          == done + Creates(origin, outputs, n);
    }
  }

  /** Nothing stops the transactions exactly when all inputs are there and all bundles are accepted. */
  lemma {:induction false} NoRefusal(l: Ledger, n: Notes, body: Body, k: nat)
    requires k <= |body.transactions|
    ensures FirstRefusal(l, n, body, k).None? <==>
              Perform(l, BodyMoves(body, k)).Some? && ConnectBundles(n, body.transactions, k).Ok?
    ensures Perform(l, BodyMoves(body, k)).Some? ==>
              match ConnectBundles(n, body.transactions, k)
              case Err(e) => FirstRefusal(l, n, body, k) == Some(OrchardFailed(e))
              case Ok(_) => FirstRefusal(l, n, body, k) == None
  {
    if k == 0 {
      CreatesPerform(l, [], FromCoinbase(MerkleRootOf(body)), body.coinbase, |body.coinbase|);
      assert [] + BodyMoves(body, 0) == BodyMoves(body, 0);
    } else {
      NoRefusal(l, n, body, k - 1);
      if Perform(l, BodyMoves(body, k - 1)).None? {
        PerformPrefix(l, BodyMoves(body, k), BodyMoves(body, k - 1));
      }
    }
  }

  /**
   Connecting one transaction at a time and connecting all moves and then all bundles have the same
   outcome, unless an input is missing; then both fail, and only the error may differ.
   */
  lemma OneByOneAgrees(c: Contents, header: Header, body: Body)
    ensures if Perform(LedgerOf(c), MovesOf(body)).Some?
            then ConnectedOneByOne(c, header, body) == Connected(c, header, body)
            else ConnectedOneByOne(c, header, body).Err? && Connected(c, header, body) == Err(MissingInput)
  {
    NoRefusal(LedgerOf(c), NotesOf(c), body, |body.transactions|);
  }

  // ----------------------------------------------------------------- disconnecting

  function UndoDiff(body: Body): Diff {
    RecordAll(TakeBackOps(Ops(MovesOf(body)), 0))
  }

  /** The tip and the height before the block, if they fit together. */
  function Lowered(header: Header, height: Option<nat>): Result<(Option<BlockHash>, Option<nat>), DisconnectError> {
    if height.None? then Err(TipMissing)
    else match (header.prevSideHash, height.value)
      case (None, 0) => Ok((None, None))
      case (None, _) => Err(TipMissing)
      case (Some(prev), h) => if h == 0 then Err(TipMissing) else Ok((Some(prev), Some(h - 1)))
  }

  /** The tip is taken off; the accumulator, and the frontier if one is given, are put back as given. */
  function Disconnected(
    c: Contents, header: Header, body: Body, prevAccumulator: Forest, prevFrontier: Option<seq<nat>>)
    : Result<Contents, DisconnectError>
  {
    var hash := BlockHash(header);
    if c.tip.None? then Err(TipMissing)
    else if c.tip != Some(hash) then Err(DisconnectError.WrongTip)
    else if MerkleRootOf(body) != header.merkleRoot then Err(DisconnectError.WrongBody)
    else
      var ledger := Undo(LedgerOf(c), MovesOf(body));
      if ledger.Err? then Err(Missing(ledger.error))
      else
        var lowered :- Lowered(header, c.height);
        if Modify(c.accumulator, Adds(UndoDiff(body)), Dels(UndoDiff(body))).Err?
        then Err(DisconnectError.AccumulatorFailed)
        else
          Ok(Contents(
               lowered.0, lowered.1, WithLedger(c.tables, ledger.value),
               OrchardTables(
                 if prevFrontier.Some? then prevFrontier.value else c.orchard.frontier,
                 DeleteRoot(c.orchard.roots, hash),
                 WithoutNullifiers(c.orchard.nullifiers, body.transactions, |body.transactions|)),
               prevAccumulator))
  }

  // ------------------------------------------------------------- along every chain

  /** The state belongs to a chain of blocks: what holds before and after every block. */
  ghost predicate ChainInv(c: Contents, hist: History) {
    && ChainOf(hist, c.tip) && Growing(hist)
    && c.height == (if hist == [] then None else Some(|hist| - 1))
    && c.orchard.frontier == FrontierOf(hist) && |c.orchard.frontier| <= FRONTIER_CAPACITY
    && c.orchard.roots == RootsAlong(hist)
    && c.tables.peg.utxos.Keys !! c.tables.peg.stxos.Keys
    && c.accumulator.leaves == LeavesOf(c.tables.peg.utxos)
  }

  lemma DiffTakesLeaves(l: Ledger, accumulator: Forest, body: Body)
    requires Spendable(l.utxos, MovesOf(body)) && Fresh(l, MovesOf(body)) && LeavesMatch(l.utxos, MovesOf(body))
    requires accumulator.leaves == LeavesOf(l.utxos)
    ensures var r := Modify(accumulator, Adds(DiffOf(body)), Dels(DiffOf(body)));
            && Perform(l, MovesOf(body)) == Some(AllAtOnce(l, MovesOf(body)))
            && r.Ok? && r.value.leaves == LeavesOf(AllAtOnce(l, MovesOf(body)).utxos)
  {
    PerformIsAllAtOnce(l, MovesOf(body));
    OpsFollowMoves(l, MovesOf(body));
    BatchEqualsOneByOne(accumulator, Ops(MovesOf(body)));
  }

  lemma UndoDiffTakesLeaves(l: Ledger, accumulator: Forest, body: Body)
    requires Spendable(l.utxos, MovesOf(body)) && Fresh(l, MovesOf(body)) && LeavesMatch(l.utxos, MovesOf(body))
    requires accumulator.leaves == LeavesOf(AllAtOnce(l, MovesOf(body)).utxos)
    ensures Modify(accumulator, Adds(UndoDiff(body)), Dels(UndoDiff(body))).Ok?
  {
    var ops := Ops(MovesOf(body));
    OpsFollowMoves(l, MovesOf(body));
    TakeBackRestores(LeavesOf(l.utxos), ops, 0);
    BatchEqualsOneByOne(accumulator, TakeBackOps(ops, 0));
  }

  /** An accepted block is refused by nothing but its shielded bundles. */
  lemma AcceptedConnects(c: Contents, hist: History, foreign: Foreign, header: Header, body: Body)
    requires ChainInv(c, hist) && Verdict(c, foreign, header, body).Ok? && Fresh(LedgerOf(c), MovesOf(body))
    ensures var notes := ConnectBundles(NotesOf(c), body.transactions, |body.transactions|);
            match Connected(c, header, body)
            case Err(e) => notes.Err? && e == OrchardFailed(notes.error)
            case Ok(d) => notes.Ok? && LedgerOf(d) == AllAtOnce(LedgerOf(c), MovesOf(body)) && d.accumulator == header.roots
  {
    AcceptedMoves(c, foreign, header, body);
    DiffTakesLeaves(LedgerOf(c), c.accumulator, body);
  }

  function Extended(hist: History, header: Header, frontier: seq<nat>): History {
    hist + [ChainBlock(BlockHash(header), frontier)]
  }

  lemma ExtendedChain(hist: History, tip: Option<BlockHash>, header: Header, frontier: seq<nat>)
    requires ChainOf(hist, tip) && Growing(hist) && header.prevSideHash == tip && FrontierOf(hist) <= frontier
    ensures ChainOf(Extended(hist, header, frontier), Some(BlockHash(header))) && Growing(Extended(hist, header, frontier))
    ensures RootsAlong(Extended(hist, header, frontier)) == PutRoot(RootsAlong(hist), BlockHash(header), Root(frontier))
  {
    assert Extended(hist, header, frontier)[..|hist|] == hist;
  }

  /** Connecting an accepted block keeps the invariant, for the chain with that block added. */
  lemma ConnectKeepsChain(c: Contents, hist: History, foreign: Foreign, header: Header, body: Body)
    requires ChainInv(c, hist) && Verdict(c, foreign, header, body).Ok? && Fresh(LedgerOf(c), MovesOf(body))
    requires Connected(c, header, body).Ok?
    ensures var d := Connected(c, header, body).value; ChainInv(d, Extended(hist, header, d.orchard.frontier))
  {
    var d := Connected(c, header, body).value;
    AcceptedMoves(c, foreign, header, body);
    DiffTakesLeaves(LedgerOf(c), c.accumulator, body);
    PerformKeepsDisjoint(LedgerOf(c), MovesOf(body));
    BundlesRoundTrip(NotesOf(c), body.transactions, |body.transactions|);
    ExtendedChain(hist, c.tip, header, d.orchard.frontier);
  }

  /** The given frontier is the right one to put back: the old one, or none if the block changed nothing. */
  predicate FrontierFits(c: Contents, body: Body, prevFrontier: Option<seq<nat>>) {
    match prevFrontier
    case Some(f) => f == c.orchard.frontier
    case None => AllCommitments(body.transactions, |body.transactions|) == []
  }

  lemma RootsRestored(c: Contents, hist: History, header: Header, frontier: seq<nat>)
    requires ChainInv(c, hist) && header.prevSideHash == c.tip && FrontierOf(hist) <= frontier
    ensures DeleteRoot(PutRoot(c.orchard.roots, BlockHash(header), Root(frontier)), BlockHash(header)) == c.orchard.roots
  {
    ExtendedChain(hist, c.tip, header, frontier);
    DeleteUndoesPut(Extended(hist, header, frontier), Some(BlockHash(header)));
    assert Extended(hist, header, frontier)[..|hist|] == hist;
  }

  /**
   Disconnecting the tip succeeds after connecting it, and restores everything exactly when it is
   handed the accumulator from before the block and a frontier that fits. Peg data connected and
   disconnected in between may have left another forest with the same leaves.
   */
  lemma DisconnectUndoesConnect(
    c: Contents, hist: History, foreign: Foreign, header: Header, body: Body, current: Forest,
    prevAccumulator: Forest, prevFrontier: Option<seq<nat>>)
    requires ChainInv(c, hist) && Verdict(c, foreign, header, body).Ok? && Fresh(LedgerOf(c), MovesOf(body))
    requires Connected(c, header, body).Ok? && current.leaves == Connected(c, header, body).value.accumulator.leaves
    ensures var d := Connected(c, header, body).value.(accumulator := current);
            var r := Disconnected(d, header, body, prevAccumulator, prevFrontier);
            && r.Ok?
            && r.value == c.(accumulator := prevAccumulator, orchard := c.orchard.(
                 frontier := if prevFrontier.Some? then prevFrontier.value else Connected(c, header, body).value.orchard.frontier))
            && (r.value == c <==> prevAccumulator == c.accumulator && FrontierFits(c, body, prevFrontier))
  {
    var d := Connected(c, header, body).value.(accumulator := current);
    AcceptedMoves(c, foreign, header, body);
    DiffTakesLeaves(LedgerOf(c), c.accumulator, body);
    UndoDiffTakesLeaves(LedgerOf(c), current, body);
    UndoRestores(LedgerOf(c), MovesOf(body));
    BundlesRoundTrip(NotesOf(c), body.transactions, |body.transactions|);
    RootsRestored(c, hist, header, d.orchard.frontier);
    var commitments := AllCommitments(body.transactions, |body.transactions|);
    assert c.orchard.frontier + commitments == c.orchard.frontier <==> commitments == [];
    assert WithLedger(WithLedger(c.tables, LedgerOf(d)), LedgerOf(c)) == c.tables;
    var r := Disconnected(d, header, body, prevAccumulator, prevFrontier).value;
    assert r == Contents(c.tip, c.height, c.tables,
                         c.orchard.(frontier := if prevFrontier.Some? then prevFrontier.value else d.orchard.frontier), prevAccumulator);
  }

  /** The block reports a changed frontier exactly when it appended a note commitment. */
  lemma FrontierReported(c: Contents, hist: History, header: Header, body: Body)
    requires ChainInv(c, hist) && Connected(c, header, body).Ok?
    ensures Root(Connected(c, header, body).value.orchard.frontier) !in c.orchard.roots.historicalRoots <==>
            AllCommitments(body.transactions, |body.transactions|) != []
  {
    BundlesRoundTrip(NotesOf(c), body.transactions, |body.transactions|);
    RootIsNewIffGrown(hist, Connected(c, header, body).value.orchard.frontier);
    var commitments := AllCommitments(body.transactions, |body.transactions|);
    assert c.orchard.frontier + commitments == c.orchard.frontier <==> commitments == [];
  }
}
