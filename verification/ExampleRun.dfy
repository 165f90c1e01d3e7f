/** Runs of every length: the hypotheses about runs and reorganisations can be met together. */
module ExampleRun {
  import opened Types
  import opened Accumulator
  import opened Peg
  import opened PegInvariant
  import opened PegRoundTrip
  import opened PegRepeats
  import opened PegBlock
  import opened PegBlockRoundTrip
  import opened PegDiff
  import opened State
  import opened Moves
  import opened Shielded
  import opened SortScan
  import opened Validation
  import opened BlockSpec
  import opened Chain
  import opened Replay
  import opened Snapshots
  import Collection

  const COIN := Output(0, Value(1))
  const NO_BODY := Body([], [], [])

  /** Foreign code that accepts everything. */
  ghost predicate Lenient(foreign: Foreign) {
    && (forall n, h :: foreign.sigopsFit(n, h))
    && (forall body, h :: foreign.sizeFits(body, h))
    && (forall body :: foreign.signaturesHold(body))
  }

  function FundingOf(n: nat): MainTxid {
    MainTxid(n, [COIN])
  }

  /** An empty block that brings in one mainchain block with one deposit. */
  function DepositStep(c: Contents, n: nat): TipStep {
    TipStep(
      Header(MerkleRoot([], []), c.tip, MainHash(n), Forest(c.accumulator.leaves, c.accumulator.log + [Batch([], [])])),
      NO_BODY, [(MainHash(n + 1), BlockInfo(None, [DepositEvent(FundingOf(n), 0, COIN)]))])
  }

  /** Only coins from the first `n` deposits, and no bundles. */
  ghost predicate OnlyDeposits(c: Contents, n: nat) {
    var p := c.tables.peg;
    && p.pending == None && p.latestFailed == None && p.bundles == map[] && p.stxos == map[]
    && (forall o | o in p.utxos :: p.utxos[o] == COIN && o.Deposit? && o.mainTxid.salt < n)
  }

  lemma NothingToMint(p: PegState, height: nat)
    requires p.latestFailed == None && forall o | o in p.utxos :: p.utxos[o] == COIN
    ensures BundleToMint(p, height) == Ok(None)
  {
    assert Collection.Addresses(p.utxos) == {};
  }

  /** The header of an empty block on top of `c`. */
  predicate FitsEmpty(c: Contents, header: Header) {
    && header.merkleRoot == MerkleRoot([], []) && header.prevSideHash == c.tip
    && header.roots == Forest(c.accumulator.leaves, c.accumulator.log + [Batch([], [])])
  }

  lemma EmptyBlockConnects(c: Contents, foreign: Foreign, header: Header)
    requires Lenient(foreign) && FitsEmpty(c, header)
    ensures Verdict(c, foreign, header, NO_BODY) == Ok(0) && MovesOf(NO_BODY) == []
    ensures Connected(c, header, NO_BODY).Ok?
    ensures var d := Connected(c, header, NO_BODY).value;
            && d.tip == Some(BlockHash(header)) && d.height == Some(NextHeight(c.height)) && d.tables == c.tables
            && d.accumulator == header.roots
  {
    assert MovesOf(NO_BODY) == [];
    assert DiffOf(NO_BODY) == EMPTY_DIFF;
    assert MerkleRootOf(NO_BODY) == MerkleRoot([], []);
    assert ToSet<Leaf>([]) == {} && c.accumulator.leaves - {} + {} == c.accumulator.leaves;
    assert Modify(c.accumulator, [], []) == Ok(header.roots);
  }

  lemma OneEvent(m: MainHash, e: BlockEvent)
    ensures var data := [(m, BlockInfo(None, [e]))];
            && AllEvents(data) == [e] && [e][..0] == []
            && forall deposits :: EarliestBlock(data, deposits) == LatestBlock(data, deposits)
  {
    var data := [(m, BlockInfo(None, [e]))];
    assert data[..0] == [] && data[1..] == [];
  }

  lemma DepositConnects(c: Contents, foreign: Foreign, n: nat)
    requires Lenient(foreign) && OnlyDeposits(c, n)
    ensures var s := DepositStep(c, n);
            && Genuine(c, s) && PegUndoable(c, s) && TipAfter(c, foreign, s).Ok?
            && OnlyDeposits(TipAfter(c, foreign, s).value, n + 1)
            && TipAfter(c, foreign, s).value.tables.peg.utxos == c.tables.peg.utxos[Deposit(FundingOf(n), 0) := COIN]
  {
    var s := DepositStep(c, n);
    EmptyBlockConnects(c, foreign, s.header);
    hide Verdict, Connected, MovesOf, BundleToMint;
    var mid := Connected(c, s.header, s.body).value;
    var e := DepositEvent(FundingOf(n), 0, COIN);
    OneEvent(MainHash(n + 1), e);
    assert AllEvents(s.data) == [e];
    assert ConnectEvents(mid.tables.peg, mid.height.value, []) == Ok(mid.tables.peg);
    var q := mid.tables.peg.(utxos := mid.tables.peg.utxos[Deposit(FundingOf(n), 0) := COIN]);
    assert ConnectEvents(mid.tables.peg, mid.height.value, [e]) == Ok(q);
    assert UndoableOrReconfirmed(mid.tables.peg, mid.height.value, []);
    assert UndoableOrReconfirmed(mid.tables.peg, mid.height.value, [e]);
    NothingToMint(q, mid.height.value);
    assert GenuineEvent(mid.tables.peg, e);
    var d := TipAfter(c, foreign, s).value;
    assert d.tables.peg == q;
  }

  ghost function DepositRun(foreign: Foreign, n: nat): Log {
    if n == 0 then []
    else
      var init := DepositRun(foreign, n - 1);
      var before := StateAfter(foreign, init);
      if before.Err? then [] else init + [DepositStep(before.value, n - 1)]
  }

  lemma StepUndone(foreign: Foreign, log: Log, s: TipStep)
    requires StateAfter(foreign, log).Ok? && PegUndoable(StateAfter(foreign, log).value, s)
    requires forall bodies | BodiesMatch(bodies, log) :: Undone(foreign, bodies, log, 0)
    ensures forall bodies | BodiesMatch(bodies, log + [s]) :: Undone(foreign, bodies, log + [s], 0)
  {
    assert (log + [s])[..|log|] == log;
  }

  /** There are runs of every length, whose steps are genuine and can all be undone, and they do accumulate deposits. */
  lemma {:induction false} RunsOfEveryLength(foreign: Foreign, n: nat)
    requires Lenient(foreign)
    ensures var log := DepositRun(foreign, n);
            && |log| == n && GenuineLog(foreign, log) && FrontierFound(log, 0)
            && (forall bodies | BodiesMatch(bodies, log) :: Undone(foreign, bodies, log, 0))
            && StateAfter(foreign, log).Ok? && OnlyDeposits(StateAfter(foreign, log).value, n)
            && |StateAfter(foreign, log).value.tables.peg.utxos| == n
  {
    hide TipAfter, Genuine, PegUndoable, StateAfter, GenuineLog;
    if n == 0 {
      StartIsBooked(foreign);
      BookedState(foreign, START);
    } else {
      RunsOfEveryLength(foreign, n - 1);
      var init := DepositRun(foreign, n - 1);
      var c := StateAfter(foreign, init).value;
      DepositConnects(c, foreign, n - 1);
      OneMoreTip(foreign, init, DepositStep(c, n - 1));
      assert DepositRun(foreign, n)[..n - 1] == init;
      StepUndone(foreign, init, DepositStep(c, n - 1));
      assert Deposit(FundingOf(n - 1), 0) !in c.tables.peg.utxos;
      assert !Appends(NO_BODY);
    }
  }

  // ------------------------------------------------------------- runs without events

  function Batches(n: nat): seq<Batch> {
    seq(n, _ => Batch([], []))
  }

  predicate NoEvents(data: PegData) {
    forall i | 0 <= i < |data| :: data[i].1.events == []
  }

  lemma {:induction false} NothingHappens(data: PegData)
    requires NoEvents(data)
    ensures AllEvents(data) == [] && forall deposits :: EarliestBlock(data, deposits) == LatestBlock(data, deposits) == None
  {
    if data != [] {
      NothingHappens(data[..|data| - 1]);
      NothingHappens(data[1..]);
    }
  }

  /** The step is an empty block without events, at position `i` of a chain of such blocks. */
  ghost predicate QuietStep(s: TipStep, i: nat) {
    && s.body == NO_BODY && s.header.merkleRoot == MerkleRoot([], []) && s.header.roots == Forest({}, Batches(2 * i + 1))
    && NoEvents(s.data)
  }

  ghost predicate Quiet(log: Log) {
    log != [] ==> QuietStep(log[|log| - 1], |log| - 1) && Quiet(log[..|log| - 1])
  }

  lemma QuietConnects(c: Contents, foreign: Foreign, s: TipStep, i: nat)
    requires Lenient(foreign) && OnlyDeposits(c, 0) && QuietStep(s, i) && s.header.prevSideHash == c.tip
    requires c.accumulator == Forest({}, Batches(2 * i))
    ensures Genuine(c, s) && PegUndoable(c, s) && TipAfter(c, foreign, s).Ok?
    ensures var d := TipAfter(c, foreign, s).value;
            OnlyDeposits(d, 0) && d.tip == Some(BlockHash(s.header)) && d.accumulator == Forest({}, Batches(2 * i + 2))
  {
    assert Batches(2 * i) + [Batch([], [])] == Batches(2 * i + 1);
    assert Batches(2 * i + 1) + [Batch([], [])] == Batches(2 * i + 2);
    EmptyBlockConnects(c, foreign, s.header);
    NothingHappens(s.data);
    hide Verdict, Connected, MovesOf, BundleToMint, EarliestBlock, LatestBlock, AllEvents;
    var mid := Connected(c, s.header, s.body).value;
    NothingToMint(mid.tables.peg, mid.height.value);
    assert Adds(EMPTY_DIFF) == [] == Dels(EMPTY_DIFF) && ToSet<Leaf>([]) == {};
  }

  lemma {:induction false} QuietRun(foreign: Foreign, log: Log)
    requires Lenient(foreign) && Quiet(log) && Chained(log)
    ensures GenuineLog(foreign, log) && StateAfter(foreign, log).Ok?
    ensures forall bodies | BodiesMatch(bodies, log) :: Undone(foreign, bodies, log, 0)
    ensures var c := StateAfter(foreign, log).value;
            OnlyDeposits(c, 0) && c.tip == TipOf(log) && c.accumulator == Forest({}, Batches(2 * |log|))
  {
    hide TipAfter, Genuine, PegUndoable;
    if log != [] {
      var init := log[..|log| - 1];
      QuietRun(foreign, init);
      QuietConnects(StateAfter(foreign, init).value, foreign, log[|log| - 1], |log| - 1);
      StepUndone(foreign, init, log[|log| - 1]);
      assert init + [log[|log| - 1]] == log;
    }
  }

  // ------------------------------------------------ a frontier that is not on file

  const NOTE := Transaction(TxCore([], [], Some(OrchardBundle([], [7], 0, Root([]), false))), 0)
  const NOTE_BODY := Body([], [NOTE], [])

  /** A block with one shielded output, on top of `c`. */
  function NoteStep(c: Contents): TipStep {
    TipStep(
      Header(
        MerkleRoot([], [NOTE.core]), c.tip, MainHash(1),
        Forest(c.accumulator.leaves, c.accumulator.log + [Batch([], [])])),
      NOTE_BODY, [])
  }

  lemma NoteMoves()
    ensures MovesOf(NOTE_BODY) == [] && AllCommitments([NOTE], 1) == [7]
    ensures MerkleRootOf(NOTE_BODY) == MerkleRoot([], [NOTE.core])
  {
    assert AllCommitments([NOTE], 0) == [];
    assert TxMoves(NOTE, 0, 0) == [];
    assert BodyMoves(NOTE_BODY, 0) == [] == BodyMoves(NOTE_BODY, 1);
    assert MerkleRootOf(NOTE_BODY).transactions == [NOTE.core];
  }

  lemma NoteConnects(c: Contents, foreign: Foreign)
    requires Lenient(foreign) && (forall f, p, l :: foreign.proofHolds(f, p, l))
    requires OnlyDeposits(c, 1) && |c.orchard.frontier| < FRONTIER_CAPACITY && Root([]) in c.orchard.roots.historicalRoots
    ensures var s := NoteStep(c); Genuine(c, s) && PegUndoable(c, s) && TipAfter(c, foreign, s).Ok?
    ensures TipAfter(c, foreign, NoteStep(c)).value.orchard.frontier == c.orchard.frontier + [7]
  {
    var s := NoteStep(c);
    NoteMoves();
    assert CheckAll(c, foreign, [NOTE], 0) == Ok(0);
    assert ToSet<Leaf>([]) == {} && c.accumulator.leaves - {} + {} == c.accumulator.leaves;
    assert AllSpent(c.tables.peg.utxos, [NOTE], 0) == [];
    assert Verdict(c, foreign, s.header, s.body) == Ok(0);
    assert ConnectBundles(NotesOf(c), [NOTE], 0).Ok?;
    assert Connected(c, s.header, s.body).Ok?;
    var mid := Connected(c, s.header, s.body).value;
    NothingToMint(mid.tables.peg, mid.height.value);
  }

  /**
   A block that appends to the frontier on top of one that did not: disconnecting it does not restore the
   state, since its note stays in the tree. Connected again, it has the note there twice.
   */
  lemma FrontierIsLost(foreign: Foreign)
    requires Lenient(foreign) && (forall f, p, l :: foreign.proofHolds(f, p, l))
    ensures exists s: Snapshot ::
              && Booked(foreign, s) && |s.log| == 2 && StateAfter(foreign, s.log[..1]).Ok?
              && PegUndoable(StateAfter(foreign, s.log[..1]).value, s.log[1]) && TipOf(s.log[..1]) in s.accumulators
              && var back := TipBefore(
                   s.contents, foreign, s.log[1], s.accumulators[TipOf(s.log[..1])], Lookup(s.frontiers, TipOf(s.log[..1])));
                 && back.Ok? && back != StateAfter(foreign, s.log[..1]) && back.value.orchard.frontier == [7]
                 && var again := TipAfter(back.value, foreign, s.log[1]);
                    s.contents.orchard.frontier == [7] && again.Ok? && again.value.orchard.frontier == [7, 7]
  {
    hide TipAfter, Genuine, PegUndoable, TipBefore, Booked, Stale;
    var first := DepositStep(GENESIS, 0);
    DepositConnects(GENESIS, foreign, 0);
    var c := TipAfter(GENESIS, foreign, first).value;
    StartIsBooked(foreign);
    PushKeepsBooks(foreign, START, first, c);
    EmptyBlockKeepsNotes(GENESIS, foreign, 0);
    var second := NoteStep(c);
    NoteConnects(c, foreign);
    var s := Pushed(START, first, c);
    var d := TipAfter(c, foreign, second).value;
    PushKeepsBooks(foreign, s, second, d);
    var t := Pushed(s, second, d);
    assert t.log == [first, second] && t.log[..1] == [first] == s.log;
    NoteMoves();
    assert Appends(NOTE_BODY) && !Appends(NO_BODY);
    BookedState(foreign, s);
    BookedState(foreign, t);
    PopRestoresExactly(foreign, t);
    PrefixIsKept(foreign, t);
    PopRestoresRest(foreign, t.log, None);
    NoteTwice(c, foreign);
  }

  lemma NoteTwice(c: Contents, foreign: Foreign)
    requires Lenient(foreign) && (forall f, p, l :: foreign.proofHolds(f, p, l))
    requires OnlyDeposits(c, 1) && Root([]) in c.orchard.roots.historicalRoots
    ensures var again := TipAfter(Stale(c, [7]), foreign, NoteStep(c)); again.Ok? && again.value.orchard.frontier == [7, 7]
    ensures Stale(c, [7]).orchard.frontier == [7]
  {
    assert OnlyDeposits(Stale(c, [7]), 1) && NoteStep(Stale(c, [7])) == NoteStep(c);
    NoteConnects(Stale(c, [7]), foreign);
  }

  lemma EmptyBlockKeepsNotes(c: Contents, foreign: Foreign, n: nat)
    requires Lenient(foreign) && OnlyDeposits(c, n)
    requires c.orchard.frontier == [] && Root([]) in c.orchard.roots.historicalRoots
    ensures var d := TipAfter(c, foreign, DepositStep(c, n));
            d.Ok? && d.value.orchard.frontier == [] && Root([]) in d.value.orchard.roots.historicalRoots
  {
    DepositConnects(c, foreign, n);
  }
}
