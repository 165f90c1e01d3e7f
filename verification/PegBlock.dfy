/**
 Connecting and disconnecting all peg data of one sidechain block: the events of the mainchain
 blocks it covers, the records of where they were applied, and the bundle that may be minted.
 */
module PegBlock {
  import opened Types
  import opened RollBack
  import opened Peg
  import opened PegInvariant
  import opened PegRoundTrip
  import Collection

  const FAILURE_GAP: nat := 4

  /** Mainchain blocks with their infos, oldest first. */
  type PegData = seq<(MainHash, BlockInfo)>

  datatype PegTables = PegTables(
    peg: PegState, depositBlocks: seq<(MainHash, nat)>, eventBlocks: seq<(MainHash, nat)>)

  datatype BlockError =
    | NoTip | PegFailed(error: PegError) | CollectFailed(reason: Collection.CollectError)
    | NoDepositBlock | NoEventBlock | HeightUnderflow | RecordMismatch | NotInAccumulator

  function Lift<T>(r: Result<T, PegError>): Result<T, BlockError> {
    match r
    case Ok(v) => Ok(v)
    case Err(e) => Err(PegFailed(e))
  }

  // ---------------------------------------------------------------- event lists

  function AllEvents(data: PegData): seq<BlockEvent> {
    if data == [] then [] else AllEvents(data[..|data| - 1]) + data[|data| - 1].1.events
  }

  /** Some event is a deposit, or some event is a bundle event. */
  predicate HasKind(events: seq<BlockEvent>, deposits: bool) {
    events != [] &&
    (events[|events| - 1].DepositEvent? == deposits || HasKind(events[..|events| - 1], deposits))
  }

  predicate HasEvent(info: BlockInfo, deposits: bool) {
    HasKind(info.events, deposits)
  }

  /** The last mainchain block with a deposit, or with a bundle event. */
  function LatestBlock(data: PegData, deposits: bool): Option<MainHash> {
    if data == [] then None
    else if HasEvent(data[|data| - 1].1, deposits) then Some(data[|data| - 1].0)
    else LatestBlock(data[..|data| - 1], deposits)
  }

  /** The first mainchain block with a deposit, or with a bundle event. */
  function EarliestBlock(data: PegData, deposits: bool): Option<MainHash> {
    if data == [] then None
    else if HasEvent(data[0].1, deposits) then Some(data[0].0)
    else EarliestBlock(data[1..], deposits)
  }

  // ------------------------------------------------------------------- connect

  function RecordBlock(blocks: seq<(MainHash, nat)>, block: Option<MainHash>, height: nat): seq<(MainHash, nat)> {
    if block.Some? then blocks + [(block.value, height)] else blocks
  }

  /** Makes `bundle` the pending bundle. */
  function Mint(p: PegState, height: nat, bundle: WithdrawalBundle): Result<PegState, PegError> {
    var m := bundle.ComputeM6id();
    var q := p.(pending := Some(m));
    if m in p.bundles then PushStatus(q, m, Known(bundle), p.bundles[m].status, Pending, height)
    else Ok(SetBundle(q, m, Known(bundle), RollBack.New(Pending, height)))
  }

  /** The bundle to mint after the events, if no failure is recent and no bundle is pending. */
  ghost function BundleToMint(p: PegState, height: nat): Result<Option<WithdrawalBundle>, BlockError> {
    var failure :- Lift(LatestFailureHeight(p));
    if failure > height then Err(HeightUnderflow)
    else if height - failure >= FAILURE_GAP && p.pending.None? then
      match Collection.Collect(p.utxos, height)
      case Err(e) => Err(CollectFailed(e))
      case Ok(bundle) => Ok(bundle)
    else Ok(None)
  }

  ghost function MintIfDue(p: PegState, height: nat): Result<PegState, BlockError> {
    var bundle :- BundleToMint(p, height);
    if bundle.None? then Ok(p) else Lift(Mint(p, height, bundle.value))
  }

  ghost function Connect(t: PegTables, height: nat, data: PegData): Result<PegTables, BlockError> {
    var events :- Lift(ConnectEvents(t.peg, height, AllEvents(data)));
    var minted :- MintIfDue(events, height);
    Ok(PegTables(
      minted,
      RecordBlock(t.depositBlocks, LatestBlock(data, true), height),
      RecordBlock(t.eventBlocks, LatestBlock(data, false), height)))
  }

  // ----------------------------------------------------------------- disconnect

  /** Removes the latest record, which must be the given block at the given height. */
  function UnrecordBlock(blocks: seq<(MainHash, nat)>, block: Option<MainHash>, height: nat, missing: BlockError)
    : Result<seq<(MainHash, nat)>, BlockError>
  {
    if block.None? then Ok(blocks)
    else if blocks == [] then Err(missing)
    else if blocks[|blocks| - 1] != (block.value, height) then Err(RecordMismatch)
    else Ok(blocks[..|blocks| - 1])
  }

  /** Removes a pending bundle that was minted at this height. */
  function Unmint(p: PegState, height: nat): Result<PegState, BlockError> {
    var failure :- Lift(LatestFailureHeight(p));
    if failure > height then Err(HeightUnderflow)
    else if height - failure >= FAILURE_GAP && p.pending.Some? then
      var m := p.pending.value;
      if m !in p.bundles then Err(PegFailed(PendingBundleUnknown))
      else if p.bundles[m].status.Latest().height != height then Ok(p)
      else
        var q := p.(pending := None);
        match p.bundles[m].status.Pop().0
        case Some(rest) => Ok(SetBundle(q, m, p.bundles[m].info, rest))
        case None => Ok(q.(bundles := p.bundles - {m}))
    else Ok(p)
  }

  function Disconnect(t: PegTables, height: nat, data: PegData): Result<PegTables, BlockError> {
    var events :- Lift(DisconnectEvents(t.peg, height, AllEvents(data)));
    var eventBlocks :- UnrecordBlock(t.eventBlocks, EarliestBlock(data, false), height, NoEventBlock);
    var unminted :- Unmint(events, height);
    var depositBlocks :- UnrecordBlock(t.depositBlocks, EarliestBlock(data, true), height, NoDepositBlock);
    Ok(PegTables(unminted, depositBlocks, eventBlocks))
  }

  // --------------------------------------------------- the invariant across blocks

  /** The invariant before the peg data of the block at `height` is connected. */
  ghost predicate PegInvBelow(p: PegState, height: nat) {
    PegInv(p, height) && forall m | m in p.bundles :: p.bundles[m].status.Latest().height < height
  }

  lemma EntryBoundGrows(p: PegState, height: nat, later: nat, m: M6id)
    requires m in p.bundles && EntryOk(p, height, m) && height <= later
    ensures EntryOk(p, later, m)
  {
  }

  lemma MintKeepsInv(p: PegState, height: nat, bundle: WithdrawalBundle)
    requires PegInv(p, height) && p.pending.None? && bundle.ComputeM6id() !in p.bundles
    requires forall o | o in bundle.spendUtxos :: o in p.utxos && bundle.spendUtxos[o] == p.utxos[o]
    ensures Mint(p, height, bundle).Ok? && PegInv(Mint(p, height, bundle).value, height)
  {
    var m := bundle.ComputeM6id();
    var q := Mint(p, height, bundle).value;
    forall o | o in bundle.spendUtxos
      ensures CommittedOutput(o) == Some(bundle.spendUtxos[o])
    {
      assert CommittedOutput(o) == Some(p.utxos[o]);
    }
    assert EntryOk(q, height, m) by {
      assert q.bundles[m].status.Entries() == [HeightStamped(Pending, height)];
    }
    OtherEntriesOk(p, q, height, m);
  }

  /** Connecting a block's peg data keeps the invariant, ready for the next height. */
  lemma ConnectKeepsInv(t: PegTables, height: nat, data: PegData)
    requires PegInv(t.peg, height) && GenuineEvents(t.peg, AllEvents(data)) && Connect(t, height, data).Ok?
    requires MintsFresh(t.peg, height, data)
    ensures PegInvBelow(Connect(t, height, data).value.peg, height + 1)
  {
    var events := AllEvents(data);
    assert events[..|events|] == events;
    ConnectEventsKeepInv(t.peg, height, events, |events|);
    var p := ConnectEvents(t.peg, height, events).value;
    var bundle := BundleToMint(p, height).value;
    if bundle.Some? {
      Collection.CollectIsExact(p.utxos, height);
      MintKeepsInv(p, height, bundle.value);
    }
    var q := Connect(t, height, data).value.peg;
    forall m {:trigger EntryOk(q, height + 1, m)} | m in q.bundles
      ensures EntryOk(q, height + 1, m) && q.bundles[m].status.Latest().height < height + 1
    {
      assert EntryOk(q, height, m);
      EntryBoundGrows(q, height, height + 1, m);
    }
    forall m | m in q.bundles
      ensures q.bundles[m].status.Latest().height < height + 1
    {
      assert EntryOk(q, height, m);
    }
  }

  /** A bundle minted after these events has an id that is not recorded yet. */
  ghost predicate MintsFresh(p: PegState, height: nat, data: PegData) {
    var q := ConnectEvents(p, height, AllEvents(data));
    q.Ok? ==>
      var bundle := BundleToMint(q.value, height);
      bundle.Ok? && bundle.value.Some? ==> bundle.value.value.ComputeM6id() !in q.value.bundles
  }
}
