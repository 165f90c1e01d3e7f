/**
 The two-way peg: what a mainchain deposit or withdrawal-bundle event does to the sidechain
 state when it is connected, and what disconnecting it does. Outputs of a bundle move between
 the unspent and the spent table as one block here; the handlers that move them one by one are
 proved against these definitions.
 */
module Peg {
  import opened Types
  import opened RollBack

  datatype BundleStatus = Confirmed | Dropped | Failed | Pending | Submitted | SubmittedUnexpected

  datatype BundleInfo =
    | Known(bundle: WithdrawalBundle)
    | Unknown
    | UnknownConfirmed(spendUtxos: map<OutPoint, Output>)

  type BundleHistory = RollBack<BundleStatus>

  datatype BundleEntry = BundleEntry(info: BundleInfo, status: BundleHistory)

  datatype PegState = PegState(
    utxos: map<OutPoint, Output>,
    stxos: map<OutPoint, SpentOutput>,
    pending: Option<M6id>,
    latestFailed: Option<RollBack<M6id>>,
    bundles: map<M6id, BundleEntry>)

  /** `PushRejected` and `AssertionFailed` stand for the source's panics. */
  datatype PegError =
    | NoUtxo | NoStxo | UnknownBundle | PendingBundleUnknown
    | ConfirmedResubmitted | Resubmitted | UnknownDropped | DroppedPending | UnknownPending | UnknownConfirmedFailed
    | Insolvency | UnknownBundleConfirmed | UnknownBundleReconfirmed
    | PushRejected | AssertionFailed

  // ------------------------------------------------------------ moving outputs

  /** The spent-table entries of outputs withdrawn by bundle `m`. */
  function SpentBy(spend: map<OutPoint, Output>, m: M6id): map<OutPoint, SpentOutput> {
    map o | o in spend :: SpentOutput(spend[o], WithdrawalIn(m))
  }

  /** The outputs leave the unspent table and are recorded as withdrawn by bundle `m`. */
  function Withdraw(p: PegState, spend: map<OutPoint, Output>, m: M6id): PegState {
    p.(utxos := p.utxos - spend.Keys, stxos := p.stxos + SpentBy(spend, m))
  }

  /** The outputs become unspent again. */
  function Reinstate(p: PegState, spend: map<OutPoint, Output>): PegState {
    p.(utxos := p.utxos + spend, stxos := p.stxos - spend.Keys)
  }

  function SetBundle(p: PegState, m: M6id, info: BundleInfo, status: BundleHistory): PegState {
    p.(bundles := p.bundles[m := BundleEntry(info, status)])
  }

  /** Adds a status to the history of `m`, or fails as `push(..).expect(..)` does. */
  function PushStatus(p: PegState, m: M6id, info: BundleInfo, status: BundleHistory, value: BundleStatus, height: nat)
    : Result<PegState, PegError>
  {
    match status.Push(value, height)
    case None => Err(PushRejected)
    case Some(pushed) => Ok(SetBundle(p, m, info, pushed))
  }

  predicate IsSubmitted(s: BundleStatus) {
    s.Submitted? || s.SubmittedUnexpected?
  }

  // ------------------------------------------------------------ connecting events

  function ConnectSubmitted(p: PegState, height: nat, m: M6id): Result<PegState, PegError> {
    if p.pending == Some(m) then
      if m !in p.bundles || !p.bundles[m].info.Known? then Err(PendingBundleUnknown)
      else
        var BundleEntry(info, status) := p.bundles[m];
        if !(info.bundle.spendUtxos.Keys <= p.utxos.Keys) then Err(NoUtxo)
        else if !status.Latest().value.Pending? then Err(AssertionFailed)
        else
          PushStatus(Withdraw(p, info.bundle.spendUtxos, m).(pending := None), m, info, status, Submitted, height)
    else if m in p.bundles then
      var BundleEntry(info, status) := p.bundles[m];
      match status.Latest().value
      case Confirmed => Err(ConfirmedResubmitted)
      case Submitted => Err(Resubmitted)
      case SubmittedUnexpected => Err(Resubmitted)
      case Dropped =>
        if info.Known? then PushStatus(p, m, info, status, SubmittedUnexpected, height) else Err(UnknownDropped)
      case Pending =>
        if info.Known? then Err(DroppedPending) else Err(UnknownPending)
      case Failed =>
        if info.UnknownConfirmed? then Err(UnknownConfirmedFailed)
        else PushStatus(p, m, info, status, SubmittedUnexpected, height)
    else
      Ok(SetBundle(p, m, Unknown, RollBack.New(Submitted, height)))
  }

  function ConnectConfirmed(p: PegState, height: nat, m: M6id): Result<PegState, PegError> {
    if m !in p.bundles then Err(UnknownBundle)
    else
      var BundleEntry(info, status) := p.bundles[m];
      var latest := status.Latest().value;
      if latest.Confirmed? then Ok(p)
      else if !IsSubmitted(latest) then Err(AssertionFailed)
      else match info
        case UnknownConfirmed(_) => Err(UnknownBundleReconfirmed)
        case Unknown =>
          // every unspent output may have been paid out, which is tolerated at height 0 only
          if height != 0 then Err(UnknownBundleConfirmed)
          else PushStatus(Withdraw(p, p.utxos, m), m, UnknownConfirmed(p.utxos), status, Confirmed, height)
        case Known(bundle) =>
          if latest.Submitted? then PushStatus(p, m, info, status, Confirmed, height)
          else if !(bundle.spendUtxos.Keys <= p.utxos.Keys) then Err(Insolvency)
          else PushStatus(Withdraw(p, bundle.spendUtxos, m), m, info, status, Confirmed, height)
  }

  function ConnectFailed(p: PegState, height: nat, m: M6id): Result<PegState, PegError> {
    if m !in p.bundles then Err(UnknownBundle)
    else
      var BundleEntry(info, status) := p.bundles[m];
      var latest := status.Latest().value;
      if latest.Failed? then Ok(p)
      else if !IsSubmitted(latest) then Err(AssertionFailed)
      else if info.Known? && latest.Submitted? then
        var failed := if p.latestFailed.Some? then p.latestFailed.value.Push(m, height) else Some(RollBack.New(m, height));
        if failed.None? then Err(PushRejected)
        else PushStatus(Reinstate(p, info.bundle.spendUtxos).(latestFailed := failed), m, info, status, Failed, height)
      else PushStatus(p, m, info, status, Failed, height)
  }

  function ConnectEvent(p: PegState, height: nat, e: BlockEvent): Result<PegState, PegError> {
    match e
    case DepositEvent(txid, vout, output) => Ok(p.(utxos := p.utxos[Deposit(txid, vout) := output]))
    case BundleEvent(m, EventSubmitted) => ConnectSubmitted(p, height, m)
    case BundleEvent(m, EventConfirmed) => ConnectConfirmed(p, height, m)
    case BundleEvent(m, EventFailed) => ConnectFailed(p, height, m)
  }

  // --------------------------------------------------------- disconnecting events

  function DisconnectSubmitted(p: PegState, height: nat, m: M6id): Result<PegState, PegError> {
    if m !in p.bundles then
      if p.pending == Some(m) then Ok(p) else Err(UnknownBundle)
    else
      var BundleEntry(info, status) := p.bundles[m];
      var (rest, latest) := status.Pop();
      if !IsSubmitted(latest.value) || latest.height != height then Err(AssertionFailed)
      else if info.Known? && rest.Some? && rest.value.Latest().value.Pending? then
        var spend := info.bundle.spendUtxos;
        if !(spend.Keys <= p.stxos.Keys) then Err(NoStxo)
        else Ok(SetBundle(Reinstate(p, spend).(pending := Some(m)), m, info, rest.value))
      else if rest.Some? then Ok(SetBundle(p, m, info, rest.value))
      else Ok(p.(bundles := p.bundles - {m}))
  }

  function DisconnectConfirmed(p: PegState, height: nat, m: M6id): Result<PegState, PegError> {
    if m !in p.bundles then Err(UnknownBundle)
    else
      var BundleEntry(info, status) := p.bundles[m];
      var (rest, latest) := status.Pop();
      if IsSubmitted(latest.value) then Ok(p)
      else if !latest.value.Confirmed? || latest.height != height || rest.None? || !IsSubmitted(rest.value.Latest().value)
      then Err(AssertionFailed)
      else match info
        case Unknown => Ok(SetBundle(p, m, info, rest.value))
        case UnknownConfirmed(spend) =>
          if !(spend.Keys <= p.stxos.Keys) then Err(NoStxo)
          else Ok(SetBundle(Reinstate(p, spend), m, Unknown, rest.value))
        case Known(bundle) =>
          if rest.value.Latest().value.Submitted? then Ok(SetBundle(p, m, info, rest.value))
          else if !(bundle.spendUtxos.Keys <= p.stxos.Keys) then Err(NoStxo)
          else Ok(SetBundle(Reinstate(p, bundle.spendUtxos), m, info, rest.value))
  }

  function DisconnectFailed(p: PegState, height: nat, m: M6id): Result<PegState, PegError> {
    if m !in p.bundles then Err(UnknownBundle)
    else
      var BundleEntry(info, status) := p.bundles[m];
      var (rest, latest) := status.Pop();
      if latest.value.Submitted? then Ok(p)
      else if !latest.value.Failed? || latest.height != height || rest.None? || !IsSubmitted(rest.value.Latest().value)
      then Err(AssertionFailed)
      else if info.Known? && rest.value.Latest().value.Submitted? then
        var spend := info.bundle.spendUtxos;
        if !(spend.Keys <= p.utxos.Keys) then Err(NoUtxo)
        else if p.latestFailed.None? then Err(AssertionFailed)
        else
          var (restFailed, latestFailed) := p.latestFailed.value.Pop();
          if latestFailed != HeightStamped(m, height) then Err(AssertionFailed)
          else Ok(SetBundle(Withdraw(p, spend, m).(latestFailed := restFailed), m, info, rest.value))
      else Ok(SetBundle(p, m, info, rest.value))
  }

  function DisconnectEvent(p: PegState, height: nat, e: BlockEvent): Result<PegState, PegError> {
    match e
    case DepositEvent(txid, vout, output) =>
      if Deposit(txid, vout) in p.utxos then Ok(p.(utxos := p.utxos - {Deposit(txid, vout)})) else Err(NoUtxo)
    case BundleEvent(m, EventSubmitted) => DisconnectSubmitted(p, height, m)
    case BundleEvent(m, EventConfirmed) => DisconnectConfirmed(p, height, m)
    case BundleEvent(m, EventFailed) => DisconnectFailed(p, height, m)
  }

  // ------------------------------------------------------------- event sequences

  /** Connects the events first to last. */
  function ConnectEvents(p: PegState, height: nat, events: seq<BlockEvent>): Result<PegState, PegError> {
    if events == [] then Ok(p)
    else
      var q :- ConnectEvents(p, height, events[..|events| - 1]);
      ConnectEvent(q, height, events[|events| - 1])
  }

  /** Disconnects the events last to first. */
  function DisconnectEvents(p: PegState, height: nat, events: seq<BlockEvent>): Result<PegState, PegError>
    decreases |events|
  {
    if events == [] then Ok(p)
    else
      var q :- DisconnectEvent(p, height, events[|events| - 1]);
      DisconnectEvents(q, height, events[..|events| - 1])
  }

  // ------------------------------------------------------------ latest failure

  function LastFailedHeight(entries: seq<HeightStamped<BundleStatus>>): Option<nat> {
    if entries == [] then None
    else if entries[|entries| - 1].value.Failed? then Some(entries[|entries| - 1].height)
    else LastFailedHeight(entries[..|entries| - 1])
  }

  /** The height at which the latest failed bundle failed, 0 if none did; panics are errors. */
  function LatestFailureHeight(p: PegState): Result<nat, PegError> {
    if p.latestFailed.None? then Ok(0)
    else
      var m := p.latestFailed.value.Latest().value;
      if m !in p.bundles then Err(AssertionFailed)
      else match LastFailedHeight(p.bundles[m].status.Entries())
        case None => Err(AssertionFailed)
        case Some(height) => Ok(height)
  }
}
