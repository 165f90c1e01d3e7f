/** The state's part of connecting and disconnecting a tip: the block and its peg data, all or nothing. */
module Tip {
  import opened Types
  import opened PegDiff
  import opened PegInvariant
  import opened PegBlock
  import opened State
  import opened Moves
  import opened Shielded
  import opened SortScan
  import opened Validation
  import opened BlockSpec
  import opened PegSync
  import opened PegConnect
  import opened Chain
  import opened BatchConnect
  import BlockUndo = Disconnect

  /**
   Applies the block by the fast path, then connects its peg data. Returns the frontier if the block
   appended to it. An error leaves everything as it was.
   */
  method ConnectTip(state: State, foreign: Foreign, s: TipStep, ghost hist: History)
    returns (r: Result<Option<seq<nat>>, TipError>)
    requires NodeInv(state.Saved(), hist) && Genuine(state.Saved(), s)
    requires Injective(foreign.key) && TotalOrder(foreign.rank)
    modifies state
    ensures match TipAfter(old(state.Saved()), foreign, s)
            case Err(e) => r == Err(e) && state.Saved() == old(state.Saved())
            case Ok(d) => state.Saved() == d && r == Ok(NewFrontier(d, s.body))
  {
    hide Verdict, Connected, MovesOf, Fresh, EventsDiff;
    var saved := state.Saved();
    var applied := ApplyBlock(state, foreign, s.header, s.body);
    if applied.Err? {
      return Err(BlockFailed(applied.error));
    }
    BodyKeepsInv(saved, hist, foreign, s);
    FrontierReported(saved, hist, s.header, s.body);
    var connected := ConnectPegData(state, foreign.rank, s.data);
    if connected.Err? {
      state.Restore(saved);
      return Err(PegDataFailed(connected.error));
    }
    r := Ok(applied.value);
  }

  /** The frontier to archive: the current one, if the block changed it. */
  function NewFrontier(c: Contents, body: Body): Option<seq<nat>> {
    if AllCommitments(body.transactions, |body.transactions|) == [] then None else Some(c.orchard.frontier)
  }

  /**
   Disconnects the peg data, then the block, putting back the archived accumulator and frontier. An
   error leaves everything as it was.
   */
  method DisconnectTip(
    state: State, foreign: Foreign, s: TipStep, prevAccumulator: Forest, prevFrontier: Option<seq<nat>>)
    returns (r: Result<(), TipError>)
    requires PegInvBelow(state.PegView(), NextHeight(state.height)) && InSync(state)
    requires AuthenticDeposits(AllEvents(s.data)) && TotalOrder(foreign.rank)
    modifies state
    ensures match TipBefore(old(state.Saved()), foreign, s, prevAccumulator, prevFrontier)
            case Err(e) => r == Err(e) && state.Saved() == old(state.Saved())
            case Ok(d) => r == Ok(()) && state.Saved() == d
  {
    hide Disconnected, UndoEventsDiff;
    var saved := state.Saved();
    InvIsBalanced(state.PegView(), NextHeight(state.height));
    var undone := DisconnectPegData(state, foreign.rank, s.data);
    if undone.Err? {
      return Err(PegDataFailed(undone.error));
    }
    var disconnected := BlockUndo.DisconnectTip(state, s.header, s.body, prevAccumulator, prevFrontier);
    if disconnected.Err? {
      state.Restore(saved);
      return Err(UndoFailed(disconnected.error));
    }
    r := Ok(());
  }
}
