/**
 The accumulator diff that peg events leave behind. A bundle keeps its outputs in a table that is
 ordered by outpoint, so the order in which they are moved, and with it the diff, is determined.
 */
module PegDiff {
  import opened Types
  import opened Accumulator
  import opened Peg

  /** The position of every outpoint in the order of outpoints. */
  type Rank = OutPoint -> int

  ghost predicate TotalOrder(rank: Rank) {
    forall x, y {:trigger rank(x), rank(y)} :: rank(x) == rank(y) ==> x == y
  }

  /** The same order, last to first. */
  function Backwards(rank: Rank): Rank {
    (o: OutPoint) => -rank(o)
  }

  lemma BackwardsIsTotal(rank: Rank)
    requires TotalOrder(rank)
    ensures TotalOrder(Backwards(rank))
  {
    forall x, y {:trigger Backwards(rank)(x), Backwards(rank)(y)} | Backwards(rank)(x) == Backwards(rank)(y)
      ensures x == y
    {
      assert rank(x) == rank(y);
    }
  }

  predicate IsFirst(s: set<OutPoint>, rank: Rank, o: OutPoint) {
    o in s && forall x | x in s :: rank(o) <= rank(x)
  }

  lemma {:induction false} FirstExists(s: set<OutPoint>, rank: Rank)
    requires s != {}
    ensures exists o :: IsFirst(s, rank, o)
    decreases |s|
  {
    var x :| x in s;
    if s == {x} {
      assert IsFirst(s, rank, x);
    } else {
      assert s - {x} != {};
      FirstExists(s - {x}, rank);
      var o :| IsFirst(s - {x}, rank, o);
      assert IsFirst(s, rank, if rank(x) <= rank(o) then x else o);
    }
  }

  /** The diff after the outputs `rest` of `spend` have been recorded one by one, in order. */
  ghost function Move(d: Diff, spend: map<OutPoint, Output>, rest: set<OutPoint>, insert: bool, rank: Rank): Diff
    requires rest <= spend.Keys
    decreases |rest|
  {
    if rest == {} then d
    else
      FirstExists(rest, rank);
      var o :| IsFirst(rest, rank, o);
      Move(Record(d, Leaf(o, spend[o]), insert), spend, rest - {o}, insert, rank)
  }

  ghost function MoveAll(d: Diff, spend: map<OutPoint, Output>, insert: bool, rank: Rank): Diff {
    Move(d, spend, spend.Keys, insert, rank)
  }

  /** There is only one first output to record. */
  lemma MoveFirst(d: Diff, spend: map<OutPoint, Output>, rest: set<OutPoint>, insert: bool, rank: Rank, o: OutPoint)
    requires TotalOrder(rank) && rest <= spend.Keys && IsFirst(rest, rank, o)
    ensures Move(d, spend, rest, insert, rank) ==
            Move(Record(d, Leaf(o, spend[o]), insert), spend, rest - {o}, insert, rank)
  {
    FirstExists(rest, rank);
    var first :| IsFirst(rest, rank, first) &&
                 Move(d, spend, rest, insert, rank) ==
                 Move(Record(d, Leaf(first, spend[first]), insert), spend, rest - {first}, insert, rank);
    assert rank(first) == rank(o);
  }

  // ------------------------------------------------------------------ single events

  /** The diff after an accepted event is connected to `p`. */
  ghost function EventDiff(d: Diff, p: PegState, e: BlockEvent, rank: Rank): Diff {
    match e
    case DepositEvent(txid, vout, output) => Record(d, Leaf(Deposit(txid, vout), output), true)
    case BundleEvent(m, status) =>
      if m !in p.bundles then d
      else
        var BundleEntry(info, history) := p.bundles[m];
        match (status, info, history.Latest().value)
        case (EventSubmitted, Known(bundle), _) =>
          if p.pending == Some(m) then MoveAll(d, bundle.spendUtxos, false, rank) else d
        case (EventConfirmed, Unknown, s) => if IsSubmitted(s) then MoveAll(d, p.utxos, false, rank) else d
        case (EventConfirmed, Known(bundle), SubmittedUnexpected) => MoveAll(d, bundle.spendUtxos, false, rank)
        case (EventFailed, Known(bundle), Submitted) => MoveAll(d, bundle.spendUtxos, true, rank)
        case _ => d
  }

  /** The diff after an event is disconnected from `p`. */
  ghost function UndoEventDiff(d: Diff, p: PegState, e: BlockEvent, rank: Rank): Diff {
    match e
    case DepositEvent(txid, vout, output) => Record(d, Leaf(Deposit(txid, vout), output), false)
    case BundleEvent(m, status) =>
      if m !in p.bundles then d
      else
        var BundleEntry(info, history) := p.bundles[m];
        var (rest, latest) := history.Pop();
        if rest.None? then d
        else
          match (status, info, rest.value.Latest().value)
          case (EventSubmitted, Known(bundle), Pending) => MoveAll(d, bundle.spendUtxos, true, Backwards(rank))
          case (EventConfirmed, UnknownConfirmed(spend), _) =>
            if latest.value.Confirmed? then MoveAll(d, spend, true, rank) else d
          case (EventConfirmed, Known(bundle), SubmittedUnexpected) =>
            if latest.value.Confirmed? then MoveAll(d, bundle.spendUtxos, true, rank) else d
          case (EventFailed, Known(bundle), Submitted) =>
            if latest.value.Failed? then MoveAll(d, bundle.spendUtxos, false, Backwards(rank)) else d
          case _ => d
  }

  // ------------------------------------------------------------- sequences of events

  /** The diff after accepted events are connected first to last. */
  ghost function EventsDiff(p: PegState, height: nat, events: seq<BlockEvent>, rank: Rank): Diff {
    if events == [] then EMPTY_DIFF
    else
      var init := events[..|events| - 1];
      var q := ConnectEvents(p, height, init);
      if q.Err? then EMPTY_DIFF
      else EventDiff(EventsDiff(p, height, init, rank), q.value, events[|events| - 1], rank)
  }

  /** The diff after events are disconnected last to first. */
  ghost function UndoEventsDiff(d: Diff, p: PegState, height: nat, events: seq<BlockEvent>, rank: Rank): Diff
    decreases |events|
  {
    if events == [] then d
    else
      var last := events[|events| - 1];
      var q := DisconnectEvent(p, height, last);
      if q.Err? then d
      else UndoEventsDiff(UndoEventDiff(d, p, last, rank), q.value, height, events[..|events| - 1], rank)
  }
}
