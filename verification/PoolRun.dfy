/**
 Connecting and disconnecting tips as the node does it: the state, then the header in the archive, then
 the mempool. What that makes of the mempool along a chain, and which step refuses a block.
 */
module PoolRun {
  import opened Types
  import opened Bmm
  import opened PegBlock
  import opened State
  import opened Validation
  import opened BlockSpec
  import opened Chain
  import Archive
  import BodyLists
  import MemPool

  type Pool = MemPool.Pool

  datatype StepError =
    | StateRefused(reason: TipError) | HeaderRefused(missing: ArchiveError) | PoolRefused(conflict: MemPool.MemPoolError)
    | BodyMissing | AuthorizationsMissing

  /** What the archive and the mempool make of a block that the state has connected. */
  ghost function Accepted(foreign: Foreign, main: MainTables, header: Header, pool: Pool, accumulator: Forest, body: Body)
    : Result<Pool, StepError>
  {
    match Archive.SuccessorsMissing(main, header)
    case Some(e) => Err(HeaderRefused(e))
    case None =>
      match MemPool.PoolAfter(foreign.prove, pool, accumulator, body)
      case Err(e) => Err(PoolRefused(e))
      case Ok(p) => Ok(p)
  }

  /** The mempool after one more tip, or the first part that refuses it. */
  ghost function StepResult(foreign: Foreign, main: MainTables, c: Contents, pool: Pool, s: TipStep): Result<Pool, StepError> {
    match TipAfter(c, foreign, s)
    case Err(e) => Err(StateRefused(e))
    case Ok(d) => Accepted(foreign, main, s.header, pool, d.accumulator, s.body)
  }

  /** A step succeeds exactly when the state, the archive and the mempool all accept the block. */
  lemma StepSucceedsExactly(foreign: Foreign, main: MainTables, c: Contents, pool: Pool, s: TipStep, after: Pool)
    requires main.Valid()
    ensures StepResult(foreign, main, c, pool, s) == Ok(after) <==>
              && TipAfter(c, foreign, s).Ok?
              && s.header.prevMainHash in main.tree.height
              && (forall m | m in main.tree.parent && main.tree.parent[m] == s.header.prevMainHash :: m in main.infos)
              && MemPool.PoolAfter(foreign.prove, pool, TipAfter(c, foreign, s).value.accumulator, s.body) == Ok(after)
  {
    hide TipAfter, MemPool.PoolAfter;
    if s.header.prevMainHash in main.successors {
      assert main.ListsChildren(s.header.prevMainHash);
    }
  }

  /** The mempool after the tips of the log from the `kept`-th on, or the first refusal. */
  ghost function PoolAlong(foreign: Foreign, main: MainTables, pool: Pool, log: Log, kept: nat): Result<Pool, StepError> {
    if |log| <= kept then Ok(pool)
    else
      var init := log[..|log| - 1];
      var before :- PoolAlong(foreign, main, pool, init, kept);
      match StateAfter(foreign, init)
      case Err(e) => Err(StateRefused(e))
      case Ok(c) => StepResult(foreign, main, c, before, log[|log| - 1])
  }

  lemma OneMoreAlong(foreign: Foreign, main: MainTables, pool: Pool, log: Log, kept: nat, s: TipStep)
    requires kept <= |log| && StateAfter(foreign, log).Ok? && PoolAlong(foreign, main, pool, log, kept).Ok?
    ensures PoolAlong(foreign, main, pool, log + [s], kept) ==
            StepResult(foreign, main, StateAfter(foreign, log).value, PoolAlong(foreign, main, pool, log, kept).value, s)
  {
    assert (log + [s])[..|log|] == log;
  }

  /** A refusal is final. */
  lemma {:induction false} AlongPrefix(foreign: Foreign, main: MainTables, pool: Pool, log: Log, kept: nat, n: nat)
    requires n <= |log|
    ensures PoolAlong(foreign, main, pool, log[..n], kept).Err? ==>
              PoolAlong(foreign, main, pool, log, kept) == PoolAlong(foreign, main, pool, log[..n], kept)
    decreases |log|
  {
    hide StepResult, StateAfter;
    if n == |log| {
      assert log[..n] == log;
    } else {
      assert log[..|log| - 1][..n] == log[..n];
      AlongPrefix(foreign, main, pool, log[..|log| - 1], kept, n);
    }
  }

  /** The tips along which the mempool goes connect to the state. */
  lemma {:induction false} AlongConnects(foreign: Foreign, main: MainTables, pool: Pool, log: Log, kept: nat)
    requires kept <= |log| && StateAfter(foreign, log[..kept]).Ok?
    ensures PoolAlong(foreign, main, pool, log, kept).Ok? ==> StateAfter(foreign, log).Ok?
    ensures match PoolAlong(foreign, main, pool, log, kept)
            case Err(StateRefused(e)) => StateAfter(foreign, log) == Err(e)
            case _ => true
    decreases |log|
  {
    hide TipAfter;
    if |log| == kept {
      assert log[..kept] == log;
    } else {
      var init := log[..|log| - 1];
      assert init[..kept] == log[..kept];
      AlongConnects(foreign, main, pool, init, kept);
    }
  }

  // --------------------------------------------------------------- disconnecting

  /** The mempool after the last tip of the log is disconnected. */
  ghost function PoolBack(foreign: Foreign, pool: Pool, c: Contents, body: Body): Result<Pool, StepError> {
    match BodyLists.Unpack(body.transactions, body.authorizations)
    case None => Err(AuthorizationsMissing)
    case Some(txs) =>
      match MemPool.PoolBefore(foreign.prove, pool, c.accumulator, txs)
      case Err(e) => Err(PoolRefused(e))
      case Ok(p) => Ok(p)
  }

  /** The mempool when all tips of the log after the first `k` are disconnected, last one first. */
  ghost function PoolDown(foreign: Foreign, pool: Pool, log: Log, k: nat): Result<Pool, StepError>
    decreases |log|
  {
    if |log| <= k then Ok(pool)
    else
      var init := log[..|log| - 1];
      match StateAfter(foreign, init)
      case Err(e) => Err(StateRefused(e))
      case Ok(c) =>
        var before :- PoolBack(foreign, pool, c, log[|log| - 1].body);
        PoolDown(foreign, before, init, k)
  }

  // ----------------------------------------------------------------- an empty mempool

  /** Every header from the `kept`-th on can be stored. */
  ghost predicate HeadersStorable(main: MainTables, log: Log, kept: nat) {
    forall i {:trigger log[i]} | kept <= i < |log| :: Archive.SuccessorsMissing(main, log[i].header).None?
  }

  lemma EmptyStaysEmpty(foreign: Foreign, accumulator: Forest, body: Body)
    ensures MemPool.PoolAfter(foreign.prove, map[], accumulator, body) == Ok(map[])
  {
    var pool: Pool := map[];
    assert pool - MemPool.Closure(pool.Keys, MemPool.Conflicts(pool.Keys, body.transactions)) == pool;
  }

  /** With an empty mempool only the state and missing mainchain infos refuse a block. */
  lemma {:induction false} EmptyAlong(foreign: Foreign, main: MainTables, log: Log, kept: nat)
    requires kept <= |log| && StateAfter(foreign, log[..kept]).Ok?
    ensures PoolAlong(foreign, main, map[], log, kept).Ok? <==> StateAfter(foreign, log).Ok? && HeadersStorable(main, log, kept)
    ensures PoolAlong(foreign, main, map[], log, kept).Ok? ==> PoolAlong(foreign, main, map[], log, kept) == Ok(map[])
    decreases |log|
  {
    hide TipAfter;
    if |log| == kept {
      assert log[..kept] == log;
    } else {
      var init, last := log[..|log| - 1], log[|log| - 1];
      assert init[..kept] == log[..kept];
      EmptyAlong(foreign, main, init, kept);
      assert HeadersStorable(main, log, kept) <==>
             HeadersStorable(main, init, kept) && Archive.SuccessorsMissing(main, last.header).None? by {
        assert forall i | kept <= i < |init| :: init[i] == log[i];
      }
      if StateAfter(foreign, log).Ok? {
        EmptyStaysEmpty(foreign, StateAfter(foreign, log).value.accumulator, last.body);
      }
    }
  }
}
