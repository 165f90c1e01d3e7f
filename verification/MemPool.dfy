/**
 The mempool: a table of transactions with an index of the outpoints they spend and an index
 of the nullifiers they use. Removing a transaction removes its descendants.
 */
module MemPool {
  import opened Types

  datatype MemPoolError = UtxoDoubleSpent | NullifierDoubleSpent | ProofFailed

  // ----------------------------------------------------------------- relations

  /** A transaction id commits to the transaction, so these are properties of ids. */
  function Outpoints(t: Txid): seq<OutPoint> {
    seq(|t.core.inputs|, i requires 0 <= i < |t.core.inputs| => t.core.inputs[i].0)
  }

  function Nullifiers(t: Txid): seq<nat> {
    if t.core.orchardBundle.Some? then t.core.orchardBundle.value.nullifiers else []
  }

  /** `child` spends an output that `parent` creates. */
  ghost predicate IsChild(parent: Txid, child: Txid) {
    exists v: nat :: v < |parent.core.outputs| && Regular(parent, v) in Outpoints(child)
  }

  ghost predicate Closed(ids: set<Txid>, s: set<Txid>) {
    forall p, c :: p in s && c in ids && IsChild(p, c) ==> c in s
  }

  /** `r` is the least set of pooled ids that holds the pooled roots and all their descendants. */
  ghost predicate IsClosure(ids: set<Txid>, roots: set<Txid>, r: set<Txid>) {
    && r <= ids && roots * ids <= r && Closed(ids, r)
    && forall s: set<Txid> :: Closed(ids, s) && roots * ids <= s ==> r <= s
  }

  /** Removing two closures one after the other removes the closure of both root sets. */
  lemma ClosureUnion(ids: set<Txid>, a: set<Txid>, r: set<Txid>, b: set<Txid>, q: set<Txid>)
    requires IsClosure(ids, a, r) && IsClosure(ids - r, b, q)
    ensures IsClosure(ids, a + b, r + q)
  {
    forall s: set<Txid> | Closed(ids, s) && (a + b) * ids <= s
      ensures r + q <= s
    {
      assert a * ids <= s;
      assert Closed(ids - r, s);
      assert b * (ids - r) <= s;
    }
  }

  /** Without roots nothing is removed. */
  lemma EmptyClosure(ids: set<Txid>, roots: set<Txid>)
    requires roots == {}
    ensures IsClosure(ids, roots, {})
  {
  }

  /** The least such set. */
  ghost function Closure(ids: set<Txid>, roots: set<Txid>): set<Txid> {
    set t | t in ids && forall s: set<Txid> {:trigger Closed(ids, s)} :: Closed(ids, s) && roots * ids <= s ==> t in s
  }

  lemma ClosureIsUnique(ids: set<Txid>, roots: set<Txid>, r: set<Txid>)
    requires IsClosure(ids, roots, r)
    ensures r == Closure(ids, roots)
  {
    assert Closed(ids, r);
  }

  /** A closure depends on the pooled roots only. */
  lemma ClosureRoots(ids: set<Txid>, a: set<Txid>, b: set<Txid>, r: set<Txid>)
    requires IsClosure(ids, a, r) && a * ids <= b && b * ids <= r
    ensures IsClosure(ids, b, r)
  {
    forall s: set<Txid> | Closed(ids, s) && b * ids <= s
      ensures r <= s
    {
      assert a * ids <= s;
    }
  }

  /** An index maps each key to the one pooled transaction that lists it. */
  ghost predicate IndexExact<K(!new)>(ids: set<Txid>, keys: Txid -> seq<K>, index: map<K, Txid>) {
    forall k, t :: (k in index && index[k] == t) <==> (t in ids && k in keys(t))
  }

  /** `t` is, or shares a nullifier with, one of the given transactions. */
  ghost predicate ConflictsWith(txs: seq<Transaction>, t: Txid) {
    exists i :: 0 <= i < |txs| &&
                (t == txs[i].Id() || exists n :: n in Nullifiers(t) && n in Nullifiers(txs[i].Id()))
  }

  ghost function Conflicts(ids: set<Txid>, txs: seq<Transaction>): set<Txid> {
    set t | t in ids && ConflictsWith(txs, t)
  }

  ghost function Users(ids: set<Txid>, nullifiers: seq<nat>): set<Txid> {
    set t | t in ids && exists n :: n in Nullifiers(t) && n in nullifiers
  }

  /** One more nullifier adds at most the one transaction that an exact index names. */
  lemma UsersGrow(ids: set<Txid>, index: map<nat, Txid>, nullifiers: seq<nat>, i: nat)
    requires IndexExact(ids, Nullifiers, index) && i < |nullifiers|
    ensures Users(ids, nullifiers[..i + 1]) ==
            Users(ids, nullifiers[..i]) + if nullifiers[i] in index then {index[nullifiers[i]]} else {}
  {
    var n := nullifiers[i];
    assert nullifiers[..i + 1] == nullifiers[..i] + [n];
    assert forall u | u in ids && n in Nullifiers(u) :: n in index && index[n] == u;
  }

  lemma NoConflicts(ids: set<Txid>, txs: seq<Transaction>)
    ensures Conflicts(ids, txs[..0]) == {}
  {
  }

  lemma ConflictsGrow(ids: set<Txid>, txs: seq<Transaction>, i: nat)
    requires i < |txs|
    ensures Conflicts(ids, txs[..i + 1]) ==
            Conflicts(ids, txs[..i]) + {txs[i].Id()} * ids + Users(ids, Nullifiers(txs[i].Id()))
  {
    forall t
      ensures ConflictsWith(txs[..i + 1], t) <==>
                || ConflictsWith(txs[..i], t) || t == txs[i].Id()
                || exists n :: n in Nullifiers(t) && n in Nullifiers(txs[i].Id())
    {
      assert txs[..i + 1][i] == txs[i];
      assert forall j | 0 <= j < i :: txs[..i + 1][j] == txs[..i][j];
    }
  }

  // --------------------------------------------------------------- the worklist

  /** What is removed belongs to the closure, and what is missing of it is reached through pending transactions. */
  ghost predicate Deleting(ids: set<Txid>, root: Txid, removed: set<Txid>, pending: seq<Txid>) {
    && removed <= ids && (root in ids ==> root in removed || root in pending)
    && (forall p, c :: p in removed && c in ids - removed && IsChild(p, c) ==> c in pending)
    && forall s: set<Txid> {:trigger Closed(ids, s)} :: Closed(ids, s) && {root} * ids <= s ==>
         removed <= s && forall q :: q in pending && q in ids ==> q in s
  }

  lemma StartDeleting(ids: set<Txid>, root: Txid)
    ensures Deleting(ids, root, {}, [root])
  {
  }

  lemma OneMoreDeleted(ids: set<Txid>, root: Txid, removed: set<Txid>, pending: seq<Txid>, children: seq<Txid>)
    requires Deleting(ids, root, removed, pending) && pending != [] && pending[0] in ids - removed
    requires forall c :: c in children <==> c in ids - removed - {pending[0]} && IsChild(pending[0], c)
    ensures Deleting(ids, root, removed + {pending[0]}, pending[1..] + children)
  {
    var t, rest := pending[0], pending[1..] + children;
    assert pending == [t] + pending[1..];
    forall s: set<Txid> {:trigger Closed(ids, s)} | Closed(ids, s) && {root} * ids <= s
      ensures removed + {t} <= s && forall q :: q in rest && q in ids ==> q in s
    {
      assert t in pending && t in s;
    }
  }

  lemma NothingDeleted(ids: set<Txid>, root: Txid, removed: set<Txid>, pending: seq<Txid>)
    requires Deleting(ids, root, removed, pending) && pending != [] && pending[0] !in ids - removed
    ensures Deleting(ids, root, removed, pending[1..])
  {
    assert pending == [pending[0]] + pending[1..];
  }

  lemma AllDeleted(ids: set<Txid>, root: Txid, removed: set<Txid>)
    requires Deleting(ids, root, removed, [])
    ensures IsClosure(ids, {root}, removed)
  {
    assert {root} * ids <= removed;
    assert Closed(ids, removed);
  }

  // -------------------------------------------------------------- index updates

  /** `after` is `index` with every one of `keys` claimed for `t`. */
  ghost predicate Claimed<K(!new)>(index: map<K, Txid>, keys: seq<K>, t: Txid, after: map<K, Txid>) {
    && (forall k :: k in after <==> k in index || k in keys)
    && (forall k | k in keys :: after[k] == t)
    && (forall k | k in index && k !in keys :: after[k] == index[k])
  }

  /** Claims every key for `t`, unless one of them is taken already. */
  method Claim<K(==, !new)>(index: map<K, Txid>, keys: seq<K>, t: Txid) returns (r: Option<map<K, Txid>>)
    ensures r.Some? <==> Distinct(keys) && forall k | k in keys :: k !in index
    ensures r.Some? ==> Claimed(index, keys, t, r.value)
  {
    var claimed := index;
    for i := 0 to |keys|
      invariant Distinct(keys[..i]) && forall k | k in keys[..i] :: k !in index
      invariant Claimed(index, keys[..i], t, claimed)
    {
      assert keys[..i + 1] == keys[..i] + [keys[i]];
      if keys[i] in claimed {
        if keys[i] !in index {
          var j :| 0 <= j < i && keys[..i][j] == keys[i];
          assert keys[j] == keys[i];
        }
        return None;
      }
      claimed := claimed[keys[i] := t];
    }
    assert keys[..|keys|] == keys;
    r := Some(claimed);
  }

  method Release<K(==)>(index: map<K, Txid>, keys: seq<K>) returns (r: map<K, Txid>)
    ensures r == index - ToSet(keys)
  {
    r := index;
    for i := 0 to |keys|
      invariant r == index - ToSet(keys[..i])
    {
      assert ToSet(keys[..i + 1]) == ToSet(keys[..i]) + {keys[i]};
      r := r - {keys[i]};
    }
    assert keys[..|keys|] == keys;
  }

  lemma ClaimKeepsExact<K(!new)>(
    ids: set<Txid>, keys: Txid -> seq<K>, index: map<K, Txid>, t: Txid, after: map<K, Txid>)
    requires IndexExact(ids, keys, index) && t !in ids && Claimed(index, keys(t), t, after)
    requires forall k | k in keys(t) :: k !in index
    ensures IndexExact(ids + {t}, keys, after)
  {
  }

  lemma ReleaseKeepsExact<K(!new)>(ids: set<Txid>, keys: Txid -> seq<K>, index: map<K, Txid>, t: Txid)
    requires IndexExact(ids, keys, index) && t in ids
    ensures IndexExact(ids - {t}, keys, index - ToSet(keys(t)))
  {
    forall k | k in keys(t)
      ensures k in index && index[k] == t
    {
    }
  }

  /** The pooled transactions that spend an output of `t`, found through the index. */
  method PooledChildren(spentUtxos: map<OutPoint, Txid>, t: Txid) returns (children: seq<Txid>)
    ensures forall c :: c in children <==>
              exists v: nat :: v < |t.core.outputs| && Regular(t, v) in spentUtxos && spentUtxos[Regular(t, v)] == c
  {
    children := [];
    for vout := 0 to |t.core.outputs|
      invariant forall c :: c in children <==>
                  exists v: nat :: v < vout && Regular(t, v) in spentUtxos && spentUtxos[Regular(t, v)] == c
    {
      if Regular(t, vout) in spentUtxos {
        children := children + [spentUtxos[Regular(t, vout)]];
      }
    }
  }

  // ------------------------------------------------------------------------ proofs

  /** Makes a proof that leaves are in the accumulator, if they are. */
  type Prover = (Forest, seq<Leaf>) -> Option<nat>

  /** The leaves that the inputs of a transaction claim. */
  function Targets(t: Txid): seq<Leaf> {
    seq(|t.core.inputs|, i requires 0 <= i < |t.core.inputs| => t.core.inputs[i].1)
  }

  predicate AllProvable(prove: Prover, accumulator: Forest, ids: set<Txid>) {
    forall t | t in ids :: prove(accumulator, Targets(t)).Some?
  }

  /** A transaction with a new proof of its inputs. */
  function Reproved(prove: Prover, accumulator: Forest, t: Txid, tx: AuthorizedTransaction): AuthorizedTransaction {
    match prove(accumulator, Targets(t))
    case None => tx
    case Some(proof) => tx.(transaction := tx.transaction.(proof := proof))
  }

  predicate Stored(transactions: map<Txid, AuthorizedTransaction>) {
    forall t | t in transactions :: transactions[t].transaction.Id() == t
  }

  /** Everything but `rest` has a new proof. */
  ghost predicate ProvedAnew(
    prove: Prover, accumulator: Forest, before: map<Txid, AuthorizedTransaction>,
    after: map<Txid, AuthorizedTransaction>, rest: set<Txid>)
  {
    && Stored(before) && Stored(after) && rest <= after.Keys == before.Keys
    && AllProvable(prove, accumulator, before.Keys - rest)
    && forall t | t in before ::
         after[t] == if t in rest then before[t] else Reproved(prove, accumulator, t, before[t])
  }

  lemma NothingProved(prove: Prover, accumulator: Forest, before: map<Txid, AuthorizedTransaction>)
    requires Stored(before)
    ensures ProvedAnew(prove, accumulator, before, before, before.Keys)
  {
  }

  lemma OneMoreProved(
    prove: Prover, accumulator: Forest, before: map<Txid, AuthorizedTransaction>,
    after: map<Txid, AuthorizedTransaction>, rest: set<Txid>, t: Txid)
    requires ProvedAnew(prove, accumulator, before, after, rest) && t in rest
    ensures t in after && after[t].transaction.Id() == t && after.Keys == before.Keys
    ensures if prove(accumulator, Targets(t)).None? then !AllProvable(prove, accumulator, before.Keys)
            else
              var next := after[t := Reproved(prove, accumulator, t, after[t])];
              next.Keys == after.Keys && Stored(next) && ProvedAnew(prove, accumulator, before, next, rest - {t})
  {
    assert t in before.Keys;
    var next := after[t := Reproved(prove, accumulator, t, after[t])];
    assert next.Keys == after.Keys;
    assert Stored(next);
  }

  lemma AllProved(
    prove: Prover, accumulator: Forest, before: map<Txid, AuthorizedTransaction>, after: map<Txid, AuthorizedTransaction>)
    requires ProvedAnew(prove, accumulator, before, after, {})
    ensures after.Keys == before.Keys && AllProvable(prove, accumulator, after.Keys)
    ensures forall t | t in after :: after[t] == Reproved(prove, accumulator, t, before[t])
  {
    assert before.Keys - {} == before.Keys;
  }

  // -------------------------------------------------- what happens to the pool as a value

  type Pool = map<Txid, AuthorizedTransaction>

  ghost function ReprovedAll(prove: Prover, accumulator: Forest, pool: Pool): Result<Pool, MemPoolError> {
    if AllProvable(prove, accumulator, pool.Keys) then Ok(map t | t in pool :: Reproved(prove, accumulator, t, pool[t]))
    else Err(ProofFailed)
  }

  /** After a block is connected: what conflicts with it is gone with all descendants, and the rest is proved anew. */
  ghost function PoolAfter(prove: Prover, pool: Pool, accumulator: Forest, body: Body): Result<Pool, MemPoolError> {
    ReprovedAll(prove, accumulator, pool - Closure(pool.Keys, Conflicts(pool.Keys, body.transactions)))
  }

  /** The keys are different and no pooled transaction has one of them. */
  ghost predicate Free<K(!new)>(pool: Pool, keys: Txid -> seq<K>, t: Txid) {
    Distinct(keys(t)) && forall u, k :: u in pool && k in keys(t) ==> k !in keys(u)
  }

  ghost function WithTransaction(pool: Pool, tx: AuthorizedTransaction): Result<Pool, MemPoolError> {
    var t := tx.transaction.Id();
    if t in pool then Ok(pool)
    else if !Free(pool, Outpoints, t) then Err(UtxoDoubleSpent)
    else if !Free(pool, Nullifiers, t) then Err(NullifierDoubleSpent)
    else Ok(pool[t := tx])
  }

  /** The transactions are put back, last to first. */
  ghost function WithAll(pool: Pool, txs: seq<AuthorizedTransaction>): Result<Pool, MemPoolError>
    decreases |txs|
  {
    if txs == [] then Ok(pool)
    else
      var next :- WithTransaction(pool, txs[|txs| - 1]);
      WithAll(next, txs[..|txs| - 1])
  }

  /** After a block is disconnected: its transactions are back, and all are proved anew. */
  ghost function PoolBefore(prove: Prover, pool: Pool, accumulator: Forest, txs: seq<AuthorizedTransaction>)
    : Result<Pool, MemPoolError>
  {
    var back :- WithAll(pool, txs);
    ReprovedAll(prove, accumulator, back)
  }

  lemma FreeByIndex<K(!new)>(pool: Pool, keys: Txid -> seq<K>, index: map<K, Txid>, t: Txid)
    requires IndexExact(pool.Keys, keys, index)
    ensures Free(pool, keys, t) <==> Distinct(keys(t)) && forall k | k in keys(t) :: k !in index
  {
    forall k | k in keys(t)
      ensures k in index <==> exists u :: u in pool && k in keys(u)
    {
      if k in index {
        assert index[k] in pool.Keys && k in keys(index[k]);
      }
    }
  }

  /** What conflicts with the block is in the closure of its conflicts. */
  lemma ConflictsAreGone(ids: set<Txid>, txs: seq<Transaction>, removed: set<Txid>)
    requires IsClosure(ids, Conflicts(ids, txs), removed)
    ensures forall t | t in ids - removed :: !ConflictsWith(txs, t)
  {
    hide ConflictsWith, Closed;
  }

  /** The tables of the mempool. */
  datatype PoolTables = PoolTables(transactions: Pool, spentUtxos: map<OutPoint, Txid>, usedNullifiers: map<nat, Txid>)

  /** Transactions are stored under their ids, and both indexes are exact. */
  ghost predicate PoolExact(p: PoolTables) {
    && Stored(p.transactions)
    && IndexExact(p.transactions.Keys, Outpoints, p.spentUtxos)
    && IndexExact(p.transactions.Keys, Nullifiers, p.usedNullifiers)
  }

  const EMPTY_POOL := PoolTables(map[], map[], map[])

  // -------------------------------------------------------------------- the pool

  class MemPool {
    var transactions: map<Txid, AuthorizedTransaction>
    var spentUtxos: map<OutPoint, Txid>
    var usedNullifiers: map<nat, Txid>

    ghost predicate Valid()
      reads this
    {
      PoolExact(Saved())
    }

    function Saved(): PoolTables
      reads this
    {
      PoolTables(transactions, spentUtxos, usedNullifiers)
    }

    constructor ()
      ensures Valid() && Saved() == EMPTY_POOL
    {
      transactions, spentUtxos, usedNullifiers := map[], map[], map[];
    }

    /** Drops a write transaction: everything is as it was when `saved` was taken. */
    method Restore(saved: PoolTables)
      modifies this
      ensures Saved() == saved
    {
      transactions, spentUtxos, usedNullifiers := saved.transactions, saved.spentUtxos, saved.usedNullifiers;
    }

    /** Adds a transaction unless it conflicts with a pooled one or with itself. */
    method Put(tx: AuthorizedTransaction) returns (r: Result<(), MemPoolError>)
      requires Valid()
      modifies this
      ensures Valid()
      ensures match WithTransaction(old(transactions), tx)
              case Err(e) => r == Err(e) && Saved() == old(Saved())
              case Ok(p) => r == Ok(()) && transactions == p
    {
      var t := tx.transaction.Id();
      if t in transactions {
        return Ok(());
      }
      FreeByIndex(transactions, Outpoints, spentUtxos, t);
      FreeByIndex(transactions, Nullifiers, usedNullifiers, t);
      var spent := Claim(spentUtxos, Outpoints(t), t);
      if spent.None? {
        return Err(UtxoDoubleSpent);
      }
      var used := Claim(usedNullifiers, Nullifiers(t), t);
      if used.None? {
        return Err(NullifierDoubleSpent);
      }
      ClaimKeepsExact(transactions.Keys, Outpoints, spentUtxos, t, spent.value);
      ClaimKeepsExact(transactions.Keys, Nullifiers, usedNullifiers, t, used.value);
      transactions := transactions[t := tx];
      spentUtxos, usedNullifiers := spent.value, used.value;
      r := Ok(());
    }

    /** Removes one pooled transaction and reports the pooled transactions that spend its outputs. */
    method RemoveOne(t: Txid) returns (children: seq<Txid>)
      requires Valid() && t in transactions
      modifies this
      ensures Valid() && transactions == old(transactions) - {t}
      ensures forall c :: c in children <==> c in transactions && IsChild(t, c)
    {
      ReleaseKeepsExact(transactions.Keys, Outpoints, spentUtxos, t);
      ReleaseKeepsExact(transactions.Keys, Nullifiers, usedNullifiers, t);
      spentUtxos := Release(spentUtxos, Outpoints(t));
      transactions := transactions - {t};
      children := PooledChildren(spentUtxos, t);
      usedNullifiers := Release(usedNullifiers, Nullifiers(t));
    }

    /** Removes exactly the transaction and everything reachable from it through spent outputs. */
    method Delete(txid: Txid) returns (ghost removed: set<Txid>)
      requires Valid()
      modifies this
      ensures Valid() && transactions == old(transactions) - removed
      ensures IsClosure(old(transactions.Keys), {txid}, removed)
    {
      hide Stored, IndexExact, Deleting;
      ghost var ids := transactions.Keys;
      removed := {};
      var pending := [txid];
      StartDeleting(ids, txid);
      while pending != []
        invariant Valid() && transactions == old(transactions) - removed
        invariant Deleting(ids, txid, removed, pending)
        decreases |transactions|, |pending|
      {
        ghost var before := pending;
        assert transactions.Keys == ids - removed;
        var t := pending[0];
        pending := pending[1..];
        if t in transactions {
          var children := RemoveOne(t);
          assert transactions.Keys == ids - removed - {t};
          OneMoreDeleted(ids, txid, removed, before, children);
          removed := removed + {t};
          pending := pending + children;
        } else {
          NothingDeleted(ids, txid, removed, before);
        }
      }
      AllDeleted(ids, txid, removed);
    }

    /** Removes the closure of all users of the given nullifiers. */
    method DeleteUsers(nullifiers: seq<nat>) returns (ghost removed: set<Txid>)
      requires Valid()
      modifies this
      ensures Valid() && transactions == old(transactions) - removed
      ensures IsClosure(old(transactions.Keys), Users(old(transactions.Keys), nullifiers), removed)
    {
      hide Stored, Closed, IsChild;
      ghost var ids, index := transactions.Keys, usedNullifiers;
      assert IndexExact(ids, Nullifiers, index);
      removed := {};
      EmptyClosure(ids, Users(ids, nullifiers[..0]));
      for i := 0 to |nullifiers|
        invariant Valid() && transactions == old(transactions) - removed
        invariant IsClosure(ids, Users(ids, nullifiers[..i]), removed)
      {
        var n := nullifiers[i];
        ghost var users, next := Users(ids, nullifiers[..i]), Users(ids, nullifiers[..i + 1]);
        if n in usedNullifiers {
          var t := usedNullifiers[n];
          assert t in transactions && n in Nullifiers(t);
          ghost var more := Delete(t);
          assert transactions.Keys + more == ids - removed;
          ClosureUnion(ids, users, removed, {t}, more);
          removed := removed + more;
          assert n in index && index[n] == t;
          UsersGrow(ids, index, nullifiers, i);
          ClosureRoots(ids, users + {t}, next, removed);
        } else {
          UsersGrow(ids, index, nullifiers, i);
          ClosureRoots(ids, users, next, removed);
        }
      }
      assert nullifiers[..|nullifiers|] == nullifiers;
    }

    /** Proves the inputs of every pooled transaction anew, unless some proof cannot be made. */
    method RegenerateProofs(prove: Prover, accumulator: Forest) returns (r: Result<(), MemPoolError>)
      requires Valid()
      modifies this`transactions
      ensures Valid() && transactions.Keys == old(transactions.Keys)
      ensures r == if AllProvable(prove, accumulator, transactions.Keys) then Ok(()) else Err(ProofFailed)
      ensures r.Ok? ==> forall t | t in transactions :: transactions[t] == Reproved(prove, accumulator, t, old(transactions)[t])
      ensures match ReprovedAll(prove, accumulator, old(transactions))
              case Err(e) => r == Err(e)
              case Ok(p) => r == Ok(()) && transactions == p
    {
      hide IndexExact, ProvedAnew, Stored, Reproved;
      ghost var before := transactions;
      NothingProved(prove, accumulator, before);
      var rest := transactions.Keys;
      while rest != {}
        invariant Valid() && ProvedAnew(prove, accumulator, before, transactions, rest)
        decreases |rest|
      {
        var t :| t in rest;
        OneMoreProved(prove, accumulator, before, transactions, rest, t);
        if prove(accumulator, Targets(transactions[t].transaction.Id())).None? {
          return Err(ProofFailed);
        }
        rest := rest - {t};
        transactions := transactions[t := Reproved(prove, accumulator, t, transactions[t])];
      }
      AllProved(prove, accumulator, before, transactions);
      r := Ok(());
    }

    /** After a block is connected: evicts what conflicts with it, and proves the rest against the new accumulator. */
    method ConnectBlock(prove: Prover, accumulator: Forest, body: Body) returns (r: Result<(), MemPoolError>, ghost removed: set<Txid>)
      requires Valid()
      modifies this
      ensures Valid() && transactions.Keys == old(transactions.Keys) - removed
      ensures IsClosure(old(transactions.Keys), Conflicts(old(transactions.Keys), body.transactions), removed)
      ensures forall t | t in transactions :: !ConflictsWith(body.transactions, t)
      ensures r == if AllProvable(prove, accumulator, transactions.Keys) then Ok(()) else Err(ProofFailed)
      ensures r.Ok? ==> forall t | t in transactions :: transactions[t] == Reproved(prove, accumulator, t, old(transactions)[t])
      ensures match PoolAfter(prove, old(transactions), accumulator, body)
              case Err(e) => r == Err(e)
              case Ok(p) => r == Ok(()) && transactions == p
    {
      hide IsClosure, Conflicts, ConflictsWith, IndexExact, Stored, Closure, Reproved;
      ghost var before := transactions;
      removed := EvictConflicts(body);
      ClosureIsUnique(before.Keys, Conflicts(before.Keys, body.transactions), removed);
      r := RegenerateProofs(prove, accumulator);
    }

    /** After a block is disconnected: puts its transactions back, last to first, and proves all anew. */
    method DisconnectBlock(prove: Prover, accumulator: Forest, txs: seq<AuthorizedTransaction>) returns (r: Result<(), MemPoolError>)
      requires Valid()
      modifies this
      ensures Valid()
      ensures match PoolBefore(prove, old(transactions), accumulator, txs)
              case Err(e) => r == Err(e)
              case Ok(p) => r == Ok(()) && transactions == p
    {
      hide IndexExact, Stored, Reproved, AllProvable, WithTransaction;
      ghost var before := transactions;
      assert txs[..|txs|] == txs;
      for i := |txs| downto 0
        invariant Valid() && WithAll(before, txs) == WithAll(transactions, txs[..i])
      {
        assert txs[..i + 1][..i] == txs[..i] && txs[..i + 1][i] == txs[i];
        r := Put(txs[i]);
        if r.Err? {
          return;
        }
      }
      r := RegenerateProofs(prove, accumulator);
    }

    /** Evicts exactly the transactions in conflict with a block and their descendants. */
    method EvictConflicts(body: Body) returns (ghost removed: set<Txid>)
      requires Valid()
      modifies this
      ensures Valid() && transactions == old(transactions) - removed
      ensures IsClosure(old(transactions.Keys), Conflicts(old(transactions.Keys), body.transactions), removed)
      ensures forall t | t in transactions :: !ConflictsWith(body.transactions, t)
    {
      hide Stored, Closed, IsChild, IndexExact, Conflicts, ConflictsWith;
      ghost var ids := transactions.Keys;
      var txs := body.transactions;
      removed := {};
      NoConflicts(ids, txs);
      EmptyClosure(ids, Conflicts(ids, txs[..0]));
      for i := 0 to |txs|
        invariant Valid() && transactions == old(transactions) - removed
        invariant IsClosure(ids, Conflicts(ids, txs[..i]), removed)
      {
        var t := txs[i].Id();
        ghost var before := Conflicts(ids, txs[..i]);
        ghost var more := Delete(t);
        ClosureUnion(ids, before, removed, {t}, more);
        removed := removed + more;
        ghost var rest := transactions.Keys;
        assert rest == ids - removed;
        ghost var users := DeleteUsers(Nullifiers(t));
        ClosureUnion(ids, before + {t}, removed, Users(rest, Nullifiers(t)), users);
        removed := removed + users;
        ConflictsGrow(ids, txs, i);
        ClosureRoots(ids, before + {t} + Users(rest, Nullifiers(t)), Conflicts(ids, txs[..i + 1]), removed);
      }
      assert txs[..|txs|] == txs;
      ConflictsAreGone(ids, txs, removed);
    }
  }
}
