/** The mempool in terms of inputs, outputs and nullifiers: who conflicts, who goes, and what stays. */
module PoolRules {
  import opened Types
  import opened MemPool

  // ------------------------------------------------------------------ conflicts

  /** Some input of `t` spends the outpoint. */
  ghost predicate SpendsIt(t: Txid, o: OutPoint) {
    exists i :: 0 <= i < |t.core.inputs| && t.core.inputs[i].0 == o
  }

  ghost predicate UsesIt(t: Txid, n: nat) {
    t.core.orchardBundle.Some? &&
    exists i :: 0 <= i < |t.core.orchardBundle.value.nullifiers| && t.core.orchardBundle.value.nullifiers[i] == n
  }

  lemma SpendsMeans(t: Txid, o: OutPoint)
    ensures SpendsIt(t, o) <==> o in Outpoints(t)
  {
    if SpendsIt(t, o) {
      var i :| 0 <= i < |t.core.inputs| && t.core.inputs[i].0 == o;
      assert Outpoints(t)[i] == o;
    }
  }

  lemma UsesMeans(t: Txid, n: nat)
    ensures UsesIt(t, n) <==> n in Nullifiers(t)
  {
  }

  /** The two share an input or a nullifier. */
  ghost predicate Clash(t: Txid, u: Txid) {
    (exists o :: SpendsIt(t, o) && SpendsIt(u, o)) || (exists n :: UsesIt(t, n) && UsesIt(u, n))
  }

  /** A pooled transaction clashes with no other one. */
  lemma PooledApart(p: PoolTables, t: Txid, u: Txid)
    requires PoolExact(p) && t in p.transactions && u in p.transactions && Clash(t, u)
    ensures t == u
  {
    if o :| SpendsIt(t, o) && SpendsIt(u, o) {
      SpendsMeans(t, o);
      SpendsMeans(u, o);
      assert p.spentUtxos[o] == t;
    } else {
      var n :| UsesIt(t, n) && UsesIt(u, n);
      UsesMeans(t, n);
      UsesMeans(u, n);
      assert p.usedNullifiers[n] == t;
    }
  }

  /** The transaction spends no outpoint and uses no nullifier twice. */
  ghost predicate Clean(t: Txid) {
    && (forall i, j | 0 <= i < j < |t.core.inputs| :: t.core.inputs[i].0 != t.core.inputs[j].0)
    && (t.core.orchardBundle.Some? ==>
          var ns := t.core.orchardBundle.value.nullifiers; forall i, j | 0 <= i < j < |ns| :: ns[i] != ns[j])
  }

  /** A transaction is added exactly when it is pooled already, or is clean and clashes with no pooled one. */
  lemma AddedExactly(pool: Pool, tx: AuthorizedTransaction)
    ensures var t, r := Txid(tx.transaction.core), WithTransaction(pool, tx);
            && (r.Ok? <==> t in pool || (Clean(t) && forall u | u in pool :: !Clash(t, u)))
            && (r.Ok? ==> r.value == if t in pool then pool else pool[t := tx])
  {
    var t := Txid(tx.transaction.core);
    assert t == tx.transaction.Id();
    OutpointsFree(pool, t);
    NullifiersFree(pool, t);
  }

  lemma OutpointsFree(pool: Pool, t: Txid)
    ensures Free(pool, Outpoints, t) <==>
              && (forall i, j | 0 <= i < j < |t.core.inputs| :: t.core.inputs[i].0 != t.core.inputs[j].0)
              && forall u, o | u in pool && SpendsIt(t, o) :: !SpendsIt(u, o)
  {
    hide SpendsIt;
    forall u, o
      ensures SpendsIt(u, o) <==> o in Outpoints(u)
    {
      SpendsMeans(u, o);
    }
    assert forall i | 0 <= i < |t.core.inputs| :: Outpoints(t)[i] == t.core.inputs[i].0;
  }

  lemma NullifiersFree(pool: Pool, t: Txid)
    ensures Free(pool, Nullifiers, t) <==>
              && (t.core.orchardBundle.Some? ==>
                    var ns := t.core.orchardBundle.value.nullifiers; forall i, j | 0 <= i < j < |ns| :: ns[i] != ns[j])
              && forall u, n | u in pool && UsesIt(t, n) :: !UsesIt(u, n)
  {
    hide UsesIt;
    forall u, n
      ensures UsesIt(u, n) <==> n in Nullifiers(u)
    {
      UsesMeans(u, n);
    }
  }

  // ------------------------------------------------------------------ connecting

  /** The transaction is in the block, or uses a nullifier that the block uses. */
  ghost predicate HitBy(body: Body, t: Txid) {
    exists k :: 0 <= k < |body.transactions| &&
                (body.transactions[k].core == t.core || exists n :: UsesIt(t, n) && UsesIt(Txid(body.transactions[k].core), n))
  }

  /** The transaction spends an output that the other one creates. */
  ghost predicate SpendsFrom(t: Txid, parent: Txid) {
    exists v: nat :: v < |parent.core.outputs| && SpendsIt(t, Regular(parent, v))
  }

  lemma HitMeans(body: Body, t: Txid)
    ensures HitBy(body, t) <==> ConflictsWith(body.transactions, t)
  {
    hide UsesIt;
    forall u, n
      ensures UsesIt(u, n) <==> n in Nullifiers(u)
    {
      UsesMeans(u, n);
    }
    if HitBy(body, t) {
      var k :| 0 <= k < |body.transactions| &&
                (body.transactions[k].core == t.core || exists n :: UsesIt(t, n) && UsesIt(Txid(body.transactions[k].core), n));
      assert body.transactions[k].Id() == Txid(body.transactions[k].core);
    }
    if ConflictsWith(body.transactions, t) {
      var k :| 0 <= k < |body.transactions| &&
                (t == body.transactions[k].Id() || exists n :: n in Nullifiers(t) && n in Nullifiers(body.transactions[k].Id()));
      assert body.transactions[k].Id() == Txid(body.transactions[k].core);
    }
  }

  lemma ChildMeans(parent: Txid, t: Txid)
    ensures SpendsFrom(t, parent) <==> IsChild(parent, t)
  {
    forall v: nat | v < |parent.core.outputs|
      ensures SpendsIt(t, Regular(parent, v)) <==> Regular(parent, v) in Outpoints(t)
    {
      SpendsMeans(t, Regular(parent, v));
    }
  }

  /** A member of a closure is a root, or the child of a member. */
  lemma ClosureMembers(ids: set<Txid>, roots: set<Txid>, r: set<Txid>, t: Txid)
    requires IsClosure(ids, roots, r) && t in ids
    ensures t in r <==> t in roots || exists p :: p in r && IsChild(p, t)
  {
    if t !in roots && !exists p :: p in r && IsChild(p, t) {
      var less := r - {t};
      assert Closed(ids, less);
      assert roots * ids <= less;
      assert r <= less;
    }
  }

  lemma {:induction false} ClosureExists(ids: set<Txid>, roots: set<Txid>)
    ensures IsClosure(ids, roots, Closure(ids, roots))
  {
    var r := Closure(ids, roots);
    forall p, c | p in r && c in ids && IsChild(p, c)
      ensures c in r
    {
      forall s: set<Txid> | Closed(ids, s) && roots * ids <= s
        ensures c in s
      {
        assert p in s;
      }
    }
  }

  /**
   After a block is connected a pooled transaction is gone exactly when the block hits it, or it spends an
   output of one that is gone; all others are as they were, with new proofs.
   */
  lemma KeptExactly(prove: Prover, pool: Pool, accumulator: Forest, body: Body, t: Txid)
    requires PoolAfter(prove, pool, accumulator, body).Ok? && t in pool
    ensures var after := PoolAfter(prove, pool, accumulator, body).value;
            && (t !in after <==> HitBy(body, t) || exists p :: p in pool && p !in after && SpendsFrom(t, p))
            && (t in after ==>
                  && after[t].authorizations == pool[t].authorizations && after[t].transaction.core == pool[t].transaction.core
                  && prove(accumulator, seq(|t.core.inputs|, i requires 0 <= i < |t.core.inputs| => t.core.inputs[i].1))
                     == Some(after[t].transaction.proof))
            && after.Keys <= pool.Keys
  {
    hide IsChild, SpendsFrom, HitBy, ConflictsWith, IsClosure, Closure;
    var ids, roots := pool.Keys, Conflicts(pool.Keys, body.transactions);
    ClosureExists(ids, roots);
    ClosureMembers(ids, roots, Closure(ids, roots), t);
    ClosureWithin(ids, roots, Closure(ids, roots));
    HitMeans(body, t);
    forall p
      ensures SpendsFrom(t, p) <==> IsChild(p, t)
    {
      ChildMeans(p, t);
    }
    assert Targets(t) == seq(|t.core.inputs|, i requires 0 <= i < |t.core.inputs| => t.core.inputs[i].1);
  }

  lemma ClosureWithin(ids: set<Txid>, roots: set<Txid>, r: set<Txid>)
    requires IsClosure(ids, roots, r)
    ensures r <= ids
  {
  }

  // --------------------------------------------------------------- disconnecting

  function IdAt(txs: seq<AuthorizedTransaction>, i: nat): Txid
    requires i < |txs|
  {
    Txid(txs[i].transaction.core)
  }

  /** The transaction may come back: it is pooled, or is clean and clashes neither with a pooled one nor with a later one. */
  ghost predicate MayReturn(pool: Pool, txs: seq<AuthorizedTransaction>, i: nat)
    requires i < |txs|
  {
    IdAt(txs, i) in pool || (exists j: nat :: i < j < |txs| && IdAt(txs, j) == IdAt(txs, i)) ||
    (&& Clean(IdAt(txs, i)) && (forall u | u in pool :: !Clash(IdAt(txs, i), u))
     && forall j: nat | i < j < |txs| :: !Clash(IdAt(txs, i), IdAt(txs, j)))
  }

  lemma ReturnsWithLast(pool: Pool, next: Pool, txs: seq<AuthorizedTransaction>, i: nat)
    requires i < |txs| - 1 && next.Keys == pool.Keys + {IdAt(txs, |txs| - 1)}
    ensures MayReturn(next, txs[..|txs| - 1], i) <==> MayReturn(pool, txs, i)
  {
    hide Clash, Clean;
    var init, n := txs[..|txs| - 1], |txs| - 1;
    assert forall j: nat | j < n :: IdAt(init, j) == IdAt(txs, j);
  }

  /** All come back exactly when each may, and then the pool holds them and nothing else is new. */
  lemma {:induction false} AllReturn(pool: Pool, txs: seq<AuthorizedTransaction>)
    ensures WithAll(pool, txs).Ok? <==> forall i: nat | i < |txs| :: MayReturn(pool, txs, i)
    ensures WithAll(pool, txs).Ok? ==>
              var after := WithAll(pool, txs).value;
              && (forall t | t in pool :: t in after && after[t] == pool[t])
              && (forall t :: t in after <==> t in pool || exists i: nat :: i < |txs| && IdAt(txs, i) == t)
    decreases |txs|
  {
    hide Clash, Clean, WithTransaction;
    if txs != [] {
      var n, init := |txs| - 1, txs[..|txs| - 1];
      AddedExactly(pool, txs[n]);
      var next := WithTransaction(pool, txs[n]);
      if next.Ok? {
        AllReturn(next.value, init);
        forall i: nat | i < n
          ensures MayReturn(next.value, init, i) <==> MayReturn(pool, txs, i)
        {
          ReturnsWithLast(pool, next.value, txs, i);
        }
        assert forall i: nat | i < n :: IdAt(init, i) == IdAt(txs, i);
      }
      assert MayReturn(pool, txs, n) <==> next.Ok?;
    }
  }

  /** After a block is disconnected the pool holds its transactions besides, all proved against the accumulator before it. */
  lemma ReturnedExactly(prove: Prover, pool: Pool, accumulator: Forest, txs: seq<AuthorizedTransaction>, t: Txid)
    requires PoolBefore(prove, pool, accumulator, txs).Ok?
    ensures forall i: nat | i < |txs| :: MayReturn(pool, txs, i)
    ensures var after := PoolBefore(prove, pool, accumulator, txs).value;
            && (t in after <==> t in pool || exists i: nat :: i < |txs| && IdAt(txs, i) == t)
            && (t in after ==>
                  prove(accumulator, seq(|t.core.inputs|, i requires 0 <= i < |t.core.inputs| => t.core.inputs[i].1))
                  == Some(after[t].transaction.proof))
  {
    AllReturn(pool, txs);
    assert Targets(t) == seq(|t.core.inputs|, i requires 0 <= i < |t.core.inputs| => t.core.inputs[i].1);
  }
}
