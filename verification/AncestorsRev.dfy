/**
 The archive's ascending iterator over the ancestors of a block. It fetches batches of
 headers, newest first, and hands them out oldest first.
 */
module AncestorsRev {
  import opened Types
  import opened Lineage

  const MAX_BATCH_SIZE: nat := 32

  datatype Inner<H> = Inner(endHeight: nat, buffer: seq<H>)

  /** The ancestors of `b` at heights `lo` (inclusive) to `hi` (exclusive), ascending. */
  ghost function Segment<H>(t: Tree<H>, b: H, lo: nat, hi: nat): (s: seq<H>)
    requires t.Linked() && b in t.height && hi <= t.height[b] + 1
    ensures |s| == if lo <= hi then hi - lo else 0
    ensures forall i | 0 <= i < |s| :: s[i] == t.AncestorAt(b, lo + i)
  {
    if lo <= hi
    then seq(hi - lo, i requires 0 <= i < hi - lo => t.AncestorAt(b, lo + i))
    else []
  }

  class AncestorsRev<H(==)> {
    const tree: Tree<H>
    const blockHash: H
    /** Height of the first block of the next batch; `None` when no batch is left. */
    var batchStart: Option<nat>
    var inner: Option<Inner<H>>
    /** Height of the next block to hand out. */
    ghost var next: nat

    ghost predicate Valid()
      reads this
    {
      && tree.Valid()
      && match inner
         case None => batchStart == Some(next)
         case Some(Inner(endHeight, buffer)) =>
           && blockHash in tree.height && endHeight == tree.height[blockHash]
           && next + |buffer| == (if batchStart.Some? then batchStart.value else endHeight + 1)
           && (buffer != [] ==> next + |buffer| <= endHeight + 1)
           && forall i | 0 <= i < |buffer| ::
                next + |buffer| - 1 - i <= endHeight && buffer[i] == tree.AncestorAt(blockHash, next + |buffer| - 1 - i)
    }

    constructor (tree: Tree<H>, blockHash: H, startHeight: nat)
      requires tree.Valid()
      ensures Valid() && this.tree == tree && this.blockHash == blockHash && next == startHeight
    {
      this.tree := tree;
      this.blockHash := blockHash;
      batchStart := Some(startHeight);
      inner := None;
      next := startHeight;
    }

    /** The headers from `ancestor` downwards, `size` of them, newest first. */
    static method FillBuffer<K(==)>(t: Tree<K>, ancestor: K, size: nat) returns (buffer: seq<K>)
      requires t.Valid() && ancestor in t.height && size <= t.height[ancestor] + 1
      ensures |buffer| == size
      ensures forall i | 0 <= i < size :: buffer[i] == t.AncestorAt(ancestor, t.height[ancestor] - i)
    {
      buffer := [];
      var cursor := Some(ancestor);
      while |buffer| < size
        invariant |buffer| <= size
        invariant |buffer| < size ==> cursor == Some(t.AncestorAt(ancestor, t.height[ancestor] - |buffer|))
        invariant forall i | 0 <= i < |buffer| :: buffer[i] == t.AncestorAt(ancestor, t.height[ancestor] - i)
      {
        AncestorAdd(t, ancestor, |buffer|, if |buffer| < t.height[ancestor] then 1 else 0);
        buffer := buffer + [cursor.value];
        cursor := if cursor.value in t.parent then Some(t.Parent(cursor.value)) else None;
      }
    }

    /** Fills the empty buffer with the next batch of at most `MAX_BATCH_SIZE` blocks. */
    method LoadBatch(endHeight: nat, start: nat)
      requires Valid() && inner == Some(Inner(endHeight, [])) && batchStart == Some(start) && start <= endHeight
      modifies this`inner, this`batchStart
      ensures Valid() && inner.Some? && inner.value.buffer != [] && inner.value.endHeight == endHeight
    {
      var difference := endHeight - start;
      var offset := if difference < MAX_BATCH_SIZE - 1 then difference else MAX_BATCH_SIZE - 1;
      var size := offset + 1;
      var ancestor, _ := GetNthAncestor(tree, blockHash, difference - offset);
      var buffer := FillBuffer(tree, ancestor.value, size);
      BatchAligned(tree, blockHash, ancestor.value, start, buffer);
      inner := Some(Inner(endHeight, buffer));
      batchStart := if start + size < U32_SIZE && start + size <= endHeight then Some(start + size) else None;
    }

    /** Yields the ancestor at the next height, until the block itself has been yielded. */
    method Next() returns (r: Result<Option<H>, LineageError>)
      requires Valid()
      modifies this
      ensures Valid()
      ensures blockHash !in tree.height ==> r == Err(NoHeight) && next == old(next)
      ensures blockHash in tree.height && old(next) > tree.height[blockHash] ==>
                r == Ok(None) && next == old(next)
      ensures blockHash in tree.height && old(next) <= tree.height[blockHash] ==>
                r == Ok(Some(tree.AncestorAt(blockHash, old(next)))) && next == old(next) + 1
    {
      hide Tree.SkipsExact;
      if inner.None? {
        if blockHash !in tree.height {
          return Err(NoHeight);
        }
        inner := Some(Inner(tree.height[blockHash], []));
      }
      if inner.value.buffer == [] && batchStart.Some? {
        if inner.value.endHeight < batchStart.value {
          return Ok(None);
        }
        LoadBatch(inner.value.endHeight, batchStart.value);
      }
      var buffer := inner.value.buffer;
      if buffer == [] {
        return Ok(None);
      }
      r := Ok(Some(buffer[|buffer| - 1]));
      inner := Some(Inner(inner.value.endHeight, buffer[..|buffer| - 1]));
      next := next + 1;
    }
  }

  /** A batch read down from the ancestor at its top height holds the block's own ancestors. */
  lemma BatchAligned<H>(t: Tree<H>, b: H, top: H, start: nat, buffer: seq<H>)
    requires t.Linked() && t.IsAncestor(top, b) && |buffer| > 0 && t.height[top] == start + |buffer| - 1
    requires forall i | 0 <= i < |buffer| :: buffer[i] == t.AncestorAt(top, t.height[top] - i)
    ensures forall i | 0 <= i < |buffer| ::
              start + |buffer| - 1 - i <= t.height[b] && buffer[i] == t.AncestorAt(b, start + |buffer| - 1 - i)
  {
    forall i | 0 <= i < |buffer|
      ensures buffer[i] == t.AncestorAt(b, start + |buffer| - 1 - i)
    {
      AncestorAtThrough(t, top, b, t.height[top] - i);
    }
  }

  /** The blocks without a stored body, oldest first. */
  function WithoutBody<H(==)>(blocks: seq<H>, bodies: set<H>): seq<H> {
    if blocks == [] then []
    else WithoutBody(blocks[..|blocks| - 1], bodies) +
         if blocks[|blocks| - 1] in bodies then [] else [blocks[|blocks| - 1]]
  }

  ghost predicate InOrder<H>(s: seq<H>, x: H, y: H) {
    exists p, q :: 0 <= p < q < |s| && s[p] == x && s[q] == y
  }

  /** What is left are exactly the blocks without a body ... */
  lemma {:induction false} MissingExactly<H>(blocks: seq<H>, bodies: set<H>, x: H)
    ensures x in WithoutBody(blocks, bodies) <==> x in blocks && x !in bodies
  {
    if blocks != [] {
      MissingExactly(blocks[..|blocks| - 1], bodies, x);
    }
  }

  /** ... in their order. */
  lemma {:induction false} MissingInOrder<H>(blocks: seq<H>, bodies: set<H>)
    ensures forall i, j | 0 <= i < j < |WithoutBody(blocks, bodies)| ::
              InOrder(blocks, WithoutBody(blocks, bodies)[i], WithoutBody(blocks, bodies)[j])
  {
    if blocks != [] {
      var n, init := |blocks| - 1, blocks[..|blocks| - 1];
      MissingInOrder(init, bodies);
      var left, before := WithoutBody(blocks, bodies), WithoutBody(init, bodies);
      assert left == before + if blocks[n] in bodies then [] else [blocks[n]];
      forall i, j | 0 <= i < j < |left|
        ensures InOrder(blocks, left[i], left[j])
      {
        assert left[i] == before[i];
        MissingExactly(init, bodies, before[i]);
        if j < |before| {
          assert left[j] == before[j] && InOrder(init, before[i], before[j]);
          var p, q :| 0 <= p < q < |init| && init[p] == before[i] && init[q] == before[j];
          assert blocks[p] == left[i] && blocks[q] == left[j];
        } else {
          assert before[i] in init;
          var p :| 0 <= p < |init| && before[i] == init[p];
          assert blocks[p] == left[i] && blocks[n] == left[j];
        }
      }
    }
  }

  /** Draining the iterator visits every ancestor from `startHeight` up, once and in order. */
  method IterMissingBodies<H(==)>(t: Tree<H>, bodies: set<H>, blockHash: H, startHeight: nat)
    returns (r: Result<seq<H>, LineageError>, ghost visited: seq<H>)
    requires t.Valid()
    ensures blockHash !in t.height ==> r == Err(NoHeight)
    ensures blockHash in t.height ==>
              && visited == Segment(t, blockHash, startHeight, t.height[blockHash] + 1)
              && r == Ok(WithoutBody(visited, bodies))
  {
    hide Tree.SkipsExact, Tree.Linked;
    var ancestors := new AncestorsRev(t, blockHash, startHeight);
    var missing: seq<H> := [];
    visited := [];
    while true
      invariant ancestors.Valid() && fresh(ancestors) && ancestors.tree == t && ancestors.blockHash == blockHash
      invariant ancestors.next == startHeight + |visited|
      invariant visited != [] ==> blockHash in t.height && ancestors.next <= t.height[blockHash] + 1
      invariant blockHash in t.height ==>
          forall i | 0 <= i < |visited| :: visited[i] == t.AncestorAt(blockHash, startHeight + i)
      invariant missing == WithoutBody(visited, bodies)
      decreases if blockHash in t.height then t.height[blockHash] + 1 - ancestors.next else 0
    {
      var item := ancestors.Next();
      if item.Err? {
        return Err(item.error), visited;
      }
      if item.value.None? {
        break;
      }
      ghost var before := visited;
      visited := visited + [item.value.value];
      assert visited[..|visited| - 1] == before;
      if item.value.value !in bodies {
        missing := missing + [item.value.value];
      }
    }
    r := Ok(missing);
  }
}
