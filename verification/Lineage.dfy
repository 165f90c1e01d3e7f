/**
 Headers form trees. Every header is stored with its height, its parent and a vector of
 exponentially spaced ancestors, whose entry `i` is the `2^(i+1)`-th ancestor. The archive
 keeps one such family of tables for sidechain headers and one for mainchain headers.
 */
module Lineage {
  import opened Types

  datatype LineageError = NoHeight | NoAncestor

  function Pow2(n: nat): (r: nat)
    ensures r > 0
  {
    if n == 0 then 1 else 2 * Pow2(n - 1)
  }

  function Log2(n: nat): nat {
    if n < 2 then 0 else 1 + Log2(n / 2)
  }

  function PopCount(n: nat): nat {
    if n == 0 then 0 else n % 2 + PopCount(n / 2)
  }

  /** `Log2` is the exponent of the leading binary digit. */
  lemma {:induction false} Log2Bounds(n: nat)
    requires n > 0
    ensures Pow2(Log2(n)) <= n < Pow2(Log2(n) + 1)
  {
    if n < 2 {
    } else {
      Log2Bounds(n / 2);
    }
  }

  lemma {:induction false} Log2Unique(n: nat, k: nat)
    requires Pow2(k) <= n < Pow2(k + 1)
    ensures Log2(n) == k
  {
    if k == 0 {
    } else {
      Log2Unique(n / 2, k - 1);
    }
  }

  lemma {:induction false} Log2Monotone(m: nat, n: nat)
    requires m <= n
    ensures Log2(m) <= Log2(n)
  {
    if m < 2 {
    } else {
      Log2Monotone(m / 2, n / 2);
    }
  }

  lemma {:induction false} Pow2Monotone(i: nat, j: nat)
    requires i <= j
    ensures Pow2(i) <= Pow2(j)
  {
    if i < j {
      Pow2Monotone(i, j - 1);
    }
  }

  /** Dropping the leading binary digit drops exactly one set bit. */
  lemma {:induction false} PopCountDropsLeadingBit(n: nat)
    requires n > 0
    ensures Pow2(Log2(n)) <= n
    ensures PopCount(n) == 1 + PopCount(n - Pow2(Log2(n)))
  {
    Log2Bounds(n);
    if n >= 2 {
      PopCountDropsLeadingBit(n / 2);
      var p := Pow2(Log2(n / 2));
      assert (n - 2 * p) / 2 == n / 2 - p && (n - 2 * p) % 2 == n % 2;
    }
  }

  datatype Tree<H(==)> = Tree(height: map<H, nat>, parent: map<H, H>, skip: map<H, seq<H>>) {

    function Parent(b: H): H
      requires b in parent
    {
      parent[b]
    }

    /** Every header above height 0 has a stored parent one below it. */
    ghost predicate Linked() {
      && (forall b {:trigger height[b]} | b in height :: height[b] > 0 <==> b in parent)
      && (forall b {:trigger Parent(b)} | b in parent ::
           b in height && Parent(b) in height && height[b] == height[Parent(b)] + 1)
    }

    /** The `n`-th ancestor, by following `n` parent links. */
    ghost function Ancestor(b: H, n: nat): (a: H)
      requires Linked() && b in height && n <= height[b]
      ensures a in height && height[a] == height[b] - n
      decreases n
    {
      if n == 0 then b else Ancestor(Parent(b), n - 1)
    }

    /** The ancestor of `b` at height `h`. */
    ghost function AncestorAt(b: H, h: nat): (a: H)
      requires Linked() && b in height && h <= height[b]
      ensures a in height && height[a] == h
    {
      Ancestor(b, height[b] - h)
    }

    /** `a` is `b` or one of its ancestors. */
    ghost predicate IsAncestor(a: H, b: H)
      requires Linked()
    {
      a in height && b in height && height[a] <= height[b] && AncestorAt(b, height[a]) == a
    }

    /** Entry `i` of the stored vector of `b` is its `2^(i+1)`-th ancestor. */
    ghost predicate SkipExact(b: H, i: nat)
      requires Linked() && b in height && b in skip && i < |skip[b]|
    {
      Pow2(i + 1) <= height[b] && skip[b][i] == Ancestor(b, Pow2(i + 1))
    }

    /** The stored vector of `b` is exactly its exponentially spaced ancestors. */
    ghost predicate SkipsExact(b: H)
      requires Linked() && b in height && b in skip
    {
      && |skip[b]| == Log2(height[b])
      && forall i: nat {:trigger SkipExact(b, i)} | i < |skip[b]| :: SkipExact(b, i)
    }

    ghost predicate Valid() {
      && Linked()
      && (forall b | b in height :: height[b] < U32_SIZE)
      && skip.Keys <= height.Keys
      && parent.Keys <= skip.Keys
      && (forall b {:trigger SkipsExact(b)} | b in skip :: SkipsExact(b))
    }
  }

  // ------------------------------------------------------------- ancestor laws

  lemma {:induction false} AncestorAdd<H>(t: Tree<H>, b: H, m: nat, n: nat)
    requires t.Linked() && b in t.height && m + n <= t.height[b]
    ensures t.Ancestor(t.Ancestor(b, m), n) == t.Ancestor(b, m + n)
    decreases m
  {
    if m == 0 {
    } else {
      AncestorAdd(t, t.Parent(b), m - 1, n);
    }
  }

  /** An ancestor's ancestors are the block's own. */
  lemma AncestorAtThrough<H>(t: Tree<H>, a: H, b: H, h: nat)
    requires t.Linked() && t.IsAncestor(a, b) && h <= t.height[a]
    ensures t.AncestorAt(a, h) == t.AncestorAt(b, h)
  {
    AncestorAdd(t, b, t.height[b] - t.height[a], t.height[a] - h);
  }

  lemma IsAncestorTransitive<H>(t: Tree<H>, a: H, b: H, c: H)
    requires t.Linked() && t.IsAncestor(a, b) && t.IsAncestor(b, c)
    ensures t.IsAncestor(a, c)
  {
    AncestorAtThrough(t, b, c, t.height[a]);
  }

  /** `u` holds every link of `t`. */
  ghost predicate Extends<H>(t: Tree<H>, u: Tree<H>) {
    && t.height.Keys <= u.height.Keys && (forall b | b in t.height :: u.height[b] == t.height[b])
    && t.parent.Keys <= u.parent.Keys && (forall b | b in t.parent :: u.parent[b] == t.parent[b])
  }

  /** Ancestors of stored blocks do not change when the tables grow. */
  lemma {:induction false} AncestorStable<H>(t: Tree<H>, u: Tree<H>, b: H, n: nat)
    requires t.Linked() && u.Linked() && Extends(t, u) && b in t.height && n <= t.height[b]
    ensures u.Ancestor(b, n) == t.Ancestor(b, n)
    decreases n
  {
    if n > 0 {
      AncestorStable(t, u, t.Parent(b), n - 1);
    }
  }

  lemma IsAncestorStable<H>(t: Tree<H>, u: Tree<H>, a: H, b: H)
    requires t.Linked() && u.Linked() && Extends(t, u) && b in t.height
    ensures u.IsAncestor(a, b) == t.IsAncestor(a, b)
  {
    if a in u.height && u.height[a] <= u.height[b] {
      AncestorStable(t, u, b, u.height[b] - u.height[a]);
    }
  }

  // ------------------------------------------------------------ n-th ancestor

  /** Follows stored links down the binary digits of `n`, one link per set bit. */
  method GetNthAncestor<H(==)>(t: Tree<H>, blockHash: H, depth: nat)
    returns (r: Result<H, LineageError>, ghost steps: nat)
    requires t.Valid()
    ensures depth == 0 ==> r == Ok(blockHash)
    ensures depth > 0 && blockHash !in t.height ==> r == Err(NoHeight)
    ensures blockHash in t.height && depth > t.height[blockHash] ==> r == Err(NoAncestor)
    ensures blockHash in t.height && depth <= t.height[blockHash] ==>
              r == Ok(t.Ancestor(blockHash, depth)) && steps == PopCount(depth)
  {
    var b := blockHash;
    var n: nat := depth;
    steps := 0;
    while n > 0
      invariant b != blockHash || n != depth ==> blockHash in t.height && depth <= t.height[blockHash]
      invariant blockHash in t.height ==> b in t.height
      invariant blockHash in t.height && depth <= t.height[blockHash] ==>
          n <= t.height[b] && t.Ancestor(b, n) == t.Ancestor(blockHash, depth)
      invariant blockHash in t.height && depth <= t.height[blockHash] ==>
          steps + PopCount(n) == PopCount(depth)
    {
      if b !in t.height {
        return Err(NoHeight), steps;
      }
      if n > t.height[b] {
        return Err(NoAncestor), steps;
      }
      steps := steps + 1;
      if n == 1 {
        return Ok(t.Parent(b)), steps;
      }
      var index := Log2(n) - 1;
      Log2Monotone(n, t.height[b]);
      PopCountDropsLeadingBit(n);
      assert t.SkipsExact(b) && t.SkipExact(b, index);
      var next := t.skip[b][index];
      AncestorAdd(t, b, Pow2(index + 1), n - Pow2(index + 1));
      b, n := next, n - Pow2(index + 1);
    }
    r := Ok(b);
  }

  /** True exactly when the second block is the first one or a descendant of it. */
  method IsDescendant<H(==)>(t: Tree<H>, ancestor: H, descendant: H) returns (r: Result<bool, LineageError>)
    requires t.Valid()
    ensures ancestor == descendant ==> r == Ok(true)
    ensures ancestor != descendant && (ancestor !in t.height || descendant !in t.height) ==> r == Err(NoHeight)
    ensures ancestor in t.height && descendant in t.height ==> r == Ok(t.IsAncestor(ancestor, descendant))
  {
    if ancestor == descendant {
      return Ok(true);
    }
    if ancestor !in t.height || descendant !in t.height {
      return Err(NoHeight);
    }
    if t.height[ancestor] > t.height[descendant] {
      return Ok(false);
    }
    var found, _ := GetNthAncestor(t, descendant, t.height[descendant] - t.height[ancestor]);
    r := Ok(found == Ok(ancestor));
  }

  // ---------------------------------------------------------- storing a header

  /** The tables with the height and parent of `b` recorded. */
  function WithLink<H>(t: Tree<H>, b: H, parent: Option<H>): Tree<H>
    requires parent.Some? ==> parent.value in t.height
  {
    match parent
    case None => t.(height := t.height[b := 0])
    case Some(p) => t.(height := t.height[b := t.height[p] + 1], parent := t.parent[b := p])
  }

  /** A header may be stored again, but always with the parent it had before. */
  ghost predicate Consistent<H>(t: Tree<H>, b: H, parent: Option<H>) {
    b in t.height ==> parent == if b in t.parent then Some(t.parent[b]) else None
  }

  lemma WithLinkExtends<H>(t: Tree<H>, u: Tree<H>, b: H, parent: Option<H>)
    requires t.Linked() && Consistent(t, b, parent)
    requires parent.Some? ==> parent.value in t.height && t.height[parent.value] + 1 < U32_SIZE
    requires u.height == WithLink(t, b, parent).height && u.parent == WithLink(t, b, parent).parent
    ensures u.Linked() && Extends(t, u)
    ensures b in t.height ==> u.height == t.height && u.parent == t.parent
  {
    forall x | x in t.parent
      ensures x in t.height && u.parent[x] == t.parent[x]
    {
      var p := t.Parent(x);
    }
    if b in t.height {
      assert b in t.parent ==> t.height[b] == t.height[t.Parent(b)] + 1;
      assert u.height == t.height && u.parent == t.parent;
    }
    forall x | x in u.parent
      ensures x in u.height && u.Parent(x) in u.height && u.height[x] == u.height[u.Parent(x)] + 1
    {
      if x != b {
        assert t.Parent(x) == u.Parent(x);
      }
    }
  }

  /** Entry `i` is the `2^(i+1)`-th ancestor of any child of `p`. */
  ghost predicate DoubledAncestors<H>(t: Tree<H>, p: H, skip: seq<H>)
    requires t.Linked() && p in t.height
  {
    forall i | 0 <= i < |skip| :: Pow2(i + 1) <= t.height[p] + 1 && skip[i] == t.Ancestor(p, Pow2(i + 1) - 1)
  }

  /** Doubling the distance of the last entry gives the next one. */
  lemma DoubledLast<H>(t: Tree<H>, p: H, skip: seq<H>)
    requires t.Linked() && p in t.height && DoubledAncestors(t, p, skip)
    requires |skip| > 0 && Pow2(|skip| + 1) <= t.height[p] + 1
    ensures var last, half := skip[|skip| - 1], Pow2(|skip|);
            last in t.height && half <= t.height[last] && t.Ancestor(last, half) == t.Ancestor(p, 2 * half - 1)
  {
    var last, half := skip[|skip| - 1], Pow2(|skip|);
    assert last == t.Ancestor(p, half - 1);
    AncestorAdd(t, p, half - 1, half);
  }

  lemma ExtendDoubled<H>(t: Tree<H>, p: H, skip: seq<H>, next: H)
    requires t.Linked() && p in t.height && DoubledAncestors(t, p, skip)
    requires Pow2(|skip| + 1) <= t.height[p] + 1 && next == t.Ancestor(p, Pow2(|skip| + 1) - 1)
    ensures DoubledAncestors(t, p, skip + [next])
  {
    var longer := skip + [next];
    forall i | 0 <= i < |longer|
      ensures Pow2(i + 1) <= t.height[p] + 1 && longer[i] == t.Ancestor(p, Pow2(i + 1) - 1)
    {
      if i < |skip| {
        assert longer[i] == skip[i];
      } else {
        assert i == |skip|;
      }
    }
  }

  /** Appends the ancestor at twice the distance of the last one. */
  method PushDoubled<H(==)>(t: Tree<H>, p: H, skip: seq<H>, nextDepth: nat) returns (next: seq<H>)
    requires t.Valid() && p in t.height && t.height[p] + 1 < U32_SIZE
    requires |skip| > 0 && DoubledAncestors(t, p, skip)
    requires nextDepth == Pow2(|skip| + 1) <= t.height[p] + 1
    ensures |next| == |skip| + 1 && DoubledAncestors(t, p, next)
  {
    DoubledLast(t, p, skip);
    var found, _ := GetNthAncestor(t, skip[|skip| - 1], (nextDepth % U32_SIZE) / 2);
    ExtendDoubled(t, p, skip, found.value);
    next := skip + [found.value];
  }

  /** The exponentially spaced ancestors of a child of `p`, by repeated doubling. */
  method ComputeSkips<H(==)>(t: Tree<H>, p: H) returns (skip: seq<H>)
    requires t.Valid() && p in t.height && t.height[p] + 1 < U32_SIZE
    ensures |skip| == Log2(t.height[p] + 1)
    ensures DoubledAncestors(t, p, skip)
  {
    var height := t.height[p] + 1;
    skip := [];
    if height >= 2 {
      var grandparent, _ := GetNthAncestor(t, p, 1);
      skip := [grandparent.value];
      var nextDepth := 4;
      while height >= nextDepth
        invariant |skip| >= 1 && nextDepth == Pow2(|skip| + 1) && Pow2(|skip|) <= height
        invariant DoubledAncestors(t, p, skip)
        decreases 2 * height - nextDepth
      {
        skip := PushDoubled(t, p, skip, nextDepth);
        nextDepth := nextDepth * 2;
      }
      Log2Unique(height, |skip|);
    }
  }

  /** Stores a header with its height, its parent and its exponentially spaced ancestors. */
  method PutLink<H(==)>(t: Tree<H>, b: H, parent: Option<H>) returns (u: Tree<H>)
    requires t.Valid() && Consistent(t, b, parent)
    requires parent.Some? ==> parent.value in t.height && t.height[parent.value] + 1 < U32_SIZE
    ensures u.Valid() && Extends(t, u)
    ensures b in u.skip && u == WithLink(t, b, parent).(skip := t.skip[b := u.skip[b]])
    ensures b in t.skip ==> u == t
  {
    var linked := WithLink(t, b, parent);
    var skip := [];
    if parent.Some? {
      skip := ComputeSkips(t, parent.value);
    }
    u := linked.(skip := t.skip[b := skip]);
    WithLinkExtends(t, u, b, parent);
    assert u.skip[b] == skip;
    SkipsStayExact(t, u, b, parent);
  }

  /** Stored vectors stay exact, and the new one is exact if it is right relative to the parent. */
  lemma SkipsStayExact<H>(t: Tree<H>, u: Tree<H>, b: H, parent: Option<H>)
    requires t.Valid() && u.Linked() && Extends(t, u) && b in u.height
    requires u.skip.Keys == t.skip.Keys + {b} && forall x | x in t.skip && x != b :: u.skip[x] == t.skip[x]
    requires parent == if b in u.parent then Some(u.parent[b]) else None
    requires parent.Some? ==> parent.value in t.height
    requires |u.skip[b]| == Log2(u.height[b])
    requires parent.Some? ==> u.height[b] == t.height[parent.value] + 1
    requires parent.None? ==> u.skip[b] == []
    requires parent.Some? ==> DoubledAncestors(t, parent.value, u.skip[b])
    ensures forall x | x in u.skip :: u.SkipsExact(x)
    ensures b in t.skip ==> u.skip == t.skip
  {
    forall x | x in u.skip
      ensures u.SkipsExact(x)
    {
      if x == b {
        if parent.Some? {
          NewSkipExact(t, u, b);
        }
      } else {
        assert t.SkipsExact(x);
        OldSkipExact(t, u, x);
      }
    }
    if b in t.skip {
      assert t.SkipsExact(b);
      SkipsUnique(t, u, b);
      assert u.skip == t.skip;
    }
  }

  lemma OldSkipExact<H>(t: Tree<H>, u: Tree<H>, x: H)
    requires t.Linked() && u.Linked() && Extends(t, u)
    requires x in t.height && x in t.skip && t.SkipsExact(x) && x in u.skip && u.skip[x] == t.skip[x]
    ensures u.SkipsExact(x)
  {
    forall i: nat {:trigger u.SkipExact(x, i)} | i < |u.skip[x]|
      ensures u.SkipExact(x, i)
    {
      assert t.SkipExact(x, i);
      AncestorStable(t, u, x, Pow2(i + 1));
    }
  }

  lemma NewSkipExact<H>(t: Tree<H>, u: Tree<H>, b: H)
    requires t.Linked() && u.Linked() && Extends(t, u) && b in u.parent && b in u.height && b in u.skip
    requires u.Parent(b) in t.height && DoubledAncestors(t, u.Parent(b), u.skip[b])
    requires |u.skip[b]| == Log2(u.height[b])
    ensures u.SkipsExact(b)
  {
    forall i: nat {:trigger u.SkipExact(b, i)} | i < |u.skip[b]|
      ensures u.SkipExact(b, i)
    {
      var a := u.skip[b][i];
      AncestorStable(t, u, u.Parent(b), Pow2(i + 1) - 1);
    }
  }

  /** Exact vectors are determined by the links. */
  lemma SkipsUnique<H>(t: Tree<H>, u: Tree<H>, b: H)
    requires t.Linked() && u.Linked() && Extends(t, u)
    requires b in t.height && b in t.skip && b in u.skip && t.SkipsExact(b) && u.SkipsExact(b)
    ensures u.skip[b] == t.skip[b]
  {
    forall i | 0 <= i < |t.skip[b]|
      ensures u.skip[b][i] == t.skip[b][i]
    {
      assert t.SkipExact(b, i) && u.SkipExact(b, i);
      AncestorStable(t, u, b, Pow2(i + 1));
    }
  }
}
