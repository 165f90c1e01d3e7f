/**
 The last common ancestor of two headers: a simple definition that walks both lineages one
 block at a time, and the archive's binary search over stored ancestor links.
 */
module CommonAncestor {
  import opened Types
  import opened Lineage

  /** Step the higher block (or both) to its parent until the two meet. */
  ghost function LastCommon<H>(t: Tree<H>, x: H, y: H): Option<H>
    requires t.Linked() && x in t.height && y in t.height
    decreases t.height[x] + t.height[y]
  {
    if t.height[x] > t.height[y] then LastCommon(t, t.Parent(x), y)
    else if t.height[x] < t.height[y] then LastCommon(t, x, t.Parent(y))
    else if x == y then Some(x)
    else if t.height[x] == 0 then None
    else LastCommon(t, t.Parent(x), t.Parent(y))
  }

  /** `a` is the highest common ancestor: every common ancestor is an ancestor of `a`. */
  ghost predicate IsHighestCommon<H(!new)>(t: Tree<H>, x: H, y: H, a: H)
    requires t.Linked()
  {
    && t.IsAncestor(a, x) && t.IsAncestor(a, y)
    && forall c | t.IsAncestor(c, x) && t.IsAncestor(c, y) :: t.IsAncestor(c, a)
  }

  lemma ParentAncestry<H>(t: Tree<H>, c: H, x: H)
    requires t.Linked() && x in t.height && t.height[x] > 0
    ensures t.IsAncestor(c, x) <==> c == x || t.IsAncestor(c, t.Parent(x))
  {
    if t.IsAncestor(c, t.Parent(x)) {
      AncestorAdd(t, x, 1, t.height[t.Parent(x)] - t.height[c]);
    }
  }

  /** The walk finds the highest common ancestor, and fails exactly when there is none. */
  lemma {:induction false} LastCommonIsHighest<H(!new)>(t: Tree<H>, x: H, y: H)
    requires t.Linked() && x in t.height && y in t.height
    ensures match LastCommon(t, x, y)
            case Some(a) => IsHighestCommon(t, x, y, a)
            case None => forall c :: !(t.IsAncestor(c, x) && t.IsAncestor(c, y))
    decreases t.height[x] + t.height[y]
  {
    if t.height[x] > t.height[y] {
      LastCommonIsHighest(t, t.Parent(x), y);
      forall c ensures t.IsAncestor(c, x) <==> c == x || t.IsAncestor(c, t.Parent(x)) { ParentAncestry(t, c, x); }
    } else if t.height[x] < t.height[y] {
      LastCommonIsHighest(t, x, t.Parent(y));
      forall c ensures t.IsAncestor(c, y) <==> c == y || t.IsAncestor(c, t.Parent(y)) { ParentAncestry(t, c, y); }
    } else if x == y {
    } else if t.height[x] == 0 {
    } else {
      LastCommonIsHighest(t, t.Parent(x), t.Parent(y));
      forall c ensures t.IsAncestor(c, x) <==> c == x || t.IsAncestor(c, t.Parent(x)) { ParentAncestry(t, c, x); }
      forall c ensures t.IsAncestor(c, y) <==> c == y || t.IsAncestor(c, t.Parent(y)) { ParentAncestry(t, c, y); }
    }
  }

  /** There is no common ancestor exactly when the two genesis blocks differ. */
  lemma {:induction false} NoCommonIffGenesisDiffers<H(!new)>(t: Tree<H>, x: H, y: H)
    requires t.Linked() && x in t.height && y in t.height
    ensures LastCommon(t, x, y).None? <==> t.AncestorAt(x, 0) != t.AncestorAt(y, 0)
    decreases t.height[x] + t.height[y]
  {
    if t.height[x] > t.height[y] {
      NoCommonIffGenesisDiffers(t, t.Parent(x), y);
    } else if t.height[x] < t.height[y] {
      NoCommonIffGenesisDiffers(t, x, t.Parent(y));
    } else if x == y {
    } else if t.height[x] == 0 {
    } else {
      NoCommonIffGenesisDiffers(t, t.Parent(x), t.Parent(y));
    }
  }

  lemma {:induction false} LastCommonSymmetric<H>(t: Tree<H>, x: H, y: H)
    requires t.Linked() && x in t.height && y in t.height
    ensures LastCommon(t, x, y) == LastCommon(t, y, x)
    decreases t.height[x] + t.height[y]
  {
    if t.height[x] > t.height[y] {
      LastCommonSymmetric(t, t.Parent(x), y);
    } else if t.height[x] < t.height[y] {
      LastCommonSymmetric(t, x, t.Parent(y));
    } else if x != y && t.height[x] > 0 {
      LastCommonSymmetric(t, t.Parent(x), t.Parent(y));
    }
  }

  /** Moving the higher block down to the other one's height does not change the answer. */
  lemma {:induction false} EqualizeLeft<H>(t: Tree<H>, x: H, y: H)
    requires t.Linked() && x in t.height && y in t.height && t.height[x] >= t.height[y]
    ensures LastCommon(t, x, y) == LastCommon(t, t.AncestorAt(x, t.height[y]), y)
    decreases t.height[x]
  {
    if t.height[x] > t.height[y] {
      EqualizeLeft(t, t.Parent(x), y);
    }
  }

  /** Once two lineages agree at some depth, they agree at every greater depth. */
  lemma AgreementIsMonotone<H>(t: Tree<H>, x: H, y: H, d: nat, e: nat)
    requires t.Linked() && x in t.height && y in t.height && t.height[x] == t.height[y]
    requires d <= e <= t.height[x] && t.Ancestor(x, d) == t.Ancestor(y, d)
    ensures t.Ancestor(x, e) == t.Ancestor(y, e)
  {
    AncestorAdd(t, x, d, e - d);
    AncestorAdd(t, y, d, e - d);
  }

  /** The first depth at which two blocks of one height agree is their last common ancestor. */
  lemma {:induction false} FirstAgreement<H>(t: Tree<H>, x: H, y: H, d: nat)
    requires t.Linked() && x in t.height && y in t.height && t.height[x] == t.height[y]
    requires d <= t.height[x] && t.Ancestor(x, d) == t.Ancestor(y, d)
    requires d > 0 ==> t.Ancestor(x, d - 1) != t.Ancestor(y, d - 1)
    ensures LastCommon(t, x, y) == Some(t.Ancestor(x, d))
    decreases d
  {
    if d > 0 {
      if x == y {
        assert false;
      }
      if d == 1 {
        assert t.Ancestor(x, 1) == t.Parent(x) == t.Parent(y);
      }
      FirstAgreement(t, t.Parent(x), t.Parent(y), d - 1);
    }
  }

  /** Binary search for the first depth at which two different blocks of one height agree. */
  method SearchAgreement<H(==)>(t: Tree<H>, x: H, y: H) returns (a: H)
    requires t.Valid() && x in t.height && y in t.height && x != y && t.height[x] == t.height[y]
    requires t.AncestorAt(x, 0) == t.AncestorAt(y, 0)
    ensures LastCommon(t, x, y) == Some(a)
  {
    var lo, hi: nat := 1, t.height[x];
    while lo < hi
      invariant 1 <= lo <= hi <= t.height[x]
      invariant t.Ancestor(x, hi) == t.Ancestor(y, hi)
      invariant t.Ancestor(x, lo - 1) != t.Ancestor(y, lo - 1)
    {
      var mid := (lo + hi) / 2;
      var midX, _ := GetNthAncestor(t, x, mid);
      var midY, _ := GetNthAncestor(t, y, mid);
      if midX == midY {
        hi := mid;
      } else {
        lo := mid + 1;
      }
    }
    FirstAgreement(t, x, y, hi);
    var found, _ := GetNthAncestor(t, x, hi);
    a := found.value;
  }

  /** The two blocks, the higher one replaced by its ancestor at the other one's height. */
  method EqualizeHeights<H(==)>(t: Tree<H>, x: H, y: H) returns (x': H, y': H)
    requires t.Valid() && x in t.height && y in t.height
    ensures x' in t.height && y' in t.height && t.height[x'] == t.height[y']
    ensures t.IsAncestor(x', x) && t.IsAncestor(y', y) && (x' == x || y' == y)
    ensures LastCommon(t, x', y') == LastCommon(t, x, y)
  {
    x', y' := x, y;
    if t.height[x] < t.height[y] {
      var found, _ := GetNthAncestor(t, y, t.height[y] - t.height[x]);
      y' := found.value;
      EqualizeLeft(t, y, x);
      LastCommonSymmetric(t, x, y);
      LastCommonSymmetric(t, x, y');
    } else if t.height[x] > t.height[y] {
      var found, _ := GetNthAncestor(t, x, t.height[x] - t.height[y]);
      x' := found.value;
      EqualizeLeft(t, x, y);
    }
  }

  /** The sidechain search: headers form a forest, so there may be no common ancestor. */
  method LastCommonAncestor<H(==, !new)>(t: Tree<H>, x: H, y: H) returns (r: Result<Option<H>, LineageError>)
    requires t.Valid()
    ensures x !in t.height || y !in t.height ==> r == Err(NoHeight)
    ensures x in t.height && y in t.height ==> r == Ok(LastCommon(t, x, y))
  {
    if x !in t.height || y !in t.height {
      return Err(NoHeight);
    }
    var x', y' := EqualizeHeights(t, x, y);
    if x' == y' {
      return Ok(Some(x'));
    }
    var oldestX, _ := GetNthAncestor(t, x', t.height[x']);
    var oldestY, _ := GetNthAncestor(t, y', t.height[x']);
    if oldestX != oldestY {
      NoCommonIffGenesisDiffers(t, x', y');
      return Ok(None);
    }
    var a := SearchAgreement(t, x', y');
    r := Ok(Some(a));
  }

  /** Every header descends from one root, as every mainchain header does from the zero hash. */
  ghost predicate SingleRoot<H(!new)>(t: Tree<H>, root: H) {
    root in t.height && forall b | b in t.height :: t.height[b] == 0 <==> b == root
  }

  /** The mainchain search: all lineages end at one root, so there always is a common ancestor. */
  method LastCommonMainAncestor<H(==, !new)>(t: Tree<H>, ghost root: H, x: H, y: H) returns (r: Result<H, LineageError>)
    requires t.Valid() && SingleRoot(t, root)
    ensures x !in t.height || y !in t.height ==> r == Err(NoHeight)
    ensures x in t.height && y in t.height ==> r.Ok? && LastCommon(t, x, y) == Some(r.value)
  {
    if x !in t.height || y !in t.height {
      return Err(NoHeight);
    }
    var x', y' := EqualizeHeights(t, x, y);
    if x' == y' {
      return Ok(x');
    }
    assert t.AncestorAt(x', 0) == t.AncestorAt(y', 0) == root;
    var a := SearchAgreement(t, x', y');
    r := Ok(a);
  }

  /** One block is an ancestor of the other: compare after moving the higher one down. */
  method SharedLineage<H(==)>(t: Tree<H>, x: H, y: H) returns (r: Result<bool, LineageError>)
    requires t.Valid()
    ensures x !in t.height || y !in t.height ==> r == Err(NoHeight)
    ensures x in t.height && y in t.height ==> r == Ok(t.IsAncestor(x, y) || t.IsAncestor(y, x))
  {
    if x !in t.height || y !in t.height {
      return Err(NoHeight);
    }
    var x', y' := EqualizeHeights(t, x, y);
    r := Ok(x' == y');
  }
}
