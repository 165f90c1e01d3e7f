/** The total work of a mainchain header: the sum of the works in the headers of its chain. */
module HeaderWork {
  import opened Types
  import opened Lineage
  import opened CommonAncestor
  import opened Bmm

  /** Each total is the work in the header itself on top of its parent's total. */
  ghost predicate WorkedOut(main: MainTables, works: map<MainHash, nat>) {
    && works.Keys == main.tree.parent.Keys == main.work.Keys
    && forall m {:trigger works[m]} | m in works :: main.work[m] == main.ParentWork(main.tree.parent[m]) + works[m]
  }

  /** The works of the ancestors of `m` at heights 1 to `h`, added up. */
  ghost function LineageWork(main: MainTables, works: map<MainHash, nat>, m: MainHash, h: nat): nat
    requires main.tree.Linked() && m in main.tree.height && h <= main.tree.height[m]
    requires works.Keys == main.tree.parent.Keys
  {
    if h == 0 then 0
    else
      var a := main.tree.AncestorAt(m, h);
      assert main.tree.height[a] > 0;
      LineageWork(main, works, m, h - 1) + works[a]
  }

  lemma {:induction false} SharedLineageWork(main: MainTables, works: map<MainHash, nat>, m: MainHash, h: nat)
    requires main.tree.Linked() && m in main.tree.parent && m in main.tree.height && h < main.tree.height[m] && works.Keys == main.tree.parent.Keys
    ensures LineageWork(main, works, m, h) == LineageWork(main, works, main.tree.Parent(m), h)
  {
    if h > 0 {
      SharedLineageWork(main, works, m, h - 1);
      ParentAncestry(main.tree, main.tree.Parent(m), m);
      AncestorAtThrough(main.tree, main.tree.Parent(m), m, h);
    }
  }

  /** The total work of a header is the sum of the works in all headers of its chain. */
  lemma {:induction false} TotalWorkIsSum(main: MainTables, works: map<MainHash, nat>, m: MainHash)
    requires main.tree.Linked() && WorkedOut(main, works) && m in main.tree.parent && m in main.tree.height
    ensures main.work[m] == LineageWork(main, works, m, main.tree.height[m])
    decreases main.tree.height[m]
  {
    var p, h := main.tree.Parent(m), main.tree.height[m];
    assert works[m] + main.ParentWork(p) == main.work[m] && main.tree.AncestorAt(m, h) == m;
    SharedLineageWork(main, works, m, h - 1);
    if p in main.tree.parent {
      TotalWorkIsSum(main, works, p);
    }
  }
}
