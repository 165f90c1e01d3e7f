/**
 The accumulator over unspent outputs, and the diffs in which a block's insertions and
 removals are collected before they are applied to it in one batch.
 */
module Accumulator {
  import opened Types

  datatype UtreexoError = LeafNotFound

  // -------------------------------------------------------------- linked diffs

  /** A linked map: keys in order of first insertion, `true` for an insertion. */
  datatype Diff = Diff(order: seq<Leaf>, flag: map<Leaf, bool>)

  const EMPTY_DIFF := Diff([], map[])

  function Without(s: seq<Leaf>, h: Leaf): seq<Leaf> {
    if s == [] then []
    else Without(s[..|s| - 1], h) + if s[|s| - 1] == h then [] else [s[|s| - 1]]
  }

  /** The keys with the given flag, in order. */
  function Select(s: seq<Leaf>, flag: map<Leaf, bool>, wanted: bool): seq<Leaf> {
    if s == [] then []
    else
      var h := s[|s| - 1];
      Select(s[..|s| - 1], flag, wanted) + if h in flag && flag[h] == wanted then [h] else []
  }

  function Adds(d: Diff): seq<Leaf> {
    Select(d.order, d.flag, true)
  }

  function Dels(d: Diff): seq<Leaf> {
    Select(d.order, d.flag, false)
  }

  predicate NoRepeats(s: seq<Leaf>) {
    s == [] || (NoRepeats(s[..|s| - 1]) && s[|s| - 1] !in s[..|s| - 1])
  }

  ghost predicate WellFormed(d: Diff) {
    NoRepeats(d.order) && forall h {:trigger h in d.flag} :: h in d.order <==> h in d.flag
  }

  /** One tracked operation: an opposite entry cancels, an equal one is kept, else one is added. */
  function Record(d: Diff, h: Leaf, insert: bool): Diff {
    if h !in d.flag then Diff(d.order + [h], d.flag[h := insert])
    else if d.flag[h] != insert then Diff(Without(d.order, h), d.flag - {h})
    else d
  }

  lemma {:induction false} WithoutMembers(s: seq<Leaf>, h: Leaf)
    requires NoRepeats(s)
    ensures NoRepeats(Without(s, h))
    ensures forall x :: x in Without(s, h) <==> x in s && x != h
  {
    if s != [] {
      var init, last := s[..|s| - 1], s[|s| - 1];
      WithoutMembers(init, h);
      assert s == init + [last];
      var kept := Without(init, h);
      assert Without(s, h) == if last == h then kept else kept + [last];
      assert (kept + [last])[..|kept|] == kept;
    }
  }

  lemma {:induction false} SelectMembers(s: seq<Leaf>, flag: map<Leaf, bool>, wanted: bool)
    ensures forall x :: x in Select(s, flag, wanted) <==> x in s && x in flag && flag[x] == wanted
  {
    if s != [] {
      SelectMembers(s[..|s| - 1], flag, wanted);
      assert s == s[..|s| - 1] + [s[|s| - 1]];
    }
  }

  lemma {:induction false} SelectAgrees(s: seq<Leaf>, f: map<Leaf, bool>, g: map<Leaf, bool>, wanted: bool)
    requires forall x | x in s :: (x in f && f[x] == wanted) == (x in g && g[x] == wanted)
    ensures Select(s, f, wanted) == Select(s, g, wanted)
  {
    if s != [] {
      SelectAgrees(s[..|s| - 1], f, g, wanted);
    }
  }

  lemma {:induction false} SelectWithout(s: seq<Leaf>, flag: map<Leaf, bool>, h: Leaf, wanted: bool)
    requires NoRepeats(s) && h in s && h in flag
    ensures |Select(Without(s, h), flag - {h}, wanted)| ==
            |Select(s, flag, wanted)| - if flag[h] == wanted then 1 else 0
  {
    var init, last := s[..|s| - 1], s[|s| - 1];
    assert s == init + [last];
    assert last !in init;
    if last == h {
      NothingRemoved(init, h);
      assert Without(s, h) == init;
      SelectAgrees(init, flag - {h}, flag, wanted);
    } else {
      SelectWithout(init, flag, h, wanted);
      assert Without(s, h) == Without(init, h) + [last];
      assert (Without(init, h) + [last])[..|Without(init, h)|] == Without(init, h);
    }
  }

  lemma {:induction false} NothingRemoved(s: seq<Leaf>, h: Leaf)
    requires h !in s
    ensures Without(s, h) == s
  {
    if s != [] {
      var init, last := s[..|s| - 1], s[|s| - 1];
      assert s == init + [last] && last != h;
      NothingRemoved(init, h);
      assert Without(s, h) == init + [last];
    }
  }

  lemma RecordWellFormed(d: Diff, h: Leaf, insert: bool)
    requires WellFormed(d)
    ensures WellFormed(Record(d, h, insert))
  {
    WithoutMembers(d.order, h);
  }

  /** Recording changes the number of kept insertions and deletions by at most one. */
  lemma RecordCounts(d: Diff, h: Leaf, insert: bool, wanted: bool)
    requires WellFormed(d)
    ensures var e := Record(d, h, insert);
            |Select(e.order, e.flag, wanted)| == |Select(d.order, d.flag, wanted)| +
              if h !in d.flag && insert == wanted then 1
              else if h in d.flag && d.flag[h] != insert && d.flag[h] == wanted then -1 else 0
  {
    if h !in d.flag {
      var e := Record(d, h, insert);
      assert e.order[..|e.order| - 1] == d.order;
      SelectAgrees(d.order, e.flag, d.flag, wanted);
    } else if d.flag[h] != insert {
      SelectWithout(d.order, d.flag, h, wanted);
    }
  }

  // ------------------------------------------------- what a diff stands for

  /** `d` is exactly the difference between the leaves `base` and the leaves `now`. */
  ghost predicate Tracks(d: Diff, base: set<Leaf>, now: set<Leaf>) {
    WellFormed(d) && FlagsTrack(d.flag, base, now)
  }

  ghost predicate FlagsTrack(flag: map<Leaf, bool>, base: set<Leaf>, now: set<Leaf>) {
    forall h {:trigger h in flag} :: (h in flag <==> (h in base) != (h in now)) && (h in flag ==> flag[h] == (h in now))
  }

  lemma RecordFlags(d: Diff, base: set<Leaf>, now: set<Leaf>, h: Leaf, insert: bool)
    requires FlagsTrack(d.flag, base, now) && (h in now) != insert
    ensures FlagsTrack(Record(d, h, insert).flag, base, if insert then now + {h} else now - {h})
  {
    hide Without;
  }

  lemma RecordTracks(d: Diff, base: set<Leaf>, now: set<Leaf>, h: Leaf, insert: bool)
    requires Tracks(d, base, now) && (h in now) != insert
    ensures Tracks(Record(d, h, insert), base, if insert then now + {h} else now - {h})
  {
    hide WellFormed, FlagsTrack, Record;
    RecordWellFormed(d, h, insert);
    RecordFlags(d, base, now, h, insert);
  }

  datatype Op = Op(leaf: Leaf, insert: bool)

  function RecordAll(ops: seq<Op>): Diff {
    if ops == [] then EMPTY_DIFF
    else Record(RecordAll(ops[..|ops| - 1]), ops[|ops| - 1].leaf, ops[|ops| - 1].insert)
  }

  /** The leaves after the operations are done one by one. */
  function PerformAll(leaves: set<Leaf>, ops: seq<Op>): set<Leaf> {
    if ops == [] then leaves
    else
      var op := ops[|ops| - 1];
      var before := PerformAll(leaves, ops[..|ops| - 1]);
      if op.insert then before + {op.leaf} else before - {op.leaf}
  }

  /** Only absent leaves are inserted, and only present leaves are removed. */
  predicate Permitted(leaves: set<Leaf>, ops: seq<Op>) {
    ops == [] ||
    (&& Permitted(leaves, ops[..|ops| - 1])
     && (ops[|ops| - 1].leaf in PerformAll(leaves, ops[..|ops| - 1])) != ops[|ops| - 1].insert)
  }

  lemma {:induction false} RecordAllTracks(leaves: set<Leaf>, ops: seq<Op>)
    requires Permitted(leaves, ops)
    ensures Tracks(RecordAll(ops), leaves, PerformAll(leaves, ops))
  {
    if ops != [] {
      var op, rest := ops[|ops| - 1], ops[..|ops| - 1];
      RecordAllTracks(leaves, rest);
      RecordTracks(RecordAll(rest), leaves, PerformAll(leaves, rest), op.leaf, op.insert);
    }
  }

  /** The operations that take back `ops[n..]`, last to first. */
  function TakeBackOps(ops: seq<Op>, n: nat): seq<Op>
    requires n <= |ops|
    decreases |ops| - n
  {
    if n == |ops| then [] else TakeBackOps(ops, n + 1) + [Op(ops[n].leaf, !ops[n].insert)]
  }

  lemma {:induction false} PermittedAt(leaves: set<Leaf>, ops: seq<Op>, n: nat)
    requires Permitted(leaves, ops) && n < |ops|
    ensures (ops[n].leaf in PerformAll(leaves, ops[..n])) != ops[n].insert
    decreases |ops|
  {
    if n < |ops| - 1 {
      assert ops[..|ops| - 1][..n] == ops[..n];
      PermittedAt(leaves, ops[..|ops| - 1], n);
    }
  }

  /** Permitted operations can be taken back, last to first, which restores the leaves. */
  lemma {:induction false} TakeBackRestores(leaves: set<Leaf>, ops: seq<Op>, n: nat)
    requires Permitted(leaves, ops) && n <= |ops|
    ensures var after := PerformAll(leaves, ops);
            Permitted(after, TakeBackOps(ops, n)) && PerformAll(after, TakeBackOps(ops, n)) == PerformAll(leaves, ops[..n])
    decreases |ops| - n
  {
    if n == |ops| {
      assert ops[..n] == ops;
    } else {
      TakeBackRestores(leaves, ops, n + 1);
      PermittedAt(leaves, ops, n);
      var rest := TakeBackOps(ops, n + 1);
      assert TakeBackOps(ops, n)[..|rest|] == rest;
      assert ops[..n + 1][..n] == ops[..n];
    }
  }

  // ------------------------------------------------------------------ the forest

  /** The batch modification of a forest: every deleted leaf must be present. */
  function Modify(f: Forest, adds: seq<Leaf>, dels: seq<Leaf>): Result<Forest, UtreexoError> {
    if ToSet(dels) <= f.leaves
    then Ok(Forest(f.leaves - ToSet(dels) + ToSet(adds), f.log + [Batch(adds, dels)]))
    else Err(LeafNotFound)
  }

  /** The forest after the batch of a diff whose deletions are all present. */
  function Applied(f: Forest, d: Diff): Forest {
    Forest(f.leaves - ToSet(Dels(d)) + ToSet(Adds(d)), f.log + [Batch(Adds(d), Dels(d))])
  }

  /** Flattens the diff into two lists and modifies the forest by them. */
  method ApplyDiff(f: Forest, d: Diff) returns (r: Result<Forest, UtreexoError>)
    ensures r == Modify(f, Adds(d), Dels(d))
  {
    var insertions: seq<Leaf>, deletions: seq<Leaf> := [], [];
    for i := 0 to |d.order|
      invariant insertions == Select(d.order[..i], d.flag, true)
      invariant deletions == Select(d.order[..i], d.flag, false)
    {
      var h := d.order[i];
      assert d.order[..i + 1][..i] == d.order[..i];
      if h in d.flag {
        if d.flag[h] {
          insertions := insertions + [h];
        } else {
          deletions := deletions + [h];
        }
      }
    }
    assert d.order[..|d.order|] == d.order;
    r := Modify(f, insertions, deletions);
  }

  /** Applying a diff that tracks a change from the forest's leaves performs that change. */
  lemma ApplyTracked(f: Forest, d: Diff, now: set<Leaf>)
    requires Tracks(d, f.leaves, now)
    ensures Modify(f, Adds(d), Dels(d)) == Ok(Applied(f, d)) && Applied(f, d).leaves == now
  {
    SelectMembers(d.order, d.flag, true);
    SelectMembers(d.order, d.flag, false);
    forall h
      ensures h in Dels(d) ==> h in f.leaves
      ensures h in now <==> (h in f.leaves && h !in Dels(d)) || h in Adds(d)
    {
      assert h in d.flag <==> (h in f.leaves) != (h in now);
    }
    assert ToSet(Dels(d)) <= f.leaves;
    assert f.leaves - ToSet(Dels(d)) + ToSet(Adds(d)) == now;
  }

  /** One batch has the effect of all the operations one by one, cancellations included. */
  lemma BatchEqualsOneByOne(f: Forest, ops: seq<Op>)
    requires Permitted(f.leaves, ops)
    ensures var d := RecordAll(ops);
            var r := Modify(f, Adds(d), Dels(d));
            r.Ok? && r.value.leaves == PerformAll(f.leaves, ops)
  {
    RecordAllTracks(f.leaves, ops);
    ApplyTracked(f, RecordAll(ops), PerformAll(f.leaves, ops));
  }

  // -------------------------------------------------------------- the diff object

  class AccumulatorDiff {
    var diff: Diff
    var insertions: nat
    var deletions: nat

    /** The counters are the numbers of kept insertions and deletions. */
    ghost predicate Valid()
      reads this
    {
      WellFormed(diff) && insertions == |Adds(diff)| && deletions == |Dels(diff)|
    }

    constructor ()
      ensures Valid() && diff == EMPTY_DIFF
    {
      diff, insertions, deletions := EMPTY_DIFF, 0, 0;
    }

    method Insert(h: Leaf)
      requires Valid()
      modifies this
      ensures Valid() && diff == Record(old(diff), h, true)
    {
      RecordWellFormed(diff, h, true);
      RecordCounts(diff, h, true, true);
      RecordCounts(diff, h, true, false);
      if h in diff.flag {
        if !diff.flag[h] {
          diff := Diff(Without(diff.order, h), diff.flag - {h});
          deletions := deletions - 1;
        }
      } else {
        diff := Diff(diff.order + [h], diff.flag[h := true]);
        insertions := insertions + 1;
      }
    }

    method Remove(h: Leaf)
      requires Valid()
      modifies this
      ensures Valid() && diff == Record(old(diff), h, false)
    {
      RecordWellFormed(diff, h, false);
      RecordCounts(diff, h, false, true);
      RecordCounts(diff, h, false, false);
      if h in diff.flag {
        if diff.flag[h] {
          diff := Diff(Without(diff.order, h), diff.flag - {h});
          insertions := insertions - 1;
        }
      } else {
        diff := Diff(diff.order + [h], diff.flag[h := false]);
        deletions := deletions + 1;
      }
    }
  }
}
