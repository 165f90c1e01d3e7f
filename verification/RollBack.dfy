/** Values stamped with the block height at which they were set, newest last, never empty. */
module RollBack {
  import opened Types

  datatype HeightStamped<T> = HeightStamped(value: T, height: nat)

  datatype RollBack<T> = RollBack(head: HeightStamped<T>, tail: seq<HeightStamped<T>>) {

    static function New(value: T, height: nat): RollBack<T> {
      RollBack(HeightStamped(value, height), [])
    }

    function Latest(): HeightStamped<T> {
      if tail == [] then head else tail[|tail| - 1]
    }

    /** The new history, or nothing when the latest height is greater than the given one. */
    function Push(value: T, height: nat): Option<RollBack<T>> {
      if Latest().height > height then None
      else Some(RollBack(head, tail + [HeightStamped(value, height)]))
    }

    /** The history without its latest value, if any is left, and that latest value. */
    function Pop(): (Option<RollBack<T>>, HeightStamped<T>) {
      if tail == [] then (None, head) else (Some(RollBack(head, tail[..|tail| - 1])), Latest())
    }

    function Entries(): seq<HeightStamped<T>> {
      [head] + tail
    }

    /** Heights never decrease and do not exceed `bound`. */
    ghost predicate Ordered(bound: nat) {
      && (forall i, j :: 0 <= i < j < |Entries()| ==> Entries()[i].height <= Entries()[j].height)
      && Latest().height <= bound
    }
  }

  /** A push is rejected exactly when it is below the latest height; otherwise it is the one new entry. */
  lemma PushAppends<T>(r: RollBack<T>, value: T, height: nat)
    ensures r.Push(value, height).Some? <==> r.Latest().height <= height
    ensures r.Push(value, height).Some? ==> r.Push(value, height).value.Entries() == r.Entries() + [HeightStamped(value, height)]
    ensures r.Latest() == r.Entries()[|r.Entries()| - 1]
  {
  }

  /** Popping undoes a push, and a history can be pushed to at every height it is bounded by. */
  lemma PopUndoesPush<T>(r: RollBack<T>, value: T, bound: nat)
    requires r.Ordered(bound)
    ensures r.Push(value, bound).Some?
    ensures var p := r.Push(value, bound).value;
            p.Ordered(bound) && p.Pop() == (Some(r), HeightStamped(value, bound)) && p.Latest() == HeightStamped(value, bound)
  {
    var p := r.Push(value, bound).value;
    assert p.tail[..|p.tail| - 1] == r.tail;
    assert p.Entries() == r.Entries() + [HeightStamped(value, bound)];
    assert r.Latest() == r.Entries()[|r.Entries()| - 1];
  }
}
