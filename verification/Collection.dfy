/**
 Collecting unspent withdrawals into a bundle: aggregation by mainchain address, a total
 order on the aggregates, and a greedy selection under the mainchain weight limit.
 */
module Collection {
  import opened Types
  import opened Sums

  datatype CollectError = AmountOverflow | FeeOverflow | BundleTooHeavy

  // ------------------------------------------------------------------- weights

  const MAX_STANDARD_WEIGHT: nat := 400_000
  const WITNESS_SCALE_FACTOR: nat := 4
  const INPUTS_COMMITMENT_SCRIPT: nat := 34
  const FEE_COMMITMENT_SCRIPT: nat := 10

  /** The number of bytes of a variable-length integer. */
  function VarIntSize(n: nat): nat {
    if n < 0xFD then 1 else if n <= 0xFFFF then 3 else if n <= 0xFFFF_FFFF then 5 else 9
  }

  function CheckedAdd(a: nat, b: nat): Option<nat> {
    if a + b < U32_SIZE then Some(a + b) else None
  }

  /** The size of one output: an 8-byte amount, the script length and the script. */
  function TxOutSize(scriptLen: nat): Option<nat> {
    match CheckedAdd(8, VarIntSize(scriptLen))
    case None => None
    case Some(size) => CheckedAdd(size, scriptLen)
  }

  /**
   The predicted weight of a bundle transaction with a treasury input and two commitment
   outputs, if it does not exceed the limit. All sums are 32-bit and checked.
   */
  function PredictWeight(nOutputs: nat, sumTxOutSizes: nat): Option<nat> {
    match CheckedAdd(nOutputs, 2)
    case None => None
    case Some(n) =>
      match CheckedAdd(TxOutSize(INPUTS_COMMITMENT_SCRIPT).value + TxOutSize(FEE_COMMITMENT_SCRIPT).value, sumTxOutSizes)
      case None => None
      case Some(sum) =>
        match CheckedAdd(4, VarIntSize(1) + 41)
        case None => None
        case Some(inputs) =>
          match CheckedAdd(VarIntSize(n), sum)
          case None => None
          case Some(outputs) =>
            match CheckedAdd(inputs, outputs)
            case None => None
            case Some(body) =>
              match CheckedAdd(body, 4)
              case None => None
              case Some(base) =>
                if base * WITNESS_SCALE_FACTOR <= MAX_STANDARD_WEIGHT then Some(base * WITNESS_SCALE_FACTOR) else None
  }

  function SumSizes(payouts: seq<TxOut>): nat {
    if payouts == [] then 0
    else
      var len := payouts[|payouts| - 1].address.scriptLen;
      SumSizes(payouts[..|payouts| - 1]) + 8 + VarIntSize(len) + len
  }

  /**
   The weight of the built transaction (BIP 141, section "Transaction size calculations"):
   three times the size without witness data plus the whole size. It has no inputs, so it is
   serialised with the two bytes of the segwit marker and flag.
   */
  function BuiltWeight(payouts: seq<TxOut>): nat {
    var commitments := 8 + VarIntSize(INPUTS_COMMITMENT_SCRIPT) + INPUTS_COMMITMENT_SCRIPT
                     + 8 + VarIntSize(FEE_COMMITMENT_SCRIPT) + FEE_COMMITMENT_SCRIPT;
    var baseSize := 4 + VarIntSize(0) + VarIntSize(|payouts| + 2) + commitments + SumSizes(payouts) + 4;
    baseSize * 3 + (baseSize + 2)
  }

  /** A predicted weight within the limit bounds the weight of the built transaction. */
  lemma PredictionBoundsWeight(payouts: seq<TxOut>)
    requires PredictWeight(|payouts|, SumSizes(payouts)).Some?
    ensures BuiltWeight(payouts) <= PredictWeight(|payouts|, SumSizes(payouts)).value <= MAX_STANDARD_WEIGHT
  {
  }

  // --------------------------------------------------------------- aggregation

  datatype Aggregated = Aggregated(
    spendUtxos: map<OutPoint, Output>, mainAddress: MainAddress, value: nat, mainFee: nat)

  function PayoutAt(o: OutPoint, output: Output): nat {
    if output.content.Withdrawal? then output.content.payout else 0
  }

  function FeeAt(o: OutPoint, output: Output): nat {
    if output.content.Withdrawal? then output.content.mainFee else 0
  }

  /** The unspent withdrawals to one address. */
  function WithdrawalsTo(utxos: map<OutPoint, Output>, address: MainAddress): map<OutPoint, Output> {
    map o | o in utxos && utxos[o].content.Withdrawal? && utxos[o].content.mainAddress == address :: utxos[o]
  }

  function Addresses(utxos: map<OutPoint, Output>): set<MainAddress> {
    set o | o in utxos && utxos[o].content.Withdrawal? :: utxos[o].content.mainAddress
  }

  ghost function AggregateFor(utxos: map<OutPoint, Output>, address: MainAddress): Aggregated {
    var outputs := WithdrawalsTo(utxos, address);
    Aggregated(outputs, address, Sum(outputs, PayoutAt), Sum(outputs, FeeAt))
  }

  ghost function AggregateTable(utxos: map<OutPoint, Output>): map<MainAddress, Aggregated> {
    map address | address in Addresses(utxos) :: AggregateFor(utxos, address)
  }

  /** The total payout or the total fee to some address does not fit an amount. */
  ghost predicate Overflows(utxos: map<OutPoint, Output>) {
    exists address :: address in Addresses(utxos) &&
                      (AggregateFor(utxos, address).value > MAX_AMOUNT || AggregateFor(utxos, address).mainFee > MAX_AMOUNT)
  }

  /** Aggregating one more output changes the entry of its address only. */
  lemma AggregateStep(done: map<OutPoint, Output>, o: OutPoint, output: Output, address: MainAddress)
    requires o !in done
    ensures var before, after := AggregateFor(done, address), AggregateFor(done[o := output], address);
            if output.content.Withdrawal? && output.content.mainAddress == address then
              && after.spendUtxos == before.spendUtxos[o := output]
              && after.value == before.value + output.content.payout
              && after.mainFee == before.mainFee + output.content.mainFee
            else after == before
  {
    var before, after := WithdrawalsTo(done, address), WithdrawalsTo(done[o := output], address);
    if output.content.Withdrawal? && output.content.mainAddress == address {
      assert after == before[o := output];
      SumAdd(before, PayoutAt, o, output);
      SumAdd(before, FeeAt, o, output);
    } else {
      assert after == before;
    }
  }

  /** Totals to an address only grow with more outputs. */
  lemma AggregateMonotone(part: map<OutPoint, Output>, whole: map<OutPoint, Output>, address: MainAddress)
    requires part.Keys <= whole.Keys && forall o | o in part :: part[o] == whole[o]
    ensures AggregateFor(part, address).value <= AggregateFor(whole, address).value
    ensures AggregateFor(part, address).mainFee <= AggregateFor(whole, address).mainFee
  {
    var a, b := WithdrawalsTo(part, address), WithdrawalsTo(whole, address);
    SumSplit(b, a.Keys, PayoutAt);
    SumSplit(b, a.Keys, FeeAt);
    assert a == map o | o in a.Keys :: b[o];
  }

  /** The entry of an address, with one more withdrawal to it. */
  function AddTo(table: map<MainAddress, Aggregated>, o: OutPoint, output: Output): Aggregated
    requires output.content.Withdrawal?
  {
    var Withdrawal(payout, mainFee, address) := output.content;
    var entry := if address in table then table[address] else Aggregated(map[], address, 0, 0);
    Aggregated(entry.spendUtxos[o := output], address, entry.value + payout, entry.mainFee + mainFee)
  }

  lemma AddressesStep(done: map<OutPoint, Output>, o: OutPoint, output: Output)
    requires o !in done
    ensures Addresses(done[o := output]) ==
            Addresses(done) + if output.content.Withdrawal? then {output.content.mainAddress} else {}
  {
    var after := done[o := output];
    assert forall x | x in done :: x in after && after[x] == done[x];
    assert after[o] == output;
  }

  lemma TableStep(done: map<OutPoint, Output>, o: OutPoint, output: Output)
    requires o !in done
    ensures AggregateTable(done[o := output]) ==
            if output.content.Withdrawal?
            then AggregateTable(done)[output.content.mainAddress := AddTo(AggregateTable(done), o, output)]
            else AggregateTable(done)
  {
    AddressesStep(done, o, output);
    forall address
      ensures !(output.content.Withdrawal? && output.content.mainAddress == address) ==>
                AggregateFor(done[o := output], address) == AggregateFor(done, address)
    {
      AggregateStep(done, o, output, address);
    }
    if output.content.Withdrawal? {
      var address := output.content.mainAddress;
      AggregateStep(done, o, output, address);
      if address !in Addresses(done) {
        assert WithdrawalsTo(done, address) == map[];
      }
    }
  }

  predicate TableFits(table: map<MainAddress, Aggregated>) {
    forall address | address in table :: table[address].value <= MAX_AMOUNT && table[address].mainFee <= MAX_AMOUNT
  }

  lemma TableFitsNoOverflow(utxos: map<OutPoint, Output>)
    ensures TableFits(AggregateTable(utxos)) <==> !Overflows(utxos)
  {
    var table := AggregateTable(utxos);
    assert forall address | address in Addresses(utxos) :: address in table && table[address] == AggregateFor(utxos, address);
  }

  /** Adds up the withdrawals by address, visiting the outputs in any order. */
  method Aggregate(utxos: map<OutPoint, Output>) returns (r: Result<map<MainAddress, Aggregated>, CollectError>)
    ensures Overflows(utxos) ==> r == Err(AmountOverflow)
    ensures !Overflows(utxos) ==> r == Ok(AggregateTable(utxos))
  {
    var table: map<MainAddress, Aggregated> := map[];
    var done: map<OutPoint, Output> := map[];
    while utxos.Keys - done.Keys != {}
      invariant done.Keys <= utxos.Keys && forall o | o in done :: done[o] == utxos[o]
      invariant table == AggregateTable(done)
      invariant TableFits(table)
      decreases utxos.Keys - done.Keys
    {
      var o :| o in utxos.Keys - done.Keys;
      var output := utxos[o];
      TableStep(done, o, output);
      if output.content.Withdrawal? {
        var entry := AddTo(table, o, output);
        if entry.value > MAX_AMOUNT || entry.mainFee > MAX_AMOUNT {
          assert AggregateTable(done[o := output])[output.content.mainAddress] == entry;
          OverflowPersists(utxos, done[o := output], output.content.mainAddress);
          return Err(AmountOverflow);
        }
        table := table[output.content.mainAddress := entry];
      }
      done := done[o := output];
    }
    assert forall o | o in utxos :: o !in utxos.Keys - done.Keys;
    assert done == utxos;
    TableFitsNoOverflow(utxos);
    r := Ok(table);
  }

  lemma OverflowPersists(utxos: map<OutPoint, Output>, part: map<OutPoint, Output>, address: MainAddress)
    requires part.Keys <= utxos.Keys && forall o | o in part :: part[o] == utxos[o]
    requires address in Addresses(part)
    requires AggregateFor(part, address).value > MAX_AMOUNT || AggregateFor(part, address).mainFee > MAX_AMOUNT
    ensures Overflows(utxos)
  {
    AggregateMonotone(part, utxos, address);
    var o :| o in part && part[o].content.Withdrawal? && part[o].content.mainAddress == address;
    assert address in Addresses(utxos) by {
      assert o in utxos && utxos[o].content.mainAddress == address;
    }
  }

  // --------------------------------------------------------------- the total order

  predicate AddressAbove(a: MainAddress, b: MainAddress) {
    a.id > b.id || (a.id == b.id && a.scriptLen > b.scriptLen)
  }

  /** Lexicographic by fee, value and address. */
  predicate Above(a: Aggregated, b: Aggregated) {
    || a.mainFee > b.mainFee
    || (a.mainFee == b.mainFee && a.value > b.value)
    || (a.mainFee == b.mainFee && a.value == b.value && AddressAbove(a.mainAddress, b.mainAddress))
  }

  ghost predicate AddressesDiffer(s: set<Aggregated>) {
    forall a, b | a in s && b in s && a != b :: a.mainAddress != b.mainAddress
  }

  /** `l` lists exactly the elements of `s`, each above all later ones. */
  ghost predicate Listing(s: set<Aggregated>, l: seq<Aggregated>) {
    && (forall i, j | 0 <= i < j < |l| :: Above(l[i], l[j]))
    && forall a :: a in l <==> a in s
  }

  lemma ListingEmpty(s: set<Aggregated>, l: seq<Aggregated>)
    requires Listing(s, l)
    ensures s == {} <==> l == []
  {
    if l != [] {
      assert l[0] in s;
    }
  }

  /** There is only one listing of a set, so the order of iteration does not show. */
  lemma {:induction false} ListingUnique(s: set<Aggregated>, k: seq<Aggregated>, l: seq<Aggregated>)
    requires Listing(s, k) && Listing(s, l)
    ensures k == l
    decreases |k|
  {
    ListingEmpty(s, k);
    ListingEmpty(s, l);
    if k != [] {
      assert k[0] in l;
      assert l != [] && l[0] in k;
      assert k[0] == l[0];
      ListingTail(s, k);
      ListingTail(s, l);
      ListingUnique(s - {k[0]}, k[1..], l[1..]);
    }
  }

  lemma ListingTail(s: set<Aggregated>, l: seq<Aggregated>)
    requires Listing(s, l) && l != []
    ensures Listing(s - {l[0]}, l[1..])
  {
    forall a
      ensures a in l[1..] <==> a in s - {l[0]}
    {
      assert l == [l[0]] + l[1..];
      if a in l[1..] {
        var i :| 0 <= i < |l[1..]| && l[1..][i] == a;
        assert Above(l[0], l[i + 1]);
      }
    }
  }

  /** Inserts an aggregate at its place. */
  function InsertAggregate(l: seq<Aggregated>, a: Aggregated): (r: seq<Aggregated>)
    ensures forall x :: x in r <==> x in l || x == a
  {
    if l == [] then [a]
    else if Above(a, l[0]) then [a] + l
    else
      assert l == [l[0]] + l[1..];
      [l[0]] + InsertAggregate(l[1..], a)
  }

  lemma {:induction false} InsertKeepsOrder(s: set<Aggregated>, l: seq<Aggregated>, a: Aggregated)
    requires Listing(s, l) && forall x | x in s :: x.mainAddress != a.mainAddress
    ensures Listing(s + {a}, InsertAggregate(l, a))
    decreases |l|
  {
    if l != [] {
      assert l[0] in s;
      if Above(a, l[0]) {
        assert forall i | 0 <= i < |l| :: Above(a, l[i]);
      } else {
        ListingTail(s, l);
        InsertKeepsOrder(s - {l[0]}, l[1..], a);
        var rest := InsertAggregate(l[1..], a);
        forall j | 0 <= j < |rest|
          ensures Above(l[0], rest[j])
        {
          assert rest[j] in rest;
          if rest[j] != a {
            var i :| 0 <= i < |l[1..]| && l[1..][i] == rest[j];
            assert Above(l[0], l[i + 1]);
          }
        }
      }
    }
  }

  /** Sorts the aggregates in descending order, visiting them in any order. */
  method SortDescending(s: set<Aggregated>) returns (l: seq<Aggregated>)
    requires AddressesDiffer(s)
    ensures Listing(s, l)
  {
    l := [];
    var done: set<Aggregated> := {};
    while s - done != {}
      invariant done <= s && Listing(done, l)
      decreases s - done
    {
      var a :| a in s - done;
      InsertKeepsOrder(done, l, a);
      l := InsertAggregate(l, a);
      done := done + {a};
    }
    assert forall a | a in s :: a !in s - done;
    assert done == s;
  }

  lemma {:induction false} ListingExists(s: set<Aggregated>)
    requires AddressesDiffer(s)
    ensures exists l :: Listing(s, l)
    decreases |s|
  {
    if s == {} {
      assert Listing(s, []);
    } else {
      var a :| a in s;
      ListingExists(s - {a});
      var l :| Listing(s - {a}, l);
      InsertKeepsOrder(s - {a}, l, a);
      assert s - {a} + {a} == s;
    }
  }

  // --------------------------------------------------------------- the selection

  datatype Selection = Selection(spendUtxos: map<OutPoint, Output>, payouts: seq<TxOut>, sizes: nat, fee: Amount)

  datatype Decision = Stop | Skip | Overflow | Take(sel: Selection)

  /** What the greedy loop does with one aggregate. */
  function Decide(a: Aggregated, sel: Selection): Decision
    requires a.value <= MAX_AMOUNT && a.mainFee <= MAX_AMOUNT
  {
    var len := a.mainAddress.scriptLen;
    if |sel.payouts| + 1 >= U32_SIZE then Stop
    else if len >= U32_SIZE || TxOutSize(len).None? then Skip
    else
      var sizes := CheckedAdd(sel.sizes, TxOutSize(len).value);
      if sizes.None? || PredictWeight(|sel.payouts| + 1, sizes.value).None? then Stop
      else if sel.fee + a.mainFee > MAX_AMOUNT then Overflow
      else Take(Selection(
        sel.spendUtxos + a.spendUtxos, sel.payouts + [TxOut(a.value, a.mainAddress)], sizes.value, sel.fee + a.mainFee))
  }

  /** The selection from the aggregates from index `i` on. */
  function SelectFrom(l: seq<Aggregated>, i: nat, sel: Selection): (r: Result<Selection, CollectError>)
    requires i <= |l|
    requires forall a | a in l :: a.value <= MAX_AMOUNT && a.mainFee <= MAX_AMOUNT
    ensures r.Err? ==> r.error == FeeOverflow
    decreases |l| - i
  {
    if i == |l| then Ok(sel)
    else match Decide(l[i], sel)
      case Stop => Ok(sel)
      case Skip => SelectFrom(l, i + 1, sel)
      case Overflow => Err(FeeOverflow)
      case Take(next) => SelectFrom(l, i + 1, next)
  }

  /** Builds the bundle transaction, refusing one that is too heavy. */
  function NewBundle(height: nat, fee: Amount, spend: map<OutPoint, Output>, payouts: seq<TxOut>)
    : Result<WithdrawalBundle, CollectError>
  {
    if BuiltWeight(payouts) > MAX_STANDARD_WEIGHT then Err(BundleTooHeavy)
    else Ok(WithdrawalBundle(spend, BundleTx(spend.Keys, height, fee, payouts)))
  }

  ghost function Aggregates(utxos: map<OutPoint, Output>): set<Aggregated> {
    set address | address in Addresses(utxos) :: AggregateFor(utxos, address)
  }

  /** The one descending listing of the aggregated withdrawals. */
  ghost function Listed(utxos: map<OutPoint, Output>): (l: seq<Aggregated>)
    requires !Overflows(utxos)
    ensures Listing(Aggregates(utxos), l)
  {
    AggregatesFit(utxos);
    ListingExists(Aggregates(utxos));
    var l :| Listing(Aggregates(utxos), l);
    l
  }

  const NO_SELECTION := Selection(map[], [], 0, 0)

  /** The bundle for a set of unspent outputs at a height. */
  ghost function Collect(utxos: map<OutPoint, Output>, height: nat): Result<Option<WithdrawalBundle>, CollectError> {
    if Overflows(utxos) then Err(AmountOverflow)
    else if Addresses(utxos) == {} then Ok(None)
    else
      AggregatesFit(utxos);
      var sel :- SelectFrom(Listed(utxos), 0, NO_SELECTION);
      var bundle :- NewBundle(height, sel.fee, sel.spendUtxos, sel.payouts);
      Ok(Some(bundle))
  }

  lemma AggregatesFit(utxos: map<OutPoint, Output>)
    requires !Overflows(utxos)
    ensures forall a | a in Aggregates(utxos) :: a.value <= MAX_AMOUNT && a.mainFee <= MAX_AMOUNT
    ensures AddressesDiffer(Aggregates(utxos))
    ensures Aggregates(utxos) == AggregateTable(utxos).Values
  {
    var table := AggregateTable(utxos);
    forall address | address in Addresses(utxos)
      ensures address in table && table[address] == AggregateFor(utxos, address) && table[address] in table.Values
    {
    }
    forall address | address in Addresses(utxos)
      ensures AggregateFor(utxos, address).value <= MAX_AMOUNT && AggregateFor(utxos, address).mainFee <= MAX_AMOUNT
    {
    }
  }

  /** Aggregates, sorts, selects and builds. The result does not depend on any iteration order. */
  method CollectWithdrawalBundle(utxos: map<OutPoint, Output>, height: nat)
    returns (r: Result<Option<WithdrawalBundle>, CollectError>)
    ensures r == Collect(utxos, height)
  {
    var aggregated := Aggregate(utxos);
    if aggregated.Err? {
      return Err(aggregated.error);
    }
    if aggregated.value == map[] {
      assert Addresses(utxos) == AggregateTable(utxos).Keys == {};
      return Ok(None);
    }
    AggregatesFit(utxos);
    assert Addresses(utxos) == AggregateTable(utxos).Keys;
    var l := SortDescending(aggregated.value.Values);
    ListingUnique(Aggregates(utxos), l, Listed(utxos));
    var selected := SelectOutputs(l);
    if selected.Err? {
      return Err(selected.error);
    }
    var sel := selected.value;
    var bundle := NewBundle(height, sel.fee, sel.spendUtxos, sel.payouts);
    if bundle.Err? {
      return Err(bundle.error);
    }
    r := Ok(Some(bundle.value));
  }

  /** The greedy loop over the sorted aggregates. */
  method SelectOutputs(l: seq<Aggregated>) returns (r: Result<Selection, CollectError>)
    requires forall a | a in l :: a.value <= MAX_AMOUNT && a.mainFee <= MAX_AMOUNT
    ensures r == SelectFrom(l, 0, NO_SELECTION)
  {
    var sel := NO_SELECTION;
    var i := 0;
    while i < |l|
      invariant 0 <= i <= |l|
      invariant SelectFrom(l, 0, NO_SELECTION) == SelectFrom(l, i, sel)
    {
      var a := l[i];
      var nOutputs := |sel.payouts| + 1;
      if nOutputs >= U32_SIZE {
        break;
      }
      i := i + 1;
      if a.mainAddress.scriptLen >= U32_SIZE {
        continue;
      }
      var size := TxOutSize(a.mainAddress.scriptLen);
      if size.None? {
        continue;
      }
      var sizes := CheckedAdd(sel.sizes, size.value);
      if sizes.None? || PredictWeight(nOutputs, sizes.value).None? {
        return Ok(sel);
      }
      if sel.fee + a.mainFee > MAX_AMOUNT {
        return Err(FeeOverflow);
      }
      sel := Selection(
        sel.spendUtxos + a.spendUtxos, sel.payouts + [TxOut(a.value, a.mainAddress)], sizes.value, sel.fee + a.mainFee);
    }
    r := Ok(sel);
  }

  // --------------------------------------------------------------- exactness

  function SumValues(payouts: seq<TxOut>): nat {
    if payouts == [] then 0 else SumValues(payouts[..|payouts| - 1]) + payouts[|payouts| - 1].value
  }

  /** The selection so far is exact, within the weight limit, and spends none of the outputs left. */
  ghost predicate SelectionOk(utxos: map<OutPoint, Output>, l: seq<Aggregated>, i: nat, sel: Selection)
    requires i <= |l|
  {
    && sel.sizes == SumSizes(sel.payouts)
    && (sel.payouts != [] ==> PredictWeight(|sel.payouts|, sel.sizes).Some?)
    && Sum(sel.spendUtxos, PayoutAt) == SumValues(sel.payouts)
    && Sum(sel.spendUtxos, FeeAt) == sel.fee
    && (forall o | o in sel.spendUtxos ::
         o in utxos && sel.spendUtxos[o] == utxos[o] && utxos[o].content.Withdrawal?)
    && (forall j | i <= j < |l| :: sel.spendUtxos.Keys !! l[j].spendUtxos.Keys)
  }

  lemma {:induction false} SelectionStaysOk(utxos: map<OutPoint, Output>, l: seq<Aggregated>, i: nat, sel: Selection)
    requires Listing(Aggregates(utxos), l) && !Overflows(utxos) && i <= |l| && SelectionOk(utxos, l, i, sel)
    requires forall a | a in l :: a.value <= MAX_AMOUNT && a.mainFee <= MAX_AMOUNT
    requires SelectFrom(l, i, sel).Ok?
    ensures SelectionOk(utxos, l, |l|, SelectFrom(l, i, sel).value)
    decreases |l| - i
  {
    if i < |l| {
      match Decide(l[i], sel)
      case Stop =>
      case Skip => SelectionStaysOk(utxos, l, i + 1, sel);
      case Overflow =>
      case Take(next) =>
        SelectionStep(utxos, l, i, sel, next);
        SelectionStaysOk(utxos, l, i + 1, next);
    }
  }

  lemma SelectionStep(utxos: map<OutPoint, Output>, l: seq<Aggregated>, i: nat, sel: Selection, next: Selection)
    requires Listing(Aggregates(utxos), l) && i < |l| && SelectionOk(utxos, l, i, sel)
    requires l[i].value <= MAX_AMOUNT && l[i].mainFee <= MAX_AMOUNT && Decide(l[i], sel) == Take(next)
    ensures SelectionOk(utxos, l, i + 1, next)
  {
    var a := l[i];
    assert a in Aggregates(utxos);
    assert next.payouts[..|next.payouts| - 1] == sel.payouts;
    SumUnion(sel.spendUtxos, a.spendUtxos, PayoutAt);
    SumUnion(sel.spendUtxos, a.spendUtxos, FeeAt);
    forall j | i + 1 <= j < |l|
      ensures a.spendUtxos.Keys !! l[j].spendUtxos.Keys
    {
      assert l[j] in Aggregates(utxos) && Above(a, l[j]);
      assert a.mainAddress != l[j].mainAddress;
    }
  }

  /**
   A collected bundle spends unspent withdrawals, and what they are worth is exactly the payouts
   and the committed mainchain fee. It is never too heavy.
   */
  lemma CollectIsExact(utxos: map<OutPoint, Output>, height: nat)
    ensures Collect(utxos, height) != Err(BundleTooHeavy)
    ensures var r := Collect(utxos, height);
            r.Ok? && r.value.Some? ==>
              var bundle := r.value.value;
              && (forall o | o in bundle.spendUtxos ::
                   o in utxos && bundle.spendUtxos[o] == utxos[o] && utxos[o].content.Withdrawal?)
              && Sum(bundle.spendUtxos, PayoutAt) == SumValues(bundle.tx.payouts)
              && Sum(bundle.spendUtxos, FeeAt) == bundle.tx.fee
              && BuiltWeight(bundle.tx.payouts) <= MAX_STANDARD_WEIGHT
              && bundle.tx.inputs == bundle.spendUtxos.Keys && bundle.tx.height == height
  {
    if !Overflows(utxos) && Addresses(utxos) != {} {
      AggregatesFit(utxos);
      var l := Listed(utxos);
      if SelectFrom(l, 0, NO_SELECTION).Ok? {
        SelectionStaysOk(utxos, l, 0, NO_SELECTION);
        var sel := SelectFrom(l, 0, NO_SELECTION).value;
        if sel.payouts != [] {
          PredictionBoundsWeight(sel.payouts);
        }
      }
    }
  }
}
