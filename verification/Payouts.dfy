/**
 What a collected bundle pays, to whom, and which withdrawals it leaves out: said of the unspent withdrawals
 and the bundle alone, without the aggregation and the selection that lead to it.
 */
module Payouts {
  import opened Types
  import opened Sums
  import opened Collection

  // ---------------------------------------------------------------- to whom it pays

  /** What the payouts to one address add up to. */
  function PaidTo(payouts: seq<TxOut>, address: MainAddress): nat {
    if payouts == [] then 0
    else PaidTo(payouts[1..], address) + if payouts[0].address == address then payouts[0].value else 0
  }

  predicate Pays(payouts: seq<TxOut>, address: MainAddress) {
    exists i :: 0 <= i < |payouts| && payouts[i].address == address
  }

  /** The output is a withdrawal to the address. */
  predicate Names(output: Output, address: MainAddress) {
    output.content.Withdrawal? && output.content.mainAddress == address
  }

  function RequestedAt(address: MainAddress): (OutPoint, Output) -> nat {
    (o: OutPoint, output: Output) => if Names(output, address) then output.content.payout else 0
  }

  function OfferedAt(address: MainAddress): (OutPoint, Output) -> nat {
    (o: OutPoint, output: Output) => if Names(output, address) then output.content.mainFee else 0
  }

  /** The payouts that withdrawals to the address request. */
  ghost function Requested(outputs: map<OutPoint, Output>, address: MainAddress): nat {
    Sum(outputs, RequestedAt(address))
  }

  /** The mainchain fees that withdrawals to the address offer. */
  ghost function Offered(outputs: map<OutPoint, Output>, address: MainAddress): nat {
    Sum(outputs, OfferedAt(address))
  }

  /** Every address is paid at most once, and is paid what the spent withdrawals to it request. */
  ghost predicate PaysAsRequested(spend: map<OutPoint, Output>, payouts: seq<TxOut>) {
    && (forall i, j | 0 <= i < j < |payouts| :: payouts[i].address != payouts[j].address)
    && (forall address {:trigger PaidTo(payouts, address)} :: PaidTo(payouts, address) == Requested(spend, address))
    && (forall o | o in spend :: spend[o].content.Withdrawal? && Pays(payouts, spend[o].content.mainAddress))
  }

  lemma {:induction false} PaidToOneMore(payouts: seq<TxOut>, last: TxOut, address: MainAddress)
    ensures PaidTo(payouts + [last], address) == PaidTo(payouts, address) + if last.address == address then last.value else 0
  {
    if payouts == [] {
      assert payouts + [last] == [last] && [last][1..] == [];
    } else {
      assert (payouts + [last])[1..] == payouts[1..] + [last];
      PaidToOneMore(payouts[1..], last, address);
    }
  }

  /** Withdrawals to other addresses request nothing of this one. */
  lemma {:induction false} SumOfZeros<K, V>(m: map<K, V>, f: (K, V) -> nat)
    requires forall k | k in m :: f(k, m[k]) == 0
    ensures Sum(m, f) == 0
    decreases |m|
  {
    if m != map[] {
      var k :| k in m;
      SumTakesAny(m, f, k);
      SumOfZeros(m - {k}, f);
    }
  }

  lemma AggregateRequests(utxos: map<OutPoint, Output>, a: Aggregated, address: MainAddress)
    requires a in Aggregates(utxos)
    ensures Requested(a.spendUtxos, address) == if address == a.mainAddress then a.value else 0
    ensures Offered(a.spendUtxos, address) == if address == a.mainAddress then a.mainFee else 0
    ensures forall o | o in a.spendUtxos :: Names(a.spendUtxos[o], a.mainAddress)
  {
    var m := a.spendUtxos;
    if address == a.mainAddress {
      SumAgrees(m, RequestedAt(address), m, PayoutAt);
      SumAgrees(m, OfferedAt(address), m, FeeAt);
    } else {
      SumOfZeros(m, RequestedAt(address));
      SumOfZeros(m, OfferedAt(address));
    }
  }

  /** What holds of the selection after the first `i` aggregates, seen from the outputs. */
  ghost predicate PaysSoFar(l: seq<Aggregated>, i: nat, sel: Selection)
    requires i <= |l|
  {
    && PaysAsRequested(sel.spendUtxos, sel.payouts)
    && (forall j, k | i <= j < |l| && 0 <= k < |sel.payouts| :: l[j].mainAddress != sel.payouts[k].address)
    && (forall j | i <= j < |l| :: sel.spendUtxos.Keys !! l[j].spendUtxos.Keys)
  }

  lemma PaysOneMore(utxos: map<OutPoint, Output>, l: seq<Aggregated>, i: nat, sel: Selection, next: Selection)
    requires Listing(Aggregates(utxos), l) && i < |l| && PaysSoFar(l, i, sel)
    requires l[i].value <= MAX_AMOUNT && l[i].mainFee <= MAX_AMOUNT && Decide(l[i], sel) == Take(next)
    ensures PaysSoFar(l, i + 1, next)
  {
    hide PredictWeight, TxOutSize, CheckedAdd;
    var a := l[i];
    assert a in Aggregates(utxos);
    var payout := next.payouts[|sel.payouts|];
    forall address {:trigger PaidTo(next.payouts, address)}
      ensures PaidTo(next.payouts, address) == Requested(next.spendUtxos, address)
    {
      PaidToOneMore(sel.payouts, payout, address);
      assert PaidTo(sel.payouts, address) == Requested(sel.spendUtxos, address);
      AggregateRequests(utxos, a, address);
      SumUnion(sel.spendUtxos, a.spendUtxos, RequestedAt(address));
    }
    LaterAreOthers(utxos, l, i);
    forall o | o in next.spendUtxos
      ensures next.spendUtxos[o].content.Withdrawal? && Pays(next.payouts, next.spendUtxos[o].content.mainAddress)
    {
      AggregateRequests(utxos, a, a.mainAddress);
      if o in a.spendUtxos {
        assert next.payouts[|sel.payouts|].address == a.mainAddress;
      } else {
        var k :| 0 <= k < |sel.payouts| && sel.payouts[k].address == sel.spendUtxos[o].content.mainAddress;
        assert next.payouts[k] == sel.payouts[k];
      }
    }
  }

  /** Later aggregates are to other addresses and of other outputs. */
  lemma LaterAreOthers(utxos: map<OutPoint, Output>, l: seq<Aggregated>, i: nat)
    requires Listing(Aggregates(utxos), l) && i < |l|
    ensures forall j | i < j < |l| :: l[j].mainAddress != l[i].mainAddress && l[j].spendUtxos.Keys !! l[i].spendUtxos.Keys
  {
    forall j | i < j < |l|
      ensures l[j].mainAddress != l[i].mainAddress && l[j].spendUtxos.Keys !! l[i].spendUtxos.Keys
    {
      assert l[i] in Aggregates(utxos) && l[j] in Aggregates(utxos) && Above(l[i], l[j]);
    }
  }

  // ------------------------------------------------------------ which it leaves out

  /** An output to the address has a size that fits 32 bits. */
  predicate Usable(address: MainAddress) {
    8 + VarIntSize(address.scriptLen) + address.scriptLen < 0x1_0000_0000
  }

  /** With the 41 bytes of a treasury input, the transaction exceeds the standard weight. */
  predicate TooHeavy(payouts: seq<TxOut>) {
    BuiltWeight(payouts) + 162 > 400_000
  }

  /** One more payout, to the address, makes the transaction too heavy. */
  ghost predicate FitsNoMore(payouts: seq<TxOut>, address: MainAddress) {
    forall value: Amount :: TooHeavy(payouts + [TxOut(value, address)])
  }

  /** More mainchain fee is offered to the first, or as much and more is requested, or both tie. */
  ghost predicate Before(outputs: map<OutPoint, Output>, a: MainAddress, b: MainAddress) {
    || Offered(outputs, a) > Offered(outputs, b)
    || (Offered(outputs, a) == Offered(outputs, b) && Requested(outputs, a) > Requested(outputs, b))
    || (Offered(outputs, a) == Offered(outputs, b) && Requested(outputs, a) == Requested(outputs, b)
        && (a.id > b.id || (a.id == b.id && a.scriptLen > b.scriptLen)))
  }

  /** Some unspent withdrawal names the address. */
  ghost predicate Wanted(utxos: map<OutPoint, Output>, address: MainAddress) {
    exists o :: o in utxos && Names(utxos[o], address)
  }

  ghost predicate LeftOut(utxos: map<OutPoint, Output>, payouts: seq<TxOut>, address: MainAddress) {
    Wanted(utxos, address) && Usable(address) && !Pays(payouts, address)
  }

  /** A bundle serves addresses as a whole, best offers first, until the next one would make it too heavy. */
  ghost predicate Greedy(utxos: map<OutPoint, Output>, spend: map<OutPoint, Output>, payouts: seq<TxOut>) {
    && (forall o :: o in spend <==>
          o in utxos && utxos[o].content.Withdrawal? && Pays(payouts, utxos[o].content.mainAddress))
    && (forall address {:trigger Pays(payouts, address)} | Pays(payouts, address) :: Wanted(utxos, address) && Usable(address))
    && (forall a, b {:trigger Pays(payouts, a), LeftOut(utxos, payouts, b)} |
          Pays(payouts, a) && LeftOut(utxos, payouts, b) :: Before(utxos, a, b))
    && ((exists b :: LeftOut(utxos, payouts, b)) ==>
          exists next {:trigger LeftOut(utxos, payouts, next)} ::
            && LeftOut(utxos, payouts, next) && FitsNoMore(payouts, next)
            && forall b | LeftOut(utxos, payouts, b) && b != next :: Before(utxos, next, b))
  }

  lemma {:induction false} SizesGrow(payouts: seq<TxOut>)
    ensures SumSizes(payouts) >= 9 * |payouts|
  {
    if payouts != [] {
      SizesGrow(payouts[..|payouts| - 1]);
    }
  }

  /** The size of one more output is its own size on top, and the weight does not depend on its value. */
  lemma OneMoreSize(payouts: seq<TxOut>, value: Amount, address: MainAddress)
    ensures SumSizes(payouts + [TxOut(value, address)]) == SumSizes(payouts) + 8 + VarIntSize(address.scriptLen) + address.scriptLen
  {
    assert (payouts + [TxOut(value, address)])[..|payouts|] == payouts;
  }

  /** The predicted weight exceeds the limit exactly when the transaction is too heavy. */
  lemma PredictionIsExact(payouts: seq<TxOut>)
    ensures PredictWeight(|payouts|, SumSizes(payouts)).None? <==> TooHeavy(payouts)
  {
    SizesGrow(payouts);
  }

  /** What the selection does with an aggregate, by the weight of the transaction. */
  lemma DecideMeans(a: Aggregated, sel: Selection)
    requires a.value <= MAX_AMOUNT && a.mainFee <= MAX_AMOUNT && sel.sizes == SumSizes(sel.payouts)
    ensures var more := sel.payouts + [TxOut(a.value, a.mainAddress)];
            && (Decide(a, sel).Skip? ==> !Usable(a.mainAddress))
            && (Decide(a, sel).Stop? ==> FitsNoMore(sel.payouts, a.mainAddress))
            && (Decide(a, sel).Stop? && !TooHeavy(sel.payouts) ==> Usable(a.mainAddress))
            && (Decide(a, sel).Take? ==>
                  Usable(a.mainAddress) && !TooHeavy(more) && Decide(a, sel).sel.payouts == more
                  && Decide(a, sel).sel.sizes == SumSizes(more))
  {
    hide PredictWeight, SumSizes, BuiltWeight;
    var more := sel.payouts + [TxOut(a.value, a.mainAddress)];
    OneMoreSize(sel.payouts, a.value, a.mainAddress);
    PredictionIsExact(more);
    ManyAreTooHeavy(sel.payouts);
    forall value: Amount
      ensures Decide(a, sel).Stop? ==> TooHeavy(sel.payouts + [TxOut(value, a.mainAddress)])
    {
      OneMoreSize(sel.payouts, value, a.mainAddress);
      ManyAreTooHeavy(sel.payouts + [TxOut(value, a.mainAddress)]);
      PredictionIsExact(sel.payouts + [TxOut(value, a.mainAddress)]);
    }
  }

  lemma ManyAreTooHeavy(payouts: seq<TxOut>)
    ensures (|payouts| >= 50_000 || SumSizes(payouts) >= 200_000) ==> TooHeavy(payouts)
  {
    SizesGrow(payouts);
  }

  /** One of the first `i` aggregates is to the address. */
  ghost predicate Among(l: seq<Aggregated>, i: nat, address: MainAddress) {
    exists j :: 0 <= j < i && j < |l| && l[j].mainAddress == address
  }

  /** One of the first `i` aggregates is to a usable address and holds the output. */
  ghost predicate HeldAmong(l: seq<Aggregated>, i: nat, o: OutPoint) {
    exists j :: 0 <= j < i && j < |l| && Usable(l[j].mainAddress) && o in l[j].spendUtxos
  }

  /** Exactly the usable addresses among the first `i` aggregates are paid. */
  ghost predicate AddressesServed(l: seq<Aggregated>, i: nat, payouts: seq<TxOut>) {
    forall address {:trigger Pays(payouts, address)} :: Pays(payouts, address) <==> Usable(address) && Among(l, i, address)
  }

  ghost predicate OutputsServed(l: seq<Aggregated>, i: nat, spend: map<OutPoint, Output>) {
    forall o {:trigger o in spend} :: o in spend <==> HeldAmong(l, i, o)
  }

  /** After the first `i` aggregates exactly the usable addresses among them are paid. */
  ghost predicate ServedSoFar(l: seq<Aggregated>, i: nat, sel: Selection) {
    sel.sizes == SumSizes(sel.payouts) && AddressesServed(l, i, sel.payouts) && OutputsServed(l, i, sel.spendUtxos)
  }

  lemma AmongMore(l: seq<Aggregated>, i: nat, address: MainAddress)
    requires i < |l|
    ensures Among(l, i + 1, address) <==> Among(l, i, address) || l[i].mainAddress == address
  {
  }

  lemma HeldAmongMore(l: seq<Aggregated>, i: nat, o: OutPoint)
    requires i < |l|
    ensures HeldAmong(l, i + 1, o) <==> HeldAmong(l, i, o) || (Usable(l[i].mainAddress) && o in l[i].spendUtxos)
  {
    hide Usable;
  }

  lemma PaysMore(payouts: seq<TxOut>, last: TxOut, address: MainAddress)
    ensures Pays(payouts + [last], address) <==> Pays(payouts, address) || last.address == address
  {
    var more := payouts + [last];
    if Pays(payouts, address) {
      var i :| 0 <= i < |payouts| && payouts[i].address == address;
      assert more[i] == payouts[i];
    }
    assert more[|payouts|] == last;
  }

  lemma ServedSkip(l: seq<Aggregated>, i: nat, sel: Selection)
    requires i < |l| && PaysSoFar(l, i, sel) && ServedSoFar(l, i, sel) && !Usable(l[i].mainAddress)
    ensures PaysSoFar(l, i + 1, sel) && ServedSoFar(l, i + 1, sel)
  {
    hide Among, HeldAmong, Usable, Pays, PaysAsRequested;
    forall address {:trigger Pays(sel.payouts, address)}
      ensures Pays(sel.payouts, address) <==> Usable(address) && Among(l, i + 1, address)
    {
      AmongMore(l, i, address);
    }
    forall o {:trigger o in sel.spendUtxos}
      ensures o in sel.spendUtxos <==> HeldAmong(l, i + 1, o)
    {
      HeldAmongMore(l, i, o);
    }
  }

  lemma ServedTake(l: seq<Aggregated>, i: nat, sel: Selection, next: Selection)
    requires i < |l| && ServedSoFar(l, i, sel)
    requires l[i].value <= MAX_AMOUNT && l[i].mainFee <= MAX_AMOUNT && Decide(l[i], sel) == Take(next)
    ensures ServedSoFar(l, i + 1, next)
  {
    hide PredictWeight, TxOutSize, CheckedAdd, TooHeavy, Usable, Among, HeldAmong, Pays;
    DecideMeans(l[i], sel);
    forall address {:trigger Pays(next.payouts, address)}
      ensures Pays(next.payouts, address) <==> Usable(address) && Among(l, i + 1, address)
    {
      PaysMore(sel.payouts, TxOut(l[i].value, l[i].mainAddress), address);
      AmongMore(l, i, address);
      assert Pays(sel.payouts, address) <==> Usable(address) && Among(l, i, address);
    }
    forall o {:trigger o in next.spendUtxos}
      ensures o in next.spendUtxos <==> HeldAmong(l, i + 1, o)
    {
      HeldAmongMore(l, i, o);
      assert o in sel.spendUtxos <==> HeldAmong(l, i, o);
    }
  }

  /** Where the selection ends: all aggregates were served or were unusable, or the next one does not fit. */
  ghost predicate EndsAt(l: seq<Aggregated>, cut: nat, sel: Selection) {
    && cut <= |l| && PaysSoFar(l, cut, sel) && ServedSoFar(l, cut, sel)
    && (cut < |l| ==> Usable(l[cut].mainAddress) && FitsNoMore(sel.payouts, l[cut].mainAddress))
  }

  lemma {:induction false} SelectionEnds(utxos: map<OutPoint, Output>, l: seq<Aggregated>, i: nat, sel: Selection) returns (cut: nat)
    requires Listing(Aggregates(utxos), l) && i <= |l| && PaysSoFar(l, i, sel) && ServedSoFar(l, i, sel)
    requires forall a | a in l :: a.value <= MAX_AMOUNT && a.mainFee <= MAX_AMOUNT
    requires SelectFrom(l, i, sel).Ok? && !TooHeavy(sel.payouts)
    ensures EndsAt(l, cut, SelectFrom(l, i, sel).value)
    decreases |l| - i
  {
    hide TooHeavy, Usable, FitsNoMore, PaysSoFar, ServedSoFar, Decide;
    if i == |l| {
      cut := i;
    } else {
      ServedSizes(l, i, sel);
      DecideMeans(l[i], sel);
      match Decide(l[i], sel)
      case Stop => cut := i;
      case Skip =>
        ServedSkip(l, i, sel);
        cut := SelectionEnds(utxos, l, i + 1, sel);
      case Overflow => cut := i;
      case Take(next) =>
        PaysOneMore(utxos, l, i, sel, next);
        ServedTake(l, i, sel, next);
        cut := SelectionEnds(utxos, l, i + 1, next);
    }
  }

  lemma ServedSizes(l: seq<Aggregated>, i: nat, sel: Selection)
    requires i <= |l| && ServedSoFar(l, i, sel)
    ensures sel.sizes == SumSizes(sel.payouts)
  {
  }

  // -------------------------------------------------------------- from the outputs

  lemma RequestsOf(utxos: map<OutPoint, Output>, address: MainAddress)
    ensures Requested(utxos, address) == AggregateFor(utxos, address).value
    ensures Offered(utxos, address) == AggregateFor(utxos, address).mainFee
  {
    var part := WithdrawalsTo(utxos, address);
    SumSplit(utxos, part.Keys, RequestedAt(address));
    SumSplit(utxos, part.Keys, OfferedAt(address));
    SumOfZeros(utxos - part.Keys, RequestedAt(address));
    SumOfZeros(utxos - part.Keys, OfferedAt(address));
    assert part == map o | o in part.Keys :: utxos[o];
    SumAgrees(part, RequestedAt(address), part, PayoutAt);
    SumAgrees(part, OfferedAt(address), part, FeeAt);
  }

  /** The listing holds one aggregate for each address that is wanted. */
  lemma ListedAt(utxos: map<OutPoint, Output>, l: seq<Aggregated>, j: nat)
    requires Listing(Aggregates(utxos), l) && j < |l|
    ensures Wanted(utxos, l[j].mainAddress) && l[j] == AggregateFor(utxos, l[j].mainAddress)
    ensures l[j].value == Requested(utxos, l[j].mainAddress) && l[j].mainFee == Offered(utxos, l[j].mainAddress)
    ensures forall o :: o in l[j].spendUtxos <==> o in utxos && Names(utxos[o], l[j].mainAddress)
  {
    assert l[j] in Aggregates(utxos);
    RequestsOf(utxos, l[j].mainAddress);
    var o :| o in utxos && utxos[o].content.Withdrawal? && utxos[o].content.mainAddress == l[j].mainAddress;
    assert Names(utxos[o], l[j].mainAddress);
  }

  lemma WantedIsListed(utxos: map<OutPoint, Output>, l: seq<Aggregated>, address: MainAddress) returns (j: nat)
    requires Listing(Aggregates(utxos), l) && Wanted(utxos, address)
    ensures j < |l| && l[j].mainAddress == address
  {
    var o :| o in utxos && Names(utxos[o], address);
    assert address in Addresses(utxos) by {
      assert utxos[o].content.mainAddress == address;
    }
    assert AggregateFor(utxos, address) in Aggregates(utxos);
    assert AggregateFor(utxos, address) in l;
    j :| j < |l| && l[j] == AggregateFor(utxos, address);
  }

  lemma AboveIsBefore(utxos: map<OutPoint, Output>, l: seq<Aggregated>, i: nat, j: nat)
    requires Listing(Aggregates(utxos), l) && i < j < |l|
    ensures Before(utxos, l[i].mainAddress, l[j].mainAddress)
  {
    hide Requested, Offered;
    ListedAt(utxos, l, i);
    ListedAt(utxos, l, j);
    assert Above(l[i], l[j]);
  }

  /** Amounts overflow exactly when the payouts or the fees of the withdrawals to one address do. */
  lemma OverflowMeans(utxos: map<OutPoint, Output>)
    ensures Overflows(utxos) <==> exists address :: Wanted(utxos, address) && Excessive(utxos, address)
  {
    hide AggregateFor;
    forall address
      ensures address in Addresses(utxos) <==> Wanted(utxos, address)
      ensures Excessive(utxos, address) <==> AggregateFor(utxos, address).value > MAX_AMOUNT || AggregateFor(utxos, address).mainFee > MAX_AMOUNT
    {
      RequestsOf(utxos, address);
      if o :| o in utxos && Names(utxos[o], address) {
        assert utxos[o].content.mainAddress == address;
      }
      if o :| o in utxos && utxos[o].content.Withdrawal? && utxos[o].content.mainAddress == address {
        assert Names(utxos[o], address);
      }
    }
  }

  ghost predicate Excessive(utxos: map<OutPoint, Output>, address: MainAddress) {
    Requested(utxos, address) > 0xFFFF_FFFF_FFFF_FFFF || Offered(utxos, address) > 0xFFFF_FFFF_FFFF_FFFF
  }

  /** What the listing leaves out comes after what was served. */
  lemma LeftOutIsLater(utxos: map<OutPoint, Output>, l: seq<Aggregated>, cut: nat, sel: Selection, address: MainAddress) returns (j: nat)
    requires Listing(Aggregates(utxos), l) && EndsAt(l, cut, sel) && LeftOut(utxos, sel.payouts, address)
    ensures cut <= j < |l| && l[j].mainAddress == address
  {
    j := WantedIsListed(utxos, l, address);
  }

  lemma ServedInFull(utxos: map<OutPoint, Output>, l: seq<Aggregated>, cut: nat, sel: Selection)
    requires Listing(Aggregates(utxos), l) && EndsAt(l, cut, sel)
    ensures forall o :: o in sel.spendUtxos <==>
              o in utxos && utxos[o].content.Withdrawal? && Pays(sel.payouts, utxos[o].content.mainAddress)
    ensures forall address {:trigger Pays(sel.payouts, address)} | Pays(sel.payouts, address) ::
              Wanted(utxos, address) && Usable(address)
  {
    hide Usable, Wanted, Names, FitsNoMore, PaysAsRequested;
    forall address {:trigger Pays(sel.payouts, address)} | Pays(sel.payouts, address)
      ensures Wanted(utxos, address) && Usable(address)
    {
      var j :| 0 <= j < cut && l[j].mainAddress == address;
      ListedAt(utxos, l, j);
    }
    forall o
      ensures o in sel.spendUtxos <==>
                o in utxos && utxos[o].content.Withdrawal? && Pays(sel.payouts, utxos[o].content.mainAddress)
    {
      SpentIffServed(utxos, l, cut, sel, o);
    }
  }

  lemma SpentIffServed(utxos: map<OutPoint, Output>, l: seq<Aggregated>, cut: nat, sel: Selection, o: OutPoint)
    requires Listing(Aggregates(utxos), l) && EndsAt(l, cut, sel)
    ensures o in sel.spendUtxos <==>
              o in utxos && utxos[o].content.Withdrawal? && Pays(sel.payouts, utxos[o].content.mainAddress)
  {
    hide Usable, Wanted, FitsNoMore, PaysAsRequested, Pays;
    if o in sel.spendUtxos {
      var j :| 0 <= j < cut && Usable(l[j].mainAddress) && o in l[j].spendUtxos;
      ListedAt(utxos, l, j);
    }
    if o in utxos && utxos[o].content.Withdrawal? && Pays(sel.payouts, utxos[o].content.mainAddress) {
      var j :| 0 <= j < cut && l[j].mainAddress == utxos[o].content.mainAddress;
      ListedAt(utxos, l, j);
      assert Usable(l[j].mainAddress);
    }
  }

  lemma EndIsGreedy(utxos: map<OutPoint, Output>, l: seq<Aggregated>, cut: nat, sel: Selection)
    requires Listing(Aggregates(utxos), l) && EndsAt(l, cut, sel)
    ensures Greedy(utxos, sel.spendUtxos, sel.payouts)
  {
    hide Usable, Wanted, FitsNoMore, PaysAsRequested, Before, LeftOut, Pays;
    ServedInFull(utxos, l, cut, sel);
    forall a, b {:trigger Pays(sel.payouts, a), LeftOut(utxos, sel.payouts, b)} |
      Pays(sel.payouts, a) && LeftOut(utxos, sel.payouts, b)
      ensures Before(utxos, a, b)
    {
      var i :| 0 <= i < cut && l[i].mainAddress == a;
      var j := LeftOutIsLater(utxos, l, cut, sel, b);
      AboveIsBefore(utxos, l, i, j);
    }
    if b :| LeftOut(utxos, sel.payouts, b) {
      var _ := LeftOutIsLater(utxos, l, cut, sel, b);
      NextIsLeftOut(utxos, l, cut, sel);
      forall b | LeftOut(utxos, sel.payouts, b) && b != l[cut].mainAddress
        ensures Before(utxos, l[cut].mainAddress, b)
      {
        var j := LeftOutIsLater(utxos, l, cut, sel, b);
        AboveIsBefore(utxos, l, cut, j);
      }
    }
  }

  lemma NextIsLeftOut(utxos: map<OutPoint, Output>, l: seq<Aggregated>, cut: nat, sel: Selection)
    requires Listing(Aggregates(utxos), l) && EndsAt(l, cut, sel) && cut < |l|
    ensures LeftOut(utxos, sel.payouts, l[cut].mainAddress) && FitsNoMore(sel.payouts, l[cut].mainAddress)
  {
    hide Usable, FitsNoMore, PaysAsRequested;
    ListedAt(utxos, l, cut);
  }

  // ------------------------------------------------------------------- the bundle

  /**
   A collected bundle pays every address at most once and exactly what the spent withdrawals to it request; it
   serves the best offers first, in full, until the next one would make it too heavy. There is none exactly
   when there is no unspent withdrawal.
   */
  lemma BundlePaysAsRequested(utxos: map<OutPoint, Output>, height: nat)
    ensures Collect(utxos, height) == Ok(None) <==> forall o | o in utxos :: !utxos[o].content.Withdrawal?
    ensures Collect(utxos, height) == Err(AmountOverflow) <==> exists address :: Wanted(utxos, address) && Excessive(utxos, address)
    ensures var r := Collect(utxos, height);
            r.Ok? && r.value.Some? ==>
              var bundle := r.value.value;
              && PaysAsRequested(bundle.spendUtxos, bundle.tx.payouts)
              && Greedy(utxos, bundle.spendUtxos, bundle.tx.payouts)
  {
    hide PaysAsRequested, Greedy, EndsAt, TooHeavy, SelectFrom, Wanted, Excessive, Overflows;
    AddressesMean(utxos);
    OverflowMeans(utxos);
    if !Overflows(utxos) && Addresses(utxos) != {} {
      AggregatesFit(utxos);
      var l := Listed(utxos);
      if SelectFrom(l, 0, NO_SELECTION).Ok? {
        NothingPaid(l);
        var cut := SelectionEnds(utxos, l, 0, NO_SELECTION);
        EndIsGreedy(utxos, l, cut, SelectFrom(l, 0, NO_SELECTION).value);
        EndPays(l, cut, SelectFrom(l, 0, NO_SELECTION).value);
      }
    }
  }

  lemma AddressesMean(utxos: map<OutPoint, Output>)
    ensures Addresses(utxos) == {} <==> forall o | o in utxos :: !utxos[o].content.Withdrawal?
    ensures Addresses(utxos) == {} ==> !Overflows(utxos)
  {
    forall o | o in utxos && utxos[o].content.Withdrawal?
      ensures utxos[o].content.mainAddress in Addresses(utxos)
    {
    }
  }

  lemma NothingPaid(l: seq<Aggregated>)
    ensures PaysSoFar(l, 0, NO_SELECTION) && ServedSoFar(l, 0, NO_SELECTION) && !TooHeavy([])
  {
  }

  lemma EndPays(l: seq<Aggregated>, cut: nat, sel: Selection)
    requires EndsAt(l, cut, sel)
    ensures PaysAsRequested(sel.spendUtxos, sel.payouts)
  {
  }
}
