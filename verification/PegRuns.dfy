/**
 The peg's holdings in every run: who may take an unspent output, what bundles have paid out of the deposits,
 and that none is minted soon after a failure.
 */
module PegRuns {
  import opened Types
  import opened RollBack
  import opened Sums
  import opened Peg
  import opened PegInvariant
  import opened PegBlock
  import opened PegSafety
  import opened PegHoldings
  import opened State
  import opened Moves
  import opened Shielded
  import opened Validation
  import opened BlockSpec
  import opened BlockEffect
  import opened Spending
  import opened Wealth
  import opened Chain
  import Payouts
  import Collection

  // -------------------------------------------------------------------- one tip

  /** A block withdraws nothing and leaves the bundles alone. */
  lemma MovesKeepBooks(p: PegState, q: PegState, body: Body)
    requires PegBooks(p) && q == p.(utxos := q.utxos, stxos := q.stxos)
    requires InputsSpent(Ledger(p.utxos, p.stxos), body, Ledger(q.utxos, q.stxos))
    ensures PegBooks(q)
  {
    hide FailedAt, PaysOwn;
    forall o {:trigger q.stxos[o]} | o in q.stxos && q.stxos[o].inpoint.WithdrawalIn?
      ensures Held(q, o, q.stxos[o].inpoint.m6id)
    {
      assert o in p.stxos && q.stxos[o] == p.stxos[o];
      assert Held(p, o, p.stxos[o].inpoint.m6id);
    }
    forall m, h: nat {:trigger FailedAt(q.bundles[m], h)} | m in q.bundles && FailedAt(q.bundles[m], h)
      ensures NoLater(q, h)
    {
      assert FailedAt(p.bundles[m], h) && NoLater(p, h);
    }
  }

  /** The state between the block and its peg data. */
  lemma Between(c: Contents, hist: History, foreign: Foreign, s: TipStep)
    requires NodeInv(c, hist) && Genuine(c, s) && TipAfter(c, foreign, s).Ok?
    ensures Verdict(c, foreign, s.header, s.body).Ok? && Connected(c, s.header, s.body).Ok?
    ensures var mid := Connected(c, s.header, s.body).value;
            && Effect(c, s.header, s.body, mid) && mid.height == Some(NextHeight(c.height))
            && PegInvBelow(mid.tables.peg, NextHeight(c.height))
            && GenuineEvents(mid.tables.peg, AllEvents(s.data)) && MintsFresh(mid.tables.peg, NextHeight(c.height), s.data)
            && Connect(mid.tables, NextHeight(c.height), s.data).Ok?
            && TipAfter(c, foreign, s).value.tables == Connect(mid.tables, NextHeight(c.height), s.data).value
  {
    hide Verdict, Connected, Effect, Connect, MintsFresh, Fresh, PegInvBelow;
    BodyKeepsInv(c, hist, foreign, s);
    BlockHasEffect(c, foreign, s.header, s.body);
  }

  /** A tip connects exactly when its block is lawful, its notes are accepted and its peg data connects. */
  lemma TipAcceptedExactly(c: Contents, foreign: Foreign, s: TipStep)
    ensures TipAfter(c, foreign, s).Ok? <==>
              && Lawful(c, foreign, s.header, s.body) && Connected(c, s.header, s.body).Ok?
              && Connect(Connected(c, s.header, s.body).value.tables, if c.height.Some? then c.height.value + 1 else 0, s.data).Ok?
  {
    hide Verdict, Lawful, Connect;
    AcceptedIsLawful(c, foreign, s.header, s.body);
  }

  lemma ConnectKeepsBooks(t: PegTables, height: nat, data: PegData)
    requires PegInvBelow(t.peg, height) && GenuineEvents(t.peg, AllEvents(data)) && MintsFresh(t.peg, height, data)
    requires PegBooks(t.peg) && Connect(t, height, data).Ok?
    ensures PegBooks(Connect(t, height, data).value.peg)
  {
    hide PegBooks, PegInv, BundleToMint;
    var events := AllEvents(data);
    assert events[..|events|] == events;
    EventsKeepBooks(t.peg, height, events, |events|);
    ConnectEventsKeepInv(t.peg, height, events, |events|);
    MintKeepsBooks(ConnectEvents(t.peg, height, events).value, height);
  }

  lemma TipKeepsBooks(c: Contents, hist: History, foreign: Foreign, s: TipStep)
    requires NodeInv(c, hist) && Genuine(c, s) && PegBooks(c.tables.peg) && TipAfter(c, foreign, s).Ok?
    ensures PegBooks(TipAfter(c, foreign, s).value.tables.peg)
  {
    hide Connected, PegBooks, InputsSpent, OutputsCreated, NothingElseMoved, NotesUsed, PegInvBelow, MintsFresh, Connect, TipAfter, Genuine, NodeInv;
    Between(c, hist, foreign, s);
    var mid := Connected(c, s.header, s.body).value;
    MovesKeepBooks(c.tables.peg, mid.tables.peg, s.body);
    ConnectKeepsBooks(mid.tables, NextHeight(c.height), s.data);
  }

  // -------------------------------------------------------------------- all runs

  /**
   In the state after every run, recorded as withdrawn is exactly what settled bundles spend, every known
   bundle pays what was requested to whom requested it, and no regular failure is later than the one on record.
   */
  lemma {:induction false} EveryRunKeepsBooks(foreign: Foreign, log: Log)
    requires StateAfter(foreign, log).Ok? && GenuineLog(foreign, log)
    ensures PegBooks(StateAfter(foreign, log).value.tables.peg)
  {
    hide Genuine, NodeInv, PegBooks, TipAfter, Conserved;
    if log == [] {
      GenesisBooks();
    } else {
      var init := log[..|log| - 1];
      EveryRun(foreign, init);
      EveryRunKeepsBooks(foreign, init);
      TipKeepsBooks(StateAfter(foreign, init).value, HistoryOf(foreign, init), foreign, log[|log| - 1]);
    }
  }

  lemma GenesisBooks()
    ensures PegBooks(GENESIS.tables.peg)
  {
  }

  // ---------------------------------------------------------------- who may take

  /** An input of the body spends the output, and an authorization at its place is by its owner. */
  ghost predicate SpentByOwner(utxos: map<OutPoint, Output>, body: Body, o: OutPoint) {
    exists k: nat, i: nat {:trigger IsInput(body, k, i)} ::
      && IsInput(body, k, i) && InputOf(body, k, i).0 == o && o in utxos
      && (Position(body, k, i) < |body.authorizations| ==> body.authorizations[Position(body, k, i)].address == utxos[o].address)
  }

  lemma MintForgetsNothing(t: PegTables, height: nat, data: PegData, e: BlockEvent, o: OutPoint)
    requires Connect(t, height, data).Ok? && MintsFresh(t.peg, height, data)
    ensures ConnectEvents(t.peg, height, AllEvents(data)).Ok?
    ensures OwnedBy(ConnectEvents(t.peg, height, AllEvents(data)).value, e, o) ==> OwnedBy(Connect(t, height, data).value.peg, e, o)
  {
  }

  /**
   Above the genesis block, an unspent output leaves the table only with an input that its owner authorizes, or
   with a known bundle that an event of the block's peg data submits or confirms.
   */
  lemma NobodyElseTakes(c: Contents, hist: History, foreign: Foreign, s: TipStep, o: OutPoint)
    requires NodeInv(c, hist) && Genuine(c, s) && TipAfter(c, foreign, s).Ok? && c.height.Some?
    requires o in c.tables.peg.utxos
    ensures var d := TipAfter(c, foreign, s).value.tables.peg;
            || o in d.utxos || SpentByOwner(c.tables.peg.utxos, s.body, o) || TakenByKnown(d, AllEvents(s.data), o)
  {
    hide Connected, Verdict, InputsSpent, OutputsCreated, NotesUsed, PegInv, MintsFresh, Connect, TipAfter, Genuine, NodeInv, ConnectEvents, IsInput, Position;
    Between(c, hist, foreign, s);
    AcceptedIsLawful(c, foreign, s.header, s.body);
    var mid, height, events := Connected(c, s.header, s.body).value, NextHeight(c.height), AllEvents(s.data);
    assert events[..|events|] == events;
    MintMovesNothing(mid.tables, height, s.data);
    if o in mid.tables.peg.utxos {
      OnlyKnownBundlesTake(mid.tables.peg, height, events, |events|, o);
      var q := ConnectEvents(mid.tables.peg, height, events).value;
      if o !in q.utxos {
        var i :| 0 <= i < |events| && OwnedBy(q, events[i], o);
        MintForgetsNothing(mid.tables, height, s.data, events[i], o);
      }
    }
  }

  // ------------------------------------------------------------- what was paid out

  /** What the bundle has taken from the sidechain. */
  ghost function TakenOut(m: M6id, entry: BundleEntry): nat {
    var latest := entry.status.Latest().value;
    if latest.Submitted? || latest.Confirmed? then Circulating(SpendOf(entry.info)) else 0
  }

  /** The spent outputs that are recorded as withdrawn by one of the bundles. */
  ghost function WithdrawnFor(stxos: map<OutPoint, SpentOutput>, bundles: map<M6id, BundleEntry>): map<OutPoint, SpentOutput> {
    map o | o in stxos && stxos[o].inpoint.WithdrawalIn? && stxos[o].inpoint.m6id in bundles :: stxos[o]
  }

  /** What is withdrawn by one bundle is what its outputs are worth. */
  lemma TakenByOne(p: PegState, bound: nat, m: M6id)
    requires PegInv(p, bound) && NothingElseHeld(p) && m in p.bundles
    ensures Sum(WithdrawnFor(p.stxos, map[m := p.bundles[m]]), WithdrawnAt) == TakenOut(m, p.bundles[m])
  {
    var part, spend := WithdrawnFor(p.stxos, map[m := p.bundles[m]]), SpendOf(p.bundles[m].info);
    forall o
      ensures o in part <==> Held(p, o, m)
      ensures Held(p, o, m) ==> part[o].output == spend[o] && part[o].inpoint == WithdrawalIn(m)
    {
      HeldExactly(p, bound, m, o);
    }
    if Settled(p, m) {
      assert part.Keys == spend.Keys;
      SumAgrees(part, WithdrawnAt, spend, ValueAt);
    } else {
      assert part == map[];
    }
  }

  lemma {:induction false} TakenByAll(p: PegState, bound: nat, bundles: map<M6id, BundleEntry>)
    requires PegInv(p, bound) && NothingElseHeld(p) && forall m | m in bundles :: m in p.bundles && bundles[m] == p.bundles[m]
    ensures Sum(WithdrawnFor(p.stxos, bundles), WithdrawnAt) == Sum(bundles, TakenOut)
    decreases |bundles|
  {
    hide PegInv, NothingElseHeld, TakenOut, WithdrawnFor, WithdrawnAt;
    if bundles == map[] {
      NothingWithdrawnFor(p.stxos);
    } else {
      var m :| m in bundles;
      SumTakesAny(bundles, TakenOut, m);
      TakenByAll(p, bound, bundles - {m});
      TakenByOne(p, bound, m);
      var one, rest := WithdrawnFor(p.stxos, map[m := p.bundles[m]]), WithdrawnFor(p.stxos, bundles - {m});
      WithdrawnSplits(p.stxos, bundles, m);
      SumUnion(one, rest, WithdrawnAt);
    }
  }

  lemma NothingWithdrawnFor(stxos: map<OutPoint, SpentOutput>)
    ensures WithdrawnFor(stxos, map[]) == map[]
  {
  }

  lemma WithdrawnSplits(stxos: map<OutPoint, SpentOutput>, bundles: map<M6id, BundleEntry>, m: M6id)
    requires m in bundles
    ensures var one, rest := WithdrawnFor(stxos, map[m := bundles[m]]), WithdrawnFor(stxos, bundles - {m});
            one.Keys !! rest.Keys && one + rest == WithdrawnFor(stxos, bundles)
  {
  }

  /** The wealth is all deposits, spent or not, less what the settled bundles have taken out. */
  lemma WealthIsDepositsLessBundles(p: PegState, bound: nat)
    requires PegInv(p, bound) && NothingElseHeld(p)
    ensures WealthOf(p.utxos, p.stxos) == Sum(p.utxos, DepositAt) + Sum(p.stxos, SpentDepositAt) - Sum(p.bundles, TakenOut)
  {
    hide PegInv, SpentDepositAt, DepositAt;
    TakenByAll(p, bound, p.bundles);
    var part := WithdrawnFor(p.stxos, p.bundles);
    forall o | o in p.stxos && o !in part
      ensures WithdrawnAt(o, p.stxos[o]) == 0
    {
      assert p.stxos[o].inpoint.WithdrawalIn? ==> Held(p, o, p.stxos[o].inpoint.m6id);
    }
    SumSplit(p.stxos, part.Keys, WithdrawnAt);
    Payouts.SumOfZeros(p.stxos - part.Keys, WithdrawnAt);
    assert part == map o | o in part.Keys :: p.stxos[o];
  }

  /**
   In every run the value that is left, circulating, shielded or unclaimed, is all deposits less what the
   settled bundles have taken; a known bundle has taken its payouts and its fee, unless an amount was capped.
   */
  lemma EveryRunPaysOut(foreign: Foreign, log: Log, m: M6id)
    requires StateAfter(foreign, log).Ok? && GenuineLog(foreign, log)
    ensures var p, books := StateAfter(foreign, log).value.tables.peg, BooksAfter(foreign, log);
            Circulating(p.utxos) + books.pool + books.unclaimed ==
            Sum(p.utxos, DepositAt) + Sum(p.stxos, SpentDepositAt) - Sum(p.bundles, TakenOut)
    ensures var p := StateAfter(foreign, log).value.tables.peg;
            m in p.bundles && p.bundles[m].info.Known? && Settled(p, m) ==>
              var bundle := p.bundles[m].info.bundle;
              && TakenOut(m, p.bundles[m]) <= Collection.SumValues(bundle.tx.payouts) + bundle.tx.fee
              && (TakenOut(m, p.bundles[m]) == Collection.SumValues(bundle.tx.payouts) + bundle.tx.fee <==>
                    forall o | o in bundle.spendUtxos :: CostOf(bundle.spendUtxos[o]) <= MAX)
  {
    hide StateAfter, GenuineLog, BooksAfter, HistoryOf, PegInv, ChainInv, WealthOf, Circulating, NothingElseHeld, FailuresRecorded;
    var p := StateAfter(foreign, log).value.tables.peg;
    EveryRun(foreign, log);
    EveryRunKeepsBooks(foreign, log);
    WealthIsDepositsLessBundles(p, NextHeight(StateAfter(foreign, log).value.height));
    if m in p.bundles && p.bundles[m].info.Known? {
      assert PaysOwn(m, p.bundles[m].info.bundle);
      BundleIsWorth(m, p.bundles[m].info.bundle);
    }
  }
}
