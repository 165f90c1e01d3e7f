/** Which mainchain blocks of a batch are recorded: those with the last and with the first event of a kind. */
module EventBlocks {
  import opened Types
  import opened PegBlock

  /** Some event of the block is a deposit, or some event is a bundle event. */
  ghost predicate Carries(block: (MainHash, BlockInfo), deposits: bool) {
    exists j :: 0 <= j < |block.1.events| && block.1.events[j].DepositEvent? == deposits
  }

  lemma {:induction false} KindMeans(events: seq<BlockEvent>, deposits: bool)
    ensures HasKind(events, deposits) <==> exists j :: 0 <= j < |events| && events[j].DepositEvent? == deposits
  {
    if events != [] {
      var init := events[..|events| - 1];
      KindMeans(init, deposits);
      if j :| 0 <= j < |init| && init[j].DepositEvent? == deposits {
        assert events[j] == init[j];
      }
      if j :| 0 <= j < |events| && events[j].DepositEvent? == deposits {
        assert j < |init| ==> init[j] == events[j];
      }
    }
  }

  /** The latest block is one that carries such an event and after which none does. */
  lemma {:induction false} LatestMeans(data: PegData, deposits: bool)
    ensures match LatestBlock(data, deposits)
            case None => forall i | 0 <= i < |data| :: !Carries(data[i], deposits)
            case Some(hash) =>
              exists i :: && 0 <= i < |data| && data[i].0 == hash && Carries(data[i], deposits)
                          && forall k | i < k < |data| :: !Carries(data[k], deposits)
  {
    hide Carries, HasKind;
    if data != [] {
      var n := |data| - 1;
      CarriesMeans(data[n], deposits);
      LatestMeans(data[..n], deposits);
      if !Carries(data[n], deposits) && LatestBlock(data[..n], deposits).Some? {
        var i :| && 0 <= i < n && data[..n][i].0 == LatestBlock(data[..n], deposits).value && Carries(data[..n][i], deposits)
                 && forall k | i < k < n :: !Carries(data[..n][k], deposits);
        forall k | i < k < |data|
          ensures !Carries(data[k], deposits)
        {
          assert k < n ==> data[..n][k] == data[k];
        }
        assert data[i] == data[..n][i];
      }
    }
  }

  lemma CarriesMeans(block: (MainHash, BlockInfo), deposits: bool)
    ensures HasEvent(block.1, deposits) <==> Carries(block, deposits)
  {
    KindMeans(block.1.events, deposits);
  }

  /** The earliest block is one that carries such an event and before which none does. */
  lemma {:induction false} EarliestMeans(data: PegData, deposits: bool)
    ensures match EarliestBlock(data, deposits)
            case None => forall i | 0 <= i < |data| :: !Carries(data[i], deposits)
            case Some(hash) =>
              exists i :: && 0 <= i < |data| && data[i].0 == hash && Carries(data[i], deposits)
                          && forall k | 0 <= k < i :: !Carries(data[k], deposits)
    decreases |data|
  {
    hide Carries, HasKind;
    if data != [] {
      CarriesMeans(data[0], deposits);
      EarliestMeans(data[1..], deposits);
      if !Carries(data[0], deposits) {
        assert forall k | 0 < k < |data| :: data[1..][k - 1] == data[k];
        if EarliestBlock(data[1..], deposits).Some? {
          var i :| && 0 <= i < |data[1..]| && data[1..][i].0 == EarliestBlock(data[1..], deposits).value
                   && Carries(data[1..][i], deposits) && forall k | 0 <= k < i :: !Carries(data[1..][k], deposits);
          forall k | 0 <= k < i + 1
            ensures !Carries(data[k], deposits)
          {
            assert k > 0 ==> data[1..][k - 1] == data[k];
          }
          assert data[i + 1] == data[1..][i];
        }
      }
    }
  }

  /** Connecting a batch records its latest block of each kind, if there is one, at the height of the sidechain block. */
  lemma ConnectRecords(t: PegTables, height: nat, data: PegData)
    requires Connect(t, height, data).Ok?
    ensures var d := Connect(t, height, data).value;
            && t.depositBlocks <= d.depositBlocks && |d.depositBlocks| <= |t.depositBlocks| + 1
            && t.eventBlocks <= d.eventBlocks && |d.eventBlocks| <= |t.eventBlocks| + 1
            && (d.depositBlocks != t.depositBlocks <==> exists i :: 0 <= i < |data| && Carries(data[i], true))
            && (d.eventBlocks != t.eventBlocks <==> exists i :: 0 <= i < |data| && Carries(data[i], false))
            && (d.depositBlocks != t.depositBlocks ==> d.depositBlocks[|t.depositBlocks|].1 == height)
            && (d.eventBlocks != t.eventBlocks ==> d.eventBlocks[|t.eventBlocks|].1 == height)
  {
    hide Carries;
    LatestMeans(data, true);
    LatestMeans(data, false);
  }
}
