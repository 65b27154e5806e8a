/** What the coin tables promise in every run: any number of unlock calls, store notifications,
    adjustments and payout attempts, interleaved and crashed in any way. */
module CoinGuarantees {
  import opened Common
  import opened IdempotencyKeys
  import opened CoinLedger
  import opened CoinPricing
  import opened CoinOperations
  import opened CoinSystem

  lemma TablesAlways(es: seq<Event>)
    ensures TablesInv(Run(INIT, es))
  {
    InitTables();
    RunKeepsTables(INIT, es);
  }

  /** All coins held by wallets, plus what the platform kept, came in by purchase or adjustment and
      have not left by payout. */
  lemma CoinsAreConserved(es: seq<Event>)
    ensures var db := Run(INIT, es).db;
            SumBalances(db.wallets) + FeeTotal(db.unlocks)
            == PurchaseTotal(db.purchases) + Total(db.ledger, OfKinds({ADJUSTMENT, PAYOUT}))
  {
    TablesAlways(es);
  }

  /** Wallet balances are never negative and are the sums of their entries; each entry records the
      balance it left behind; and no key occurs twice. */
  lemma LedgerAccountsForWallets(es: seq<Event>, u: Uuid)
    ensures var db := Run(INIT, es).db;
            && 0 <= Balance(db.wallets, u) == Total(db.ledger, OfUser(u))
            && (forall i :: 0 <= i < |db.ledger| ==> BalanceAt(db.ledger, i))
            && UniqueKeys(db.ledger)
  {
    TablesAlways(es);
    BalanceIsTotal(Run(INIT, es).db, u);
  }

  /** A wallet change that committed in some run is not repeated by any later call with its key. */
  lemma CommittedOnce(es: seq<Event>, later: seq<Event>, userId: Uuid, amountMinor: int,
                      kind: TxnType, e: Entry)
    requires e in Run(INIT, es).db.ledger
    ensures var db := Run(INIT, es + later).db;
            ApplyDelta(db, userId, amountMinor, kind, e.key) == Success(Applied(db, e.balanceAfterMinor, true))
  {
    var s := Run(INIT, es);
    TablesAlways(es);
    RunGrows(s, later);
    RunConcat(INIT, es, later);
    TablesAlways(es + later);
    var i :| 0 <= i < |s.db.ledger| && s.db.ledger[i] == e;
    assert Run(s, later).db.ledger[i] == e;
    FindIsExact(Run(s, later).db.ledger, e);
  }

  // Unlocks ---------------------------------------------------------------------------------------

  /** At most one charge per viewer and post: unlock rows and charges pair off one to one, and each
      pair has exactly one creator share, the rounded-down 70%. */
  lemma OneChargePerViewerAndPost(es: seq<Event>)
    ensures var db := Run(INIT, es).db;
            && UnlockRowsUnique(db.unlocks)
            && (forall k :: 0 <= k < |db.unlocks| ==> HasOnlyCharge(db, k))
            && (forall i :: 0 <= i < |db.ledger| && db.ledger[i].key.UnlockSpend? ==>
                  exists k :: 0 <= k < |db.unlocks| && ChargeOf(db.unlocks[k], db.ledger[i]))
  {
    TablesAlways(es);
    var db := Run(INIT, es).db;
    forall k | 0 <= k < |db.unlocks| ensures HasOnlyCharge(db, k) {
      RowHasOneCharge(db, k);
    }
    forall i | 0 <= i < |db.ledger| && db.ledger[i].key.UnlockSpend?
      ensures exists k :: 0 <= k < |db.unlocks| && ChargeOf(db.unlocks[k], db.ledger[i])
    {
      assert ChargeRecorded(db.unlocks, db.ledger[i]);
      var r := FindUnlock(db.unlocks, db.ledger[i].key.viewerId, db.ledger[i].key.postId).value;
      var k :| 0 <= k < |db.unlocks| && db.unlocks[k] == r;
    }
  }

  /** An open call whose transaction the database lets through charges exactly when the viewer can
      pay and no other call unlocked the post meanwhile, although that was checked before the
      transaction; a losing call leaves no trace. */
  lemma UnlockCommitsExactlyWhen(es: seq<Event>, correlation: Uuid)
    requires var s := Run(INIT, es); correlation in s.calls && s.calls[correlation].open
    ensures var s := Run(INIT, es);
            var c := s.calls[correlation].call;
            Step(s, UnlockCommit(correlation, true)).db ==
            if Balance(s.db.wallets, c.viewerId) >= c.priceMinor && !HasUnlock(s.db.unlocks, c.viewerId, c.postId)
            then Unlocked(s.db, c) else s.db
  {
    TablesAlways(es);
    var s := Run(INIT, es);
    assert CallOk(s, correlation);
    UnlockTxOutcome(s.db, s.calls[correlation].call);
  }

  /** The platform keeps at least 30% of everything viewers paid, and less than one minor unit per
      unlock more than that. */
  lemma PlatformKeepsThirtyPercent(es: seq<Event>)
    ensures var rows := Run(INIT, es).db.unlocks;
            && 3 * PaidTotal(rows) <= 10 * FeeTotal(rows)
            && (|rows| >= 1 ==> 10 * FeeTotal(rows) < 3 * PaidTotal(rows) + 10 * |rows|)
  {
    TablesAlways(es);
    PlatformPart(Run(INIT, es).db.unlocks);
  }

  // Purchases -------------------------------------------------------------------------------------

  /** Purchase rows and purchase credits pair off one to one with equal amounts, so a store
      transaction credits one wallet once. */
  lemma OneCreditPerPurchase(es: seq<Event>)
    ensures var db := Run(INIT, es).db;
            && PurchaseRowsUnique(db.purchases)
            && (forall k :: 0 <= k < |db.purchases| ==>
                  exists i :: 0 <= i < |db.ledger| && CreditOf(db.purchases[k], db.ledger[i]))
            && (forall i :: 0 <= i < |db.ledger| && db.ledger[i].key.PurchaseCredit? ==>
                  exists k :: 0 <= k < |db.purchases| && CreditOf(db.purchases[k], db.ledger[i]))
            && (forall i, j :: 0 <= i < j < |db.ledger| && db.ledger[i].key.PurchaseCredit? ==> db.ledger[i].key != db.ledger[j].key)
  {
    TablesAlways(es);
    var db := Run(INIT, es).db;
    forall k | 0 <= k < |db.purchases| ensures exists i :: 0 <= i < |db.ledger| && CreditOf(db.purchases[k], db.ledger[i]) {
      var p := db.purchases[k];
      assert RowCredited(db.ledger, p);
      var e := FindEntry(db.ledger, PurchaseCredit(p.provider, p.reference)).value;
      var i :| 0 <= i < |db.ledger| && db.ledger[i] == e;
    }
    forall i | 0 <= i < |db.ledger| && db.ledger[i].key.PurchaseCredit?
      ensures exists k :: 0 <= k < |db.purchases| && CreditOf(db.purchases[k], db.ledger[i])
    {
      assert CreditRecorded(db.purchases, db.ledger[i]);
      var p := FindPurchase(db.purchases, db.ledger[i].key.provider, db.ledger[i].key.reference).value;
      var k :| 0 <= k < |db.purchases| && db.purchases[k] == p;
    }
  }

  /** A notification for a store transaction that has a row, whoever it names and however often it is
      delivered, changes nothing. */
  lemma RedeliveryIsNoop(es: seq<Event>, provider: Provider, reference: string, userId: Uuid,
                         coinsMinor: int, dbCommits: bool)
    requires FindPurchase(Run(INIT, es).db.purchases, provider, reference).Some?
    ensures Run(INIT, es + [Notify(provider, reference, userId, coinsMinor, dbCommits)]) == Run(INIT, es)
  {
    TablesAlways(es);
    var s := Run(INIT, es);
    var e := Notify(provider, reference, userId, coinsMinor, dbCommits);
    PurchaseTxOutcome(s.db, provider, reference, userId, coinsMinor);
    RunConcat(INIT, es, [e]);
    assert Run(s, [e]) == Step(s, e) by {
      assert [e][1..] == [];
    }
  }
}
