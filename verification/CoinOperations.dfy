/** The operations built on the ledger primitive, each one serializable transaction: it commits as a
    whole or leaves the tables as they were. */
module CoinOperations {
  import opened Common
  import opened IdempotencyKeys
  import opened CoinLedger
  import opened CoinPricing

  // Transactions ----------------------------------------------------------------------------------

  /** What an `unlockPost` call carries from its reads into its transaction. */
  datatype UnlockCall = UnlockCall(viewerId: Uuid, postId: Uuid, authorId: Uuid, priceMinor: int, correlation: Uuid)

  /** The row under the unique index (user, post). */
  function FindUnlock(unlocks: seq<Unlock>, viewerId: Uuid, postId: Uuid): (r: Option<Unlock>)
    ensures r.Some? ==> r.value in unlocks && r.value.userId == viewerId && r.value.postId == postId
    ensures r.None? ==> forall u :: u in unlocks ==> !(u.userId == viewerId && u.postId == postId)
  {
    if unlocks == [] then None
    else
      var last := unlocks[|unlocks| - 1];
      if last.userId == viewerId && last.postId == postId then Some(last)
      else FindUnlock(unlocks[..|unlocks| - 1], viewerId, postId)
  }

  predicate HasUnlock(unlocks: seq<Unlock>, viewerId: Uuid, postId: Uuid) {
    FindUnlock(unlocks, viewerId, postId).Some?
  }

  function SpendKey(c: UnlockCall): OpKey {
    UnlockSpend(c.postId, c.viewerId, c.correlation)
  }

  function EarnKey(c: UnlockCall): OpKey {
    UnlockEarn(c.postId, c.authorId, c.correlation)
  }

  /** Debit the viewer, then credit the creator. */
  function MoveCoins(db: Db, c: UnlockCall): Result<Db, CoinError> {
    var spent :- ApplyDelta(db, c.viewerId, -c.priceMinor, SPEND_UNLOCK, SpendKey(c));
    var earned :- ApplyDelta(spent.db, c.authorId, CreatorShare(c.priceMinor), CREATOR_EARN, EarnKey(c));
    Success(earned.db)
  }

  /** Move the coins and insert the unlock row; the row's unique index on (user, post) is what stops
      a second charge. */
  function UnlockTx(db: Db, c: UnlockCall): Result<Db, CoinError> {
    var paid :- MoveCoins(db, c);
    if HasUnlock(paid.unlocks, c.viewerId, c.postId) then Failure(UniqueViolation)
    else
      var row := Unlock(c.viewerId, c.postId, c.priceMinor, PlatformShare(c.priceMinor));
      Success(paid.(unlocks := paid.unlocks + [row]))
  }

  /** The row under the unique index (provider, externalId). */
  function FindPurchase(purchases: seq<Purchase>, provider: Provider, reference: string): (r: Option<Purchase>)
    ensures r.Some? ==> r.value in purchases && r.value.provider == provider && r.value.reference == reference
    ensures r.None? ==> forall p :: p in purchases ==> !(p.provider == provider && p.reference == reference)
  {
    if purchases == [] then None
    else
      var last := purchases[|purchases| - 1];
      if last.provider == provider && last.reference == reference then Some(last)
      else FindPurchase(purchases[..|purchases| - 1], provider, reference)
  }

  function PurchaseKind(provider: Provider): TxnType {
    match provider
    case STRIPE => PURCHASE_STRIPE
    case APPLE => PURCHASE_APPLE
    case GOOGLE => PURCHASE_GOOGLE
  }

  /** A verified store notification: a completed row means it was handled before. */
  function PurchaseTx(db: Db, provider: Provider, reference: string, userId: Uuid, coinsMinor: int): Result<Db, CoinError> {
    match FindPurchase(db.purchases, provider, reference)
    case Some(p) => if p.status == COMPLETED then Success(db) else Failure(UniqueViolation)
    case None =>
      var row := Purchase(userId, provider, reference, COMPLETED, coinsMinor);
      var a :- ApplyDelta(db.(purchases := db.purchases + [row]), userId, coinsMinor, PurchaseKind(provider),
                          PurchaseCredit(provider, reference));
      Success(a.db)
  }

  function AdjustTx(db: Db, userId: Uuid, amountMinor: int, client: string): Result<Db, CoinError> {
    var a :- ApplyDelta(db, userId, amountMinor, ADJUSTMENT, AdminAdjust(userId, client));
    Success(a.db)
  }

  function PayoutDebitTx(db: Db, userId: Uuid, coinsMinor: int, client: string): Result<Db, CoinError> {
    var a :- ApplyDelta(db, userId, -coinsMinor, PAYOUT, PayoutDebit(userId, client));
    Success(a.db)
  }

  function PayoutRollbackTx(db: Db, userId: Uuid, coinsMinor: int, client: string): Result<Db, CoinError> {
    var a :- ApplyDelta(db, userId, coinsMinor, ADJUSTMENT, PayoutRollback(userId, client));
    Success(a.db)
  }

  /** The debit row of the pair names a transfer. */
  predicate IsMarked(db: Db, userId: Uuid, client: string) {
    var key := PayoutDebit(userId, client);
    key in db.marks && |db.marks[key].transferId| > 0
  }

  /** `updateMany` on the debit row: does nothing when there is no such row. */
  function MarkTransferred(db: Db, userId: Uuid, client: string, mark: Marking): Db {
    var key := PayoutDebit(userId, client);
    if HasKey(db.ledger, key) then db.(marks := db.marks[key := mark]) else db
  }

  // Invariants ------------------------------------------------------------------------------------

  function FeeTotal(unlocks: seq<Unlock>): int {
    if unlocks == [] then 0 else FeeTotal(unlocks[..|unlocks| - 1]) + unlocks[|unlocks| - 1].platformFeeMinor
  }

  function PaidTotal(unlocks: seq<Unlock>): int {
    if unlocks == [] then 0 else PaidTotal(unlocks[..|unlocks| - 1]) + unlocks[|unlocks| - 1].totalPaidMinor
  }

  function PurchaseTotal(purchases: seq<Purchase>): int {
    if purchases == [] then 0
    else
      var last := purchases[|purchases| - 1];
      PurchaseTotal(purchases[..|purchases| - 1]) + if last.status == COMPLETED then last.coinsMinor else 0
  }

  const OUTSIDE := OfKinds({ADJUSTMENT, PAYOUT})

  /** Coins enter by purchase and adjustment, leave by payout, and are otherwise only moved. */
  ghost predicate Conserved(db: Db) {
    SumBalances(db.wallets) + FeeTotal(db.unlocks) == PurchaseTotal(db.purchases) + Total(db.ledger, OUTSIDE)
  }

  /** The last charge of this viewer for this post, if there is one. */
  function FindCharge(ledger: seq<Entry>, viewerId: Uuid, postId: Uuid): (r: Option<Entry>)
    ensures r.Some? ==> r.value in ledger && IsCharge(r.value, viewerId, postId)
    ensures r.None? ==> forall e :: e in ledger ==> !IsCharge(e, viewerId, postId)
  {
    if ledger == [] then None
    else
      var last := ledger[|ledger| - 1];
      if IsCharge(last, viewerId, postId) then Some(last) else FindCharge(ledger[..|ledger| - 1], viewerId, postId)
  }

  predicate IsCharge(e: Entry, viewerId: Uuid, postId: Uuid) {
    e.key.UnlockSpend? && e.key.viewerId == viewerId && e.key.postId == postId
  }

  /** Entry `e` is the charge of unlock row `r`. */
  predicate ChargeOf(r: Unlock, e: Entry) {
    && IsCharge(e, r.userId, r.postId)
    && e.userId == r.userId && e.amountMinor == -r.totalPaidMinor
    && e.kind == SPEND_UNLOCK
  }

  /** Entry `f` is the creator's share of the charge `e`; nobody is charged for their own post. */
  predicate ShareOf(e: Entry, f: Entry) {
    && e.key.UnlockSpend? && f.key.UnlockEarn?
    && f.key.postId == e.key.postId && f.key.correlation == e.key.correlation
    && f.userId == f.key.authorId && f.amountMinor == CreatorShare(-e.amountMinor)
    && f.kind == CREATOR_EARN && f.userId != e.userId
  }

  predicate RowCharged(ledger: seq<Entry>, r: Unlock) {
    var e := FindCharge(ledger, r.userId, r.postId);
    e.Some? && ChargeOf(r, e.value)
  }

  predicate ChargeRecorded(unlocks: seq<Unlock>, e: Entry) {
    e.key.UnlockSpend? ==>
      var r := FindUnlock(unlocks, e.key.viewerId, e.key.postId);
      r.Some? && ChargeOf(r.value, e)
  }

  /** The creator's share stands right behind its charge. */
  predicate SharedAt(ledger: seq<Entry>, i: nat)
    requires i < |ledger|
  {
    ledger[i].key.UnlockSpend? ==> i + 1 < |ledger| && ShareOf(ledger[i], ledger[i + 1])
  }

  /** A share is never without the charge before it. */
  predicate ChargedAt(ledger: seq<Entry>, j: nat)
    requires j < |ledger|
  {
    ledger[j].key.UnlockEarn? ==> 0 < j && ledger[j - 1].key.UnlockSpend?
  }

  ghost predicate UnlockRowsUnique(unlocks: seq<Unlock>) {
    forall k, m :: 0 <= k < m < |unlocks| ==>
      !(unlocks[k].userId == unlocks[m].userId && unlocks[k].postId == unlocks[m].postId)
  }

  predicate RowSplit(r: Unlock) {
    r.totalPaidMinor > 0 && r.platformFeeMinor == PlatformShare(r.totalPaidMinor)
  }

  ghost predicate UnlockRowsSplit(unlocks: seq<Unlock>) {
    forall k :: 0 <= k < |unlocks| ==> RowSplit(unlocks[k])
  }

  ghost predicate RowsCharged(db: Db) {
    forall k {:trigger RowCharged(db.ledger, db.unlocks[k])} :: 0 <= k < |db.unlocks| ==> RowCharged(db.ledger, db.unlocks[k])
  }

  ghost predicate ChargesRecorded(db: Db) {
    forall i {:trigger ChargeRecorded(db.unlocks, db.ledger[i])} :: 0 <= i < |db.ledger| ==>
      ChargeRecorded(db.unlocks, db.ledger[i])
  }

  ghost predicate ChargesShared(ledger: seq<Entry>) {
    && (forall i :: 0 <= i < |ledger| ==> SharedAt(ledger, i))
    && (forall j :: 0 <= j < |ledger| ==> ChargedAt(ledger, j))
  }

  /** Two charges differ in viewer or post, and in the correlation id of their call. */
  predicate ChargesDiffer(e: Entry, f: Entry) {
    e.key.UnlockSpend? && f.key.UnlockSpend? ==>
      && !(e.key.viewerId == f.key.viewerId && e.key.postId == f.key.postId)
      && e.key.correlation != f.key.correlation
  }

  ghost predicate ChargedOnce(ledger: seq<Entry>) {
    forall i, j {:trigger ChargesDiffer(ledger[i], ledger[j])} :: 0 <= i < j < |ledger| ==>
      ChargesDiffer(ledger[i], ledger[j])
  }

  ghost predicate UnlocksInv(db: Db) {
    && UnlockRowsUnique(db.unlocks)
    && UnlockRowsSplit(db.unlocks)
    && RowsCharged(db)
    && ChargesRecorded(db)
    && ChargesShared(db.ledger)
    && ChargedOnce(db.ledger)
  }

  /** Entry `e` is the credit of purchase row `p`. */
  predicate CreditOf(p: Purchase, e: Entry) {
    && e.key == PurchaseCredit(p.provider, p.reference)
    && e.userId == p.userId && e.amountMinor == p.coinsMinor
    && e.kind == PurchaseKind(p.provider)
  }

  predicate RowCredited(ledger: seq<Entry>, p: Purchase) {
    var e := FindEntry(ledger, PurchaseCredit(p.provider, p.reference));
    p.status == COMPLETED && e.Some? && CreditOf(p, e.value)
  }

  predicate CreditRecorded(purchases: seq<Purchase>, e: Entry) {
    e.key.PurchaseCredit? ==>
      var p := FindPurchase(purchases, e.key.provider, e.key.reference);
      p.Some? && CreditOf(p.value, e)
  }

  ghost predicate PurchaseRowsUnique(purchases: seq<Purchase>) {
    forall k, m :: 0 <= k < m < |purchases| ==>
      !(purchases[k].provider == purchases[m].provider && purchases[k].reference == purchases[m].reference)
  }

  ghost predicate PurchasesInv(db: Db) {
    && PurchaseRowsUnique(db.purchases)
    && (forall k {:trigger RowCredited(db.ledger, db.purchases[k])} :: 0 <= k < |db.purchases| ==>
          RowCredited(db.ledger, db.purchases[k]))
    && (forall i {:trigger CreditRecorded(db.purchases, db.ledger[i])} :: 0 <= i < |db.ledger| ==>
          CreditRecorded(db.purchases, db.ledger[i]))
  }

  ghost predicate CoinsInv(db: Db) {
    LedgerInv(db) && Conserved(db) && UnlocksInv(db) && PurchasesInv(db)
  }

  // Preservation ----------------------------------------------------------------------------------

  lemma {:induction false} FindChargeAppend(ledger: seq<Entry>, e: Entry, viewerId: Uuid, postId: Uuid)
    ensures FindCharge(ledger + [e], viewerId, postId)
            == if IsCharge(e, viewerId, postId) then Some(e) else FindCharge(ledger, viewerId, postId)
  {
    assert (ledger + [e])[..|ledger|] == ledger;
  }

  lemma {:induction false} FindUnlockAppend(unlocks: seq<Unlock>, r: Unlock, viewerId: Uuid, postId: Uuid)
    ensures FindUnlock(unlocks + [r], viewerId, postId)
            == if r.userId == viewerId && r.postId == postId then Some(r) else FindUnlock(unlocks, viewerId, postId)
  {
    assert (unlocks + [r])[..|unlocks|] == unlocks;
  }

  lemma {:induction false} FindPurchaseAppend(purchases: seq<Purchase>, p: Purchase, provider: Provider, reference: string)
    ensures FindPurchase(purchases + [p], provider, reference)
            == if p.provider == provider && p.reference == reference then Some(p)
               else FindPurchase(purchases, provider, reference)
  {
    assert (purchases + [p])[..|purchases|] == purchases;
  }

  /** An entry that is neither charge nor share does not touch the pairing of unlocks. */
  lemma AppendKeepsUnlocks(db: Db, db': Db, e: Entry)
    requires UnlocksInv(db) && !e.key.UnlockSpend? && !e.key.UnlockEarn?
    requires db'.ledger == db.ledger + [e] && db'.unlocks == db.unlocks
    ensures UnlocksInv(db')
  {
    var l, l' := db.ledger, db'.ledger;
    forall k | 0 <= k < |db'.unlocks| ensures RowCharged(l', db'.unlocks[k]) {
      FindChargeAppend(l, e, db.unlocks[k].userId, db.unlocks[k].postId);
      assert RowCharged(l, db.unlocks[k]);
    }
    forall i | 0 <= i < |l'| ensures ChargeRecorded(db'.unlocks, l'[i]) && SharedAt(l', i) && ChargedAt(l', i) {
      if i < |l| {
        assert ChargeRecorded(db.unlocks, l[i]) && SharedAt(l, i) && ChargedAt(l, i);
      }
    }
    forall i, j | 0 <= i < j < |l'| ensures ChargesDiffer(l'[i], l'[j]) {
      if j < |l| {
        assert ChargesDiffer(l[i], l[j]);
      }
    }
  }

  /** An entry that is no purchase credit does not touch the pairing of purchases. */
  lemma AppendKeepsPurchases(db: Db, db': Db, e: Entry)
    requires PurchasesInv(db) && !e.key.PurchaseCredit?
    requires db'.ledger == db.ledger + [e] && db'.purchases == db.purchases
    ensures PurchasesInv(db')
  {
    forall k | 0 <= k < |db'.purchases| ensures RowCredited(db'.ledger, db'.purchases[k]) {
      FindAppend(db.ledger, e, PurchaseCredit(db.purchases[k].provider, db.purchases[k].reference));
      assert RowCredited(db.ledger, db.purchases[k]);
    }
    forall i | 0 <= i < |db'.ledger| ensures CreditRecorded(db'.purchases, db'.ledger[i]) {
      assert i < |db.ledger| ==> CreditRecorded(db.purchases, db.ledger[i]);
    }
  }

  /** An adjustment, a payout debit or a payout rollback keeps everything. */
  lemma OutsideKeepsInv(db: Db, userId: Uuid, amountMinor: int, kind: TxnType, key: OpKey)
    requires CoinsInv(db)
    requires kind == ADJUSTMENT || kind == PAYOUT
    requires !key.UnlockSpend? && !key.UnlockEarn? && !key.PurchaseCredit?
    requires ApplyDelta(db, userId, amountMinor, kind, key).Success?
    ensures CoinsInv(ApplyDelta(db, userId, amountMinor, kind, key).value.db)
  {
    var a := ApplyDelta(db, userId, amountMinor, kind, key).value;
    ApplyDeltaKeepsLedger(db, userId, amountMinor, kind, key);
    if !a.duplicate {
      var e := Entry(userId, kind, amountMinor, a.balanceAfterMinor, key);
      TotalAppend(db.ledger, e, OUTSIDE);
      AppendKeepsUnlocks(db, a.db, e);
      AppendKeepsPurchases(db, a.db, e);
    }
  }

  lemma PurchaseTotalAppend(purchases: seq<Purchase>, p: Purchase)
    ensures PurchaseTotal(purchases + [p])
            == PurchaseTotal(purchases) + if p.status == COMPLETED then p.coinsMinor else 0
  {
    assert (purchases + [p])[..|purchases|] == purchases;
  }

  /** Without a purchase row there is no credit entry either. */
  lemma NoRowNoCredit(db: Db, provider: Provider, reference: string)
    requires PurchasesInv(db) && FindPurchase(db.purchases, provider, reference).None?
    ensures !HasKey(db.ledger, PurchaseCredit(provider, reference))
  {
    var f := FindEntry(db.ledger, PurchaseCredit(provider, reference));
    assert forall i :: 0 <= i < |db.ledger| && db.ledger[i].key.PurchaseCredit? ==>
      CreditRecorded(db.purchases, db.ledger[i]);
  }

  function PurchaseRow(provider: Provider, reference: string, userId: Uuid, coinsMinor: int): Purchase {
    Purchase(userId, provider, reference, COMPLETED, coinsMinor)
  }

  function Credit(db: Db, provider: Provider, reference: string, userId: Uuid, coinsMinor: int): Entry {
    NewEntry(db, userId, coinsMinor, PurchaseKind(provider), PurchaseCredit(provider, reference))
  }

  /** The tables after a credited purchase: one row and one entry. */
  function Purchased(db: Db, provider: Provider, reference: string, userId: Uuid, coinsMinor: int): Db {
    var db1 := db.(purchases := db.purchases + [PurchaseRow(provider, reference, userId, coinsMinor)]);
    Posted(db1, Credit(db, provider, reference, userId, coinsMinor))
  }

  /** A notification already handled changes nothing; a new one adds its row and its entry together,
      or (for a negative package on a poor wallet) neither. */
  lemma PurchaseTxOutcome(db: Db, provider: Provider, reference: string, userId: Uuid, coinsMinor: int)
    requires PurchasesInv(db)
    ensures PurchaseTx(db, provider, reference, userId, coinsMinor) ==
            if FindPurchase(db.purchases, provider, reference).Some? then Success(db)
            else if Balance(db.wallets, userId) + coinsMinor < 0 then Failure(InsufficientBalance)
            else Success(Purchased(db, provider, reference, userId, coinsMinor))
  {
    var p := FindPurchase(db.purchases, provider, reference);
    if p.None? {
      NoRowNoCredit(db, provider, reference);
    } else {
      var k :| 0 <= k < |db.purchases| && db.purchases[k] == p.value;
      assert RowCredited(db.ledger, db.purchases[k]);
    }
  }

  /** In full: what a new notification writes. */
  lemma PurchasedIs(db: Db, provider: Provider, reference: string, userId: Uuid, coinsMinor: int)
    ensures var balance := Balance(db.wallets, userId) + coinsMinor;
            var kind := match provider case STRIPE => PURCHASE_STRIPE case APPLE => PURCHASE_APPLE case GOOGLE => PURCHASE_GOOGLE;
            Purchased(db, provider, reference, userId, coinsMinor)
            == Db(db.wallets[userId := balance],
                  db.ledger + [Entry(userId, kind, coinsMinor, balance, PurchaseCredit(provider, reference))],
                  db.marks,
                  db.purchases + [Purchase(userId, provider, reference, COMPLETED, coinsMinor)],
                  db.unlocks)
  {
  }

  /** An adjustment with a known key changes nothing; a new one fails exactly when it would overdraw the
      wallet, and otherwise books its signed amount on this wallet and does nothing else. */
  lemma AdjustTxOutcome(db: Db, userId: Uuid, amountMinor: int, client: string)
    ensures var balance := Balance(db.wallets, userId) + amountMinor;
            AdjustTx(db, userId, amountMinor, client) ==
            if HasKey(db.ledger, AdminAdjust(userId, client)) then Success(db)
            else if balance < 0 then Failure(InsufficientBalance)
            else Success(db.(wallets := db.wallets[userId := balance],
                             ledger := db.ledger + [Entry(userId, ADJUSTMENT, amountMinor, balance, AdminAdjust(userId, client))]))
  {
  }

  /** The debit of a payout takes the coins once, if the wallet has them. */
  lemma PayoutDebitTxOutcome(db: Db, userId: Uuid, coinsMinor: int, client: string)
    ensures var balance := Balance(db.wallets, userId) - coinsMinor;
            PayoutDebitTx(db, userId, coinsMinor, client) ==
            if HasKey(db.ledger, PayoutDebit(userId, client)) then Success(db)
            else if balance < 0 then Failure(InsufficientBalance)
            else Success(db.(wallets := db.wallets[userId := balance],
                             ledger := db.ledger + [Entry(userId, PAYOUT, -coinsMinor, balance, PayoutDebit(userId, client))]))
  {
  }

  /** Its compensation gives them back once. */
  lemma PayoutRollbackTxOutcome(db: Db, userId: Uuid, coinsMinor: nat, client: string)
    requires LedgerInv(db)
    ensures var balance := Balance(db.wallets, userId) + coinsMinor;
            PayoutRollbackTx(db, userId, coinsMinor, client) ==
            if HasKey(db.ledger, PayoutRollback(userId, client)) then Success(db)
            else Success(db.(wallets := db.wallets[userId := balance],
                             ledger := db.ledger + [Entry(userId, ADJUSTMENT, coinsMinor, balance, PayoutRollback(userId, client))]))
  {
    BalanceIsTotal(db, userId);
  }

  lemma PurchaseKeepsPurchases(db: Db, db': Db, row: Purchase, e: Entry)
    requires PurchasesInv(db)
    requires FindPurchase(db.purchases, row.provider, row.reference).None?
    requires CreditOf(row, e) && row.status == COMPLETED
    requires db'.ledger == db.ledger + [e] && db'.purchases == db.purchases + [row]
    ensures PurchasesInv(db')
  {
    var l, l' := db.ledger, db'.ledger;
    var n := |db.purchases|;
    forall k | 0 <= k < n
      ensures !(db.purchases[k].provider == row.provider && db.purchases[k].reference == row.reference)
    {
      assert db.purchases[k] in db.purchases;
    }
    forall k | 0 <= k < |db'.purchases| ensures RowCredited(l', db'.purchases[k]) {
      FindAppend(l, e, PurchaseCredit(db'.purchases[k].provider, db'.purchases[k].reference));
      assert k < n ==> RowCredited(l, db.purchases[k]);
    }
    forall i | 0 <= i < |l'| ensures CreditRecorded(db'.purchases, l'[i]) {
      if l'[i].key.PurchaseCredit? {
        FindPurchaseAppend(db.purchases, row, l'[i].key.provider, l'[i].key.reference);
        assert i < |l| ==> CreditRecorded(db.purchases, l[i]);
      }
    }
  }

  lemma PurchaseKeepsInv(db: Db, provider: Provider, reference: string, userId: Uuid, coinsMinor: int)
    requires CoinsInv(db) && FindPurchase(db.purchases, provider, reference).None?
    requires Balance(db.wallets, userId) + coinsMinor >= 0
    ensures CoinsInv(Purchased(db, provider, reference, userId, coinsMinor))
  {
    var db' := Purchased(db, provider, reference, userId, coinsMinor);
    var row := PurchaseRow(provider, reference, userId, coinsMinor);
    var e := Credit(db, provider, reference, userId, coinsMinor);
    NoRowNoCredit(db, provider, reference);
    PostedKeepsLedger(db, e);
    PurchaseTotalAppend(db.purchases, row);
    TotalAppend(db.ledger, e, OUTSIDE);
    PurchaseKeepsPurchases(db, db', row, e);
    AppendKeepsUnlocks(db, db', e);
  }

  /** No entry of the ledger carries this correlation id yet. */
  ghost predicate FreshCorrelation(ledger: seq<Entry>, correlation: Uuid) {
    forall e :: e in ledger ==>
      && (e.key.UnlockSpend? ==> e.key.correlation != correlation)
      && (e.key.UnlockEarn? ==> e.key.correlation != correlation)
  }

  predicate ValidCall(c: UnlockCall) {
    c.viewerId != c.authorId && c.priceMinor > 0
  }

  function Charge(db: Db, c: UnlockCall): Entry {
    NewEntry(db, c.viewerId, -c.priceMinor, SPEND_UNLOCK, SpendKey(c))
  }

  function Share(db: Db, c: UnlockCall): Entry {
    NewEntry(db, c.authorId, CreatorShare(c.priceMinor), CREATOR_EARN, EarnKey(c))
  }

  function UnlockRow(c: UnlockCall): Unlock {
    Unlock(c.viewerId, c.postId, c.priceMinor, PlatformShare(c.priceMinor))
  }

  /** The tables after a committed unlock: the charge, the share and the row, nothing else. */
  function Unlocked(db: Db, c: UnlockCall): Db {
    var paid := Posted(Posted(db, Charge(db, c)), Share(db, c));
    paid.(unlocks := paid.unlocks + [UnlockRow(c)])
  }

  /** Neither write is ever mistaken for a replay, and the second can only raise a balance. */
  lemma MoveCoinsOutcome(db: Db, c: UnlockCall)
    requires LedgerInv(db) && ValidCall(c) && FreshCorrelation(db.ledger, c.correlation)
    ensures MoveCoins(db, c) ==
            if Balance(db.wallets, c.viewerId) < c.priceMinor then Failure(InsufficientBalance)
            else Success(Posted(Posted(db, Charge(db, c)), Share(db, c)))
  {
    var mid := Posted(db, Charge(db, c));
    BalanceIsTotal(db, c.authorId);
    ChargeOutcome(db, c);
    if Balance(db.wallets, c.viewerId) >= c.priceMinor {
      FindAppend(db.ledger, Charge(db, c), EarnKey(c));
      assert NewEntry(mid, c.authorId, CreatorShare(c.priceMinor), CREATOR_EARN, EarnKey(c)) == Share(db, c);
    }
  }

  lemma ChargeOutcome(db: Db, c: UnlockCall)
    requires ValidCall(c) && FreshCorrelation(db.ledger, c.correlation)
    ensures ApplyDelta(db, c.viewerId, -c.priceMinor, SPEND_UNLOCK, SpendKey(c)) ==
            if Balance(db.wallets, c.viewerId) < c.priceMinor then Failure(InsufficientBalance)
            else Success(Applied(Posted(db, Charge(db, c)), Balance(db.wallets, c.viewerId) - c.priceMinor, false))
  {
  }

  /** The call commits exactly when the viewer can pay and has no row for the post, and otherwise
      says which of the two failed. */
  lemma UnlockTxOutcome(db: Db, c: UnlockCall)
    requires LedgerInv(db) && ValidCall(c) && FreshCorrelation(db.ledger, c.correlation)
    ensures UnlockTx(db, c) ==
            if Balance(db.wallets, c.viewerId) < c.priceMinor then Failure(InsufficientBalance)
            else if HasUnlock(db.unlocks, c.viewerId, c.postId) then Failure(UniqueViolation)
            else Success(Unlocked(db, c))
  {
    MoveCoinsOutcome(db, c);
  }

  /** In full: what a committed unlock writes. The creator gets 70%, rounded down, the platform the rest. */
  lemma UnlockedIs(db: Db, c: UnlockCall)
    requires ValidCall(c)
    ensures var paid, share := c.priceMinor, c.priceMinor * 70 / 100;
            var viewerBalance, authorBalance := Balance(db.wallets, c.viewerId) - paid, Balance(db.wallets, c.authorId) + share;
            Unlocked(db, c)
            == Db(db.wallets[c.viewerId := viewerBalance][c.authorId := authorBalance],
                  db.ledger + [Entry(c.viewerId, SPEND_UNLOCK, -paid, viewerBalance, UnlockSpend(c.postId, c.viewerId, c.correlation))]
                            + [Entry(c.authorId, CREATOR_EARN, share, authorBalance, UnlockEarn(c.postId, c.authorId, c.correlation))],
                  db.marks, db.purchases,
                  db.unlocks + [Unlock(c.viewerId, c.postId, paid, paid - share)])
  {
  }

  lemma UnlockedKeepsLedger(db: Db, c: UnlockCall)
    requires LedgerInv(db) && ValidCall(c) && FreshCorrelation(db.ledger, c.correlation)
    requires Balance(db.wallets, c.viewerId) >= c.priceMinor
    ensures LedgerInv(Unlocked(db, c))
    ensures SumBalances(Unlocked(db, c).wallets) == SumBalances(db.wallets) - PlatformShare(c.priceMinor)
  {
    PostedKeepsLedger(db, Charge(db, c));
    FindAppend(db.ledger, Charge(db, c), EarnKey(c));
    BalanceIsTotal(db, c.authorId);
    PostedKeepsLedger(Posted(db, Charge(db, c)), Share(db, c));
  }

  lemma UnlockKeepsRows(db: Db, db': Db, c: UnlockCall)
    requires UnlocksInv(db) && ValidCall(c) && !HasUnlock(db.unlocks, c.viewerId, c.postId)
    requires db'.ledger == db.ledger + [Charge(db, c)] + [Share(db, c)]
    requires db'.unlocks == db.unlocks + [UnlockRow(c)]
    ensures UnlockRowsUnique(db'.unlocks) && UnlockRowsSplit(db'.unlocks) && RowsCharged(db') && ChargesRecorded(db')
  {
    var l, l', n := db.ledger, db'.ledger, |db.unlocks|;
    forall k | 0 <= k < n
      ensures !(db.unlocks[k].userId == c.viewerId && db.unlocks[k].postId == c.postId)
    {
      assert db.unlocks[k] in db.unlocks;
    }
    forall k | 0 <= k < |db'.unlocks| ensures RowCharged(l', db'.unlocks[k]) {
      var r := db'.unlocks[k];
      FindChargeAppend(l, Charge(db, c), r.userId, r.postId);
      FindChargeAppend(l + [Charge(db, c)], Share(db, c), r.userId, r.postId);
      assert k < n ==> RowCharged(l, db.unlocks[k]);
    }
    forall i | 0 <= i < |l'| ensures ChargeRecorded(db'.unlocks, l'[i]) {
      if l'[i].key.UnlockSpend? {
        FindUnlockAppend(db.unlocks, UnlockRow(c), l'[i].key.viewerId, l'[i].key.postId);
        assert i < |l| ==> ChargeRecorded(db.unlocks, l[i]);
      }
    }
  }

  lemma UnlockKeepsCharges(db: Db, db': Db, c: UnlockCall)
    requires UnlocksInv(db) && ValidCall(c) && !HasUnlock(db.unlocks, c.viewerId, c.postId)
    requires FreshCorrelation(db.ledger, c.correlation)
    requires db'.ledger == db.ledger + [Charge(db, c)] + [Share(db, c)]
    ensures ChargesShared(db'.ledger) && ChargedOnce(db'.ledger)
  {
    var l, l' := db.ledger, db'.ledger;
    assert l'[|l|] == Charge(db, c) && l'[|l| + 1] == Share(db, c);
    forall i | 0 <= i < |l'| ensures SharedAt(l', i) && ChargedAt(l', i) {
      if i < |l| {
        assert SharedAt(l, i) && ChargedAt(l, i);
      }
    }
    forall i, j | 0 <= i < j < |l'| ensures ChargesDiffer(l'[i], l'[j]) {
      if j < |l| {
        assert ChargesDiffer(l[i], l[j]);
      } else if i < |l| {
        assert ChargeRecorded(db.unlocks, l[i]) && l[i] in l;
      }
    }
  }

  lemma FeeTotalAppend(unlocks: seq<Unlock>, r: Unlock)
    ensures FeeTotal(unlocks + [r]) == FeeTotal(unlocks) + r.platformFeeMinor
  {
    assert (unlocks + [r])[..|unlocks|] == unlocks;
  }

  lemma UnlockKeepsInv(db: Db, c: UnlockCall)
    requires CoinsInv(db) && ValidCall(c) && FreshCorrelation(db.ledger, c.correlation)
    requires Balance(db.wallets, c.viewerId) >= c.priceMinor && !HasUnlock(db.unlocks, c.viewerId, c.postId)
    ensures CoinsInv(Unlocked(db, c))
  {
    var db' := Unlocked(db, c);
    UnlockedKeepsLedger(db, c);
    UnlockKeepsRows(db, db', c);
    UnlockKeepsCharges(db, db', c);
    AppendKeepsPurchases(db, Posted(db, Charge(db, c)), Charge(db, c));
    AppendKeepsPurchases(Posted(db, Charge(db, c)), db', Share(db, c));
    FeeTotalAppend(db.unlocks, UnlockRow(c));
    TotalAppend(db.ledger, Charge(db, c), OUTSIDE);
    TotalAppend(db.ledger + [Charge(db, c)], Share(db, c), OUTSIDE);
  }

  // Consequences ----------------------------------------------------------------------------------

  predicate IsShare(e: Entry, correlation: Uuid) {
    e.key.UnlockEarn? && e.key.correlation == correlation
  }

  /** Positions i and i + 1 of the ledger are the charge and the share of row k, and nothing else is. */
  ghost predicate OnlyChargeAt(db: Db, k: nat, i: nat) {
    && k < |db.unlocks| && i + 1 < |db.ledger|
    && ChargeOf(db.unlocks[k], db.ledger[i])
    && ShareOf(db.ledger[i], db.ledger[i + 1])
    && (forall j :: 0 <= j < |db.ledger| && IsCharge(db.ledger[j], db.unlocks[k].userId, db.unlocks[k].postId) ==> (j == i))
    && (forall j :: 0 <= j < |db.ledger| && IsShare(db.ledger[j], db.ledger[i].key.correlation) ==> (j == i + 1))
  }

  ghost predicate HasOnlyCharge(db: Db, k: nat) {
    exists i: nat :: OnlyChargeAt(db, k, i)
  }

  /** Each unlock row pairs with one charge of what it says was paid and one creator share of the
      rounded-down 70%. */
  lemma RowHasOneCharge(db: Db, k: nat)
    requires UnlocksInv(db) && k < |db.unlocks|
    ensures HasOnlyCharge(db, k)
  {
    var l, r := db.ledger, db.unlocks[k];
    assert RowCharged(l, r);
    var i: nat :| i < |l| && l[i] == FindCharge(l, r.userId, r.postId).value;
    assert SharedAt(l, i);
    forall j | 0 <= j < |l| && IsCharge(l[j], r.userId, r.postId) ensures j == i {
      assert j < i ==> ChargesDiffer(l[j], l[i]);
      assert i < j ==> ChargesDiffer(l[i], l[j]);
    }
    forall j | 0 <= j < |l| && IsShare(l[j], l[i].key.correlation)
      ensures j == i + 1
    {
      assert ChargedAt(l, j) && SharedAt(l, j - 1);
      assert j - 1 < i || i < j - 1 ==> ChargesDiffer(l[Min(j - 1, i)], l[Max(j - 1, i)]);
    }
    assert OnlyChargeAt(db, k, i);
  }

  /** Over any number of unlocks the platform's part is 30% of what was paid, give or take less than
      one minor unit per unlock, and never below 30%. */
  lemma {:induction false} PlatformPart(unlocks: seq<Unlock>)
    requires UnlockRowsSplit(unlocks)
    ensures 3 * PaidTotal(unlocks) <= 10 * FeeTotal(unlocks) <= 3 * PaidTotal(unlocks) + 9 * |unlocks|
  {
    if unlocks == [] {
    } else {
      var n := |unlocks| - 1;
      assert UnlockRowsSplit(unlocks[..n]);
      PlatformPart(unlocks[..n]);
      assert RowSplit(unlocks[n]);
    }
  }
}
