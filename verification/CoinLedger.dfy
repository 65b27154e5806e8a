/** The coin tables and the ledger primitive `applyDeltaTx`: an idempotent, non-negative change of
    one wallet that appends one ledger entry. */
module CoinLedger {
  import opened Common
  import opened IdempotencyKeys

  datatype TxnType = PURCHASE_STRIPE | PURCHASE_APPLE | PURCHASE_GOOGLE | SPEND_UNLOCK | CREATOR_EARN | ADJUSTMENT | PAYOUT

  datatype CoinError = InsufficientBalance | UniqueViolation | WalletBusy

  /** A row of the ledger table; the stored idempotency key is `Render(key)`. */
  datatype Entry = Entry(userId: Uuid, kind: TxnType, amountMinor: int, balanceAfterMinor: int, key: OpKey)

  datatype PurchaseStatus = PENDING | COMPLETED | FAILED

  datatype Purchase = Purchase(userId: Uuid, provider: Provider, reference: string, status: PurchaseStatus, coinsMinor: int)

  datatype Unlock = Unlock(userId: Uuid, postId: Uuid, totalPaidMinor: int, platformFeeMinor: int)

  /** What the metadata of a completed payout's debit row say. */
  datatype Marking = Marking(transferId: string, usdCents: nat)

  /** The coin part of the database. `marks` holds the metadata of the ledger rows that name a transfer. */
  datatype Db = Db(
    wallets: map<Uuid, int>,
    ledger: seq<Entry>,
    marks: map<OpKey, Marking>,
    purchases: seq<Purchase>,
    unlocks: seq<Unlock>)

  const EMPTY := Db(map[], [], map[], [], [])

  /** The row of an operation, by its structured key. */
  function FindEntry(ledger: seq<Entry>, key: OpKey): (r: Option<Entry>)
    ensures r.Some? ==> r.value in ledger && r.value.key == key
    ensures r.None? ==> forall e :: e in ledger ==> e.key != key
  {
    if ledger == [] then None
    else
      var last := ledger[|ledger| - 1];
      if last.key == key then Some(last) else FindEntry(ledger[..|ledger| - 1], key)
  }

  /** The row whose unique column `idempotencyKey` equals a string, as the database looks it up. */
  function FindByColumn(ledger: seq<Entry>, idempotencyKey: string): Option<Entry> {
    if ledger == [] then None
    else
      var last := ledger[|ledger| - 1];
      if Render(last.key) == idempotencyKey then Some(last)
      else FindByColumn(ledger[..|ledger| - 1], idempotencyKey)
  }

  /** Looking up the rendered string finds the operation itself, never another one. */
  lemma {:induction false} ColumnFindsOperation(ledger: seq<Entry>, key: OpKey)
    ensures FindByColumn(ledger, Render(key)) == FindEntry(ledger, key)
  {
    if ledger == [] {
    } else {
      var last := ledger[|ledger| - 1];
      if Render(last.key) == Render(key) {
        RenderInjective(last.key, key);
      }
      ColumnFindsOperation(ledger[..|ledger| - 1], key);
    }
  }

  predicate HasKey(ledger: seq<Entry>, key: OpKey) {
    FindEntry(ledger, key).Some?
  }

  function Balance(wallets: map<Uuid, int>, userId: Uuid): int {
    if userId in wallets then wallets[userId] else 0
  }

  datatype Applied = Applied(db: Db, balanceAfterMinor: int, duplicate: bool)

  /** The entry a fresh call appends, and the tables after it. */
  function NewEntry(db: Db, userId: Uuid, amountMinor: int, kind: TxnType, key: OpKey): Entry {
    Entry(userId, kind, amountMinor, Balance(db.wallets, userId) + amountMinor, key)
  }

  function Posted(db: Db, e: Entry): Db {
    db.(wallets := db.wallets[e.userId := e.balanceAfterMinor], ledger := db.ledger + [e])
  }

  /** What `applyDeltaTx` does to the tables, or the error that aborts its transaction. */
  function ApplyDelta(db: Db, userId: Uuid, amountMinor: int, kind: TxnType, key: OpKey): Result<Applied, CoinError> {
    match FindEntry(db.ledger, key)
    case Some(e) => Success(Applied(db, e.balanceAfterMinor, true))
    case None =>
      var e := NewEntry(db, userId, amountMinor, kind, key);
      if e.balanceAfterMinor < 0 then Failure(InsufficientBalance)
      else Success(Applied(Posted(db, e), e.balanceAfterMinor, false))
  }

  // Sums ------------------------------------------------------------------------------------------

  /** Which ledger entries a sum counts. */
  datatype Filter = OfUser(userId: Uuid) | OfKinds(kinds: set<TxnType>) | OfPayout(payer: Uuid, client: string)

  predicate Matches(f: Filter, e: Entry) {
    match f
    case OfUser(u) => e.userId == u
    case OfKinds(ks) => e.kind in ks
    case OfPayout(u, c) => e.key == PayoutDebit(u, c) || e.key == PayoutRollback(u, c)
  }

  function Total(ledger: seq<Entry>, f: Filter): int {
    if ledger == [] then 0
    else
      var last := ledger[|ledger| - 1];
      Total(ledger[..|ledger| - 1], f) + if Matches(f, last) then last.amountMinor else 0
  }

  lemma TotalAppend(ledger: seq<Entry>, e: Entry, f: Filter)
    ensures Total(ledger + [e], f) == Total(ledger, f) + if Matches(f, e) then e.amountMinor else 0
  {
    assert (ledger + [e])[..|ledger|] == ledger;
  }

  lemma {:induction false} TotalAbsent(ledger: seq<Entry>, f: Filter)
    requires forall e :: e in ledger ==> !Matches(f, e)
    ensures Total(ledger, f) == 0
  {
    if ledger == [] {
    } else {
      assert ledger[|ledger| - 1] in ledger;
      TotalAbsent(ledger[..|ledger| - 1], f);
    }
  }

  /** The sum of all wallet balances. */
  ghost function SumBalances(wallets: map<Uuid, int>): int {
    if wallets == map[] then 0
    else
      var u :| u in wallets;
      wallets[u] + SumBalances(wallets - {u})
  }

  /** The sum does not depend on the order in which wallets are visited. */
  lemma {:induction false} SumBalancesTake(wallets: map<Uuid, int>, u: Uuid)
    requires u in wallets
    ensures SumBalances(wallets) == wallets[u] + SumBalances(wallets - {u})
    decreases |wallets|
  {
    var v :| v in wallets && SumBalances(wallets) == wallets[v] + SumBalances(wallets - {v});
    if v == u {
    } else {
      SumBalancesTake(wallets - {v}, u);
      SumBalancesTake(wallets - {u}, v);
      assert wallets - {v} - {u} == wallets - {u} - {v};
    }
  }

  lemma SumBalancesUpdate(wallets: map<Uuid, int>, u: Uuid, b: int)
    ensures SumBalances(wallets[u := b]) == SumBalances(wallets) - Balance(wallets, u) + b
  {
    SumBalancesTake(wallets[u := b], u);
    assert wallets[u := b] - {u} == wallets - {u};
    if u in wallets {
      SumBalancesTake(wallets, u);
    } else {
      assert wallets - {u} == wallets;
    }
  }

  // The ledger invariant --------------------------------------------------------------------------

  ghost predicate UniqueKeys(ledger: seq<Entry>) {
    forall i, j :: 0 <= i < j < |ledger| ==> ledger[i].key != ledger[j].key
  }

  predicate WalletHolds(wallets: map<Uuid, int>, ledger: seq<Entry>, u: Uuid)
    requires u in wallets
  {
    0 <= wallets[u] == Total(ledger, OfUser(u))
  }

  /** A wallet holds exactly what its ledger entries add up to, and never less than nothing. */
  ghost predicate WalletsMatchLedger(wallets: map<Uuid, int>, ledger: seq<Entry>) {
    && (forall e :: e in ledger ==> e.userId in wallets)
    && (forall u {:trigger WalletHolds(wallets, ledger, u)} :: u in wallets ==> WalletHolds(wallets, ledger, u))
  }

  predicate BalanceAt(ledger: seq<Entry>, i: nat)
    requires i < |ledger|
  {
    0 <= ledger[i].balanceAfterMinor == Total(ledger[..i + 1], OfUser(ledger[i].userId))
  }

  /** `balanceAfterMinor` of every entry is the sum of its wallet's entries up to and including it. */
  ghost predicate RunningBalances(ledger: seq<Entry>) {
    forall i :: 0 <= i < |ledger| ==> BalanceAt(ledger, i)
  }

  ghost predicate LedgerInv(db: Db) {
    && UniqueKeys(db.ledger)
    && WalletsMatchLedger(db.wallets, db.ledger)
    && RunningBalances(db.ledger)
  }

  lemma BalanceIsTotal(db: Db, u: Uuid)
    requires LedgerInv(db)
    ensures 0 <= Balance(db.wallets, u) == Total(db.ledger, OfUser(u))
  {
    if u in db.wallets {
      assert WalletHolds(db.wallets, db.ledger, u);
    } else {
      TotalAbsent(db.ledger, OfUser(u));
    }
  }

  /** An entry that fits the wallet it names. */
  ghost predicate Fits(db: Db, e: Entry) {
    e.balanceAfterMinor == Balance(db.wallets, e.userId) + e.amountMinor >= 0 && !HasKey(db.ledger, e.key)
  }

  lemma PostedKeepsWallets(db: Db, e: Entry)
    requires LedgerInv(db) && Fits(db, e)
    ensures WalletsMatchLedger(Posted(db, e).wallets, Posted(db, e).ledger)
  {
    var db' := Posted(db, e);
    forall u | u in db'.wallets ensures WalletHolds(db'.wallets, db'.ledger, u) {
      TotalAppend(db.ledger, e, OfUser(u));
      BalanceIsTotal(db, u);
    }
  }

  /** Earlier entries do not see later ones. */
  lemma EarlierBalanceStays(l: seq<Entry>, e: Entry, i: nat)
    requires i < |l| && BalanceAt(l, i)
    ensures BalanceAt(l + [e], i)
  {
    assert (l + [e])[..i + 1] == l[..i + 1];
  }

  lemma NewBalanceFits(l: seq<Entry>, e: Entry)
    requires e.balanceAfterMinor == Total(l, OfUser(e.userId)) + e.amountMinor >= 0
    ensures BalanceAt(l + [e], |l|)
  {
    assert (l + [e])[..|l| + 1] == l + [e];
    TotalAppend(l, e, OfUser(e.userId));
  }

  lemma PostedKeepsRunning(db: Db, e: Entry)
    requires LedgerInv(db) && Fits(db, e)
    ensures RunningBalances(db.ledger + [e])
  {
    BalanceIsTotal(db, e.userId);
    NewBalanceFits(db.ledger, e);
    forall i | 0 <= i < |db.ledger + [e]| ensures BalanceAt(db.ledger + [e], i) {
      if i < |db.ledger| {
        EarlierBalanceStays(db.ledger, e, i);
      }
    }
  }

  lemma PostedKeepsUnique(ledger: seq<Entry>, e: Entry)
    requires UniqueKeys(ledger) && !HasKey(ledger, e.key)
    ensures UniqueKeys(ledger + [e])
  {
    forall i, j | 0 <= i < j < |ledger + [e]| ensures (ledger + [e])[i].key != (ledger + [e])[j].key {
      assert ledger[i] in ledger;
    }
  }

  lemma PostedKeepsLedger(db: Db, e: Entry)
    requires LedgerInv(db) && Fits(db, e)
    ensures LedgerInv(Posted(db, e))
    ensures SumBalances(Posted(db, e).wallets) == SumBalances(db.wallets) + e.amountMinor
  {
    PostedKeepsUnique(db.ledger, e);
    PostedKeepsWallets(db, e);
    PostedKeepsRunning(db, e);
    SumBalancesUpdate(db.wallets, e.userId, e.balanceAfterMinor);
  }

  /** Every successful call keeps the ledger a faithful account of the wallets, and moves the sum of
      all balances by exactly the amount of the entry it appends. */
  lemma ApplyDeltaKeepsLedger(db: Db, userId: Uuid, amountMinor: int, kind: TxnType, key: OpKey)
    requires LedgerInv(db)
    requires ApplyDelta(db, userId, amountMinor, kind, key).Success?
    ensures var a := ApplyDelta(db, userId, amountMinor, kind, key).value;
            && LedgerInv(a.db)
            && (a.duplicate ==> a.db == db && HasKey(db.ledger, key))
            && (!a.duplicate ==>
                  && !HasKey(db.ledger, key)
                  && a.db.ledger == db.ledger + [Entry(userId, kind, amountMinor, a.balanceAfterMinor, key)]
                  && SumBalances(a.db.wallets) == SumBalances(db.wallets) + amountMinor)
  {
    if !HasKey(db.ledger, key) {
      PostedKeepsLedger(db, NewEntry(db, userId, amountMinor, kind, key));
    }
  }

  lemma {:induction false} FindAppend(ledger: seq<Entry>, e: Entry, key: OpKey)
    ensures FindEntry(ledger + [e], key) == if e.key == key then Some(e) else FindEntry(ledger, key)
  {
    assert (ledger + [e])[..|ledger|] == ledger;
  }

  /** With unique keys the lookup is exact: an entry of the ledger is found by its own key. */
  lemma FindIsExact(ledger: seq<Entry>, e: Entry)
    requires UniqueKeys(ledger) && e in ledger
    ensures FindEntry(ledger, e.key) == Some(e)
  {
    var i :| 0 <= i < |ledger| && ledger[i] == e;
    var f := FindEntry(ledger, e.key).value;
    var j :| 0 <= j < |ledger| && ledger[j] == f;
    assert i == j;
  }

  /** With unique keys the last key did not occur before. */
  lemma LastKeyIsNew(ledger: seq<Entry>)
    requires UniqueKeys(ledger) && ledger != []
    ensures UniqueKeys(ledger[..|ledger| - 1])
    ensures !HasKey(ledger[..|ledger| - 1], ledger[|ledger| - 1].key)
  {
    var rest, last := ledger[..|ledger| - 1], ledger[|ledger| - 1];
    assert forall i :: 0 <= i < |rest| ==> rest[i].key == ledger[i].key != last.key;
  }

  // Replay ----------------------------------------------------------------------------------------

  /** The ledger only ever grows. */
  ghost predicate Grows(before: Db, after: Db) {
    before.ledger <= after.ledger
  }

  /** Once a call has committed under a key, repeating it later changes nothing and reports the
      balance of the first time, whatever user, amount and type the repetition carries. */
  lemma ReplayIsNoop(before: Db, userId: Uuid, amountMinor: int, kind: TxnType, key: OpKey,
                     later: Db, userId': Uuid, amountMinor': int, kind': TxnType)
    requires ApplyDelta(before, userId, amountMinor, kind, key).Success?
    requires Grows(ApplyDelta(before, userId, amountMinor, kind, key).value.db, later)
    requires LedgerInv(before) && LedgerInv(later)
    ensures ApplyDelta(later, userId', amountMinor', kind', key)
            == Success(Applied(later, ApplyDelta(before, userId, amountMinor, kind, key).value.balanceAfterMinor, true))
  {
    ApplyDeltaKeepsLedger(before, userId, amountMinor, kind, key);
    var a := ApplyDelta(before, userId, amountMinor, kind, key).value;
    var e := if a.duplicate then FindEntry(before.ledger, key).value else a.db.ledger[|before.ledger|];
    var i :| 0 <= i < |a.db.ledger| && a.db.ledger[i] == e;
    assert later.ledger[i] == e;
    FindIsExact(later.ledger, e);
  }

  /** A call under a fresh key succeeds exactly when the resulting balance is not negative. */
  lemma ApplyDeltaSucceedsIff(db: Db, userId: Uuid, amountMinor: int, kind: TxnType, key: OpKey)
    requires LedgerInv(db)
    ensures ApplyDelta(db, userId, amountMinor, kind, key).Success?
            <==> HasKey(db.ledger, key) || 0 <= Total(db.ledger, OfUser(userId)) + amountMinor
  {
    BalanceIsTotal(db, userId);
  }
}
