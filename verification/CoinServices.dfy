/** The services themselves: methods that read and write the tables in place, each proved against the
    transactions and the state machine. `dbCommits` and `env` stand for what the database and Stripe
    do; a transaction that throws puts the tables back. */
module CoinServices {
  import opened Common
  import opened IdempotencyKeys
  import opened CoinLedger
  import opened CoinPricing
  import opened CoinOperations
  import opened CoinSystem
  import opened CoinPayout
  import opened PayoutRecovery

  datatype UnlockAnswer =
    | PostNotFound | NotPublished | NotMonetized | OwnContent | NoFixedPrice
    | AlreadyUnlocked
    | Charged(chargedMinor: int, creatorMinor: int, platformMinor: int)
    | UnlockFailed(error: CoinError)

  /** Environment variables that may be missing digits: `None` is a NaN. */
  datatype PayoutConfig = PayoutConfig(minUsd: Option<int>, minCoins: Option<int>, num: Option<int>, den: Option<int>)

  /** The user's columns about Stripe Connect. */
  datatype Account = Account(id: Option<string>, payoutsEnabled: bool)

  datatype PayoutAnswer =
    | InvalidConfig | BelowMinCoins | NotConnected | PayoutsDisabled | BelowMinUsd
    | Answered(outcome: Outcome)

  /** A charge, in full: the viewer pays, the creator gets 70%, rounded down, the platform keeps the rest,
      and nothing else changes. */
  predicate ChargeBooked(before: Db, after: Db, viewerId: Uuid, authorId: Uuid, postId: Uuid, paid: int, correlation: Uuid) {
    var share := paid * 70 / 100;
    var viewerBalance, authorBalance := Balance(before.wallets, viewerId) - paid, Balance(before.wallets, authorId) + share;
    && after.wallets == before.wallets[viewerId := viewerBalance][authorId := authorBalance]
    && after.ledger == before.ledger
                       + [Entry(viewerId, SPEND_UNLOCK, -paid, viewerBalance, UnlockSpend(postId, viewerId, correlation))]
                       + [Entry(authorId, CREATOR_EARN, share, authorBalance, UnlockEarn(postId, authorId, correlation))]
    && after.unlocks == before.unlocks + [Unlock(viewerId, postId, paid, paid - share)]
    && after.marks == before.marks && after.purchases == before.purchases
  }

  /** The transaction of an unlock, if it commits under a fresh correlation id, books its charge. */
  lemma UnlockBooksCharge(db: Db, c: UnlockCall)
    requires LedgerInv(db) && ValidCall(c) && FreshCorrelation(db.ledger, c.correlation)
    requires UnlockTx(db, c).Success?
    ensures ChargeBooked(db, UnlockTx(db, c).value, c.viewerId, c.authorId, c.postId, c.priceMinor, c.correlation)
  {
    UnlockTxOutcome(db, c);
    UnlockedIs(db, c);
  }

  class CoinApi {
    var wallets: map<Uuid, int>
    var ledger: seq<Entry>
    var marks: map<OpKey, Marking>
    var purchases: seq<Purchase>
    var unlocks: seq<Unlock>
    var stripe: map<OpKey, StripeRecord>

    ghost function Tables(): Db
      reads this
    {
      Db(wallets, ledger, marks, purchases, unlocks)
    }

    constructor ()
      ensures Tables() == EMPTY && stripe == map[]
    {
      wallets, ledger, marks, purchases, unlocks, stripe := map[], [], map[], [], [], map[];
    }

    method GetBalanceMinor(userId: Uuid) returns (balance: int)
      ensures balance == Balance(wallets, userId)
      ensures LedgerInv(Tables()) ==> 0 <= balance == Total(ledger, OfUser(userId))
    {
      balance := if userId in wallets then wallets[userId] else 0;
      if LedgerInv(Tables()) {
        BalanceIsTotal(Tables(), userId);
      }
    }

    /** `findUnique` on the key column. */
    method FindUniqueEntry(key: OpKey) returns (existing: Option<Entry>)
      ensures existing == FindEntry(ledger, key)
    {
      existing := FindByColumn(ledger, Render(key));
      ColumnFindsOperation(ledger, key);
    }

    /** On an error the wallet row it may have created is still there; the enclosing transaction
        takes it back. */
    method ApplyDeltaTx(userId: Uuid, amountMinor: int, kind: TxnType, key: OpKey)
      returns (r: Result<(int, bool), CoinError>)
      modifies this`wallets, this`ledger
      ensures match ApplyDelta(old(Tables()), userId, amountMinor, kind, key)
              case Success(a) => Tables() == a.db && r == Success((a.balanceAfterMinor, a.duplicate))
              case Failure(e) => r == Failure(e) && ledger == old(ledger)
    {
      ghost var before := Tables();
      ghost var e := NewEntry(before, userId, amountMinor, kind, key);
      var existing := FindUniqueEntry(key);
      if existing.Some? {
        return Success((existing.value.balanceAfterMinor, true));
      }
      var upserted := if userId in wallets then wallets else wallets[userId := 0];
      var next := upserted[userId] + amountMinor;
      assert next == e.balanceAfterMinor;
      if next < 0 {
        wallets := upserted;
        return Failure(InsufficientBalance);
      }
      wallets := upserted[userId := next];
      assert wallets == before.wallets[userId := next];
      ledger := ledger + [Entry(userId, kind, amountMinor, next, key)];
      assert Tables() == Posted(before, e);
      return Success((next, false));
    }

    method MoveCoinsTx(c: UnlockCall) returns (error: Option<CoinError>)
      modifies this`wallets, this`ledger
      ensures match MoveCoins(old(Tables()), c)
              case Success(db) => error.None? && Tables() == db
              case Failure(e) => error == Some(e)
    {
      var spent := ApplyDeltaTx(c.viewerId, -c.priceMinor, SPEND_UNLOCK, SpendKey(c));
      if spent.Failure? {
        return Some(spent.error);
      }
      var creatorMinor := c.priceMinor * 70 / 100;
      var earned := ApplyDeltaTx(c.authorId, creatorMinor, CREATOR_EARN, EarnKey(c));
      return if earned.Failure? then Some(earned.error) else None;
    }

    /** The transaction of an unlock. */
    method ChargeTx(c: UnlockCall, dbCommits: bool) returns (r: Result<bool, CoinError>)
      modifies this`wallets, this`ledger, this`unlocks
      ensures Tables() == Commit(old(Tables()), UnlockTx(old(Tables()), c), dbCommits)
      ensures r.Success? <==> dbCommits && UnlockTx(old(Tables()), c).Success?
      ensures r.Failure? && dbCommits ==> UnlockTx(old(Tables()), c) == Failure(r.error)
    {
      var savedWallets, savedLedger := wallets, ledger;
      var error := MoveCoinsTx(c);
      if error.None? && HasUnlock(unlocks, c.viewerId, c.postId) {
        error := Some(UniqueViolation);
      }
      if error.Some? || !dbCommits {
        wallets, ledger := savedWallets, savedLedger;
        return Failure(if error.Some? then error.value else WalletBusy);
      }
      unlocks := unlocks + [Unlock(c.viewerId, c.postId, c.priceMinor, PlatformShare(c.priceMinor))];
      return Success(true);
    }

    /** An `unlockPost` call that nothing interrupts. */
    method UnlockPost(viewerId: Uuid, postId: Uuid, post: Option<PostView>, correlation: Uuid, dbCommits: bool)
      returns (r: UnlockAnswer)
      modifies this`wallets, this`ledger, this`unlocks
      ensures r == PostNotFound <==> post.None?
      ensures r == NotPublished <==> post.Some? && !post.value.published
      ensures r == NotMonetized <==> post.Some? && post.value.published && !post.value.monetized
      ensures r == OwnContent <==>
              post.Some? && post.value.published && post.value.monetized && post.value.authorId == viewerId
      ensures r == NoFixedPrice <==>
              && post.Some? && post.value.published && post.value.monetized && post.value.authorId != viewerId
              && (post.value.price.None? || post.value.price.value <= 0)
      ensures r.AlreadyUnlocked? || r.Charged? || r.UnlockFailed? <==>
              && post.Some? && post.value.published && post.value.monetized && post.value.authorId != viewerId
              && post.value.price.Some? && post.value.price.value > 0
      ensures r.AlreadyUnlocked? ==> HasUnlock(old(unlocks), viewerId, postId)
      ensures r.Charged? || r.UnlockFailed? ==> !HasUnlock(old(unlocks), viewerId, postId)
      ensures r.Charged? ==>
                var c := UnlockCall(viewerId, postId, post.value.authorId, post.value.price.value, correlation);
                && UnlockTx(old(Tables()), c) == Success(Tables())
                && r == Charged(c.priceMinor, c.priceMinor * 70 / 100, c.priceMinor - c.priceMinor * 70 / 100)
      ensures r.Charged? && LedgerInv(old(Tables())) && FreshCorrelation(old(ledger), correlation) ==>
                ChargeBooked(old(Tables()), Tables(), viewerId, post.value.authorId, postId, post.value.price.value, correlation)
      ensures !r.Charged? ==> Tables() == old(Tables())
      ensures r.UnlockFailed? && dbCommits ==>
                UnlockTx(old(Tables()), UnlockCall(viewerId, postId, post.value.authorId, post.value.price.value, correlation))
                == Failure(r.error)
    {
      if post.None? {
        return PostNotFound;
      }
      var p := post.value;
      if !p.published {
        return NotPublished;
      }
      if !p.monetized {
        return NotMonetized;
      }
      if p.authorId == viewerId {
        return OwnContent;
      }
      if p.price.None? || p.price.value <= 0 {
        return NoFixedPrice;
      }
      if HasUnlock(unlocks, viewerId, postId) {
        return AlreadyUnlocked;
      }
      ghost var before := Tables();
      var chargeMinor := p.price.value;
      var tx := ChargeTx(UnlockCall(viewerId, postId, p.authorId, chargeMinor, correlation), dbCommits);
      if tx.Failure? {
        return UnlockFailed(tx.error);
      }
      if LedgerInv(before) && FreshCorrelation(before.ledger, correlation) {
        UnlockBooksCharge(before, UnlockCall(viewerId, postId, p.authorId, chargeMinor, correlation));
      }
      return Charged(chargeMinor, CreatorShare(chargeMinor), PlatformShare(chargeMinor));
    }

    /** The transactional half of the three purchase handlers. */
    method CreditPurchase(provider: Provider, reference: string, userId: Uuid, coinsMinor: int, dbCommits: bool)
      returns (committed: bool)
      modifies this`wallets, this`ledger, this`purchases
      ensures committed <==> dbCommits && PurchaseTx(old(Tables()), provider, reference, userId, coinsMinor).Success?
      ensures Tables() == Commit(old(Tables()), PurchaseTx(old(Tables()), provider, reference, userId, coinsMinor), dbCommits)
      ensures PurchasesInv(old(Tables())) ==>
                var known := exists p :: p in old(purchases) && p.provider == provider && p.reference == reference;
                var balance := Balance(old(wallets), userId) + coinsMinor;
                var kind := match provider case STRIPE => PURCHASE_STRIPE case APPLE => PURCHASE_APPLE case GOOGLE => PURCHASE_GOOGLE;
                && (committed <==> dbCommits && (known || balance >= 0))
                && (known || !committed ==> Tables() == old(Tables()))
                && (!known && committed ==>
                      && purchases == old(purchases) + [Purchase(userId, provider, reference, COMPLETED, coinsMinor)]
                      && ledger == old(ledger) + [Entry(userId, kind, coinsMinor, balance, PurchaseCredit(provider, reference))]
                      && wallets == old(wallets)[userId := balance])
    {
      if PurchasesInv(Tables()) {
        PurchaseTxOutcome(Tables(), provider, reference, userId, coinsMinor);
        PurchasedIs(Tables(), provider, reference, userId, coinsMinor);
      }
      var existing := FindPurchase(purchases, provider, reference);
      if existing.Some? {
        return existing.value.status == COMPLETED && dbCommits;
      }
      var savedWallets, savedLedger, savedPurchases := wallets, ledger, purchases;
      purchases := purchases + [Purchase(userId, provider, reference, COMPLETED, coinsMinor)];
      var r := ApplyDeltaTx(userId, coinsMinor, PurchaseKind(provider), PurchaseCredit(provider, reference));
      committed := r.Success? && dbCommits;
      if !committed {
        wallets, ledger, purchases := savedWallets, savedLedger, savedPurchases;
      }
    }

    /** The balance afterwards and whether the key was known, or the error that left everything as it was. */
    method AdjustBalance(userId: Uuid, amountMinor: int, client: string, dbCommits: bool)
      returns (r: Result<(int, bool), CoinError>)
      modifies this`wallets, this`ledger
      ensures Tables() == Commit(old(Tables()), AdjustTx(old(Tables()), userId, amountMinor, client), dbCommits)
      ensures r.Failure? ==> Tables() == old(Tables())
      ensures HasKey(old(ledger), AdminAdjust(userId, client)) ==>
                Tables() == old(Tables()) && (r.Success? <==> dbCommits) && (r.Success? ==> r.value.1)
      ensures !HasKey(old(ledger), AdminAdjust(userId, client)) ==>
                var balance := Balance(old(wallets), userId) + amountMinor;
                && (r.Failure? <==> balance < 0 || !dbCommits)
                && (balance < 0 ==> r == Failure(InsufficientBalance))
                && (r.Success? ==>
                      && r.value == (balance, false)
                      && wallets == old(wallets)[userId := balance]
                      && ledger == old(ledger) + [Entry(userId, ADJUSTMENT, amountMinor, balance, AdminAdjust(userId, client))])
    {
      AdjustTxOutcome(Tables(), userId, amountMinor, client);
      var savedWallets, savedLedger := wallets, ledger;
      r := ApplyDeltaTx(userId, amountMinor, ADJUSTMENT, AdminAdjust(userId, client));
      if r.Failure? || !dbCommits {
        wallets, ledger := savedWallets, savedLedger;
        r := Failure(if r.Failure? then r.error else WalletBusy);
      }
    }

    /** A `requestPayout` call that nothing interrupts does what the attempt's steps do one after the
        other; recovery from every reachable state is proved about those steps. */
    method RequestPayout(userId: Uuid, coinsMinor: int, client: string, config: PayoutConfig, account: Account, env: Env)
      returns (answer: PayoutAnswer)
      modifies this`wallets, this`ledger, this`marks, this`stripe
      ensures answer.Answered? <==>
              && config.minUsd.Some? && config.minUsd.value >= 1 && config.minCoins.Some? && config.minCoins.value >= 1
              && coinsMinor >= config.minCoins.value
              && account.id.Some? && account.id.value != "" && account.payoutsEnabled
              && config.num.Some? && config.num.value >= 1 && config.den.Some? && config.den.value >= 1
              && coinsMinor * config.num.value / config.den.value >= config.minUsd.value
      ensures answer == InvalidConfig <==>
              var floors := config.minUsd.Some? && config.minUsd.value >= 1 && config.minCoins.Some? && config.minCoins.value >= 1;
              !floors ||
              (&& coinsMinor >= config.minCoins.value && account.id.Some? && account.id.value != "" && account.payoutsEnabled
               && !(config.num.Some? && config.num.value >= 1 && config.den.Some? && config.den.value >= 1))
      ensures answer == BelowMinCoins <==>
              && config.minUsd.Some? && config.minUsd.value >= 1 && config.minCoins.Some? && config.minCoins.value >= 1
              && coinsMinor < config.minCoins.value
      ensures answer == NotConnected <==>
              && config.minUsd.Some? && config.minUsd.value >= 1 && config.minCoins.Some? && config.minCoins.value >= 1
              && coinsMinor >= config.minCoins.value && (account.id.None? || account.id.value == "")
      ensures answer == PayoutsDisabled <==>
              && config.minUsd.Some? && config.minUsd.value >= 1 && config.minCoins.Some? && config.minCoins.value >= 1
              && coinsMinor >= config.minCoins.value && account.id.Some? && account.id.value != "" && !account.payoutsEnabled
      ensures answer == BelowMinUsd <==>
              && config.minUsd.Some? && config.minUsd.value >= 1 && config.minCoins.Some? && config.minCoins.value >= 1
              && coinsMinor >= config.minCoins.value
              && account.id.Some? && account.id.value != "" && account.payoutsEnabled
              && config.num.Some? && config.num.value >= 1 && config.den.Some? && config.den.value >= 1
              && coinsMinor * config.num.value / config.den.value < config.minUsd.value
      ensures !answer.Answered? ==> Tables() == old(Tables()) && stripe == old(stripe)
      ensures answer.Answered? ==>
                var request := Request(coinsMinor, coinsMinor * config.num.value / config.den.value, account.id.value);
                var d := Drive(old(Tables()), old(stripe), Attempt(userId, request, client, ReadDebit), env);
                Tables() == d.0 && stripe == d.1 && answer == Answered(d.2.outcome)
    {
      if config.minUsd.None? || config.minUsd.value < 1 {
        return InvalidConfig;
      }
      if config.minCoins.None? || config.minCoins.value < 1 {
        return InvalidConfig;
      }
      if coinsMinor < config.minCoins.value {
        return BelowMinCoins;
      }
      if account.id.None? || account.id.value == "" {
        return NotConnected;
      }
      if !account.payoutsEnabled {
        return PayoutsDisabled;
      }
      if config.num.None? || config.den.None? || config.num.value <= 0 || config.den.value <= 0 {
        return InvalidConfig;
      }
      var usdCents := coinsMinor * config.num.value / config.den.value;
      if usdCents < config.minUsd.value {
        return BelowMinUsd;
      }
      var outcome := Saga(userId, Request(coinsMinor, usdCents, account.id.value), client, env);
      return Answered(outcome);
    }

    /** The two reads and the debit. */
    method Saga(userId: Uuid, request: Request, client: string, env: Env)
      returns (outcome: Outcome)
      modifies this`wallets, this`ledger, this`marks, this`stripe
      ensures var d := Drive(old(Tables()), old(stripe), Attempt(userId, request, client, ReadDebit), env);
              Tables() == d.0 && stripe == d.1 && d.2 == Done(outcome)
    {
      var debitKey := PayoutDebit(userId, client);
      ghost var a := Attempt(userId, request, client, ReadDebit);
      var existingDebit := FindUniqueEntry(debitKey);
      DriveOnce(Tables(), stripe, a, env);
      if existingDebit.Some? && existingDebit.value.userId != userId {
        return Rejected(KeyConflict);
      }
      if existingDebit.Some? && debitKey in marks && |marks[debitKey].transferId| > 0 {
        return Paid(marks[debitKey].transferId, true, request.coinsMinor, marks[debitKey].usdCents);
      }
      var existingRollback := FindUniqueEntry(PayoutRollback(userId, client));
      DriveOnce(Tables(), stripe, a.(pc := ReadRollback(existingDebit.Some?)), env);
      if existingRollback.Some? {
        return Rejected(Reversed);
      }
      if existingDebit.None? {
        DriveOnce(Tables(), stripe, a.(pc := Debit), env);
        var savedWallets, savedLedger := wallets, ledger;
        var r := ApplyDeltaTx(userId, 0 - request.coinsMinor, PAYOUT, debitKey);
        if r.Failure? || !env.debitCommits {
          wallets, ledger := savedWallets, savedLedger;
          return Rejected(if env.debitCommits then CannotDebit else Busy);
        }
      }
      outcome := TransferOrCompensate(userId, request, client, env);
    }

    /** What Stripe does with a request: the transfer's id, or `None` for any error. */
    method CreateTransfer(key: OpKey, request: Request, reply: Reply) returns (transferId: Option<string>)
      modifies this`stripe
      ensures stripe == (if key in old(stripe) then old(stripe)
                         else match reply
                              case Accept(t) => old(stripe)[key := Succeeded(request, t)]
                              case Refuse => old(stripe)[key := Declined(request)]
                              case Lost(executed, t) => if executed then old(stripe)[key := Succeeded(request, t)] else old(stripe))
      ensures transferId == if !reply.Lost? && stripe[key].Succeeded? && stripe[key].request == request
                            then Some(stripe[key].transferId) else None
    {
      if key !in stripe {
        match reply {
          case Accept(t) => stripe := stripe[key := Succeeded(request, t)];
          case Refuse => stripe := stripe[key := Declined(request)];
          case Lost(executed, t) =>
            if executed {
              stripe := stripe[key := Succeeded(request, t)];
            }
        }
      }
      if reply.Lost? || !stripe[key].Succeeded? || stripe[key].request != request {
        return None;
      }
      return Some(stripe[key].transferId);
    }

    /** The `try` block. Control gets here only with a debit, seen or made, so the compensation's own
        condition (`debitedFresh || existingDebit`) always holds. */
    method TransferOrCompensate(userId: Uuid, request: Request, client: string, env: Env)
      returns (outcome: Outcome)
      modifies this`wallets, this`ledger, this`marks, this`stripe
      ensures var d := Drive(old(Tables()), old(stripe), Attempt(userId, request, client, Transfer), env);
              Tables() == d.0 && stripe == d.1 && d.2 == Done(outcome)
    {
      var debitKey, stripeKey := PayoutDebit(userId, client), StripeTransfer(userId, client);
      ghost var a := Attempt(userId, request, client, Transfer);
      DriveOnce(Tables(), stripe, a, env);
      var transfer := CreateTransfer(stripeKey, request, env.reply);
      if transfer.Some? {
        var transferId := transfer.value;
        DriveOnce(Tables(), stripe, a.(pc := Mark(transferId)), env);
        if env.markWritten {
          if HasKey(ledger, debitKey) {
            marks := marks[debitKey := Marking(transferId, request.usdCents)];
          }
          return Paid(transferId, false, request.coinsMinor, request.usdCents);
        }
      }
      Compensate(userId, request, client, env);
      return Rejected(TransferFailed);
    }

    /** The `catch` block. */
    method Compensate(userId: Uuid, request: Request, client: string, env: Env)
      modifies this`wallets, this`ledger
      ensures Drive(old(Tables()), old(stripe), Attempt(userId, request, client, Rollback), env)
              == (Tables(), stripe, Done(Rejected(TransferFailed)))
    {
      DriveOnce(Tables(), stripe, Attempt(userId, request, client, Rollback), env);
      var savedWallets, savedLedger := wallets, ledger;
      var r := ApplyDeltaTx(userId, request.coinsMinor, ADJUSTMENT, PayoutRollback(userId, client));
      if r.Failure? || !env.rollbackCommits {
        wallets, ledger := savedWallets, savedLedger;
      }
    }
  }
}
