/** The coin services as one state machine. Each transaction is one step; everything an `unlockPost`
    or `requestPayout` call does outside a transaction is a step of its own, so any number of calls
    interleave, stop half-way and are retried. A run is any sequence of events; an event that does
    not apply to the state changes nothing. */
module CoinSystem {
  import opened Common
  import opened IdempotencyKeys
  import opened CoinLedger
  import opened CoinPricing
  import opened CoinOperations

  // State -----------------------------------------------------------------------------------------

  /** The post columns an unlock call reads; posts change freely between reads. */
  datatype PostView = PostView(authorId: Uuid, published: bool, monetized: bool, price: Option<int>)

  /** An unlock call between its reads (`open`) and the end of its transaction. */
  datatype Progress = Progress(call: UnlockCall, open: bool)

  /** What a payout asks for: the coins, their cash value as configured at the time of the call, and
      the connected account. All of it goes into the request to Stripe. */
  datatype Request = Request(coinsMinor: nat, usdCents: nat, account: string)

  /** What Stripe recorded under an idempotency key, with the request it was recorded for. */
  datatype StripeRecord = Succeeded(request: Request, transferId: string) | Declined(request: Request)

  datatype Refusal = KeyConflict | Reversed | Busy | CannotDebit | TransferFailed

  /** The ok answer reports the caller's own number of coins. */
  datatype Outcome = Paid(transferId: string, duplicateRequest: bool, coinsMinor: nat, usdCents: nat) | Rejected(why: Refusal)

  /** Where a payout attempt stands; each constructor is the next thing it will do. */
  datatype Pc =
    | ReadDebit
    | ReadRollback(debitSeen: bool)
    | Debit
    | Transfer
    | Mark(transferId: string)
    | Rollback
    | Done(outcome: Outcome)
    | Crashed

  datatype Attempt = Attempt(userId: Uuid, request: Request, client: string, pc: Pc)

  datatype Sys = Sys(
    db: Db,
    calls: map<Uuid, Progress>,
    attempts: map<nat, Attempt>,
    stripe: map<OpKey, StripeRecord>)

  const INIT := Sys(EMPTY, map[], map[], map[])

  // Events ----------------------------------------------------------------------------------------

  /** Stripe's answer to a key it has not seen. `Lost` is a failure it did not record as such: the
      connection broke, whether or not the transfer was executed. */
  datatype Reply = Accept(transferId: string) | Refuse | Lost(executed: bool, transferId: string)

  /** The environment of a payout attempt: whether its two transactions commit, what Stripe says to a
      new key, and whether the metadata write after a transfer goes through. */
  datatype Env = Env(debitCommits: bool, reply: Reply, markWritten: bool, rollbackCommits: bool)

  datatype Event =
    | UnlockRead(correlation: Uuid, viewerId: Uuid, postId: Uuid, view: Option<PostView>)
    | UnlockCommit(correlation: Uuid, dbCommits: bool)
    | Notify(provider: Provider, reference: string, userId: Uuid, creditMinor: int, dbCommits: bool)
    | Adjust(userId: Uuid, amountMinor: int, client: string, dbCommits: bool)
    | PayoutStart(id: nat, userId: Uuid, request: Request, client: string)
    | PayoutStep(id: nat, env: Env)
    | PayoutCrash(id: nat)

  // Steps -----------------------------------------------------------------------------------------

  /** A transaction that the database may abort. */
  function Commit(db: Db, tx: Result<Db, CoinError>, dbCommits: bool): Db {
    if dbCommits && tx.Success? then tx.value else db
  }

  predicate MayUnlock(viewerId: Uuid, view: PostView) {
    && view.published && view.monetized && view.authorId != viewerId
    && view.price.Some? && view.price.value > 0
  }

  function UnlockReadStep(s: Sys, correlation: Uuid, viewerId: Uuid, postId: Uuid, view: Option<PostView>): Sys {
    if view.Some? && MayUnlock(viewerId, view.value) && !HasUnlock(s.db.unlocks, viewerId, postId)
       && correlation !in s.calls
    then
      var call := UnlockCall(viewerId, postId, view.value.authorId, view.value.price.value, correlation);
      s.(calls := s.calls[correlation := Progress(call, true)])
    else s
  }

  function UnlockCommitStep(s: Sys, correlation: Uuid, dbCommits: bool): Sys {
    if correlation in s.calls && s.calls[correlation].open then
      var call := s.calls[correlation].call;
      s.(db := Commit(s.db, UnlockTx(s.db, call), dbCommits), calls := s.calls[correlation := Progress(call, false)])
    else s
  }

  /** One step of a payout attempt: the tables, Stripe's records and the next position. Under a key it
      knows, Stripe replays a recorded transfer to the same request and answers any other with an
      error. */
  function PayoutNext(db: Db, stripe: map<OpKey, StripeRecord>, a: Attempt, env: Env)
    : (Db, map<OpKey, StripeRecord>, Pc)
  {
    var debitKey := PayoutDebit(a.userId, a.client);
    var stripeKey := StripeTransfer(a.userId, a.client);
    match a.pc
    case ReadDebit =>
      var existing := FindEntry(db.ledger, debitKey);
      if existing.Some? && existing.value.userId != a.userId then (db, stripe, Done(Rejected(KeyConflict)))
      else if existing.Some? && IsMarked(db, a.userId, a.client) then
        (db, stripe, Done(Paid(db.marks[debitKey].transferId, true, a.request.coinsMinor, db.marks[debitKey].usdCents)))
      else (db, stripe, ReadRollback(existing.Some?))
    case ReadRollback(debitSeen) =>
      if HasKey(db.ledger, PayoutRollback(a.userId, a.client)) then (db, stripe, Done(Rejected(Reversed)))
      else (db, stripe, if debitSeen then Transfer else Debit)
    case Debit =>
      var tx := PayoutDebitTx(db, a.userId, a.request.coinsMinor, a.client);
      if !env.debitCommits then (db, stripe, Done(Rejected(Busy)))
      else if tx.Failure? then (db, stripe, Done(Rejected(CannotDebit)))
      else (tx.value, stripe, Transfer)
    case Transfer =>
      var record :=
        if stripeKey in stripe then stripe
        else
          match env.reply
          case Accept(t) => stripe[stripeKey := Succeeded(a.request, t)]
          case Refuse => stripe[stripeKey := Declined(a.request)]
          case Lost(executed, t) => if executed then stripe[stripeKey := Succeeded(a.request, t)] else stripe;
      if !env.reply.Lost? && record[stripeKey].Succeeded? && record[stripeKey].request == a.request then (db, record, Mark(record[stripeKey].transferId))
      else (db, record, Rollback)
    case Mark(t) =>
      if env.markWritten then
        (MarkTransferred(db, a.userId, a.client, Marking(t, a.request.usdCents)), stripe,
         Done(Paid(t, false, a.request.coinsMinor, a.request.usdCents)))
      else (db, stripe, Rollback)
    case Rollback =>
      (Commit(db, PayoutRollbackTx(db, a.userId, a.request.coinsMinor, a.client), env.rollbackCommits), stripe,
       Done(Rejected(TransferFailed)))
    case Done(_) => (db, stripe, a.pc)
    case Crashed => (db, stripe, a.pc)
  }

  function PayoutStepStep(s: Sys, id: nat, env: Env): Sys {
    if id in s.attempts then
      var a := s.attempts[id];
      var (db, stripe, pc) := PayoutNext(s.db, s.stripe, a, env);
      s.(db := db, stripe := stripe, attempts := s.attempts[id := a.(pc := pc)])
    else s
  }

  /** Attempts reach the saga only with at least one coin; the identifiers of attempts are fresh. */
  function PayoutStartStep(s: Sys, id: nat, userId: Uuid, request: Request, client: string): Sys {
    if id !in s.attempts && request.coinsMinor > 0 then
      s.(attempts := s.attempts[id := Attempt(userId, request, client, ReadDebit)])
    else s
  }

  function PayoutCrashStep(s: Sys, id: nat): Sys {
    if id in s.attempts && !s.attempts[id].pc.Done? then
      s.(attempts := s.attempts[id := s.attempts[id].(pc := Crashed)])
    else s
  }

  function Step(s: Sys, e: Event): Sys {
    match e
    case UnlockRead(c, v, p, view) => UnlockReadStep(s, c, v, p, view)
    case UnlockCommit(c, ok) => UnlockCommitStep(s, c, ok)
    case Notify(p, r, u, n, ok) => s.(db := Commit(s.db, PurchaseTx(s.db, p, r, u, n), ok))
    case Adjust(u, n, c, ok) => s.(db := Commit(s.db, AdjustTx(s.db, u, n, c), ok))
    case PayoutStart(id, u, q, c) => PayoutStartStep(s, id, u, q, c)
    case PayoutStep(id, env) => PayoutStepStep(s, id, env)
    case PayoutCrash(id) => PayoutCrashStep(s, id)
  }

  function Run(s: Sys, es: seq<Event>): Sys
    decreases |es|
  {
    if es == [] then s else Run(Step(s, es[0]), es[1..])
  }

  lemma {:induction false} RunConcat(s: Sys, es: seq<Event>, fs: seq<Event>)
    ensures Run(s, es + fs) == Run(Run(s, es), fs)
    decreases |es|
  {
    if es == [] {
      assert es + fs == fs;
    } else {
      assert (es + fs)[1..] == es[1..] + fs;
      RunConcat(Step(s, es[0]), es[1..], fs);
    }
  }

  // The tables in every run -----------------------------------------------------------------------

  predicate CallKnown(calls: map<Uuid, Progress>, e: Entry) {
    && (e.key.UnlockSpend? ==> e.key.correlation in calls)
    && (e.key.UnlockEarn? ==> e.key.correlation in calls)
  }

  ghost predicate CallOk(s: Sys, correlation: Uuid)
    requires correlation in s.calls
  {
    var p := s.calls[correlation];
    && p.call.correlation == correlation && ValidCall(p.call)
    && (p.open ==> FreshCorrelation(s.db.ledger, correlation))
  }

  /** Correlation ids are not reused, and an open call has written nothing yet. */
  ghost predicate CallsInv(s: Sys) {
    && (forall i {:trigger CallKnown(s.calls, s.db.ledger[i])} :: 0 <= i < |s.db.ledger| ==>
          CallKnown(s.calls, s.db.ledger[i]))
    && (forall c {:trigger CallOk(s, c)} :: c in s.calls ==> CallOk(s, c))
  }

  ghost predicate TablesInv(s: Sys) {
    CoinsInv(s.db) && CallsInv(s)
  }

  lemma UnlockReadKeepsTables(s: Sys, correlation: Uuid, viewerId: Uuid, postId: Uuid, view: Option<PostView>)
    requires TablesInv(s)
    ensures TablesInv(UnlockReadStep(s, correlation, viewerId, postId, view))
  {
    var s' := UnlockReadStep(s, correlation, viewerId, postId, view);
    forall i | 0 <= i < |s'.db.ledger| ensures CallKnown(s'.calls, s'.db.ledger[i]) {
      assert CallKnown(s.calls, s.db.ledger[i]);
    }
    forall c | c in s'.calls ensures CallOk(s', c) {
      if c in s.calls {
        assert CallOk(s, c);
      } else {
        assert forall i :: 0 <= i < |s.db.ledger| ==> CallKnown(s.calls, s.db.ledger[i]);
      }
    }
  }

  /** Entries that are not unlock entries leave the calls as they are. */
  lemma SameCalls(s: Sys, s': Sys, e: Entry)
    requires CallsInv(s) && s'.calls == s.calls && s'.db.ledger == s.db.ledger + [e]
    requires !e.key.UnlockSpend? && !e.key.UnlockEarn?
    ensures CallsInv(s')
  {
    forall i | 0 <= i < |s'.db.ledger| ensures CallKnown(s'.calls, s'.db.ledger[i]) {
      assert i < |s.db.ledger| ==> CallKnown(s.calls, s.db.ledger[i]);
    }
    forall c | c in s'.calls ensures CallOk(s', c) {
      assert CallOk(s, c);
    }
  }

  /** What a commit does: nothing, or the charge and the share. */
  lemma UnlockCommitEntries(s: Sys, correlation: Uuid, dbCommits: bool)
    requires TablesInv(s) && correlation in s.calls && s.calls[correlation].open
    ensures var c, db' := s.calls[correlation].call, UnlockCommitStep(s, correlation, dbCommits).db;
            && c.correlation == correlation
            && (db' == s.db || db'.ledger == s.db.ledger + [Charge(s.db, c)] + [Share(s.db, c)])
  {
    assert CallOk(s, correlation);
    UnlockTxOutcome(s.db, s.calls[correlation].call);
  }

  /** A call that ends, with or without its two entries, keeps the calls in order. */
  lemma EndedCallKeepsCalls(s: Sys, s': Sys, correlation: Uuid, e: Entry, f: Entry)
    requires CallsInv(s) && correlation in s.calls
    requires s'.calls == s.calls[correlation := s.calls[correlation].(open := false)]
    requires s'.db.ledger == s.db.ledger || s'.db.ledger == s.db.ledger + [e] + [f]
    requires e.key.UnlockSpend? && e.key.correlation == correlation
    requires f.key.UnlockEarn? && f.key.correlation == correlation
    ensures CallsInv(s')
  {
    forall i | 0 <= i < |s'.db.ledger| ensures CallKnown(s'.calls, s'.db.ledger[i]) {
      assert i < |s.db.ledger| ==> CallKnown(s.calls, s.db.ledger[i]);
    }
    forall c | c in s'.calls ensures CallOk(s', c) {
      assert CallOk(s, c);
    }
  }

  lemma UnlockCommitKeepsCalls(s: Sys, correlation: Uuid, dbCommits: bool)
    requires TablesInv(s)
    ensures CallsInv(UnlockCommitStep(s, correlation, dbCommits))
  {
    if correlation in s.calls && s.calls[correlation].open {
      var c := s.calls[correlation].call;
      UnlockCommitEntries(s, correlation, dbCommits);
      EndedCallKeepsCalls(s, UnlockCommitStep(s, correlation, dbCommits), correlation, Charge(s.db, c), Share(s.db, c));
    }
  }

  lemma UnlockCommitKeepsTables(s: Sys, correlation: Uuid, dbCommits: bool)
    requires TablesInv(s)
    ensures TablesInv(UnlockCommitStep(s, correlation, dbCommits))
  {
    UnlockCommitKeepsCalls(s, correlation, dbCommits);
    if correlation in s.calls && s.calls[correlation].open {
      assert CallOk(s, correlation);
      var call := s.calls[correlation].call;
      UnlockTxOutcome(s.db, call);
      if UnlockTx(s.db, call).Success? {
        UnlockKeepsInv(s.db, call);
      }
    }
  }

  lemma NotifyKeepsTables(s: Sys, provider: Provider, reference: string, userId: Uuid, coinsMinor: int, dbCommits: bool)
    requires TablesInv(s)
    ensures TablesInv(s.(db := Commit(s.db, PurchaseTx(s.db, provider, reference, userId, coinsMinor), dbCommits)))
  {
    var s' := s.(db := Commit(s.db, PurchaseTx(s.db, provider, reference, userId, coinsMinor), dbCommits));
    PurchaseTxOutcome(s.db, provider, reference, userId, coinsMinor);
    if s'.db != s.db {
      PurchaseKeepsInv(s.db, provider, reference, userId, coinsMinor);
      SameCalls(s, s', Credit(s.db, provider, reference, userId, coinsMinor));
    } else {
      assert s' == s;
    }
  }

  /** Adjustments, payout debits and payout rollbacks. */
  lemma OutsideKeepsTables(s: Sys, s': Sys, userId: Uuid, amountMinor: int, kind: TxnType, key: OpKey)
    requires TablesInv(s) && s'.calls == s.calls
    requires kind == ADJUSTMENT || kind == PAYOUT
    requires !key.UnlockSpend? && !key.UnlockEarn? && !key.PurchaseCredit?
    requires ApplyDelta(s.db, userId, amountMinor, kind, key).Success?
    requires s'.db == ApplyDelta(s.db, userId, amountMinor, kind, key).value.db
    ensures TablesInv(s')
  {
    OutsideKeepsInv(s.db, userId, amountMinor, kind, key);
    if HasKey(s.db.ledger, key) {
      SameDbKeepsTables(s, s');
    } else {
      SameCalls(s, s', NewEntry(s.db, userId, amountMinor, kind, key));
    }
  }

  lemma SameDbKeepsTables(s: Sys, s': Sys)
    requires TablesInv(s) && s'.calls == s.calls
    requires s'.db.(marks := s.db.marks) == s.db
    ensures TablesInv(s')
  {
    forall i | 0 <= i < |s'.db.ledger| ensures CallKnown(s'.calls, s'.db.ledger[i]) {
      assert CallKnown(s.calls, s.db.ledger[i]);
    }
    forall c | c in s'.calls ensures CallOk(s', c) {
      assert CallOk(s, c);
    }
    assert RowsCharged(s'.db) && ChargesRecorded(s'.db) by {
      assert forall k :: 0 <= k < |s.db.unlocks| ==> RowCharged(s.db.ledger, s.db.unlocks[k]);
      assert forall i :: 0 <= i < |s.db.ledger| ==> ChargeRecorded(s.db.unlocks, s.db.ledger[i]);
    }
    assert PurchasesInv(s'.db) by {
      assert forall k :: 0 <= k < |s.db.purchases| ==> RowCredited(s.db.ledger, s.db.purchases[k]);
      assert forall i :: 0 <= i < |s.db.ledger| ==> CreditRecorded(s.db.purchases, s.db.ledger[i]);
    }
  }

  lemma PayoutKeepsTables(s: Sys, id: nat, env: Env)
    requires TablesInv(s)
    ensures TablesInv(PayoutStepStep(s, id, env))
  {
    var s' := PayoutStepStep(s, id, env);
    if id in s.attempts {
      var a := s.attempts[id];
      if a.pc.Debit? && s'.db != s.db {
        OutsideKeepsTables(s, s', a.userId, 0 - a.request.coinsMinor, PAYOUT, PayoutDebit(a.userId, a.client));
      } else if a.pc.Rollback? && s'.db != s.db {
        OutsideKeepsTables(s, s', a.userId, a.request.coinsMinor, ADJUSTMENT, PayoutRollback(a.userId, a.client));
      } else {
        SameDbKeepsTables(s, s');
      }
    }
  }

  lemma StepKeepsTables(s: Sys, e: Event)
    requires TablesInv(s)
    ensures TablesInv(Step(s, e))
  {
    match e
    case UnlockRead(c, v, p, view) => UnlockReadKeepsTables(s, c, v, p, view);
    case UnlockCommit(c, ok) => UnlockCommitKeepsTables(s, c, ok);
    case Notify(p, r, u, n, ok) => NotifyKeepsTables(s, p, r, u, n, ok);
    case Adjust(u, n, c, ok) =>
      if Step(s, e).db != s.db {
        OutsideKeepsTables(s, Step(s, e), u, n, ADJUSTMENT, AdminAdjust(u, c));
      } else {
        SameDbKeepsTables(s, Step(s, e));
      }
    case PayoutStart(_, _, _, _) => SameDbKeepsTables(s, Step(s, e));
    case PayoutStep(id, env) => PayoutKeepsTables(s, id, env);
    case PayoutCrash(_) => SameDbKeepsTables(s, Step(s, e));
  }

  lemma {:induction false} RunKeepsTables(s: Sys, es: seq<Event>)
    requires TablesInv(s)
    ensures TablesInv(Run(s, es))
    decreases |es|
  {
    if es == [] {
    } else {
      StepKeepsTables(s, es[0]);
      RunKeepsTables(Step(s, es[0]), es[1..]);
    }
  }

  lemma InitTables()
    ensures TablesInv(INIT)
  {
  }

  /** When an unlock call gets as far as its transaction, and with what. */
  lemma CallOpensExactlyWhen(s: Sys, correlation: Uuid, viewerId: Uuid, postId: Uuid, view: Option<PostView>)
    requires correlation !in s.calls
    ensures var s' := UnlockReadStep(s, correlation, viewerId, postId, view);
            && (correlation in s'.calls <==>
                  && view.Some? && view.value.published && view.value.monetized && view.value.authorId != viewerId
                  && view.value.price.Some? && view.value.price.value > 0
                  && !(exists r :: r in s.db.unlocks && r.userId == viewerId && r.postId == postId))
            && (correlation in s'.calls ==>
                  s'.calls[correlation] ==
                  Progress(UnlockCall(viewerId, postId, view.value.authorId, view.value.price.value, correlation), true))
  {
  }

  // The ledger only grows -------------------------------------------------------------------------

  /** What a step appends, if anything, is unlock entries, one purchase credit, or something else. */
  ghost predicate Appends(s: Sys, s': Sys, unlock: bool, purchase: bool) {
    && s.db.ledger <= s'.db.ledger
    && forall i :: |s.db.ledger| <= i < |s'.db.ledger| ==>
         && ((s'.db.ledger[i].key.UnlockSpend? || s'.db.ledger[i].key.UnlockEarn?) <==> unlock)
         && (s'.db.ledger[i].key.PurchaseCredit? <==> purchase)
  }

  lemma UnlockCommitAppends(s: Sys, correlation: Uuid, dbCommits: bool)
    requires TablesInv(s)
    ensures Appends(s, UnlockCommitStep(s, correlation, dbCommits), true, false)
  {
    if correlation in s.calls && s.calls[correlation].open {
      UnlockCommitEntries(s, correlation, dbCommits);
    }
  }

  lemma NotifyAppends(s: Sys, provider: Provider, reference: string, userId: Uuid, coinsMinor: int, dbCommits: bool)
    requires TablesInv(s)
    ensures Appends(s, s.(db := Commit(s.db, PurchaseTx(s.db, provider, reference, userId, coinsMinor), dbCommits)), false, true)
  {
    PurchaseTxOutcome(s.db, provider, reference, userId, coinsMinor);
  }

  lemma PayoutGrows(s: Sys, id: nat, env: Env)
    ensures s.db.ledger <= PayoutStepStep(s, id, env).db.ledger
  {
  }

  lemma StepGrows(s: Sys, e: Event)
    requires TablesInv(s)
    ensures s.db.ledger <= Step(s, e).db.ledger
  {
    match e
    case UnlockCommit(c, ok) => UnlockCommitAppends(s, c, ok);
    case Notify(p, r, u, n, ok) => NotifyAppends(s, p, r, u, n, ok);
    case PayoutStep(id, env) => PayoutGrows(s, id, env);
    case _ =>
  }

  lemma {:induction false} RunGrows(s: Sys, es: seq<Event>)
    requires TablesInv(s)
    ensures s.db.ledger <= Run(s, es).db.ledger
    decreases |es|
  {
    if es == [] {
    } else {
      StepGrows(s, es[0]);
      StepKeepsTables(s, es[0]);
      RunGrows(Step(s, es[0]), es[1..]);
    }
  }
}
