/** Exact conditions for one uninterrupted `requestPayout` call: when it both transfers and compensates,
    and when coins and cash come out even. */
module PayoutConditions {
  import opened Common
  import opened IdempotencyKeys
  import opened CoinLedger
  import opened CoinPricing
  import opened CoinOperations
  import opened CoinSystem
  import opened CoinPayout
  import opened PayoutMoney
  import opened PayoutRecovery

  // Up to Stripe ----------------------------------------------------------------------------------

  /** What a call that is not answered from the marked debit, not refused for a rollback and not
      stopped at the debit does next: it asks Stripe. */
  ghost predicate ReachesStripe(s: Sys, u: Uuid, q: Request, c: string) {
    && !(HasDebit(s, u, c) && IsMarked(s.db, u, c))
    && !HasRollback(s, u, c)
    && (HasDebit(s, u, c) || Balance(s.db.wallets, u) >= q.coinsMinor)
  }

  /** Without a marked debit and without a rollback the two reads lead on to the debit or to Stripe. */
  lemma DriveReads(s: Sys, u: Uuid, q: Request, c: string, env: Env)
    requires PairOk(s, u, c) && !HasRollback(s, u, c)
    requires !(HasDebit(s, u, c) && IsMarked(s.db, u, c))
    ensures Drive(s.db, s.stripe, Attempt(u, q, c, ReadDebit), env)
            == Drive(s.db, s.stripe, Attempt(u, q, c, if HasDebit(s, u, c) then Transfer else Debit), env)
  {
    DriveOnce(s.db, s.stripe, Attempt(u, q, c, ReadDebit), env);
    DriveOnce(s.db, s.stripe, Attempt(u, q, c, ReadRollback(HasDebit(s, u, c))), env);
  }

  /** The tables when a call that reaches Stripe asks it. */
  function DbAtStripe(s: Sys, u: Uuid, q: Request, c: string): Db {
    if HasDebit(s, u, c) then s.db else Posted(s.db, PayoutEntry(s.db, u, q.coinsMinor, c))
  }

  /** The position at which a call that reaches Stripe asks it. */
  lemma DriveToStripe(s: Sys, u: Uuid, q: Request, c: string, env: Env)
    requires LedgerInv(s.db) && PairOk(s, u, c) && env.debitCommits && ReachesStripe(s, u, q, c)
    ensures var db := DbAtStripe(s, u, q, c);
            && LedgerInv(db) && !HasKey(db.ledger, PayoutRollback(u, c))
            && Drive(s.db, s.stripe, Attempt(u, q, c, ReadDebit), env)
               == Drive(db, s.stripe, Attempt(u, q, c, Transfer), env)
  {
    DriveReads(s, u, q, c, env);
    if !HasDebit(s, u, c) {
      var e := PayoutEntry(s.db, u, q.coinsMinor, c);
      DriveOnce(s.db, s.stripe, Attempt(u, q, c, Debit), env);
      FindAppend(s.db.ledger, e, PayoutRollback(u, c));
      PostedKeepsLedger(s.db, e);
    }
  }

  // Transfer and compensation ---------------------------------------------------------------------

  /** Stripe ends up with a transfer under the key, recorded before or made by this call. */
  predicate EndsWithTransfer(stripe: map<OpKey, StripeRecord>, u: Uuid, c: string, reply: Reply) {
    var k := StripeTransfer(u, c);
    if k in stripe then stripe[k].Succeeded? else reply.Accept? || (reply.Lost? && reply.executed)
  }

  /** From Stripe on: the coins are given back exactly when the code sees a failure. */
  lemma DriveFromStripe(db: Db, stripe: map<OpKey, StripeRecord>, u: Uuid, q: Request, c: string, env: Env)
    requires LedgerInv(db) && !HasKey(db.ledger, PayoutRollback(u, c)) && env.rollbackCommits
    ensures var r := Drive(db, stripe, Attempt(u, q, c, Transfer), env);
            var k := StripeTransfer(u, c);
            && (k in r.1 && r.1[k].Succeeded? <==> EndsWithTransfer(stripe, u, c, env.reply))
            && (HasKey(r.0.ledger, PayoutRollback(u, c)) <==>
                  !EndsWithTransfer(stripe, u, c, env.reply) || env.reply.Lost? || !env.markWritten || KeyConflicts(stripe, u, c, q))
  {
    var a := Attempt(u, q, c, Transfer);
    var (_, stripe1, pc1) := PayoutNext(db, stripe, a, env);
    AskStripe(db, stripe, a, env);
    DriveOnce(db, stripe, a, env);
    if pc1.Mark? {
      DriveMark(db, stripe1, a.(pc := pc1), env);
    } else {
      DriveRollback(db, stripe1, a.(pc := pc1), env);
    }
  }

  lemma AskStripe(db: Db, stripe: map<OpKey, StripeRecord>, a: Attempt, env: Env)
    requires a.pc == Transfer
    ensures var k := StripeTransfer(a.userId, a.client);
            var transferred := EndsWithTransfer(stripe, a.userId, a.client, env.reply);
            var (db', stripe', pc) := PayoutNext(db, stripe, a, env);
            && db' == db
            && (k in stripe ==> stripe' == stripe)
            && (k !in stripe && !env.reply.Lost? ==>
                  k in stripe' && stripe'[k].request == a.request && (stripe'[k].Succeeded? <==> env.reply.Accept?))
            && (k in stripe' && stripe'[k].Succeeded? <==> transferred)
            && (if transferred && !env.reply.Lost? && !KeyConflicts(stripe, a.userId, a.client, a.request) then pc.Mark? else pc == Rollback)
  {
  }

  lemma DriveMark(db: Db, stripe: map<OpKey, StripeRecord>, a: Attempt, env: Env)
    requires a.pc.Mark? && LedgerInv(db) && !HasKey(db.ledger, PayoutRollback(a.userId, a.client)) && env.rollbackCommits
    ensures var r := Drive(db, stripe, a, env);
            && r.1 == stripe && (HasKey(r.0.ledger, PayoutRollback(a.userId, a.client)) <==> !env.markWritten)
            && (env.markWritten ==> r.0.ledger == db.ledger)
  {
    var next := PayoutNext(db, stripe, a, env);
    DriveOnce(db, stripe, a, env);
    if env.markWritten {
      assert next.2.Done? && next.1 == stripe && next.0.ledger == db.ledger;
      DriveDone(next.0, stripe, a.(pc := next.2), env);
    } else {
      assert next == (db, stripe, Rollback);
      DriveRollback(db, stripe, a.(pc := Rollback), env);
    }
  }

  lemma DriveDone(db: Db, stripe: map<OpKey, StripeRecord>, a: Attempt, env: Env)
    requires a.pc.Done?
    ensures Drive(db, stripe, a, env) == (db, stripe, a.pc)
  {
  }

  function RollbackEntry(db: Db, u: Uuid, n: nat, c: string): Entry {
    NewEntry(db, u, n, ADJUSTMENT, PayoutRollback(u, c))
  }

  lemma DriveRollback(db: Db, stripe: map<OpKey, StripeRecord>, a: Attempt, env: Env)
    requires a.pc == Rollback && LedgerInv(db) && env.rollbackCommits
    ensures var r := Drive(db, stripe, a, env);
            && r.1 == stripe && HasKey(r.0.ledger, PayoutRollback(a.userId, a.client))
            && (!HasKey(db.ledger, PayoutRollback(a.userId, a.client)) ==>
                  r.0 == Posted(db, RollbackEntry(db, a.userId, a.request.coinsMinor, a.client)))
  {
    BalanceIsTotal(db, a.userId);
    RollbackCommits(db, a.userId, a.request.coinsMinor, a.client);
    DriveOnce(db, stripe, a, env);
  }

  /** One uninterrupted call on a healthy pair ends with both a transfer and a rollback exactly when it
      reaches Stripe, Stripe has or makes the transfer, and then the reply is lost, the metadata write
      raises, or the transfer was recorded for another request. */
  lemma TransferAndRollbackExactlyWhen(es: seq<Event>, id: nat, u: Uuid, q: Request, c: string, env: Env)
    requires FaithfulRun(INIT, es) && id !in Run(INIT, es).attempts && q.coinsMinor > 0
    requires env.debitCommits && env.rollbackCommits
    ensures var s := Run(INIT, es);
            var s' := Run(s, RetryEvents(id, u, q, c, env));
            Transferred(s', u, c) && HasRollback(s', u, c) <==>
            && ReachesStripe(s, u, q, c) && EndsWithTransfer(s.stripe, u, c, env.reply)
            && (env.reply.Lost? || !env.markWritten || KeyConflicts(s.stripe, u, c, q))
  {
    var s := Run(INIT, es);
    SagaAlways(es, u, c);
    RetryIsDrive(s, id, u, q, c, env);
    if ReachesStripe(s, u, q, c) {
      DriveToStripe(s, u, q, c, env);
      DriveFromStripe(DbAtStripe(s, u, q, c), s.stripe, u, q, c, env);
    } else {
      StoppedEarly(s, u, q, c, env);
    }
  }

  /** A call that does not reach Stripe changes nothing. */
  lemma StoppedEarly(s: Sys, u: Uuid, q: Request, c: string, env: Env)
    requires PairOk(s, u, c) && !ReachesStripe(s, u, q, c) && env.debitCommits
    ensures var r := Drive(s.db, s.stripe, Attempt(u, q, c, ReadDebit), env);
            r.0 == s.db && r.1 == s.stripe
  {
    var (_, _, pc1) := PayoutNext(s.db, s.stripe, Attempt(u, q, c, ReadDebit), env);
    DriveOnce(s.db, s.stripe, Attempt(u, q, c, ReadDebit), env);
    if pc1.ReadRollback? {
      DriveOnce(s.db, s.stripe, Attempt(u, q, c, pc1), env);
      if !HasRollback(s, u, c) {
        DriveOnce(s.db, s.stripe, Attempt(u, q, c, Debit), env);
      }
    }
  }

  // Coins and cash --------------------------------------------------------------------------------

  /** The wallet lost what Stripe was asked to send for, or nothing if nothing was sent. */
  ghost predicate Squared(s: Sys, u: Uuid, c: string) {
    NetEffect(s, u, c) == if Transferred(s, u, c) then -(s.stripe[StripeTransfer(u, c)].request.coinsMinor as int) else 0
  }

  /** Stripe has or makes the transfer for this very request. */
  lemma DriveAccepted(db: Db, stripe: map<OpKey, StripeRecord>, u: Uuid, q: Request, c: string, env: Env)
    requires LedgerInv(db) && !HasKey(db.ledger, PayoutRollback(u, c))
    requires Works(env) && EndsWithTransfer(stripe, u, c, env.reply) && !KeyConflicts(stripe, u, c, q)
    ensures var r := Drive(db, stripe, Attempt(u, q, c, Transfer), env);
            var k := StripeTransfer(u, c);
            r.0.ledger == db.ledger && k in r.1 && r.1[k].Succeeded? && r.1[k].request == q
  {
    var a := Attempt(u, q, c, Transfer);
    var (_, stripe1, pc1) := PayoutNext(db, stripe, a, env);
    AskStripe(db, stripe, a, env);
    DriveOnce(db, stripe, a, env);
    DriveMark(db, stripe1, a.(pc := pc1), env);
  }

  /** Stripe has declined or declines now. */
  lemma DriveDeclined(db: Db, stripe: map<OpKey, StripeRecord>, u: Uuid, q: Request, c: string, env: Env)
    requires LedgerInv(db) && !HasKey(db.ledger, PayoutRollback(u, c))
    requires env.rollbackCommits && !EndsWithTransfer(stripe, u, c, env.reply)
    ensures var r := Drive(db, stripe, Attempt(u, q, c, Transfer), env);
            var k := StripeTransfer(u, c);
            r.0 == Posted(db, RollbackEntry(db, u, q.coinsMinor, c)) && !(k in r.1 && r.1[k].Succeeded?)
  {
    var a := Attempt(u, q, c, Transfer);
    var (_, stripe1, pc1) := PayoutNext(db, stripe, a, env);
    AskStripe(db, stripe, a, env);
    DriveOnce(db, stripe, a, env);
    DriveRollback(db, stripe1, a.(pc := pc1), env);
  }

  lemma RollbackNet(db: Db, u: Uuid, n: nat, c: string)
    requires LedgerInv(db) && !HasKey(db.ledger, PayoutRollback(u, c))
    ensures var l := Posted(db, RollbackEntry(db, u, n, c)).ledger;
            && HasKey(l, PayoutRollback(u, c))
            && Total(l, OfPayout(u, c)) == AmountUnder(db.ledger, PayoutDebit(u, c)) + n
  {
    BalanceIsTotal(db, u);
    var e := RollbackEntry(db, u, n, c);
    PostedKeepsLedger(db, e);
    NetEffectParts(db.ledger + [e], u, c);
    FindAppend(db.ledger, e, PayoutDebit(u, c));
    FindAppend(db.ledger, e, PayoutRollback(u, c));
  }

  lemma OwnDebitAtStripe(s: Sys, u: Uuid, q: Request, c: string)
    ensures AmountUnder(DbAtStripe(s, u, q, c).ledger, PayoutDebit(u, c))
            == if HasDebit(s, u, c) then -Debited(s, u, c) else -(q.coinsMinor as int)
  {
    FindAppend(s.db.ledger, PayoutEntry(s.db, u, q.coinsMinor, c), PayoutDebit(u, c));
  }

  lemma SquaredFromStripe(db: Db, stripe: map<OpKey, StripeRecord>, u: Uuid, q: Request, c: string, env: Env)
    requires LedgerInv(db) && !HasKey(db.ledger, PayoutRollback(u, c)) && Works(env) && !KeyConflicts(stripe, u, c, q)
    ensures var r := Drive(db, stripe, Attempt(u, q, c, Transfer), env);
            var k := StripeTransfer(u, c);
            (Total(r.0.ledger, OfPayout(u, c)) == if k in r.1 && r.1[k].Succeeded? then -(r.1[k].request.coinsMinor as int) else 0)
            <==> AmountUnder(db.ledger, PayoutDebit(u, c)) == -(q.coinsMinor as int)
  {
    if EndsWithTransfer(stripe, u, c, env.reply) {
      DriveAccepted(db, stripe, u, q, c, env);
      NetEffectParts(db.ledger, u, c);
    } else {
      DriveDeclined(db, stripe, u, q, c, env);
      RollbackNet(db, u, q.coinsMinor, c);
    }
  }

  /** The guard is exact: a call that reaches Stripe leaves the pair squared if and only if the debit
      row it meets, if there is one, took as many coins as it asks for. Whether Stripe transfers,
      declines, or repeats either, and whatever state earlier calls left behind. */
  lemma SquaredExactlyWhen(es: seq<Event>, id: nat, u: Uuid, q: Request, c: string, env: Env)
    requires FaithfulRun(INIT, es) && id !in Run(INIT, es).attempts && q.coinsMinor > 0
    requires Works(env) && !KeyConflicts(Run(INIT, es).stripe, u, c, q) && ReachesStripe(Run(INIT, es), u, q, c)
    ensures Squared(Run(Run(INIT, es), RetryEvents(id, u, q, c, env)), u, c)
            <==> OwnDebit(Run(INIT, es), u, c, q.coinsMinor)
  {
    var s := Run(INIT, es);
    var db := DbAtStripe(s, u, q, c);
    SagaAlways(es, u, c);
    RetryIsDrive(s, id, u, q, c, env);
    DriveToStripe(s, u, q, c, env);
    OwnDebitAtStripe(s, u, q, c);
    SquaredFromStripe(db, s.stripe, u, q, c, env);
  }

  /** When Stripe declines now, or had declined and the compensation was lost, the retry gives back its
      own number of coins: the wallet is even again exactly when the debit row took that number. */
  lemma RestoredExactlyWhen(es: seq<Event>, id: nat, u: Uuid, q: Request, c: string, env: Env)
    requires FaithfulRun(INIT, es) && id !in Run(INIT, es).attempts && q.coinsMinor > 0
    requires env.debitCommits && env.rollbackCommits
    requires var s := Run(INIT, es);
             HasDebit(s, u, c) && !HasRollback(s, u, c) && (WasDeclined(s, u, c) || (!Recorded(s, u, c) && env.reply.Refuse?))
    ensures var s := Run(INIT, es);
            var s' := Run(s, RetryEvents(id, u, q, c, env));
            && HasRollback(s', u, c) && !Transferred(s', u, c)
            && NetEffect(s', u, c) == q.coinsMinor - Debited(s, u, c)
            && (NetEffect(s', u, c) == 0 <==> Debited(s, u, c) == q.coinsMinor)
  {
    var s := Run(INIT, es);
    SagaAlways(es, u, c);
    RetryIsDrive(s, id, u, q, c, env);
    DriveToStripe(s, u, q, c, env);
    DriveDeclined(s.db, s.stripe, u, q, c, env);
    RollbackNet(s.db, u, q.coinsMinor, c);
  }

  /** When Stripe accepts, it sends the cash value of this call, while the wallet keeps paying what the
      debit row took: the two agree exactly when both numbers of coins convert to the same cash. */
  lemma CashExactlyWhen(rate: ValidRate, es: seq<Event>, id: nat, u: Uuid, q: Request, c: string, env: Env)
    requires FaithfulRun(INIT, es) && id !in Run(INIT, es).attempts && q.coinsMinor > 0 && Priced(rate, q)
    requires Works(env) && env.reply.Accept? && HasDebit(Run(INIT, es), u, c) && !Recorded(Run(INIT, es), u, c)
    ensures var s := Run(INIT, es);
            var s' := Run(s, RetryEvents(id, u, q, c, env));
            && Transferred(s', u, c) && !HasRollback(s', u, c)
            && s'.stripe[StripeTransfer(u, c)].request == q && NetEffect(s', u, c) == -Debited(s, u, c) < 0
            && (s'.stripe[StripeTransfer(u, c)].request.usdCents == UsdCents(rate, -NetEffect(s', u, c))
                <==> UsdCents(rate, q.coinsMinor) == UsdCents(rate, Debited(s, u, c)))
  {
    var s := Run(INIT, es);
    SagaAlways(es, u, c);
    RetryIsDrive(s, id, u, q, c, env);
    DriveToStripe(s, u, q, c, env);
    DriveAccepted(s.db, s.stripe, u, q, c, env);
    NetEffectParts(s.db.ledger, u, c);
  }

  /** A call after the compensation is answered "reversed" and changes nothing. */
  lemma ReversedAnswer(es: seq<Event>, id: nat, u: Uuid, q: Request, c: string, env: Env)
    requires FaithfulRun(INIT, es) && id !in Run(INIT, es).attempts && q.coinsMinor > 0
    requires HasRollback(Run(INIT, es), u, c)
    ensures var s := Run(INIT, es);
            var s' := Run(s, RetryEvents(id, u, q, c, env));
            && s'.db == s.db && s'.stripe == s.stripe
            && id in s'.attempts && s'.attempts[id].pc == Done(Rejected(Reversed))
  {
    var s := Run(INIT, es);
    var a := Attempt(u, q, c, ReadDebit);
    SagaAlways(es, u, c);
    RetryIsDrive(s, id, u, q, c, env);
    DriveOnce(s.db, s.stripe, a, env);
    DriveOnce(s.db, s.stripe, a.(pc := ReadRollback(true)), env);
    DriveDone(s.db, s.stripe, a.(pc := Done(Rejected(Reversed))), env);
  }

  // The answer ------------------------------------------------------------------------------------

  predicate NotYetDuplicate(pc: Pc) {
    !pc.ReadDebit? && (pc.Done? && pc.outcome.Paid? ==> !pc.outcome.duplicateRequest)
  }

  /** Past its first read a call does not answer as a duplicate. */
  lemma {:induction false} LaterAnswersAreNew(db: Db, stripe: map<OpKey, StripeRecord>, a: Attempt, env: Env)
    requires NotYetDuplicate(a.pc)
    ensures NotYetDuplicate(Drive(db, stripe, a, env).2)
    decreases StepsLeft(a.pc)
  {
    if StepsLeft(a.pc) == 0 {
    } else {
      var (db', stripe', pc) := PayoutNext(db, stripe, a, env);
      NextIsNew(db, stripe, a, env);
      NextHasLess(db, stripe, a, env);
      DriveOnce(db, stripe, a, env);
      LaterAnswersAreNew(db', stripe', a.(pc := pc), env);
    }
  }

  lemma NextIsNew(db: Db, stripe: map<OpKey, StripeRecord>, a: Attempt, env: Env)
    requires NotYetDuplicate(a.pc)
    ensures NotYetDuplicate(PayoutNext(db, stripe, a, env).2)
  {
  }

  /** A call answers as a duplicate exactly when it finds the pair's debit row marked; it then repeats the
      transfer and the cash of the mark and changes nothing. */
  lemma DuplicateExactlyWhenMarked(es: seq<Event>, id: nat, u: Uuid, q: Request, c: string, env: Env)
    requires FaithfulRun(INIT, es) && id !in Run(INIT, es).attempts && q.coinsMinor > 0
    ensures var s := Run(INIT, es);
            var s' := Run(s, RetryEvents(id, u, q, c, env));
            var marked := HasDebit(s, u, c) && IsMarked(s.db, u, c);
            && id in s'.attempts && s'.attempts[id].pc.Done?
            && (s'.attempts[id].pc.outcome.Paid? && s'.attempts[id].pc.outcome.duplicateRequest <==> marked)
            && (marked ==>
                  var mark := s.db.marks[PayoutDebit(u, c)];
                  && s'.attempts[id].pc.outcome == Paid(mark.transferId, true, q.coinsMinor, mark.usdCents)
                  && s'.db == s.db && s'.stripe == s.stripe)
  {
    var s, a := Run(INIT, es), Attempt(u, q, c, ReadDebit);
    SagaAlways(es, u, c);
    RetryIsDrive(s, id, u, q, c, env);
    DriveOnce(s.db, s.stripe, a, env);
    var (db', stripe', pc) := PayoutNext(s.db, s.stripe, a, env);
    if HasDebit(s, u, c) && IsMarked(s.db, u, c) {
      DriveDone(db', stripe', a.(pc := pc), env);
    } else {
      LaterAnswersAreNew(db', stripe', a.(pc := pc), env);
    }
  }
}
