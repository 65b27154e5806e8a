/** The payout saga: debit, transfer under Stripe's idempotency key, mark or compensate. The invariant
    that every faithful run keeps. */
module CoinPayout {
  import opened Common
  import opened IdempotencyKeys
  import opened CoinLedger
  import opened CoinOperations
  import opened CoinSystem

  // Assumptions about the environment -------------------------------------------------------------

  /** A key under which a transfer is recorded is used again with the same request only: Stripe answers
      any other request with an error, and the code takes that for a failed transfer. */
  predicate SameRequest(s: Sys, a: Attempt) {
    a.pc.Transfer? && Transferred(s, a.userId, a.client) ==> s.stripe[StripeTransfer(a.userId, a.client)].request == a.request
  }

  /** Every failure the code sees from Stripe is a decline recorded under the key, and the metadata write
      after a transfer may be cut off by a crash but does not raise. */
  predicate Faithful(s: Sys, e: Event) {
    e.PayoutStep? ==> e.env.markWritten && !e.env.reply.Lost? && (e.id in s.attempts ==> SameRequest(s, s.attempts[e.id]))
  }

  predicate FaithfulRun(s: Sys, es: seq<Event>)
    decreases |es|
  {
    es == [] || (Faithful(s, es[0]) && FaithfulRun(Step(s, es[0]), es[1..]))
  }

  lemma {:induction false} FaithfulConcat(s: Sys, es: seq<Event>, fs: seq<Event>)
    ensures FaithfulRun(s, es + fs) <==> FaithfulRun(s, es) && FaithfulRun(Run(s, es), fs)
    decreases |es|
  {
    if es == [] {
      assert es + fs == fs;
    } else {
      assert (es + fs)[1..] == es[1..] + fs;
      FaithfulConcat(Step(s, es[0]), es[1..], fs);
    }
  }

  // The saga invariant ----------------------------------------------------------------------------

  predicate HasDebit(s: Sys, u: Uuid, c: string) {
    HasKey(s.db.ledger, PayoutDebit(u, c))
  }

  predicate HasRollback(s: Sys, u: Uuid, c: string) {
    HasKey(s.db.ledger, PayoutRollback(u, c))
  }

  predicate Recorded(s: Sys, u: Uuid, c: string) {
    StripeTransfer(u, c) in s.stripe
  }

  predicate Transferred(s: Sys, u: Uuid, c: string) {
    Recorded(s, u, c) && s.stripe[StripeTransfer(u, c)].Succeeded?
  }

  predicate TransferredAs(s: Sys, u: Uuid, c: string, t: string) {
    Transferred(s, u, c) && s.stripe[StripeTransfer(u, c)].transferId == t
  }

  predicate WasDeclined(s: Sys, u: Uuid, c: string) {
    Recorded(s, u, c) && s.stripe[StripeTransfer(u, c)].Declined?
  }

  /** What Stripe was asked to send. */
  function CashSent(s: Sys, u: Uuid, c: string): nat
    requires Transferred(s, u, c)
  {
    s.stripe[StripeTransfer(u, c)].request.usdCents
  }

  predicate MarkOk(s: Sys, u: Uuid, c: string, mark: Marking) {
    TransferredAs(s, u, c, mark.transferId) && CashSent(s, u, c) == mark.usdCents
  }

  /** What each position of an attempt knows about the shared state. */
  predicate AttemptOk(s: Sys, a: Attempt) {
    && a.request.coinsMinor > 0
    && match a.pc
       case ReadDebit => true
       case ReadRollback(seen) => seen ==> HasDebit(s, a.userId, a.client)
       case Debit => true
       case Transfer => HasDebit(s, a.userId, a.client)
       case Mark(t) => TransferredAs(s, a.userId, a.client, t) && CashSent(s, a.userId, a.client) == a.request.usdCents
       case Rollback => WasDeclined(s, a.userId, a.client)
       case Done(Paid(t, _, coins, cents)) =>
         TransferredAs(s, a.userId, a.client, t) && coins == a.request.coinsMinor && cents == CashSent(s, a.userId, a.client)
       case Done(Rejected(why)) =>
         && why != KeyConflict
         && (why == Reversed ==> HasRollback(s, a.userId, a.client))
         && (why == TransferFailed ==> WasDeclined(s, a.userId, a.client))
       case Crashed => true
  }

  /** Per (user, client key): Stripe is reached only after the debit, a rollback only after Stripe
      declined, and the debit, which takes coins from the user's own wallet, is marked only with the recorded
      transfer. */
  predicate PairOk(s: Sys, u: Uuid, c: string) {
    && (Recorded(s, u, c) ==> HasDebit(s, u, c))
    && (HasRollback(s, u, c) ==> WasDeclined(s, u, c))
    && (PayoutDebit(u, c) in s.db.marks ==> MarkOk(s, u, c, s.db.marks[PayoutDebit(u, c)]))
    && (HasDebit(s, u, c) ==> IsDebitOf(FindEntry(s.db.ledger, PayoutDebit(u, c)).value, u))
  }

  predicate IsDebitOf(e: Entry, u: Uuid) {
    e.userId == u && e.amountMinor < 0
  }

  ghost predicate SagaInv(s: Sys) {
    && (forall id {:trigger s.attempts[id]} :: id in s.attempts ==> AttemptOk(s, s.attempts[id]))
    && (forall u: Uuid, c: string :: PairOk(s, u, c))
  }

  /** What never gets lost from one state to the next. */
  ghost predicate Monotone(s: Sys, s': Sys) {
    && s.db.ledger <= s'.db.ledger
    && (forall k {:trigger s.stripe[k]} :: k in s.stripe ==> k in s'.stripe && s'.stripe[k] == s.stripe[k])
  }

  lemma {:induction false} FindPersists(l: seq<Entry>, l': seq<Entry>, key: OpKey)
    requires l <= l'
    ensures HasKey(l, key) ==> HasKey(l', key)
  {
    if HasKey(l, key) {
      var i :| 0 <= i < |l| && l[i] == FindEntry(l, key).value;
      assert l'[i] in l';
    }
  }

  /** What an attempt knows stays true while others move. */
  lemma OthersKeepAttempt(s: Sys, s': Sys, a: Attempt)
    requires Monotone(s, s') && AttemptOk(s, a)
    ensures AttemptOk(s', a)
  {
    FindPersists(s.db.ledger, s'.db.ledger, PayoutDebit(a.userId, a.client));
    FindPersists(s.db.ledger, s'.db.ledger, PayoutRollback(a.userId, a.client));
  }

  /** A step that appends one entry that is not a payout entry, or none, keeps the saga invariant. */
  lemma ForeignEntry(s: Sys, s': Sys, e: Entry)
    requires SagaInv(s)
    requires s'.db.ledger == s.db.ledger + [e] && s'.db.marks == s.db.marks
    requires s'.stripe == s.stripe && s'.attempts == s.attempts
    requires !e.key.PayoutDebit? && !e.key.PayoutRollback?
    ensures SagaInv(s')
  {
    forall id | id in s'.attempts ensures AttemptOk(s', s'.attempts[id]) {
      OthersKeepAttempt(s, s', s.attempts[id]);
    }
    forall u: Uuid, c: string ensures PairOk(s', u, c) {
      assert PairOk(s, u, c);
      FindAppend(s.db.ledger, e, PayoutDebit(u, c));
      FindAppend(s.db.ledger, e, PayoutRollback(u, c));
    }
  }

  /** The saga reads the ledger, the transfer ids, Stripe and the attempts only. */
  lemma SameSaga(s: Sys, s': Sys)
    requires SagaInv(s)
    requires s'.db.ledger == s.db.ledger && s'.db.marks == s.db.marks
    requires s'.stripe == s.stripe && s'.attempts == s.attempts
    ensures SagaInv(s')
  {
    forall id | id in s'.attempts ensures AttemptOk(s', s'.attempts[id]) {
      assert AttemptOk(s, s.attempts[id]);
    }
    forall u: Uuid, c: string ensures PairOk(s', u, c) {
      assert PairOk(s, u, c);
    }
  }

  lemma UnlockCommitKeepsSaga(s: Sys, correlation: Uuid, dbCommits: bool)
    requires TablesInv(s) && SagaInv(s)
    ensures SagaInv(UnlockCommitStep(s, correlation, dbCommits))
  {
    var s' := UnlockCommitStep(s, correlation, dbCommits);
    if correlation in s.calls && s.calls[correlation].open {
      var c := s.calls[correlation].call;
      assert CallOk(s, correlation);
      UnlockTxOutcome(s.db, c);
      if s'.db == s.db {
        SameSaga(s, s');
      } else {
        var mid := s.(db := Posted(s.db, Charge(s.db, c)));
        ForeignEntry(s, mid, Charge(s.db, c));
        ForeignEntry(mid, s', Share(s.db, c));
      }
    }
  }

  lemma NotifyKeepsSaga(s: Sys, e: Event)
    requires TablesInv(s) && SagaInv(s) && e.Notify?
    ensures SagaInv(Step(s, e))
  {
    PurchaseTxOutcome(s.db, e.provider, e.reference, e.userId, e.creditMinor);
    if Step(s, e).db == s.db {
      SameSaga(s, Step(s, e));
    } else {
      ForeignEntry(s, Step(s, e), Credit(s.db, e.provider, e.reference, e.userId, e.creditMinor));
    }
  }

  lemma AdjustKeepsSaga(s: Sys, e: Event)
    requires SagaInv(s) && e.Adjust?
    ensures SagaInv(Step(s, e))
  {
    if Step(s, e).db == s.db {
      SameSaga(s, Step(s, e));
    } else {
      ForeignEntry(s, Step(s, e), NewEntry(s.db, e.userId, e.amountMinor, ADJUSTMENT, AdminAdjust(e.userId, e.client)));
    }
  }

  /** How one step of attempt `a` changes the saga's part of the state. */
  ghost predicate Moved(s: Sys, s': Sys, id: nat, a: Attempt, env: Env) {
    && id in s.attempts && s.attempts[id] == a
    && s' == PayoutStepStep(s, id, env)
  }

  lemma MovedIsMonotone(s: Sys, s': Sys, id: nat, a: Attempt, env: Env)
    requires Moved(s, s', id, a, env)
    ensures Monotone(s, s')
  {
  }

  /** The pair the attempt works on stays in order, and the attempt knows what its new position
      says it knows. */
  lemma MovedPair(s: Sys, s': Sys, id: nat, a: Attempt, env: Env)
    requires AttemptOk(s, a) && PairOk(s, a.userId, a.client) && Moved(s, s', id, a, env)
    requires env.markWritten && !env.reply.Lost? && SameRequest(s, a)
    ensures AttemptOk(s', s'.attempts[id])
    ensures PairOk(s', a.userId, a.client)
  {
    var u, c, l := a.userId, a.client, s.db.ledger;
    if a.pc.Debit? && s'.db != s.db {
      var e := NewEntry(s.db, u, 0 - a.request.coinsMinor, PAYOUT, PayoutDebit(u, c));
      FindAppend(l, e, PayoutDebit(u, c));
      FindAppend(l, e, PayoutRollback(u, c));
    } else if a.pc.Rollback? && s'.db != s.db {
      var e := NewEntry(s.db, u, a.request.coinsMinor, ADJUSTMENT, PayoutRollback(u, c));
      FindAppend(l, e, PayoutDebit(u, c));
      FindAppend(l, e, PayoutRollback(u, c));
    }
  }

  /** A step of an attempt writes under the three keys of its own pair and nowhere else. */
  ghost predicate TouchesOnly(s: Sys, s': Sys, u: Uuid, c: string) {
    && (s'.db.ledger == s.db.ledger
        || exists e: Entry :: s'.db.ledger == s.db.ledger + [e] && (e.key == PayoutDebit(u, c) || e.key == PayoutRollback(u, c)))
    && s'.db.marks - {PayoutDebit(u, c)} == s.db.marks - {PayoutDebit(u, c)}
    && s'.stripe - {StripeTransfer(u, c)} == s.stripe - {StripeTransfer(u, c)}
  }

  lemma MovedTouchesOnly(s: Sys, s': Sys, id: nat, a: Attempt, env: Env)
    requires Moved(s, s', id, a, env)
    ensures TouchesOnly(s, s', a.userId, a.client)
  {
    if a.pc.Debit? && s'.db != s.db {
      assert s'.db.ledger == s.db.ledger + [NewEntry(s.db, a.userId, 0 - a.request.coinsMinor, PAYOUT, PayoutDebit(a.userId, a.client))];
    } else if a.pc.Rollback? && s'.db != s.db {
      assert s'.db.ledger == s.db.ledger + [NewEntry(s.db, a.userId, a.request.coinsMinor, ADJUSTMENT, PayoutRollback(a.userId, a.client))];
    }
  }

  lemma OtherPairs(s: Sys, s': Sys, u: Uuid, c: string, v: Uuid, d: string)
    requires PairOk(s, v, d) && TouchesOnly(s, s', u, c) && (v, d) != (u, c)
    ensures PairOk(s', v, d)
  {
    if s'.db.ledger != s.db.ledger {
      var e: Entry :| s'.db.ledger == s.db.ledger + [e] && (e.key == PayoutDebit(u, c) || e.key == PayoutRollback(u, c));
      FindAppend(s.db.ledger, e, PayoutDebit(v, d));
      FindAppend(s.db.ledger, e, PayoutRollback(v, d));
    }
    var k := StripeTransfer(v, d);
    assert k in s.stripe <==> k in s.stripe - {StripeTransfer(u, c)};
    assert k in s'.stripe <==> k in s'.stripe - {StripeTransfer(u, c)};
    var m := PayoutDebit(v, d);
    assert m in s'.db.marks <==> m in s'.db.marks - {PayoutDebit(u, c)};
    assert m in s.db.marks <==> m in s.db.marks - {PayoutDebit(u, c)};
  }

  lemma PayoutKeepsSaga(s: Sys, id: nat, env: Env)
    requires SagaInv(s) && env.markWritten && !env.reply.Lost? && (id in s.attempts ==> SameRequest(s, s.attempts[id]))
    ensures SagaInv(PayoutStepStep(s, id, env))
  {
    if id in s.attempts {
      var a, s' := s.attempts[id], PayoutStepStep(s, id, env);
      MovedIsMonotone(s, s', id, a, env);
      MovedTouchesOnly(s, s', id, a, env);
      assert PairOk(s, a.userId, a.client);
      MovedPair(s, s', id, a, env);
      forall other | other in s'.attempts ensures AttemptOk(s', s'.attempts[other]) {
        if other != id {
          OthersKeepAttempt(s, s', s.attempts[other]);
        }
      }
      forall u: Uuid, c: string ensures PairOk(s', u, c) {
        if (u, c) != (a.userId, a.client) {
          assert PairOk(s, u, c);
          OtherPairs(s, s', a.userId, a.client, u, c);
        }
      }
    }
  }

  /** Starting and crashing attempts. */
  lemma BookkeepingKeepsSaga(s: Sys, s': Sys, id: nat, a: Attempt)
    requires SagaInv(s) && s' == s.(attempts := s.attempts[id := a]) && AttemptOk(s, a)
    ensures SagaInv(s')
  {
    forall other | other in s'.attempts ensures AttemptOk(s', s'.attempts[other]) {
      OthersKeepAttempt(s, s', s'.attempts[other]);
    }
    forall u: Uuid, c: string ensures PairOk(s', u, c) {
      assert PairOk(s, u, c);
    }
  }

  lemma StepKeepsSaga(s: Sys, e: Event)
    requires TablesInv(s) && SagaInv(s) && Faithful(s, e)
    ensures SagaInv(Step(s, e))
  {
    match e
    case UnlockRead(_, _, _, _) => SameSaga(s, Step(s, e));
    case UnlockCommit(c, ok) => UnlockCommitKeepsSaga(s, c, ok);
    case Notify(_, _, _, _, _) => NotifyKeepsSaga(s, e);
    case Adjust(_, _, _, _) => AdjustKeepsSaga(s, e);
    case PayoutStart(id, u, q, c) =>
      if id !in s.attempts && q.coinsMinor > 0 {
        BookkeepingKeepsSaga(s, Step(s, e), id, Attempt(u, q, c, ReadDebit));
      }
    case PayoutStep(id, env) => PayoutKeepsSaga(s, id, env);
    case PayoutCrash(id) =>
      if id in s.attempts && !s.attempts[id].pc.Done? {
        assert AttemptOk(s, s.attempts[id]);
        BookkeepingKeepsSaga(s, Step(s, e), id, s.attempts[id].(pc := Crashed));
      }
  }

  lemma {:induction false} RunKeepsSaga(s: Sys, es: seq<Event>)
    requires TablesInv(s) && SagaInv(s) && FaithfulRun(s, es)
    ensures TablesInv(Run(s, es)) && SagaInv(Run(s, es))
    decreases |es|
  {
    if es == [] {
    } else {
      StepKeepsTables(s, es[0]);
      StepKeepsSaga(s, es[0]);
      RunKeepsSaga(Step(s, es[0]), es[1..]);
    }
  }

  lemma SagaAlways(es: seq<Event>, u: Uuid, c: string)
    requires FaithfulRun(INIT, es)
    ensures TablesInv(Run(INIT, es)) && SagaInv(Run(INIT, es)) && PairOk(Run(INIT, es), u, c)
  {
    InitTables();
    RunKeepsSaga(INIT, es);
    assert PairOk(Run(INIT, es), u, c);
  }
}
