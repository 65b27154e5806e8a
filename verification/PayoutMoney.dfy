/** What a payout does to the money: the net effect of a (user, client key) pair on the wallet and the
    cash sent, in every faithful run in which a call asks Stripe only for the coins that the pair's
    debit row took. */
module PayoutMoney {
  import opened Common
  import opened IdempotencyKeys
  import opened CoinLedger
  import opened CoinPricing
  import opened CoinOperations
  import opened CoinSystem
  import opened CoinPayout

  /** The signed sum of everything the pair ever did to the wallet. */
  function NetEffect(s: Sys, u: Uuid, c: string): int {
    Total(s.db.ledger, OfPayout(u, c))
  }

  function AmountUnder(ledger: seq<Entry>, key: OpKey): int {
    var e := FindEntry(ledger, key);
    if e.Some? then e.value.amountMinor else 0
  }

  /** With unique keys the net effect is the debit, if any, plus the rollback, if any. */
  lemma {:induction false} NetEffectParts(ledger: seq<Entry>, u: Uuid, c: string)
    requires UniqueKeys(ledger)
    ensures Total(ledger, OfPayout(u, c))
            == AmountUnder(ledger, PayoutDebit(u, c)) + AmountUnder(ledger, PayoutRollback(u, c))
  {
    if ledger == [] {
    } else {
      var n := |ledger| - 1;
      var rest, last := ledger[..n], ledger[n];
      assert ledger == rest + [last];
      LastKeyIsNew(ledger);
      NetEffectParts(rest, u, c);
      FindAppend(rest, last, PayoutDebit(u, c));
      FindAppend(rest, last, PayoutRollback(u, c));
    }
  }

  // The guard -------------------------------------------------------------------------------------

  /** The coins that the pair's debit row took. */
  function Debited(s: Sys, u: Uuid, c: string): int {
    -AmountUnder(s.db.ledger, PayoutDebit(u, c))
  }

  /** What a call can tell from the debit row it has read or made: it is about the same coins. */
  predicate MatchesDebit(s: Sys, a: Attempt) {
    Debited(s, a.userId, a.client) == a.request.coinsMinor
  }

  /** Stripe is asked only by a call that matches the debit row. */
  predicate Guarded(s: Sys, e: Event) {
    e.PayoutStep? && e.id in s.attempts && s.attempts[e.id].pc.Transfer? ==> MatchesDebit(s, s.attempts[e.id])
  }

  predicate GuardedRun(s: Sys, es: seq<Event>)
    decreases |es|
  {
    es == [] || (Guarded(s, es[0]) && GuardedRun(Step(s, es[0]), es[1..]))
  }

  lemma {:induction false} GuardedConcat(s: Sys, es: seq<Event>, fs: seq<Event>)
    ensures GuardedRun(s, es + fs) <==> GuardedRun(s, es) && GuardedRun(Run(s, es), fs)
    decreases |es|
  {
    if es == [] {
      assert es + fs == fs;
    } else {
      assert (es + fs)[1..] == es[1..] + fs;
      GuardedConcat(Step(s, es[0]), es[1..], fs);
    }
  }

  // What a guarded run keeps ----------------------------------------------------------------------

  /** Past the question to Stripe an attempt is about the coins of the debit row. */
  predicate AttemptMatches(s: Sys, a: Attempt) {
    a.pc.Mark? || a.pc.Rollback? ==> MatchesDebit(s, a)
  }

  /** What Stripe recorded and what was given back are the coins of the debit row. */
  predicate PairMatches(s: Sys, u: Uuid, c: string) {
    && (Recorded(s, u, c) ==> s.stripe[StripeTransfer(u, c)].request.coinsMinor == Debited(s, u, c))
    && (HasRollback(s, u, c) ==> AmountUnder(s.db.ledger, PayoutRollback(u, c)) == Debited(s, u, c))
  }

  ghost predicate MoneyInv(s: Sys) {
    && (forall id {:trigger s.attempts[id]} :: id in s.attempts ==> AttemptMatches(s, s.attempts[id]))
    && (forall u: Uuid, c: string :: PairMatches(s, u, c))
  }

  /** An entry stays what its key finds. */
  lemma FindStays(l: seq<Entry>, l': seq<Entry>, key: OpKey)
    requires l <= l' && UniqueKeys(l') && HasKey(l, key)
    ensures FindEntry(l', key) == FindEntry(l, key)
  {
    var e := FindEntry(l, key).value;
    var i :| 0 <= i < |l| && l[i] == e;
    assert l'[i] == e;
    FindIsExact(l', e);
  }

  lemma AttemptStays(s: Sys, s': Sys, a: Attempt)
    requires s.db.ledger <= s'.db.ledger && UniqueKeys(s'.db.ledger)
    requires AttemptOk(s, a) && PairOk(s, a.userId, a.client) && AttemptMatches(s, a)
    ensures AttemptMatches(s', a)
  {
    if a.pc.Mark? || a.pc.Rollback? {
      FindStays(s.db.ledger, s'.db.ledger, PayoutDebit(a.userId, a.client));
    }
  }

  /** Steps that leave Stripe's record of the pair alone and do not compensate. */
  lemma PairStays(s: Sys, s': Sys, u: Uuid, c: string)
    requires s.db.ledger <= s'.db.ledger && UniqueKeys(s'.db.ledger)
    requires PairOk(s, u, c) && PairMatches(s, u, c)
    requires Recorded(s', u, c) ==> Recorded(s, u, c) && s'.stripe[StripeTransfer(u, c)] == s.stripe[StripeTransfer(u, c)]
    requires HasRollback(s', u, c) ==> HasRollback(s, u, c)
    ensures PairMatches(s', u, c)
  {
    if Recorded(s, u, c) {
      FindStays(s.db.ledger, s'.db.ledger, PayoutDebit(u, c));
    }
    if HasRollback(s, u, c) {
      FindStays(s.db.ledger, s'.db.ledger, PayoutRollback(u, c));
    }
  }

  lemma NoNewKey(l: seq<Entry>, l': seq<Entry>, key: OpKey)
    requires l <= l' && HasKey(l', key)
    requires forall i :: |l| <= i < |l'| ==> l'[i].key != key
    ensures HasKey(l, key)
  {
    var i :| 0 <= i < |l'| && l'[i] == FindEntry(l', key).value;
    assert l[i] in l;
  }

  /** Steps that append foreign entries only. */
  lemma ForeignKeepsMoney(s: Sys, s': Sys)
    requires TablesInv(s') && SagaInv(s) && MoneyInv(s)
    requires ForeignStep(s, s')
    ensures MoneyInv(s')
  {
    forall id | id in s'.attempts ensures AttemptMatches(s', s'.attempts[id]) {
      var a := s.attempts[id];
      assert AttemptOk(s, a) && PairOk(s, a.userId, a.client);
      AttemptStays(s, s', a);
    }
    forall u: Uuid, c: string ensures PairMatches(s', u, c) {
      assert PairOk(s, u, c) && PairMatches(s, u, c);
      if HasRollback(s', u, c) {
        NoNewKey(s.db.ledger, s'.db.ledger, PayoutRollback(u, c));
      }
      PairStays(s, s', u, c);
    }
  }

  /** The pair that a step works on: the debit comes before anything else, */
  lemma DebitMatches(s: Sys, s': Sys, id: nat, a: Attempt, env: Env)
    requires Moved(s, s', id, a, env) && a.pc.Debit?
    requires PairOk(s, a.userId, a.client) && PairMatches(s, a.userId, a.client)
    ensures PairMatches(s', a.userId, a.client)
  {
    var e := NewEntry(s.db, a.userId, 0 - a.request.coinsMinor, PAYOUT, PayoutDebit(a.userId, a.client));
    FindAppend(s.db.ledger, e, PayoutDebit(a.userId, a.client));
    FindAppend(s.db.ledger, e, PayoutRollback(a.userId, a.client));
  }

  /** and the compensation is for the coins of the debit row. */
  lemma RollbackMatches(s: Sys, s': Sys, id: nat, a: Attempt, env: Env)
    requires Moved(s, s', id, a, env) && a.pc.Rollback? && MatchesDebit(s, a)
    requires PairMatches(s, a.userId, a.client)
    ensures PairMatches(s', a.userId, a.client)
  {
    var e := NewEntry(s.db, a.userId, a.request.coinsMinor, ADJUSTMENT, PayoutRollback(a.userId, a.client));
    FindAppend(s.db.ledger, e, PayoutDebit(a.userId, a.client));
    FindAppend(s.db.ledger, e, PayoutRollback(a.userId, a.client));
  }

  lemma OwnPairMatches(s: Sys, s': Sys, id: nat, a: Attempt, env: Env)
    requires Moved(s, s', id, a, env)
    requires PairOk(s, a.userId, a.client) && AttemptMatches(s, a) && PairMatches(s, a.userId, a.client)
    requires a.pc.Transfer? ==> MatchesDebit(s, a)
    ensures PairMatches(s', a.userId, a.client)
    ensures AttemptMatches(s', s'.attempts[id])
  {
    match a.pc
    case Debit => DebitMatches(s, s', id, a, env);
    case Rollback => RollbackMatches(s, s', id, a, env);
    case _ =>
  }

  lemma OtherPairMatches(s: Sys, s': Sys, u: Uuid, c: string, v: Uuid, d: string)
    requires TouchesOnly(s, s', u, c) && s.db.ledger <= s'.db.ledger && UniqueKeys(s'.db.ledger)
    requires PairOk(s, v, d) && PairMatches(s, v, d) && (v, d) != (u, c)
    ensures PairMatches(s', v, d)
  {
    if HasRollback(s', v, d) {
      NoNewKey(s.db.ledger, s'.db.ledger, PayoutRollback(v, d));
    }
    var k := StripeTransfer(v, d);
    assert k in s.stripe <==> k in s.stripe - {StripeTransfer(u, c)};
    assert k in s'.stripe <==> k in s'.stripe - {StripeTransfer(u, c)};
    PairStays(s, s', v, d);
  }

  lemma PayoutKeepsMoney(s: Sys, id: nat, env: Env)
    requires id in s.attempts && SagaInv(s) && MoneyInv(s) && TablesInv(PayoutStepStep(s, id, env))
    requires Guarded(s, PayoutStep(id, env))
    ensures MoneyInv(PayoutStepStep(s, id, env))
  {
    var a, s' := s.attempts[id], PayoutStepStep(s, id, env);
    MovedIsMonotone(s, s', id, a, env);
    MovedTouchesOnly(s, s', id, a, env);
    assert AttemptOk(s, a) && PairOk(s, a.userId, a.client) && PairMatches(s, a.userId, a.client);
    OwnPairMatches(s, s', id, a, env);
    forall other | other in s'.attempts ensures AttemptMatches(s', s'.attempts[other]) {
      if other != id {
        var b := s.attempts[other];
        assert AttemptOk(s, b) && PairOk(s, b.userId, b.client);
        AttemptStays(s, s', b);
      }
    }
    forall u: Uuid, c: string ensures PairMatches(s', u, c) {
      if (u, c) != (a.userId, a.client) {
        assert PairOk(s, u, c) && PairMatches(s, u, c);
        OtherPairMatches(s, s', a.userId, a.client, u, c);
      }
    }
  }

  lemma BookkeepingKeepsMoney(s: Sys, s': Sys, id: nat, a: Attempt)
    requires MoneyInv(s) && s' == s.(attempts := s.attempts[id := a]) && !a.pc.Mark? && !a.pc.Rollback?
    ensures MoneyInv(s')
  {
    forall other | other in s'.attempts ensures AttemptMatches(s', s'.attempts[other]) {
      assert other != id ==> AttemptMatches(s, s.attempts[other]);
    }
    forall u: Uuid, c: string ensures PairMatches(s', u, c) {
      assert PairMatches(s, u, c);
    }
  }

  predicate PayoutEvent(e: Event) {
    e.PayoutStart? || e.PayoutStep? || e.PayoutCrash?
  }

  /** Entries of other services only are appended. */
  ghost predicate ForeignStep(s: Sys, s': Sys) {
    && s'.stripe == s.stripe && s'.attempts == s.attempts && s.db.ledger <= s'.db.ledger
    && forall i :: |s.db.ledger| <= i < |s'.db.ledger| ==>
         !s'.db.ledger[i].key.PayoutDebit? && !s'.db.ledger[i].key.PayoutRollback?
  }

  lemma OthersAreForeign(s: Sys, e: Event)
    requires TablesInv(s) && !PayoutEvent(e)
    ensures ForeignStep(s, Step(s, e))
  {
    match e
    case UnlockRead(_, _, _, _) =>
    case UnlockCommit(c, ok) => UnlockCommitAppends(s, c, ok);
    case Notify(p, r, u, n, ok) => NotifyAppends(s, p, r, u, n, ok);
    case Adjust(_, _, _, _) =>
  }

  lemma StepKeepsMoney(s: Sys, e: Event)
    requires TablesInv(s) && TablesInv(Step(s, e)) && SagaInv(s) && MoneyInv(s) && Guarded(s, e)
    ensures MoneyInv(Step(s, e))
  {
    match e
    case PayoutStart(id, u, q, c) =>
      if id !in s.attempts && q.coinsMinor > 0 {
        BookkeepingKeepsMoney(s, Step(s, e), id, Attempt(u, q, c, ReadDebit));
      }
    case PayoutStep(id, env) =>
      if id in s.attempts {
        PayoutKeepsMoney(s, id, env);
      }
    case PayoutCrash(id) =>
      if id in s.attempts && !s.attempts[id].pc.Done? {
        BookkeepingKeepsMoney(s, Step(s, e), id, s.attempts[id].(pc := Crashed));
      }
    case _ =>
      OthersAreForeign(s, e);
      ForeignKeepsMoney(s, Step(s, e));
  }

  lemma {:induction false} RunKeepsMoney(s: Sys, es: seq<Event>)
    requires TablesInv(s) && SagaInv(s) && MoneyInv(s) && FaithfulRun(s, es) && GuardedRun(s, es)
    ensures MoneyInv(Run(s, es))
    decreases |es|
  {
    if es == [] {
    } else {
      StepKeepsTables(s, es[0]);
      StepKeepsSaga(s, es[0]);
      StepKeepsMoney(s, es[0]);
      RunKeepsMoney(Step(s, es[0]), es[1..]);
    }
  }

  // Safety ----------------------------------------------------------------------------------------

  /** How many ledger entries carry a key. */
  function Occurrences(ledger: seq<Entry>, key: OpKey): nat {
    if ledger == [] then 0
    else Occurrences(ledger[..|ledger| - 1], key) + if ledger[|ledger| - 1].key == key then 1 else 0
  }

  lemma {:induction false} UniqueMeansOnce(ledger: seq<Entry>, key: OpKey)
    requires UniqueKeys(ledger)
    ensures Occurrences(ledger, key) == if HasKey(ledger, key) then 1 else 0
  {
    if ledger == [] {
    } else {
      var n := |ledger| - 1;
      var rest, last := ledger[..n], ledger[n];
      assert ledger == rest + [last];
      LastKeyIsNew(ledger);
      UniqueMeansOnce(rest, key);
      FindAppend(rest, last, key);
    }
  }

  /** Attempt `id` on the pair has answered ok. */
  predicate AnsweredOk(s: Sys, id: nat, u: Uuid, c: string) {
    && id in s.attempts && s.attempts[id].userId == u && s.attempts[id].client == c
    && s.attempts[id].pc.Done? && s.attempts[id].pc.outcome.Paid?
  }

  /** Whatever the interleaving, the retries and the crashes: at most one debit and one rollback; a
      transfer only with a debit and never with a rollback; a rollback only with a debit; and an
      attempt that answered ok has its transfer. */
  lemma PayoutSafety(es: seq<Event>, u: Uuid, c: string)
    requires FaithfulRun(INIT, es)
    ensures var s := Run(INIT, es);
            && Occurrences(s.db.ledger, PayoutDebit(u, c)) <= 1
            && Occurrences(s.db.ledger, PayoutRollback(u, c)) <= 1
            && (Transferred(s, u, c) ==> HasDebit(s, u, c) && !HasRollback(s, u, c))
            && (HasRollback(s, u, c) ==> HasDebit(s, u, c))
            && (forall id :: AnsweredOk(s, id, u, c) ==> TransferredAs(s, u, c, s.attempts[id].pc.outcome.transferId))
  {
    var s := Run(INIT, es);
    SagaAlways(es, u, c);
    UniqueMeansOnce(s.db.ledger, PayoutDebit(u, c));
    UniqueMeansOnce(s.db.ledger, PayoutRollback(u, c));
    forall id | AnsweredOk(s, id, u, c)
      ensures TransferredAs(s, u, c, s.attempts[id].pc.outcome.transferId)
    {
      assert AttemptOk(s, s.attempts[id]);
    }
  }

  /** The branch that answers "Idempotency key conflict" is never taken. */
  lemma NoKeyConflict(es: seq<Event>, id: nat)
    requires FaithfulRun(INIT, es) && id in Run(INIT, es).attempts
    ensures Run(INIT, es).attempts[id].pc != Done(Rejected(KeyConflict))
  {
    SagaAlways(es, "", "");
    assert AttemptOk(Run(INIT, es), Run(INIT, es).attempts[id]);
  }

  /** The wallet pays for a transfer exactly once, and pays the coins Stripe was asked to send for; a
      reversed or undebited payout costs nothing. */
  lemma PayoutNetEffect(es: seq<Event>, u: Uuid, c: string)
    requires FaithfulRun(INIT, es) && GuardedRun(INIT, es)
    ensures var s := Run(INIT, es);
            && NetEffect(s, u, c) == (if HasDebit(s, u, c) && !HasRollback(s, u, c) then -Debited(s, u, c) else 0)
            && (Transferred(s, u, c) ==> NetEffect(s, u, c) == -(s.stripe[StripeTransfer(u, c)].request.coinsMinor as int))
  {
    var s := Run(INIT, es);
    SagaAlways(es, u, c);
    InitTables();
    RunKeepsMoney(INIT, es);
    assert PairMatches(s, u, c);
    NetEffectParts(s.db.ledger, u, c);
  }

  // The answer ------------------------------------------------------------------------------------

  /** An ok answer always reports the cash that was sent. The coins it reports are the caller's own number:
      they are what the wallet lost if and only if the debit row took that number. */
  lemma AnswerTellsTheLossExactlyWhen(es: seq<Event>, id: nat, u: Uuid, c: string)
    requires FaithfulRun(INIT, es) && AnsweredOk(Run(INIT, es), id, u, c)
    ensures var s := Run(INIT, es);
            var answer := s.attempts[id].pc.outcome;
            && Transferred(s, u, c) && answer.usdCents == CashSent(s, u, c)
            && NetEffect(s, u, c) == -Debited(s, u, c)
            && (answer.coinsMinor == -NetEffect(s, u, c) <==> MatchesDebit(s, s.attempts[id]))
  {
    var s := Run(INIT, es);
    SagaAlways(es, u, c);
    assert AttemptOk(s, s.attempts[id]);
    NetEffectParts(s.db.ledger, u, c);
  }

  // The cash --------------------------------------------------------------------------------------

  /** Every request is priced at the same configured rate. */
  predicate PricedRun(rate: ValidRate, es: seq<Event>) {
    forall i :: 0 <= i < |es| && es[i].PayoutStart? ==> Priced(rate, es[i].request)
  }

  predicate Priced(rate: ValidRate, q: Request) {
    q.usdCents == UsdCents(rate, q.coinsMinor)
  }

  predicate AllPriced(rate: ValidRate, s: Sys) {
    && (forall id {:trigger s.attempts[id]} :: id in s.attempts ==> Priced(rate, s.attempts[id].request))
    && (forall k {:trigger s.stripe[k]} :: k in s.stripe ==> Priced(rate, s.stripe[k].request))
  }

  lemma {:induction false} RunKeepsPriced(rate: ValidRate, s: Sys, es: seq<Event>)
    requires AllPriced(rate, s) && PricedRun(rate, es)
    ensures AllPriced(rate, Run(s, es))
    decreases |es|
  {
    if es == [] {
    } else {
      StepKeepsPriced(rate, s, es[0]);
      assert forall i :: 0 <= i < |es[1..]| ==> es[1..][i] == es[i + 1];
      RunKeepsPriced(rate, Step(s, es[0]), es[1..]);
    }
  }

  lemma StepKeepsPriced(rate: ValidRate, s: Sys, e: Event)
    requires AllPriced(rate, s) && (e.PayoutStart? ==> Priced(rate, e.request))
    ensures AllPriced(rate, Step(s, e))
  {
  }

  /** The cash sent is the conversion of what the wallet lost. */
  lemma CashIsWhatTheWalletLost(rate: ValidRate, es: seq<Event>, u: Uuid, c: string)
    requires FaithfulRun(INIT, es) && GuardedRun(INIT, es) && PricedRun(rate, es)
    requires Transferred(Run(INIT, es), u, c)
    ensures var s := Run(INIT, es);
            NetEffect(s, u, c) <= 0 && s.stripe[StripeTransfer(u, c)].request.usdCents == UsdCents(rate, -NetEffect(s, u, c))
  {
    PayoutNetEffect(es, u, c);
    RunKeepsPriced(rate, INIT, es);
  }

  // Callers that never change the amount ----------------------------------------------------------

  /** A (user, client key) pair is always reused with the same number of coins. */
  predicate Agreed(e: Event, agreed: (Uuid, string) -> nat) {
    e.PayoutStart? ==> e.request.coinsMinor == agreed(e.userId, e.client)
  }

  ghost predicate AgreedRun(es: seq<Event>, agreed: (Uuid, string) -> nat) {
    forall i :: 0 <= i < |es| ==> Agreed(es[i], agreed)
  }

  predicate EntryAgreed(e: Entry, agreed: (Uuid, string) -> nat) {
    e.key.PayoutDebit? ==> e.amountMinor == -(agreed(e.key.userId, e.key.client) as int)
  }

  ghost predicate AgreedInv(s: Sys, agreed: (Uuid, string) -> nat) {
    && (forall id {:trigger s.attempts[id]} :: id in s.attempts ==>
          s.attempts[id].request.coinsMinor == agreed(s.attempts[id].userId, s.attempts[id].client))
    && (forall i {:trigger EntryAgreed(s.db.ledger[i], agreed)} :: 0 <= i < |s.db.ledger| ==>
          EntryAgreed(s.db.ledger[i], agreed))
  }

  lemma StepKeepsAgreed(s: Sys, e: Event, agreed: (Uuid, string) -> nat)
    requires TablesInv(s) && AgreedInv(s, agreed) && Agreed(e, agreed)
    ensures AgreedInv(Step(s, e), agreed)
  {
    if PayoutEvent(e) {
      PayoutKeepsAgreed(s, e, agreed);
    } else {
      OthersAreForeign(s, e);
      ForeignKeepsAgreed(s, Step(s, e), agreed);
    }
  }

  lemma ForeignKeepsAgreed(s: Sys, s': Sys, agreed: (Uuid, string) -> nat)
    requires AgreedInv(s, agreed) && ForeignStep(s, s')
    ensures AgreedInv(s', agreed)
  {
    forall i | 0 <= i < |s'.db.ledger| ensures EntryAgreed(s'.db.ledger[i], agreed) {
      assert i < |s.db.ledger| ==> EntryAgreed(s.db.ledger[i], agreed);
    }
  }

  lemma PayoutKeepsAgreed(s: Sys, e: Event, agreed: (Uuid, string) -> nat)
    requires AgreedInv(s, agreed) && Agreed(e, agreed) && PayoutEvent(e)
    ensures AgreedInv(Step(s, e), agreed)
  {
    var s' := Step(s, e);
    forall i | 0 <= i < |s'.db.ledger| ensures EntryAgreed(s'.db.ledger[i], agreed) {
      assert i < |s.db.ledger| ==> EntryAgreed(s.db.ledger[i], agreed);
    }
  }

  /** Such callers keep every call within the guard. */
  lemma {:induction false} AgreedIsGuarded(s: Sys, es: seq<Event>, agreed: (Uuid, string) -> nat)
    requires TablesInv(s) && SagaInv(s) && AgreedInv(s, agreed) && FaithfulRun(s, es) && AgreedRun(es, agreed)
    ensures GuardedRun(s, es)
    decreases |es|
  {
    if es == [] {
    } else {
      var e := es[0];
      assert Agreed(e, agreed);
      if e.PayoutStep? && e.id in s.attempts && s.attempts[e.id].pc.Transfer? {
        var a := s.attempts[e.id];
        assert AttemptOk(s, a);
        AgreedDebit(s, a.userId, a.client, agreed);
      }
      StepKeepsTables(s, e);
      StepKeepsSaga(s, e);
      StepKeepsAgreed(s, e, agreed);
      AgreedTail(es, agreed);
      AgreedIsGuarded(Step(s, e), es[1..], agreed);
    }
  }

  /** For such callers the wallet pays the agreed coins once for a transfer, and nothing otherwise once
      reversed. */
  lemma AgreedNetEffect(es: seq<Event>, u: Uuid, c: string, agreed: (Uuid, string) -> nat)
    requires FaithfulRun(INIT, es) && AgreedRun(es, agreed)
    ensures var s := Run(INIT, es);
            && NetEffect(s, u, c) == (if HasDebit(s, u, c) && !HasRollback(s, u, c) then -(agreed(u, c) as int) else 0)
            && (Transferred(s, u, c) ==> NetEffect(s, u, c) == -(agreed(u, c) as int))
  {
    var s := Run(INIT, es);
    InitTables();
    AgreedIsGuarded(INIT, es, agreed);
    SagaAlways(es, u, c);
    PayoutNetEffect(es, u, c);
    RunKeepsAgreed(INIT, es, agreed);
    if HasDebit(s, u, c) {
      AgreedDebit(s, u, c, agreed);
    }
  }

  lemma AgreedDebit(s: Sys, u: Uuid, c: string, agreed: (Uuid, string) -> nat)
    requires AgreedInv(s, agreed) && HasDebit(s, u, c)
    ensures Debited(s, u, c) == agreed(u, c)
  {
    var i :| 0 <= i < |s.db.ledger| && s.db.ledger[i] == FindEntry(s.db.ledger, PayoutDebit(u, c)).value;
    assert EntryAgreed(s.db.ledger[i], agreed);
  }

  lemma {:induction false} RunKeepsAgreed(s: Sys, es: seq<Event>, agreed: (Uuid, string) -> nat)
    requires TablesInv(s) && AgreedInv(s, agreed) && AgreedRun(es, agreed)
    ensures AgreedInv(Run(s, es), agreed)
    decreases |es|
  {
    if es == [] {
    } else {
      assert Agreed(es[0], agreed);
      StepKeepsTables(s, es[0]);
      StepKeepsAgreed(s, es[0], agreed);
      AgreedTail(es, agreed);
      RunKeepsAgreed(Step(s, es[0]), es[1..], agreed);
    }
  }

  lemma AgreedTail(es: seq<Event>, agreed: (Uuid, string) -> nat)
    requires es != [] && AgreedRun(es, agreed)
    ensures AgreedRun(es[1..], agreed)
  {
    forall i | 0 <= i < |es[1..]| ensures Agreed(es[1..][i], agreed) {
      assert es[1..][i] == es[i + 1];
    }
  }

  // Reversed for good -----------------------------------------------------------------------------

  /** A reversed pair stays reversed: Stripe's answer under its key is never a transfer again. */
  lemma ReversedForGood(es: seq<Event>, later: seq<Event>, u: Uuid, c: string)
    requires FaithfulRun(INIT, es + later) && HasRollback(Run(INIT, es), u, c)
    ensures var s' := Run(INIT, es + later);
            HasRollback(s', u, c) && WasDeclined(s', u, c) && !Transferred(s', u, c)
  {
    var s := Run(INIT, es);
    FaithfulConcat(INIT, es, later);
    SagaAlways(es, u, c);
    SagaAlways(es + later, u, c);
    RunConcat(INIT, es, later);
    RunGrows(s, later);
    FindPersists(s.db.ledger, Run(s, later).db.ledger, PayoutRollback(u, c));
  }

  /** Where a call that starts after the compensation can be. */
  predicate TurnedAway(pc: Pc) {
    pc.ReadDebit? || pc.ReadRollback? || pc == Done(Rejected(Reversed)) || pc.Crashed?
  }

  /** Attempts on the pair other than the `earlier` ones have been, or will be, turned away. */
  ghost predicate NewOnesTurnedAway(s: Sys, earlier: set<nat>, u: Uuid, c: string) {
    forall id {:trigger s.attempts[id]} :: id in s.attempts && id !in earlier && s.attempts[id].userId == u && s.attempts[id].client == c ==>
      TurnedAway(s.attempts[id].pc)
  }

  lemma {:induction false} RunTurnsAway(s: Sys, es: seq<Event>, earlier: set<nat>, u: Uuid, c: string)
    requires TablesInv(s) && SagaInv(s) && FaithfulRun(s, es) && HasRollback(s, u, c) && NewOnesTurnedAway(s, earlier, u, c)
    ensures NewOnesTurnedAway(Run(s, es), earlier, u, c)
    decreases |es|
  {
    if es == [] {
    } else {
      var s' := Step(s, es[0]);
      StepKeepsTables(s, es[0]);
      StepKeepsSaga(s, es[0]);
      StepGrows(s, es[0]);
      FindPersists(s.db.ledger, s'.db.ledger, PayoutRollback(u, c));
      StepTurnsAway(s, es[0], earlier, u, c);
      RunTurnsAway(s', es[1..], earlier, u, c);
    }
  }

  lemma StepTurnsAway(s: Sys, e: Event, earlier: set<nat>, u: Uuid, c: string)
    requires SagaInv(s) && HasRollback(s, u, c) && NewOnesTurnedAway(s, earlier, u, c)
    ensures NewOnesTurnedAway(Step(s, e), earlier, u, c)
  {
    assert PairOk(s, u, c);
  }

  /** After a compensation every new call with the key, in whatever interleaving, is answered
      "reversed" unless it crashes or has not got that far. */
  lemma ReversedAnswersForever(es: seq<Event>, later: seq<Event>, u: Uuid, c: string, id: nat)
    requires FaithfulRun(INIT, es + later) && HasRollback(Run(INIT, es), u, c)
    requires var s' := Run(INIT, es + later);
             id in s'.attempts && id !in Run(INIT, es).attempts && s'.attempts[id].userId == u && s'.attempts[id].client == c
    ensures TurnedAway(Run(INIT, es + later).attempts[id].pc)
  {
    var s := Run(INIT, es);
    FaithfulConcat(INIT, es, later);
    SagaAlways(es, u, c);
    RunConcat(INIT, es, later);
    RunTurnsAway(s, later, s.attempts.Keys, u, c);
  }
}
