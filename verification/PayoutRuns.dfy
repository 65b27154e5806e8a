/** Runs that show why the assumptions on the environment and on callers cannot be dropped. All amounts
    pass the checks of the default configuration. */
module PayoutRuns {
  import opened Common
  import opened IdempotencyKeys
  import opened CoinLedger
  import opened CoinPricing
  import opened CoinOperations
  import opened CoinSystem
  import opened CoinPayout
  import opened PayoutMoney
  import opened PayoutRecovery
  import opened PayoutConditions
  import opened PayoutRace

  const RATE: ValidRate := Rate(100, 10000)

  const FUND := [Adjust("u", 9000, "fund", true)]

  const FIRST := Request(5000, 50, "acct")

  const CHANGED := Request(8000, 80, "acct")

  const ACCEPTS := Env(true, Accept("tr_1"), true, true)

  const REFUSES := Env(true, Refuse, true, true)

  // An assumption on the environment fails --------------------------------------------------------

  /** Stripe executes the transfer but the reply is lost, or the transfer succeeds and the metadata
      write raises: the cash is sent and the coins are given back as well. */
  lemma LostReplyPaysTwice()
    ensures var s := Run(Run(INIT, FUND), RetryEvents(0, "u", FIRST, "k", Env(true, Lost(true, "tr_1"), true, true)));
            Transferred(s, "u", "k") && HasRollback(s, "u", "k")
    ensures var s := Run(Run(INIT, FUND), RetryEvents(0, "u", FIRST, "k", Env(true, Accept("tr_1"), false, true)));
            Transferred(s, "u", "k") && HasRollback(s, "u", "k")
  {
    Funded();
    TransferAndRollbackExactlyWhen(FUND, 0, "u", FIRST, "k", Env(true, Lost(true, "tr_1"), true, true));
    TransferAndRollbackExactlyWhen(FUND, 0, "u", FIRST, "k", Env(true, Accept("tr_1"), false, true));
  }

  // A call that crashes ---------------------------------------------------------------------------

  const FUND_ENTRY := Entry("u", ADJUSTMENT, 9000, 9000, AdminAdjust("u", "fund"))

  const DEBIT_ENTRY := Entry("u", PAYOUT, -5000, 4000, PayoutDebit("u", "k"))

  lemma Funded()
    ensures var s := Run(INIT, FUND);
            && s == Step(INIT, FUND[0]) && FaithfulRun(INIT, FUND)
            && s.attempts == map[] && s.stripe == map[] && s.db.marks == map[]
            && s.db.ledger == [FUND_ENTRY] && Balance(s.db.wallets, "u") == 9000
  {
    assert FUND[1..] == [];
  }

  /** A faithful run leads to this state. */
  predicate Reaches(es: seq<Event>, s: Sys) {
    FaithfulRun(INIT, es) && Run(INIT, es) == s
  }

  lemma NextReaches(es: seq<Event>, s: Sys, e: Event)
    requires Reaches(es, s) && Faithful(s, e)
    ensures Reaches(es + [e], Step(s, e))
  {
    RunConcat(INIT, es, [e]);
    FaithfulConcat(INIT, es, [e]);
    assert [e][1..] == [];
  }

  /** The first steps of a call: its reads and its debit. */
  function Debiting(env: Env): seq<Event> {
    FUND + [PayoutStart(0, "u", FIRST, "k")] + [PayoutStep(0, env)] + [PayoutStep(0, env)] + [PayoutStep(0, env)]
  }

  /** A first call whose next step is at this position, the debit made or not. */
  predicate FirstCallAt(s: Sys, pc: Pc, debited: bool) {
    && s.attempts == map[0 := Attempt("u", FIRST, "k", pc)] && s.stripe == map[] && s.db.marks == map[]
    && s.db.ledger == (if debited then [FUND_ENTRY, DEBIT_ENTRY] else [FUND_ENTRY])
    && (!debited ==> Balance(s.db.wallets, "u") == 9000)
  }

  /** Nothing is found under either key. */
  lemma ReadStep(s: Sys, env: Env)
    requires FirstCallAt(s, ReadDebit, false) || FirstCallAt(s, ReadRollback(false), false)
    ensures FirstCallAt(Step(s, PayoutStep(0, env)), if s.attempts[0].pc.ReadDebit? then ReadRollback(false) else Debit, false)
  {
    FindAppend([], FUND_ENTRY, PayoutDebit("u", "k"));
    FindAppend([], FUND_ENTRY, PayoutRollback("u", "k"));
    assert [] + [FUND_ENTRY] == [FUND_ENTRY];
  }

  lemma AfterDebit(env: Env)
    requires Works(env)
    ensures FaithfulRun(INIT, Debiting(env)) && FirstCallAt(Run(INIT, Debiting(env)), Transfer, true)
  {
    Funded();
    var s, es := Run(INIT, FUND), FUND;
    var s1, es1 := Step(s, PayoutStart(0, "u", FIRST, "k")), es + [PayoutStart(0, "u", FIRST, "k")];
    NextReaches(es, s, PayoutStart(0, "u", FIRST, "k"));
    var s2, es2 := Step(s1, PayoutStep(0, env)), es1 + [PayoutStep(0, env)];
    ReadStep(s1, env);
    NextReaches(es1, s1, PayoutStep(0, env));
    var s3, es3 := Step(s2, PayoutStep(0, env)), es2 + [PayoutStep(0, env)];
    ReadStep(s2, env);
    NextReaches(es2, s2, PayoutStep(0, env));
    NextReaches(es3, s3, PayoutStep(0, env));
    DebitStep(s3, env);
  }

  lemma DebitStep(s: Sys, env: Env)
    requires FirstCallAt(s, Debit, false) && Works(env)
    ensures FirstCallAt(Step(s, PayoutStep(0, env)), Transfer, true)
  {
    FindAppend([], FUND_ENTRY, PayoutDebit("u", "k"));
    assert [] + [FUND_ENTRY] == [FUND_ENTRY];
  }

  /** A first call debits 5000 coins and crashes before it asks Stripe. */
  const CRASHED := Debiting(REFUSES) + [PayoutCrash(0)]

  lemma CrashedState()
    ensures FaithfulRun(INIT, CRASHED) && FirstCallAt(Run(INIT, CRASHED), Crashed, true)
  {
    AfterDebit(REFUSES);
    NextReaches(Debiting(REFUSES), Run(INIT, Debiting(REFUSES)), PayoutCrash(0));
  }

  lemma DebitedPair(s: Sys)
    requires s.db.ledger == [FUND_ENTRY, DEBIT_ENTRY]
    ensures HasDebit(s, "u", "k") && !HasRollback(s, "u", "k") && Debited(s, "u", "k") == 5000
  {
    FindAppend([FUND_ENTRY], DEBIT_ENTRY, PayoutDebit("u", "k"));
    FindAppend([FUND_ENTRY], DEBIT_ENTRY, PayoutRollback("u", "k"));
    assert [FUND_ENTRY] + [DEBIT_ENTRY] == [FUND_ENTRY, DEBIT_ENTRY];
    FindAppend([], FUND_ENTRY, PayoutRollback("u", "k"));
    assert [] + [FUND_ENTRY] == [FUND_ENTRY];
  }

  /** Retrying with 8000 coins under the same key, Stripe accepting: 80 cents are sent for the 5000
      coins that the wallet paid. */
  lemma ChangedAmountSendsOtherCash()
    ensures var s := Run(Run(INIT, CRASHED), RetryEvents(1, "u", CHANGED, "k", ACCEPTS));
            && Transferred(s, "u", "k") && s.stripe[StripeTransfer("u", "k")].request.usdCents == 80
            && NetEffect(s, "u", "k") == -5000 && UsdCents(RATE, 5000) == 50 && !HasRollback(s, "u", "k")
  {
    CrashedState();
    DebitedPair(Run(INIT, CRASHED));
    CashExactlyWhen(RATE, CRASHED, 1, "u", CHANGED, "k", ACCEPTS);
  }

  /** The same retry, Stripe refusing: the wallet ends up 3000 coins ahead. */
  lemma ChangedAmountIsNotRestored()
    ensures var s := Run(Run(INIT, CRASHED), RetryEvents(1, "u", CHANGED, "k", REFUSES));
            HasRollback(s, "u", "k") && NetEffect(s, "u", "k") == 3000
  {
    CrashedState();
    DebitedPair(Run(INIT, CRASHED));
    RestoredExactlyWhen(CRASHED, 1, "u", CHANGED, "k", REFUSES);
  }

  /** A first call transfers and crashes before it marks the debit. */
  const UNMARKED := Debiting(ACCEPTS) + [PayoutStep(0, ACCEPTS)] + [PayoutCrash(0)]

  /** Retrying that one with 8000 coins: Stripe answers the changed request with an error, and the coins
      of the transfer are given back. */
  lemma ChangedAmountPaysTwice()
    ensures var s := Run(Run(INIT, UNMARKED), RetryEvents(1, "u", CHANGED, "k", ACCEPTS));
            FaithfulRun(INIT, UNMARKED) && Transferred(s, "u", "k") && HasRollback(s, "u", "k")
  {
    UnmarkedState();
    TransferAndRollbackExactlyWhen(UNMARKED, 1, "u", CHANGED, "k", ACCEPTS);
  }

  lemma UnmarkedState()
    ensures var s := Run(INIT, UNMARKED);
            && FaithfulRun(INIT, UNMARKED) && s.attempts.Keys == {0} && s.db.marks == map[]
            && s.stripe == map[StripeTransfer("u", "k") := Succeeded(FIRST, "tr_1")]
            && HasDebit(s, "u", "k") && !HasRollback(s, "u", "k")
  {
    AfterDebit(ACCEPTS);
    var es := Debiting(ACCEPTS);
    var s := Run(INIT, es);
    var s1 := Step(s, PayoutStep(0, ACCEPTS));
    NextReaches(es, s, PayoutStep(0, ACCEPTS));
    NextReaches(es + [PayoutStep(0, ACCEPTS)], s1, PayoutCrash(0));
    TransferStep(s);
    DebitedPair(s1);
  }

  lemma TransferStep(s: Sys)
    requires FirstCallAt(s, Transfer, true)
    ensures Step(s, PayoutStep(0, ACCEPTS))
            == s.(stripe := map[StripeTransfer("u", "k") := Succeeded(FIRST, "tr_1")],
                  attempts := map[0 := Attempt("u", FIRST, "k", Mark("tr_1"))])
  {
  }

  // Two calls at Stripe ---------------------------------------------------------------------------

  const LOSES := Env(true, Lost(false, ""), true, true)

  /** A second call with the same request sees the first one's debit and follows it to Stripe. */
  const BOTH_AT_STRIPE := Debiting(ACCEPTS) + [PayoutStart(1, "u", FIRST, "k")] + [PayoutStep(1, ACCEPTS)] + [PayoutStep(1, ACCEPTS)]

  lemma BothAtStripe()
    ensures var s := Run(INIT, BOTH_AT_STRIPE);
            && FaithfulRun(INIT, BOTH_AT_STRIPE) && s.stripe == map[] && HasDebit(s, "u", "k")
            && s.attempts == map[0 := Attempt("u", FIRST, "k", Transfer), 1 := Attempt("u", FIRST, "k", Transfer)]
  {
    AfterDebit(ACCEPTS);
    var es := Debiting(ACCEPTS);
    var s := Run(INIT, es);
    var s1, es1 := Step(s, PayoutStart(1, "u", FIRST, "k")), es + [PayoutStart(1, "u", FIRST, "k")];
    var s2, es2 := Step(s1, PayoutStep(1, ACCEPTS)), es1 + [PayoutStep(1, ACCEPTS)];
    NextReaches(es, s, PayoutStart(1, "u", FIRST, "k"));
    SecondCallReads(s, ACCEPTS);
    NextReaches(es1, s1, PayoutStep(1, ACCEPTS));
    NextReaches(es2, s2, PayoutStep(1, ACCEPTS));
    DebitedPair(s);
  }

  lemma SecondCallReads(s: Sys, env: Env)
    requires FirstCallAt(s, Transfer, true)
    ensures var s2 := Step(Step(s, PayoutStart(1, "u", FIRST, "k")), PayoutStep(1, env));
            && s2 == s.(attempts := map[0 := Attempt("u", FIRST, "k", Transfer), 1 := Attempt("u", FIRST, "k", ReadRollback(true))])
            && Step(s2, PayoutStep(1, env))
               == s.(attempts := map[0 := Attempt("u", FIRST, "k", Transfer), 1 := Attempt("u", FIRST, "k", Transfer)])
  {
    DebitedPair(s);
  }

  /** The first call's request is lost before it reaches Stripe, so there is no transfer, and the call
      gives the coins back; then Stripe accepts the second one's. */
  lemma LostRequestPaysTwice()
    ensures var s := AfterLoss(Run(INIT, BOTH_AT_STRIPE), 0, LOSES, LOSES);
            && !Recorded(s, "u", "k") && HasRollback(s, "u", "k")
            && EndsWithBoth(s, [PayoutStep(1, ACCEPTED)], "u", "k")
  {
    var s := Run(INIT, BOTH_AT_STRIPE);
    BothAtStripe();
    SagaAlways(BOTH_AT_STRIPE, "u", "k");
    LossAndCompensation(s, 0, LOSES, LOSES);
    AcceptedNow(AfterLoss(s, 0, LOSES, LOSES), 1, "u", "k");
  }

  // The answer ------------------------------------------------------------------------------------

  const MARKED := Debiting(ACCEPTS) + [PayoutStep(0, ACCEPTS)] + [PayoutStep(0, ACCEPTS)]

  /** A marked payout asked for again with 8000 coins answers ok, with 8000 coins and the cash of 5000. */
  lemma ChangedAmountIsReported()
    ensures var s := Run(INIT, MARKED + [PayoutStart(1, "u", CHANGED, "k")] + [PayoutStep(1, ACCEPTS)]);
            1 in s.attempts && s.attempts[1].pc == Done(Paid("tr_1", true, 8000, 50))
  {
    AfterDebit(ACCEPTS);
    var es := Debiting(ACCEPTS);
    var s := Run(INIT, es);
    var s1, es1 := Step(s, PayoutStep(0, ACCEPTS)), es + [PayoutStep(0, ACCEPTS)];
    var s2, es2 := Step(s1, PayoutStep(0, ACCEPTS)), es1 + [PayoutStep(0, ACCEPTS)];
    var s3, es3 := Step(s2, PayoutStart(1, "u", CHANGED, "k")), es2 + [PayoutStart(1, "u", CHANGED, "k")];
    NextReaches(es, s, PayoutStep(0, ACCEPTS));
    NextReaches(es1, s1, PayoutStep(0, ACCEPTS));
    NextReaches(es2, s2, PayoutStart(1, "u", CHANGED, "k"));
    NextReaches(es3, s3, PayoutStep(1, ACCEPTS));
    MarkThenAsk(s);
  }

  lemma MarkThenAsk(s: Sys)
    requires FirstCallAt(s, Transfer, true)
    ensures var s2 := Step(Step(s, PayoutStep(0, ACCEPTS)), PayoutStep(0, ACCEPTS));
            var s4 := Step(Step(s2, PayoutStart(1, "u", CHANGED, "k")), PayoutStep(1, ACCEPTS));
            1 in s4.attempts && s4.attempts[1].pc == Done(Paid("tr_1", true, 8000, 50))
  {
    DebitedPair(s);
    TransferStep(s);
    var s1 := Step(s, PayoutStep(0, ACCEPTS));
    var s2 := Step(s1, PayoutStep(0, ACCEPTS));
    assert s2.db.ledger == s.db.ledger && s2.db.marks == map[PayoutDebit("u", "k") := Marking("tr_1", 50)];
    DebitedPair(s2);
  }
}
