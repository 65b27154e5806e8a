/** A request to Stripe that is lost without being executed, while another call of the pair may be on its
    way there: when can the pair end with both a transfer and a compensation? */
module PayoutRace {
  import opened Common
  import opened IdempotencyKeys
  import opened CoinLedger
  import opened CoinOperations
  import opened CoinSystem
  import opened CoinPayout
  import opened PayoutRecovery

  predicate OnPair(a: Attempt, u: Uuid, c: string) {
    a.userId == u && a.client == c
  }

  /** The attempt has passed its two reads and will ask Stripe. */
  predicate HeadsForStripe(s: Sys, id: nat, u: Uuid, c: string) {
    id in s.attempts && OnPair(s.attempts[id], u, c) && (s.attempts[id].pc.Debit? || s.attempts[id].pc.Transfer?)
  }

  /** The pair is compensated, nothing is recorded at Stripe, and no attempt on it is past its reads. */
  ghost predicate NobodyHeadsForStripe(s: Sys, u: Uuid, c: string) {
    && HasRollback(s, u, c) && !Recorded(s, u, c)
    && (forall id {:trigger s.attempts[id]} :: id in s.attempts && OnPair(s.attempts[id], u, c) ==> BeforeOrDone(s.attempts[id].pc))
  }

  predicate BeforeOrDone(pc: Pc) {
    pc.ReadDebit? || pc.ReadRollback? || pc.Done? || pc.Crashed?
  }

  lemma StepStaysAway(s: Sys, e: Event, u: Uuid, c: string)
    requires TablesInv(s) && NobodyHeadsForStripe(s, u, c)
    ensures NobodyHeadsForStripe(Step(s, e), u, c)
  {
    StepGrows(s, e);
    FindPersists(s.db.ledger, Step(s, e).db.ledger, PayoutRollback(u, c));
    if e.PayoutStep? && e.id in s.attempts {
      AttemptStaysAway(s, e.id, e.env, u, c);
    }
  }

  /** A step of an attempt on the pair is a read, and after the second it is turned away; a step of any
      other attempt uses another key. */
  lemma AttemptStaysAway(s: Sys, id: nat, env: Env, u: Uuid, c: string)
    requires id in s.attempts && NobodyHeadsForStripe(s, u, c)
    ensures var s' := PayoutStepStep(s, id, env);
            !Recorded(s', u, c) && (OnPair(s.attempts[id], u, c) ==> BeforeOrDone(s'.attempts[id].pc))
  {
  }

  /** So no run, faithful or not, records a transfer for it. */
  lemma {:induction false} RunStaysAway(s: Sys, es: seq<Event>, u: Uuid, c: string)
    requires TablesInv(s) && NobodyHeadsForStripe(s, u, c)
    ensures NobodyHeadsForStripe(Run(s, es), u, c)
    decreases |es|
  {
    if es == [] {
    } else {
      StepKeepsTables(s, es[0]);
      StepStaysAway(s, es[0], u, c);
      RunStaysAway(Step(s, es[0]), es[1..], u, c);
    }
  }

  /** The attempt's request is lost, and it compensates. */
  function AfterLoss(s: Sys, id: nat, lost: Env, back: Env): Sys {
    Step(Step(s, PayoutStep(id, lost)), PayoutStep(id, back))
  }

  /** The lost request leaves no trace but the attempt's position. */
  lemma LossStep(s: Sys, id: nat, lost: Env)
    requires id in s.attempts && s.attempts[id].pc.Transfer?
    requires !Recorded(s, s.attempts[id].userId, s.attempts[id].client)
    requires lost.reply.Lost? && !lost.reply.executed
    ensures Step(s, PayoutStep(id, lost)) == s.(attempts := s.attempts[id := s.attempts[id].(pc := Rollback)])
  {
  }

  lemma CompensationStep(s: Sys, id: nat, back: Env)
    requires LedgerInv(s.db) && id in s.attempts && s.attempts[id].pc.Rollback? && back.rollbackCommits
    ensures var a, s' := s.attempts[id], Step(s, PayoutStep(id, back));
            && s'.stripe == s.stripe && HasRollback(s', a.userId, a.client)
            && s'.attempts == s.attempts[id := a.(pc := Done(Rejected(TransferFailed)))]
  {
    RollbackCommits(s.db, s.attempts[id].userId, s.attempts[id].request.coinsMinor, s.attempts[id].client);
  }

  /** What the two steps do. */
  lemma LossAndCompensation(s: Sys, id: nat, lost: Env, back: Env)
    requires TablesInv(s) && id in s.attempts && s.attempts[id].pc.Transfer?
    requires !Recorded(s, s.attempts[id].userId, s.attempts[id].client)
    requires lost.reply.Lost? && !lost.reply.executed && back.rollbackCommits
    ensures var a, s' := s.attempts[id], AfterLoss(s, id, lost, back);
            && TablesInv(s') && s'.stripe == s.stripe && s.db.ledger <= s'.db.ledger
            && HasRollback(s', a.userId, a.client)
            && s'.attempts == s.attempts[id := a.(pc := Done(Rejected(TransferFailed)))]
  {
    var s1 := Step(s, PayoutStep(id, lost));
    LossStep(s, id, lost);
    StepKeepsTables(s, PayoutStep(id, lost));
    CompensationStep(s1, id, back);
    StepKeepsTables(s1, PayoutStep(id, back));
    StepGrows(s1, PayoutStep(id, back));
  }

  /** Both a transfer and a compensation, after a faithful continuation. */
  predicate EndsWithBoth(s: Sys, es: seq<Event>, u: Uuid, c: string) {
    FaithfulRun(s, es) && Transferred(Run(s, es), u, c) && HasRollback(Run(s, es), u, c)
  }

  const ACCEPTED := Env(true, Accept("tr"), true, true)

  /** Another call that heads for Stripe gets there, and Stripe may accept. */
  lemma OtherCallTransfers(s: Sys, id: nat, u: Uuid, c: string)
    requires HeadsForStripe(s, id, u, c) && HasDebit(s, u, c) && HasRollback(s, u, c) && !Recorded(s, u, c)
    ensures exists es :: EndsWithBoth(s, es, u, c)
  {
    var e := PayoutStep(id, ACCEPTED);
    if s.attempts[id].pc.Transfer? {
      AcceptedNow(s, id, u, c);
    } else {
      var s1 := Step(s, e);
      assert s1.db == s.db && s1.stripe == s.stripe;
      AcceptedNow(s1, id, u, c);
      assert [e, e][1..] == [e];
      assert EndsWithBoth(s, [e, e], u, c);
    }
  }

  lemma AcceptedNow(s: Sys, id: nat, u: Uuid, c: string)
    requires id in s.attempts && OnPair(s.attempts[id], u, c) && s.attempts[id].pc.Transfer?
    requires HasRollback(s, u, c) && !Recorded(s, u, c)
    ensures EndsWithBoth(s, [PayoutStep(id, ACCEPTED)], u, c)
  {
    var e := PayoutStep(id, ACCEPTED);
    assert [e][1..] == [];
  }

  /** After a faithful run, a request that is lost without being executed is followed by a compensation.
      Some faithful continuation then ends with a transfer as well, if and only if another attempt of the
      pair has passed its reads: the failure was no recorded decline, so it does not bind the other. */
  lemma LostRequestExactlyWhen(es: seq<Event>, id: nat, u: Uuid, c: string, lost: Env, back: Env)
    requires FaithfulRun(INIT, es)
    requires var s := Run(INIT, es);
             id in s.attempts && OnPair(s.attempts[id], u, c) && s.attempts[id].pc.Transfer? && !Recorded(s, u, c)
    requires lost.reply.Lost? && !lost.reply.executed && back.rollbackCommits
    ensures var s := Run(INIT, es);
            (exists fs :: EndsWithBoth(AfterLoss(s, id, lost, back), fs, u, c))
            <==> exists other :: other != id && HeadsForStripe(s, other, u, c)
  {
    var s := Run(INIT, es);
    var s' := AfterLoss(s, id, lost, back);
    SagaAlways(es, u, c);
    assert AttemptOk(s, s.attempts[id]);
    LossAndCompensation(s, id, lost, back);
    FindPersists(s.db.ledger, s'.db.ledger, PayoutDebit(u, c));
    if other :| other != id && HeadsForStripe(s, other, u, c) {
      OtherCallTransfers(s', other, u, c);
    } else {
      forall k | k in s'.attempts && OnPair(s'.attempts[k], u, c) ensures BeforeOrDone(s'.attempts[k].pc) {
        if k != id {
          assert AttemptOk(s, s.attempts[k]);
          assert !HeadsForStripe(s, k, u, c);
        }
      }
      forall fs ensures !EndsWithBoth(s', fs, u, c) {
        RunStaysAway(s', fs, u, c);
      }
    }
  }
}
