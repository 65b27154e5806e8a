/** One uninterrupted `requestPayout` call, from whatever state earlier calls left behind. */
module PayoutRecovery {
  import opened Common
  import opened IdempotencyKeys
  import opened CoinLedger
  import opened CoinPricing
  import opened CoinOperations
  import opened CoinSystem
  import opened CoinPayout
  import opened PayoutMoney

  // One call --------------------------------------------------------------------------------------

  /** Upper bound on the steps an attempt still takes. */
  function StepsLeft(pc: Pc): nat {
    match pc
    case ReadDebit => 6
    case ReadRollback(_) => 5
    case Debit => 4
    case Transfer => 3
    case Mark(_) => 2
    case Rollback => 1
    case Done(_) => 0
    case Crashed => 0
  }

  /** The whole call from a position on: its effect on the tables and on Stripe, and its answer. */
  function Drive(db: Db, stripe: map<OpKey, StripeRecord>, a: Attempt, env: Env)
    : (r: (Db, map<OpKey, StripeRecord>, Pc))
    ensures StepsLeft(r.2) == 0 && (a.pc != Crashed ==> r.2.Done?)
    decreases StepsLeft(a.pc)
  {
    if StepsLeft(a.pc) == 0 then (db, stripe, a.pc)
    else
      var (db', stripe', pc) := PayoutNext(db, stripe, a, env);
      Drive(db', stripe', a.(pc := pc), env)
  }

  lemma DriveOnce(db: Db, stripe: map<OpKey, StripeRecord>, a: Attempt, env: Env)
    requires StepsLeft(a.pc) > 0
    ensures var (db', stripe', pc) := PayoutNext(db, stripe, a, env);
            Drive(db, stripe, a, env) == Drive(db', stripe', a.(pc := pc), env)
  {
  }

  /** A call that starts, and then steps until it is done without anyone in between. */
  function RetryEvents(id: nat, userId: Uuid, request: Request, client: string, env: Env): seq<Event> {
    [PayoutStart(id, userId, request, client)] + Steps(id, env, 6)
  }

  function Steps(id: nat, env: Env, n: nat): seq<Event> {
    if n == 0 then [] else [PayoutStep(id, env)] + Steps(id, env, n - 1)
  }

  /** One step leaves the rest of the call to be driven. */
  lemma StepDrives(s: Sys, id: nat, env: Env)
    requires id in s.attempts
    ensures var s1 := Step(s, PayoutStep(id, env));
            && id in s1.attempts
            && s1 == s.(db := s1.db, stripe := s1.stripe, attempts := s.attempts[id := s.attempts[id].(pc := s1.attempts[id].pc)])
            && Drive(s1.db, s1.stripe, s1.attempts[id], env) == Drive(s.db, s.stripe, s.attempts[id], env)
            && (StepsLeft(s1.attempts[id].pc) < StepsLeft(s.attempts[id].pc) || s1 == s)
  {
    var a := s.attempts[id];
    NextHasLess(s.db, s.stripe, a, env);
    if StepsLeft(a.pc) > 0 {
      DriveOnce(s.db, s.stripe, a, env);
    } else {
      assert s.attempts[id := a.(pc := a.pc)] == s.attempts;
    }
  }

  lemma NextHasLess(db: Db, stripe: map<OpKey, StripeRecord>, a: Attempt, env: Env)
    ensures var next := PayoutNext(db, stripe, a, env);
            if StepsLeft(a.pc) > 0 then StepsLeft(next.2) < StepsLeft(a.pc) else next == (db, stripe, a.pc)
  {
  }

  lemma {:induction false} StepsDrive(s: Sys, id: nat, env: Env, n: nat)
    requires id in s.attempts && StepsLeft(s.attempts[id].pc) <= n
    ensures var s' := Run(s, Steps(id, env, n));
            var r := Drive(s.db, s.stripe, s.attempts[id], env);
            && s' == s.(db := r.0, stripe := r.1, attempts := s.attempts[id := s.attempts[id].(pc := r.2)])
    decreases n
  {
    if n == 0 {
      assert s.attempts[id := s.attempts[id]] == s.attempts;
    } else {
      var es := Steps(id, env, n);
      assert es[1..] == Steps(id, env, n - 1);
      StepDrives(s, id, env);
      StepsDrive(Step(s, es[0]), id, env, n - 1);
    }
  }

  /** The call as a run of the state machine. */
  lemma RetryIsDrive(s: Sys, id: nat, userId: Uuid, request: Request, client: string, env: Env)
    requires id !in s.attempts && request.coinsMinor > 0
    ensures var s' := Run(s, RetryEvents(id, userId, request, client, env));
            var r := Drive(s.db, s.stripe, Attempt(userId, request, client, ReadDebit), env);
            && s'.db == r.0 && s'.stripe == r.1 && s'.calls == s.calls
            && s'.attempts == s.attempts[id := Attempt(userId, request, client, r.2)]
  {
    var es := RetryEvents(id, userId, request, client, env);
    assert es[1..] == Steps(id, env, 6);
    var s1 := Step(s, es[0]);
    StepsDrive(s1, id, env, 6);
  }

  // Recovery --------------------------------------------------------------------------------------

  /** The transfer exists, the debit row names it, and nothing was given back. */
  ghost predicate Settled(s: Sys, u: Uuid, c: string, t: string) {
    && TransferredAs(s, u, c, t) && HasDebit(s, u, c) && !HasRollback(s, u, c)
    && PayoutDebit(u, c) in s.db.marks && s.db.marks[PayoutDebit(u, c)].transferId == t
  }

  /** Stripe declined and the coins were given back. */
  ghost predicate Restored(s: Sys, u: Uuid, c: string) {
    HasDebit(s, u, c) && HasRollback(s, u, c) && WasDeclined(s, u, c)
  }

  ghost predicate NeverDebited(s: Sys, u: Uuid, c: string) {
    !HasDebit(s, u, c) && !HasRollback(s, u, c) && !Recorded(s, u, c)
  }

  /** The answer tells which of the three ends was reached. */
  ghost predicate Finished(s: Sys, u: Uuid, c: string, pc: Pc) {
    match pc
    case Done(Paid(t, _, _, _)) => Settled(s, u, c, t)
    case Done(Rejected(Reversed)) => Restored(s, u, c)
    case Done(Rejected(TransferFailed)) => Restored(s, u, c)
    case Done(Rejected(CannotDebit)) => NeverDebited(s, u, c)
    case _ => false
  }

  /** What an attempt that has not yet finished leaves to be done by its remaining steps. */
  ghost predicate OnTrack(s: Sys, a: Attempt) {
    var u, c := a.userId, a.client;
    match a.pc
    case ReadDebit => true
    case ReadRollback(seen) => seen == HasDebit(s, u, c)
    case Debit => NeverDebited(s, u, c)
    case Transfer => HasDebit(s, u, c) && !HasRollback(s, u, c)
    case Mark(t) => HasDebit(s, u, c) && !HasRollback(s, u, c) && TransferredAs(s, u, c, t)
    case Rollback => HasDebit(s, u, c) && WasDeclined(s, u, c)
    case _ => Finished(s, u, c, a.pc)
  }

  /** The compensating credit always commits: it can only raise the balance. */
  lemma RollbackCommits(db: Db, u: Uuid, n: nat, c: string)
    requires LedgerInv(db)
    ensures PayoutRollbackTx(db, u, n, c).Success?
    ensures HasKey(PayoutRollbackTx(db, u, n, c).value.ledger, PayoutRollback(u, c))
  {
    BalanceIsTotal(db, u);
    FindAppend(db.ledger, NewEntry(db, u, n, ADJUSTMENT, PayoutRollback(u, c)), PayoutRollback(u, c));
  }

  /** One step, with the database and the metadata write working, keeps an attempt on its way. */
  lemma StepOnTrack(s: Sys, id: nat, env: Env)
    requires id in s.attempts && TablesInv(s) && SagaInv(s)
    requires PairOk(s, s.attempts[id].userId, s.attempts[id].client) && AttemptOk(s, s.attempts[id])
    requires Works(env) && OnTrack(s, s.attempts[id]) && SameRequest(s, s.attempts[id])
    ensures OnTrack(PayoutStepStep(s, id, env), PayoutStepStep(s, id, env).attempts[id])
  {
    var a, s' := s.attempts[id], PayoutStepStep(s, id, env);
    match a.pc {
      case Debit => DebitOnTrack(s, id, env);
      case Rollback =>
        RollbackCommits(s.db, a.userId, a.request.coinsMinor, a.client);
        FindPersists(s.db.ledger, s'.db.ledger, PayoutDebit(a.userId, a.client));
      case Transfer => TransferOnTrack(s, id, env);
      case Mark(_) => MarkOnTrack(s, id, env);
      case _ =>
    }
  }

  lemma DebitOnTrack(s: Sys, id: nat, env: Env)
    requires id in s.attempts && s.attempts[id].pc.Debit? && env.debitCommits
    requires OnTrack(s, s.attempts[id])
    ensures OnTrack(PayoutStepStep(s, id, env), PayoutStepStep(s, id, env).attempts[id])
  {
    var a := s.attempts[id];
    var e := NewEntry(s.db, a.userId, 0 - a.request.coinsMinor, PAYOUT, PayoutDebit(a.userId, a.client));
    FindAppend(s.db.ledger, e, PayoutDebit(a.userId, a.client));
    FindAppend(s.db.ledger, e, PayoutRollback(a.userId, a.client));
  }

  lemma TransferOnTrack(s: Sys, id: nat, env: Env)
    requires id in s.attempts && s.attempts[id].pc.Transfer? && !env.reply.Lost?
    requires OnTrack(s, s.attempts[id]) && SameRequest(s, s.attempts[id])
    ensures OnTrack(PayoutStepStep(s, id, env), PayoutStepStep(s, id, env).attempts[id])
  {
  }

  lemma MarkOnTrack(s: Sys, id: nat, env: Env)
    requires id in s.attempts && s.attempts[id].pc.Mark? && env.markWritten
    requires OnTrack(s, s.attempts[id])
    ensures OnTrack(PayoutStepStep(s, id, env), PayoutStepStep(s, id, env).attempts[id])
  {
  }

  lemma StepsNext(s: Sys, id: nat, env: Env, n: nat)
    requires n > 0
    ensures Run(s, Steps(id, env, n)) == Run(Step(s, PayoutStep(id, env)), Steps(id, env, n - 1))
  {
    assert Steps(id, env, n)[1..] == Steps(id, env, n - 1);
  }

  lemma StepsNextFaithful(s: Sys, id: nat, env: Env, n: nat)
    requires n > 0 && Faithful(s, PayoutStep(id, env)) && FaithfulRun(Step(s, PayoutStep(id, env)), Steps(id, env, n - 1))
    ensures FaithfulRun(s, Steps(id, env, n))
  {
    assert Steps(id, env, n)[1..] == Steps(id, env, n - 1);
  }

  lemma StepsNextGuarded(s: Sys, id: nat, env: Env, n: nat)
    requires n > 0 && Guarded(s, PayoutStep(id, env)) && GuardedRun(Step(s, PayoutStep(id, env)), Steps(id, env, n - 1))
    ensures GuardedRun(s, Steps(id, env, n))
  {
    assert Steps(id, env, n)[1..] == Steps(id, env, n - 1);
  }

  /** The recorded transfer of the key, if any, belongs to another request. */
  predicate KeyConflicts(stripe: map<OpKey, StripeRecord>, u: Uuid, c: string, q: Request) {
    var k := StripeTransfer(u, c);
    k in stripe && stripe[k].Succeeded? && stripe[k].request != q
  }

  /** The attempt is on its way in a healthy state; only its position may have changed from `was`. */
  ghost predicate Underway(s: Sys, id: nat, was: Attempt) {
    && TablesInv(s) && SagaInv(s)
    && id in s.attempts && s.attempts[id].(pc := Crashed) == was.(pc := Crashed)
    && OnTrack(s, s.attempts[id]) && !KeyConflicts(s.stripe, was.userId, was.client, was.request)
  }

  /** Nothing the environment does gets in the way of the call. */
  predicate Works(env: Env) {
    env.debitCommits && env.rollbackCommits && env.markWritten && !env.reply.Lost?
  }

  lemma StepFinishes(s: Sys, id: nat, was: Attempt, env: Env)
    requires Underway(s, id, was) && Works(env)
    ensures Faithful(s, PayoutStep(id, env))
    ensures Underway(Step(s, PayoutStep(id, env)), id, was)
  {
    assert PairOk(s, s.attempts[id].userId, s.attempts[id].client) && AttemptOk(s, s.attempts[id]);
    StepOnTrack(s, id, env);
    StepKeepsTables(s, PayoutStep(id, env));
    StepKeepsSaga(s, PayoutStep(id, env));
  }

  lemma {:induction false} StepsFinish(s: Sys, id: nat, was: Attempt, env: Env, n: nat)
    requires Underway(s, id, was) && Works(env)
    ensures Underway(Run(s, Steps(id, env, n)), id, was)
    decreases n
  {
    if n == 0 {
    } else {
      StepFinishes(s, id, was, env);
      StepsFinish(Step(s, PayoutStep(id, env)), id, was, env, n - 1);
      StepsNext(s, id, env, n);
    }
  }

  lemma {:induction false} StepsFaithful(s: Sys, id: nat, was: Attempt, env: Env, n: nat)
    requires Underway(s, id, was) && Works(env)
    ensures FaithfulRun(s, Steps(id, env, n))
    decreases n
  {
    if n == 0 {
    } else {
      StepFinishes(s, id, was, env);
      StepsFaithful(Step(s, PayoutStep(id, env)), id, was, env, n - 1);
      StepsNextFaithful(s, id, env, n);
    }
  }

  /** A call starts on its way. */
  lemma StartsUnderway(es: seq<Event>, id: nat, u: Uuid, q: Request, c: string)
    requires FaithfulRun(INIT, es) && id !in Run(INIT, es).attempts && q.coinsMinor > 0
    requires !KeyConflicts(Run(INIT, es).stripe, u, c, q)
    ensures Underway(Step(Run(INIT, es), PayoutStart(id, u, q, c)), id, Attempt(u, q, c, ReadDebit))
  {
    var s := Run(INIT, es);
    SagaAlways(es, u, c);
    StepKeepsTables(s, PayoutStart(id, u, q, c));
    StepKeepsSaga(s, PayoutStart(id, u, q, c));
  }

  lemma RetryIsSteps(s: Sys, id: nat, u: Uuid, q: Request, c: string, env: Env)
    ensures var s1 := Step(s, PayoutStart(id, u, q, c));
            && Run(s, RetryEvents(id, u, q, c, env)) == Run(s1, Steps(id, env, 6))
            && (FaithfulRun(s, RetryEvents(id, u, q, c, env)) <==> FaithfulRun(s1, Steps(id, env, 6)))
            && (GuardedRun(s, RetryEvents(id, u, q, c, env)) <==> GuardedRun(s1, Steps(id, env, 6)))
  {
    var es := RetryEvents(id, u, q, c, env);
    assert es[0] == PayoutStart(id, u, q, c) && es[1..] == Steps(id, env, 6);
  }

  /** From every state that faithful runs reach (debited and crashed, transferred but not marked,
      rollback failed, or nothing done), one uninterrupted call whose ledger writes commit brings
      the pair to one of the three ends, and its answer says which. The call is faithful, too: it
      does not use the key of a recorded transfer for another request. */
  lemma Recovery(es: seq<Event>, id: nat, u: Uuid, q: Request, c: string, env: Env)
    requires FaithfulRun(INIT, es) && id !in Run(INIT, es).attempts && q.coinsMinor > 0
    requires Works(env) && !KeyConflicts(Run(INIT, es).stripe, u, c, q)
    ensures var s := Run(Run(INIT, es), RetryEvents(id, u, q, c, env));
            id in s.attempts && Finished(s, u, c, s.attempts[id].pc)
  {
    var s := Run(INIT, es);
    StartsUnderway(es, id, u, q, c);
    StepsFinish(Step(s, PayoutStart(id, u, q, c)), id, Attempt(u, q, c, ReadDebit), env, 6);
    RetryIsSteps(s, id, u, q, c, env);
    RetryIsDrive(s, id, u, q, c, env);
  }

  // Recovery in money -----------------------------------------------------------------------------

  /** If there is a debit row, it took as many coins as the attempt asks for. */
  predicate OwnDebit(s: Sys, u: Uuid, c: string, n: nat) {
    HasDebit(s, u, c) ==> Debited(s, u, c) == n
  }

  lemma StepKeepsOwnDebit(s: Sys, id: nat, was: Attempt, env: Env)
    requires Underway(s, id, was) && OwnDebit(s, was.userId, was.client, was.request.coinsMinor)
    ensures Guarded(s, PayoutStep(id, env))
    ensures OwnDebit(Step(s, PayoutStep(id, env)), was.userId, was.client, was.request.coinsMinor)
  {
    var a, l, n := s.attempts[id], s.db.ledger, was.request.coinsMinor;
    var key := PayoutDebit(was.userId, was.client);
    match a.pc
    case Debit => FindAppend(l, PayoutEntry(s.db, was.userId, n, was.client), key);
    case Rollback => FindAppend(l, NewEntry(s.db, was.userId, n, ADJUSTMENT, PayoutRollback(was.userId, was.client)), key);
    case _ =>
  }

  lemma {:induction false} StepsGuarded(s: Sys, id: nat, was: Attempt, env: Env, n: nat)
    requires Underway(s, id, was) && Works(env) && OwnDebit(s, was.userId, was.client, was.request.coinsMinor)
    ensures GuardedRun(s, Steps(id, env, n))
    ensures OwnDebit(Run(s, Steps(id, env, n)), was.userId, was.client, was.request.coinsMinor)
    decreases n
  {
    if n == 0 {
    } else {
      StepFinishes(s, id, was, env);
      StepKeepsOwnDebit(s, id, was, env);
      StepsGuarded(Step(s, PayoutStep(id, env)), id, was, env, n - 1);
      StepsNext(s, id, env, n);
      StepsNextGuarded(s, id, env, n);
    }
  }

  /** In money: a retry within the guard leaves the wallet down by the coins if it answered ok and
      untouched otherwise, counting everything earlier calls with the same key did. */
  lemma RecoveryMoney(es: seq<Event>, id: nat, u: Uuid, q: Request, c: string, env: Env)
    requires FaithfulRun(INIT, es) && GuardedRun(INIT, es) && id !in Run(INIT, es).attempts && q.coinsMinor > 0
    requires Works(env) && !KeyConflicts(Run(INIT, es).stripe, u, c, q)
    requires OwnDebit(Run(INIT, es), u, c, q.coinsMinor)
    ensures var s := Run(Run(INIT, es), RetryEvents(id, u, q, c, env));
            && id in s.attempts
            && NetEffect(s, u, c) == if s.attempts[id].pc.Done? && s.attempts[id].pc.outcome.Paid? then -(q.coinsMinor as int) else 0
  {
    var s, retry := Run(INIT, es), RetryEvents(id, u, q, c, env);
    var s1, was := Step(s, PayoutStart(id, u, q, c)), Attempt(u, q, c, ReadDebit);
    Recovery(es, id, u, q, c, env);
    StartsUnderway(es, id, u, q, c);
    StepsFaithful(s1, id, was, env, 6);
    StepsGuarded(s1, id, was, env, 6);
    RetryIsSteps(s, id, u, q, c, env);
    FaithfulConcat(INIT, es, retry);
    GuardedConcat(INIT, es, retry);
    RunConcat(INIT, es, retry);
    PayoutNetEffect(es + retry, u, c);
  }

  function PayoutEntry(db: Db, u: Uuid, n: nat, c: string): Entry {
    NewEntry(db, u, 0 - n, PAYOUT, PayoutDebit(u, c))
  }
}
