/** The in-process limiter of the socket gateway: a bucket per user, reset a fixed time after its
    first call. What the buckets guarantee about any interval of that length, wherever it starts. */
module RateLimit {
  import opened Common

  datatype Bucket = Bucket(count: int, resetAt: int)

  type Store = map<string, Bucket>

  datatype Call = Call(now: int, limit: int)

  /** `consumeRateLimit` on one entry of a store. */
  function Consume(entry: Option<Bucket>, now: int, limit: int, windowMs: int): (Option<Bucket>, bool) {
    if entry.None? || entry.value.resetAt <= now then (Some(Bucket(1, now + windowMs)), true)
    else if entry.value.count >= limit then (entry, false)
    else (Some(entry.value.(count := entry.value.count + 1)), true)
  }

  function Lookup(store: Store, key: string): Option<Bucket> {
    if key in store then Some(store[key]) else None
  }

  class Limiter {
    var store: Store

    constructor ()
      ensures store == map[]
    {
      store := map[];
    }

    /** Counts on the caller's own bucket only. */
    method ConsumeRateLimit(key: string, now: int, limit: int, windowMs: int) returns (accepted: bool)
      modifies this
      ensures (Lookup(store, key), accepted) == Consume(Lookup(old(store), key), now, limit, windowMs)
      ensures store - {key} == old(store) - {key}
      ensures accepted <==> key !in old(store) || old(store)[key].resetAt <= now || old(store)[key].count < limit
      ensures !accepted ==> store == old(store)
      ensures accepted ==>
                && key in store
                && store[key] == if key !in old(store) || old(store)[key].resetAt <= now then Bucket(1, now + windowMs)
                                 else Bucket(old(store)[key].count + 1, old(store)[key].resetAt)
    {
      if key !in store || store[key].resetAt <= now {
        store := store[key := Bucket(1, now + windowMs)];
        return true;
      }
      if store[key].count >= limit {
        return false;
      }
      store := store[key := store[key].(count := store[key].count + 1)];
      return true;
    }
  }

  // Runs ------------------------------------------------------------------------------------------

  /** An accepted call: its time, when its bucket was opened, and its number within the bucket. */
  datatype Accepted = Accepted(time: int, start: int, number: int)

  /** One key's bucket and the calls accepted so far. */
  datatype Trace = Trace(entry: Option<Bucket>, log: seq<Accepted>)

  const EMPTY := Trace(None, [])

  function Serve(t: Trace, c: Call, windowMs: int): Trace {
    var (entry, accepted) := Consume(t.entry, c.now, c.limit, windowMs);
    if accepted then Trace(entry, t.log + [Accepted(c.now, entry.value.resetAt - windowMs, entry.value.count)])
    else Trace(entry, t.log)
  }

  function ServeAll(calls: seq<Call>, windowMs: int): Trace {
    if calls == [] then EMPTY
    else Serve(ServeAll(calls[..|calls| - 1], windowMs), calls[|calls| - 1], windowMs)
  }

  /** A clock that does not run backwards. */
  ghost predicate Clocked(calls: seq<Call>) {
    forall i, j :: 0 <= i < j < |calls| ==> calls[i].now <= calls[j].now
  }

  ghost predicate LimitsAtMost(calls: seq<Call>, limit: int) {
    forall i :: 0 <= i < |calls| ==> calls[i].limit <= limit
  }

  // Buckets ---------------------------------------------------------------------------------------

  /** An accepted call lies in its bucket's window and is one of at most `limit`. */
  predicate InBucket(a: Accepted, limit: int, windowMs: int) {
    && a.start <= a.time < a.start + windowMs
    && 1 <= a.number <= limit
    && (a.number == 1 ==> a.start == a.time)
  }

  /** The next accepted call continues the bucket, or opens a new one after the old one's window. */
  predicate Follows(a: Accepted, b: Accepted, windowMs: int) {
    && a.time <= b.time
    && ((b.number == a.number + 1 && b.start == a.start) || (b.number == 1 && a.start + windowMs <= b.time))
  }

  predicate FollowedAt(log: seq<Accepted>, i: nat, windowMs: int) {
    i + 1 < |log| ==> Follows(log[i], log[i + 1], windowMs)
  }

  ghost predicate Bucketed(log: seq<Accepted>, limit: int, windowMs: int) {
    && (forall i :: 0 <= i < |log| ==> InBucket(log[i], limit, windowMs))
    && (forall i :: 0 <= i < |log| ==> FollowedAt(log, i, windowMs))
  }

  /** The live bucket is the one of the last accepted call. */
  predicate EntryMatches(t: Trace, windowMs: int) {
    if t.log == [] then t.entry.None?
    else
      var last := t.log[|t.log| - 1];
      t.entry == Some(Bucket(last.number, last.start + windowMs))
  }

  lemma {:induction false} RunIsBucketed(calls: seq<Call>, limit: int, windowMs: int)
    requires Clocked(calls) && LimitsAtMost(calls, limit) && limit >= 1 && windowMs >= 1
    ensures var t := ServeAll(calls, windowMs);
            && Bucketed(t.log, limit, windowMs)
            && EntryMatches(t, windowMs)
            && (t.log != [] ==> calls != [] && t.log[|t.log| - 1].time <= calls[|calls| - 1].now)
  {
    if calls == [] {
    } else {
      var before := calls[..|calls| - 1];
      RunIsBucketed(before, limit, windowMs);
      var t, t' := ServeAll(before, windowMs), ServeAll(calls, windowMs);
      forall i | 0 <= i < |t'.log| ensures FollowedAt(t'.log, i, windowMs) {
        assert i < |t.log| ==> FollowedAt(t.log, i, windowMs);
      }
    }
  }

  // The bound -------------------------------------------------------------------------------------

  /** After any accepted call another bucket is opened within `limit - number + 1` accepted calls, at
      least a window after the current one was opened. */
  lemma {:induction false} NextBucket(log: seq<Accepted>, i: nat, limit: int, windowMs: int) returns (b: nat)
    requires Bucketed(log, limit, windowMs)
    requires i < |log| && i + (limit - log[i].number + 1) < |log|
    ensures i < b <= i + (limit - log[i].number + 1)
    ensures b < |log| && log[b].number == 1 && log[i].start + windowMs <= log[b].time
    decreases limit - log[i].number
  {
    assert FollowedAt(log, i, windowMs);
    if log[i + 1].number == 1 {
      b := i + 1;
    } else {
      b := NextBucket(log, i + 1, limit, windowMs);
    }
  }

  lemma {:induction false} Ordered(log: seq<Accepted>, i: nat, j: nat, limit: int, windowMs: int)
    requires Bucketed(log, limit, windowMs) && i <= j < |log|
    ensures log[i].time <= log[j].time
    decreases j - i
  {
    if i == j {
    } else {
      Ordered(log, i, j - 1, limit, windowMs);
      assert FollowedAt(log, j - 1, windowMs);
    }
  }

  /** Two accepted calls 2L - 1 apart in the log are at least a window apart in time. */
  lemma {:induction false} FarApart(log: seq<Accepted>, i: nat, limit: int, windowMs: int)
    requires Bucketed(log, limit, windowMs) && limit >= 1 && i + (2 * limit - 1) < |log|
    ensures log[i + (2 * limit - 1)].time - log[i].time >= windowMs
  {
    var b := NextBucket(log, i, limit, windowMs);
    if log[i].number == 1 {
      Ordered(log, b, i + (2 * limit - 1), limit, windowMs);
    } else {
      var b2 := NextBucket(log, b, limit, windowMs);
      Ordered(log, i, b, limit, windowMs);
      Ordered(log, b2, i + (2 * limit - 1), limit, windowMs);
    }
  }

  /** How many accepted calls fall into the half-open interval of length `windowMs` from `from`. */
  function CountIn(log: seq<Accepted>, from: int, windowMs: int): nat {
    if log == [] then 0
    else
      var last := log[|log| - 1];
      CountIn(log[..|log| - 1], from, windowMs) + if from <= last.time < from + windowMs then 1 else 0
  }

  /** Nothing in the interval before position i, everything from i on: at most |log| - i. */
  lemma {:induction false} CountFrom(log: seq<Accepted>, i: nat, from: int, windowMs: int)
    requires i <= |log|
    requires forall j :: 0 <= j < i ==> log[j].time < from
    ensures CountIn(log, from, windowMs) <= |log| - i
  {
    if i < |log| {
      CountFrom(log[..|log| - 1], i, from, windowMs);
    } else if log != [] {
      CountFrom(log[..|log| - 1], |log| - 1, from, windowMs);
    }
  }

  predicate ApartAt(log: seq<Accepted>, i: nat, k: nat, windowMs: int) {
    i + k < |log| ==> log[i + k].time - log[i].time >= windowMs
  }

  /** If calls k apart in the log are a window apart in time, no window holds more than k. */
  lemma {:induction false} SpreadBoundsCount(log: seq<Accepted>, k: nat, from: int, windowMs: int)
    requires forall i, j :: 0 <= i <= j < |log| ==> log[i].time <= log[j].time
    requires forall i :: 0 <= i < |log| ==> ApartAt(log, i, k, windowMs)
    ensures CountIn(log, from, windowMs) <= k
  {
    if log == [] {
    } else {
      var n := |log| - 1;
      if from <= log[n].time < from + windowMs && k <= n {
        assert ApartAt(log, n - k, k, windowMs);
        CountFrom(log, n - k + 1, from, windowMs);
      } else if k <= n {
        forall i | 0 <= i < n ensures ApartAt(log[..n], i, k, windowMs) {
          assert ApartAt(log, i, k, windowMs);
        }
        SpreadBoundsCount(log[..n], k, from, windowMs);
      } else {
        CountFrom(log, 0, from, windowMs);
      }
    }
  }

  /** Whatever calls arrive on one key, from handlers with whatever limits up to L and one window W,
      no interval of length W holds more than 2L - 1 accepted calls. */
  lemma SlidingBound(calls: seq<Call>, limit: int, windowMs: int, from: int)
    requires Clocked(calls) && LimitsAtMost(calls, limit) && limit >= 1 && windowMs >= 1
    ensures CountIn(ServeAll(calls, windowMs).log, from, windowMs) <= 2 * limit - 1
  {
    var log := ServeAll(calls, windowMs).log;
    RunIsBucketed(calls, limit, windowMs);
    forall i, j | 0 <= i <= j < |log| ensures log[i].time <= log[j].time {
      Ordered(log, i, j, limit, windowMs);
    }
    var k := 2 * limit - 1;
    forall i | 0 <= i < |log| ensures ApartAt(log, i, k, windowMs) {
      if i + k < |log| {
        FarApart(log, i, limit, windowMs);
      }
    }
    SpreadBoundsCount(log, k, from, windowMs);
  }

  // Many keys -------------------------------------------------------------------------------------

  datatype KeyedCall = KeyedCall(key: string, call: Call)

  function StoreAfter(calls: seq<KeyedCall>, windowMs: int): Store {
    if calls == [] then map[]
    else
      var before, last := StoreAfter(calls[..|calls| - 1], windowMs), calls[|calls| - 1];
      before[last.key := Consume(Lookup(before, last.key), last.call.now, last.call.limit, windowMs).0.value]
  }

  function CallsOf(calls: seq<KeyedCall>, key: string): seq<Call> {
    if calls == [] then []
    else
      var last := calls[|calls| - 1];
      CallsOf(calls[..|calls| - 1], key) + if last.key == key then [last.call] else []
  }

  /** A user's bucket, and so every answer the user gets, depends on that user's calls alone; the
      sliding bound therefore holds for each user of a shared store. */
  lemma {:induction false} UsersAreIndependent(calls: seq<KeyedCall>, key: string, windowMs: int)
    ensures Lookup(StoreAfter(calls, windowMs), key) == ServeAll(CallsOf(calls, key), windowMs).entry
  {
    if calls == [] {
    } else {
      var before, last := calls[..|calls| - 1], calls[|calls| - 1];
      UsersAreIndependent(before, key, windowMs);
      if last.key == key {
        ServeNext(CallsOf(before, key), last.call, windowMs);
      } else {
        assert CallsOf(calls, key) == CallsOf(before, key);
      }
    }
  }

  // The bound is met ------------------------------------------------------------------------------

  function Repeat(c: Call, n: nat): (r: seq<Call>)
    ensures |r| == n && forall i :: 0 <= i < n ==> r[i] == c
  {
    seq(n, i => c)
  }

  lemma {:induction false} ServeNext(calls: seq<Call>, c: Call, windowMs: int)
    ensures ServeAll(calls + [c], windowMs) == Serve(ServeAll(calls, windowMs), c, windowMs)
  {
    assert (calls + [c])[..|calls|] == calls;
  }

  lemma {:induction false} CountNext(log: seq<Accepted>, a: Accepted, from: int, windowMs: int)
    ensures CountIn(log + [a], from, windowMs)
            == CountIn(log, from, windowMs) + if from <= a.time < from + windowMs then 1 else 0
  {
    assert (log + [a])[..|log|] == log;
  }

  /** One more call: the bucket moves on and the count grows by one if the call is accepted inside the
      interval. */
  lemma OneMore(before: seq<Call>, c: Call, from: int, windowMs: int)
    ensures var t, t' := ServeAll(before, windowMs), ServeAll(before + [c], windowMs);
            var (entry, accepted) := Consume(t.entry, c.now, c.limit, windowMs);
            && t'.entry == entry
            && CountIn(t'.log, from, windowMs)
               == CountIn(t.log, from, windowMs) + if accepted && from <= c.now < from + windowMs then 1 else 0
  {
    ServeNext(before, c, windowMs);
    var t := ServeAll(before, windowMs);
    var (entry, accepted) := Consume(t.entry, c.now, c.limit, windowMs);
    if accepted {
      CountNext(t.log, Accepted(c.now, entry.value.resetAt - windowMs, entry.value.count), from, windowMs);
    }
  }

  /** The calls lead to this live bucket, and n of them were accepted in the interval. */
  predicate LeadTo(calls: seq<Call>, b: Bucket, n: int, from: int, windowMs: int) {
    ServeAll(calls, windowMs).entry == Some(b) && CountIn(ServeAll(calls, windowMs).log, from, windowMs) == n
  }

  /** A call that fits into the live bucket is accepted. */
  lemma OneFits(before: seq<Call>, b: Bucket, n: int, c: Call, from: int, windowMs: int)
    requires LeadTo(before, b, n, from, windowMs)
    requires c.now < b.resetAt && b.count < c.limit && from <= c.now < from + windowMs
    ensures LeadTo(before + [c], Bucket(b.count + 1, b.resetAt), n + 1, from, windowMs)
  {
    OneMore(before, c, from, windowMs);
  }

  /** A call after the end of the live bucket opens the next one. */
  lemma OneOpens(before: seq<Call>, b: Bucket, n: int, c: Call, from: int, windowMs: int)
    requires LeadTo(before, b, n, from, windowMs)
    requires b.resetAt <= c.now && from <= c.now < from + windowMs
    ensures LeadTo(before + [c], Bucket(1, c.now + windowMs), n + 1, from, windowMs)
  {
    OneMore(before, c, from, windowMs);
  }

  lemma NothingRepeated(before: seq<Call>, c: Call)
    ensures before + Repeat(c, 0) == before
  {
  }

  lemma RepeatNext(before: seq<Call>, c: Call, k: nat)
    requires k > 0
    ensures before + Repeat(c, k) == before + Repeat(c, k - 1) + [c]
  {
  }

  /** The k-th of a series of calls, each of which fits. */
  lemma NextFits(before: seq<Call>, b: Bucket, n: int, c: Call, k: nat, from: int, windowMs: int)
    requires k > 0 && LeadTo(before + Repeat(c, k - 1), Bucket(b.count + (k - 1), b.resetAt), n + (k - 1), from, windowMs)
    requires c.now < b.resetAt && b.count + k <= c.limit && from <= c.now < from + windowMs
    ensures LeadTo(before + Repeat(c, k), Bucket(b.count + k, b.resetAt), n + k, from, windowMs)
  {
    OneFits(before + Repeat(c, k - 1), Bucket(b.count + (k - 1), b.resetAt), n + (k - 1), c, from, windowMs);
    RepeatNext(before, c, k);
  }

  /** Calls that fit into the live bucket are all accepted. */
  lemma {:induction false} FillBucket(before: seq<Call>, b: Bucket, n: int, c: Call, k: nat, from: int, windowMs: int)
    requires LeadTo(before, b, n, from, windowMs)
    requires c.now < b.resetAt && b.count + k <= c.limit && from <= c.now < from + windowMs
    ensures LeadTo(before + Repeat(c, k), Bucket(b.count + k, b.resetAt), n + k, from, windowMs)
  {
    if k == 0 {
      NothingRepeated(before, c);
    } else {
      FillBucket(before, b, n, c, k - 1, from, windowMs);
      NextFits(before, b, n, c, k, from, windowMs);
    }
  }

  /** One call opens a bucket, the rest of it is used in its last millisecond, and the next bucket
      right after. */
  function WorstCase(limit: nat, windowMs: int): seq<Call>
    requires limit >= 1
  {
    [Call(0, limit)] + Repeat(Call(windowMs - 1, limit), limit - 1)
    + [Call(windowMs, limit)] + Repeat(Call(windowMs, limit), limit - 1)
  }

  lemma OpenFirst(c: Call, from: int, windowMs: int)
    ensures LeadTo([c], Bucket(1, c.now + windowMs), if from <= c.now < from + windowMs then 1 else 0, from, windowMs)
  {
    OneMore([], c, from, windowMs);
    assert [] + [c] == [c];
  }

  lemma WorstCaseCount(limit: nat, windowMs: int)
    requires limit >= 1 && windowMs >= 2
    ensures CountIn(ServeAll(WorstCase(limit, windowMs), windowMs).log, windowMs - 1, windowMs) == 2 * limit - 1
  {
    var from := windowMs - 1;
    var first, late, next := Call(0, limit), Call(windowMs - 1, limit), Call(windowMs, limit);
    OpenFirst(first, from, windowMs);
    FillBucket([first], Bucket(1, windowMs), 0, late, limit - 1, from, windowMs);
    var used := [first] + Repeat(late, limit - 1);
    OneOpens(used, Bucket(limit, windowMs), limit - 1, next, from, windowMs);
    FillBucket(used + [next], Bucket(1, 2 * windowMs), limit, next, limit - 1, from, windowMs);
  }

  /** For every limit and every window of at least two milliseconds some run reaches 2L - 1. */
  lemma BoundIsTight(limit: nat, windowMs: int)
    requires limit >= 1 && windowMs >= 2
    ensures var calls := WorstCase(limit, windowMs);
            && Clocked(calls) && LimitsAtMost(calls, limit)
            && CountIn(ServeAll(calls, windowMs).log, windowMs - 1, windowMs) == 2 * limit - 1
  {
    WorstCaseCount(limit, windowMs);
  }

  /** A run with 2L - 1 accepted calls in one interval. */
  ghost predicate Meets(calls: seq<Call>, limit: int, windowMs: int, from: int) {
    Clocked(calls) && LimitsAtMost(calls, limit) && CountIn(ServeAll(calls, windowMs).log, from, windowMs) == 2 * limit - 1
  }

  /** A window of one millisecond holds one bucket. */
  lemma OneMillisecond(calls: seq<Call>, limit: int, from: int)
    requires Clocked(calls) && LimitsAtMost(calls, limit) && limit >= 1
    ensures CountIn(ServeAll(calls, 1).log, from, 1) <= limit
  {
    var log := ServeAll(calls, 1).log;
    RunIsBucketed(calls, limit, 1);
    forall i, j | 0 <= i <= j < |log| ensures log[i].time <= log[j].time {
      Ordered(log, i, j, limit, 1);
    }
    forall i | 0 <= i < |log| ensures ApartAt(log, i, limit, 1) {
      if i + limit < |log| {
        var b := NextBucket(log, i, limit, 1);
        Ordered(log, b, i + limit, limit, 1);
      }
    }
    SpreadBoundsCount(log, limit, from, 1);
  }

  /** Exactly when the bound is met: always, but for windows of one millisecond with a limit above one. */
  lemma BoundIsMetExactlyWhen(limit: nat, windowMs: int)
    requires limit >= 1 && windowMs >= 1
    ensures (exists calls, from :: Meets(calls, limit, windowMs, from)) <==> windowMs >= 2 || limit == 1
  {
    if windowMs >= 2 {
      BoundIsTight(limit, windowMs);
      assert Meets(WorstCase(limit, windowMs), limit, windowMs, windowMs - 1);
    } else if limit == 1 {
      var c := Call(0, 1);
      OpenFirst(c, 0, 1);
      assert Meets([c], 1, 1, 0);
    } else {
      forall calls, from ensures !Meets(calls, limit, windowMs, from) {
        if Clocked(calls) && LimitsAtMost(calls, limit) {
          OneMillisecond(calls, limit, from);
        }
      }
    }
  }
}
