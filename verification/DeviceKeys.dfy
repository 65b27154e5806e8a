/** The pool of one-time and fallback keys of each device, with every service call one step: what
    registering, uploading, claiming and revoking keep, and what a claim is guaranteed to return. */
module DeviceKeys {
  import opened Common

  const OTK_POOL_MAX := 200

  /** A key as uploaded; `signatureOk` is the verdict of the Ed25519 check. */
  datatype SignedKey = SignedKey(keyId: string, publicKey: string, signatureOk: bool)

  datatype OneTimeKey = OneTimeKey(keyId: string, publicKey: string, claimed: bool)

  datatype FallbackKey = FallbackKey(keyId: string, publicKey: string, retired: bool)

  /** A device row with its key rows, each list in order of creation. Devices are named by their
      unique identity key. */
  datatype Device = Device(userId: string, revoked: bool, otks: seq<OneTimeKey>, fallbacks: seq<FallbackKey>)

  datatype KeyError = InvalidSignature | AlreadyRegistered | NotFound | Revoked | NothingProvided | PoolFull | UniqueViolation

  // Lists of keys ---------------------------------------------------------------------------------

  predicate AllSigned(keys: seq<SignedKey>) {
    forall i :: 0 <= i < |keys| ==> keys[i].signatureOk
  }

  predicate IdsUnique(otks: seq<OneTimeKey>) {
    forall i, j :: 0 <= i < j < |otks| ==> otks[i].keyId != otks[j].keyId
  }

  predicate Holds(otks: seq<OneTimeKey>, keyId: string) {
    exists i :: 0 <= i < |otks| && otks[i].keyId == keyId
  }

  predicate HoldsFallback(fallbacks: seq<FallbackKey>, keyId: string) {
    exists i :: 0 <= i < |fallbacks| && fallbacks[i].keyId == keyId
  }

  function Unclaimed(otks: seq<OneTimeKey>): nat {
    if otks == [] then 0 else Unclaimed(otks[..|otks| - 1]) + if otks[|otks| - 1].claimed then 0 else 1
  }

  function Active(fallbacks: seq<FallbackKey>): nat {
    if fallbacks == [] then 0 else Active(fallbacks[..|fallbacks| - 1]) + if fallbacks[|fallbacks| - 1].retired then 0 else 1
  }

  /** `createMany` */
  function Fresh(keys: seq<SignedKey>): (r: seq<OneTimeKey>)
    ensures |r| == |keys|
    ensures forall i :: 0 <= i < |r| ==> r[i] == OneTimeKey(keys[i].keyId, keys[i].publicKey, false)
  {
    seq(|keys|, i requires 0 <= i < |keys| => OneTimeKey(keys[i].keyId, keys[i].publicKey, false))
  }

  function Retire(fallbacks: seq<FallbackKey>): (r: seq<FallbackKey>)
    ensures |r| == |fallbacks|
    ensures forall i :: 0 <= i < |r| ==> r[i] == fallbacks[i].(retired := true)
  {
    seq(|fallbacks|, i requires 0 <= i < |fallbacks| => fallbacks[i].(retired := true))
  }

  /** Requested keys whose id the device does not have yet. */
  function NotYetHeld(keys: seq<SignedKey>, otks: seq<OneTimeKey>): seq<SignedKey> {
    if keys == [] then []
    else
      var last := keys[|keys| - 1];
      NotYetHeld(keys[..|keys| - 1], otks) + if Holds(otks, last.keyId) then [] else [last]
  }

  // The operations on one device -----------------------------------------------------------------

  /** `register` for a new identity key (`None`) or one that the same user registered before. */
  function Registered(existing: Option<Device>, userId: string, keys: seq<SignedKey>, fallback: SignedKey): Result<Device, KeyError> {
    if !AllSigned(keys) || !fallback.signatureOk then Failure(InvalidSignature)
    else if existing.Some? && existing.value.userId != userId then Failure(AlreadyRegistered)
    else if !IdsUnique(Fresh(keys)) then Failure(UniqueViolation)
    else Success(Device(userId, false, Fresh(keys), [FallbackKey(fallback.keyId, fallback.publicKey, false)]))
  }

  /** `uploadOneTimeKeys` on an existing device row. */
  function Uploaded(d: Device, userId: string, keys: seq<SignedKey>, fallback: Option<SignedKey>): Result<Device, KeyError> {
    if d.userId != userId then Failure(NotFound)
    else if d.revoked then Failure(Revoked)
    else if keys == [] && fallback.None? then Failure(NothingProvided)
    else if !AllSigned(keys) || (fallback.Some? && !fallback.value.signatureOk) then Failure(InvalidSignature)
    else if Unclaimed(d.otks) + |keys| > OTK_POOL_MAX then Failure(PoolFull)
    else
      var otks := d.otks + Fresh(NotYetHeld(keys, d.otks));
      if !IdsUnique(otks) || (fallback.Some? && HoldsFallback(d.fallbacks, fallback.value.keyId)) then Failure(UniqueViolation)
      else
        var fallbacks := if fallback.None? then d.fallbacks
                         else Retire(d.fallbacks) + [FallbackKey(fallback.value.keyId, fallback.value.publicKey, false)];
        Success(d.(otks := otks, fallbacks := fallbacks))
  }

  function Revoke(d: Device): Device {
    if d.revoked then d else d.(revoked := true, otks := [], fallbacks := [])
  }

  /** The oldest unclaimed key, or the number of keys if there is none. */
  function FirstUnclaimed(otks: seq<OneTimeKey>): (i: nat)
    ensures i <= |otks| && (i < |otks| ==> !otks[i].claimed) && forall j :: 0 <= j < i ==> otks[j].claimed
  {
    if otks == [] || !otks[0].claimed then 0 else 1 + FirstUnclaimed(otks[1..])
  }

  /** The newest fallback key that is not retired. */
  function LatestActive(fallbacks: seq<FallbackKey>): (r: Option<FallbackKey>)
    ensures r.Some? ==> r.value in fallbacks && !r.value.retired
    ensures r.None? ==> forall f :: f in fallbacks ==> f.retired
  {
    if fallbacks == [] then None
    else
      var last := fallbacks[|fallbacks| - 1];
      if !last.retired then Some(last) else LatestActive(fallbacks[..|fallbacks| - 1])
  }

  datatype Prekey = Prekey(keyId: string, publicKey: string, isFallback: bool)

  /** One iteration of `claimKeys`: the device afterwards and the prekey handed out, if any. */
  function Claimed(d: Device): (Device, Option<Prekey>) {
    var i := FirstUnclaimed(d.otks);
    if i < |d.otks| then
      (d.(otks := d.otks[i := d.otks[i].(claimed := true)]), Some(Prekey(d.otks[i].keyId, d.otks[i].publicKey, false)))
    else
      match LatestActive(d.fallbacks)
      case Some(f) => (d, Some(Prekey(f.keyId, f.publicKey, true)))
      case None => (d, None)
  }

  // What the operations do, in full -----------------------------------------------------------------

  /** Registering: first the signatures, then whose identity key it is, then the ids; a success leaves
      exactly the sent keys, all unclaimed, and the one fallback key. */
  lemma RegisteredMeans(existing: Option<Device>, userId: string, keys: seq<SignedKey>, fallback: SignedKey)
    ensures var r := Registered(existing, userId, keys, fallback);
            var signed := fallback.signatureOk && forall i :: 0 <= i < |keys| ==> keys[i].signatureOk;
            var foreign := existing.Some? && existing.value.userId != userId;
            var repeated := exists i, j :: 0 <= i < j < |keys| && keys[i].keyId == keys[j].keyId;
            && (r == Failure(InvalidSignature) <==> !signed)
            && (r == Failure(AlreadyRegistered) <==> signed && foreign)
            && (r == Failure(UniqueViolation) <==> signed && !foreign && repeated)
            && (r.Success? <==> signed && !foreign && !repeated)
            && (r.Success? ==>
                  && r.value.userId == userId && !r.value.revoked
                  && r.value.fallbacks == [FallbackKey(fallback.keyId, fallback.publicKey, false)]
                  && |r.value.otks| == |keys|
                  && forall i :: 0 <= i < |keys| ==> r.value.otks[i] == OneTimeKey(keys[i].keyId, keys[i].publicKey, false))
  {
    var otks := Fresh(keys);
    forall i, j | 0 <= i < j < |keys| ensures otks[i].keyId == keys[i].keyId && otks[j].keyId == keys[j].keyId {
    }
  }

  lemma {:induction false} NotYetHeldMeans(keys: seq<SignedKey>, otks: seq<OneTimeKey>, k: SignedKey)
    ensures k in NotYetHeld(keys, otks) <==> k in keys && forall i :: 0 <= i < |otks| ==> otks[i].keyId != k.keyId
  {
    if keys == [] {
    } else {
      assert keys == keys[..|keys| - 1] + [keys[|keys| - 1]];
      NotYetHeldMeans(keys[..|keys| - 1], otks, k);
    }
  }

  /** No id that the device does not hold is sent twice. */
  predicate NewIdsOnce(keys: seq<SignedKey>, otks: seq<OneTimeKey>) {
    forall i, j :: 0 <= i < j < |keys| && keys[i].keyId == keys[j].keyId ==> Holds(otks, keys[j].keyId)
  }

  lemma {:induction false} NewIdsOnceMeans(keys: seq<SignedKey>, otks: seq<OneTimeKey>)
    ensures IdsUnique(Fresh(NotYetHeld(keys, otks))) <==> NewIdsOnce(keys, otks)
  {
    if keys == [] {
    } else {
      var n := |keys| - 1;
      var before, last := keys[..n], keys[n];
      NewIdsOnceMeans(before, otks);
      assert NewIdsOnce(keys, otks) <==>
             NewIdsOnce(before, otks) && (Holds(otks, last.keyId) || forall i :: 0 <= i < n ==> before[i].keyId != last.keyId);
      if Holds(otks, last.keyId) {
        assert NotYetHeld(keys, otks) == NotYetHeld(before, otks);
      } else {
        assert NotYetHeld(keys, otks) == NotYetHeld(before, otks) + [last];
        LastIsNew(before, otks, last);
      }
    }
  }

  lemma LastIsNew(before: seq<SignedKey>, otks: seq<OneTimeKey>, last: SignedKey)
    requires !Holds(otks, last.keyId)
    ensures IdsUnique(Fresh(NotYetHeld(before, otks) + [last])) <==>
            IdsUnique(Fresh(NotYetHeld(before, otks))) && forall i :: 0 <= i < |before| ==> before[i].keyId != last.keyId
  {
    var kept := NotYetHeld(before, otks);
    var row := OneTimeKey(last.keyId, last.publicKey, false);
    assert Fresh(kept + [last]) == Fresh(kept) + [row];
    AppendKeepsUnique(Fresh(kept), row);
    forall i | 0 <= i < |before| && before[i].keyId == last.keyId
      ensures exists j :: 0 <= j < |kept| && Fresh(kept)[j].keyId == last.keyId
    {
      NotYetHeldMeans(before, otks, before[i]);
      var j :| 0 <= j < |kept| && kept[j] == before[i];
      assert Fresh(kept)[j].keyId == last.keyId;
    }
    forall j | 0 <= j < |kept| && Fresh(kept)[j].keyId == last.keyId
      ensures exists i :: 0 <= i < |before| && before[i].keyId == last.keyId
    {
      assert kept[j] in kept;
      NotYetHeldMeans(before, otks, kept[j]);
      var i :| 0 <= i < |before| && before[i] == kept[j];
      assert before[i].keyId == last.keyId;
    }
  }

  lemma AppendKeepsUnique(otks: seq<OneTimeKey>, row: OneTimeKey)
    ensures IdsUnique(otks + [row]) <==> IdsUnique(otks) && forall j :: 0 <= j < |otks| ==> otks[j].keyId != row.keyId
  {
    var all := otks + [row];
    if IdsUnique(all) {
      forall j | 0 <= j < |otks| ensures otks[j].keyId != row.keyId {
        assert all[j].keyId != all[|otks|].keyId;
      }
      assert forall i, j :: 0 <= i < j < |otks| ==> all[i] == otks[i] && all[j] == otks[j];
    }
  }

  lemma JoinedIdsUnique(otks: seq<OneTimeKey>, keys: seq<SignedKey>)
    requires IdsUnique(otks)
    ensures IdsUnique(otks + Fresh(NotYetHeld(keys, otks))) <==> NewIdsOnce(keys, otks)
  {
    var added := NotYetHeld(keys, otks);
    var rows, all := Fresh(added), otks + Fresh(added);
    NewIdsOnceMeans(keys, otks);
    if IdsUnique(all) {
      assert forall i, j :: 0 <= i < j < |rows| ==> all[|otks| + i] == rows[i] && all[|otks| + j] == rows[j];
    }
    if IdsUnique(rows) {
      forall i, j | 0 <= i < j < |all| ensures all[i].keyId != all[j].keyId {
        if i < |otks| <= j {
          assert added[j - |otks|] in added;
          NotYetHeldMeans(keys, otks, added[j - |otks|]);
        }
      }
    }
  }

  /** After the checks an upload still fails exactly for a new id sent twice or a known fallback id. */
  lemma UploadedViolates(d: Device, userId: string, keys: seq<SignedKey>, fallback: Option<SignedKey>)
    requires IdsUnique(d.otks)
    ensures var r := Uploaded(d, userId, keys, fallback);
            r == Failure(UniqueViolation) <==>
            && r != Failure(NotFound) && r != Failure(Revoked) && r != Failure(NothingProvided)
            && r != Failure(InvalidSignature) && r != Failure(PoolFull)
            && (!NewIdsOnce(keys, d.otks) || (fallback.Some? && HoldsFallback(d.fallbacks, fallback.value.keyId)))
  {
    JoinedIdsUnique(d.otks, keys);
  }

  /** Uploading: the checks in their order, and after a success the old keys, then the sent ones whose ids
      were unknown, unclaimed; a new fallback key retires all others. */
  lemma UploadedMeans(d: Device, userId: string, keys: seq<SignedKey>, fallback: Option<SignedKey>)
    ensures var r := Uploaded(d, userId, keys, fallback);
            var signed := (fallback.Some? ==> fallback.value.signatureOk) && forall i :: 0 <= i < |keys| ==> keys[i].signatureOk;
            && (r == Failure(NotFound) <==> d.userId != userId)
            && (r == Failure(Revoked) <==> d.userId == userId && d.revoked)
            && (r == Failure(NothingProvided) <==> d.userId == userId && !d.revoked && keys == [] && fallback.None?)
            && (r == Failure(InvalidSignature) <==>
                  d.userId == userId && !d.revoked && (keys != [] || fallback.Some?) && !signed)
            && (r == Failure(PoolFull) <==>
                  d.userId == userId && !d.revoked && (keys != [] || fallback.Some?) && signed && Unclaimed(d.otks) + |keys| > 200)
    ensures var r := Uploaded(d, userId, keys, fallback);
            r.Success? ==>
              && r.value.userId == userId && !r.value.revoked && d.otks <= r.value.otks
              && (forall i :: |d.otks| <= i < |r.value.otks| ==> Sent(keys, r.value.otks[i]) && !Holds(d.otks, r.value.otks[i].keyId))
              && (forall k :: k in keys ==> Holds(r.value.otks, k.keyId))
              && (fallback.None? ==> r.value.fallbacks == d.fallbacks)
              && (fallback.Some? ==>
                    && |r.value.fallbacks| == |d.fallbacks| + 1
                    && (forall i :: 0 <= i < |d.fallbacks| ==> r.value.fallbacks[i] == d.fallbacks[i].(retired := true))
                    && r.value.fallbacks[|d.fallbacks|] == FallbackKey(fallback.value.keyId, fallback.value.publicKey, false))
  {
    var r := Uploaded(d, userId, keys, fallback);
    if r.Success? {
      var added := NotYetHeld(keys, d.otks);
      forall i | |d.otks| <= i < |r.value.otks| ensures Sent(keys, r.value.otks[i]) && !Holds(d.otks, r.value.otks[i].keyId) {
        var k := added[i - |d.otks|];
        assert k in added;
        NotYetHeldMeans(keys, d.otks, k);
      }
      forall k | k in keys ensures Holds(r.value.otks, k.keyId) {
        KeyIsHeld(d.otks, keys, k);
      }
    }
  }

  /** The row is one of the sent keys, unclaimed. */
  predicate Sent(keys: seq<SignedKey>, row: OneTimeKey) {
    !row.claimed && exists k :: k in keys && k.keyId == row.keyId && k.publicKey == row.publicKey
  }

  lemma KeyIsHeld(otks: seq<OneTimeKey>, keys: seq<SignedKey>, k: SignedKey)
    requires k in keys
    ensures Holds(otks + Fresh(NotYetHeld(keys, otks)), k.keyId)
  {
    var added := NotYetHeld(keys, otks);
    var all := otks + Fresh(added);
    if i :| 0 <= i < |otks| && otks[i].keyId == k.keyId {
      assert all[i].keyId == k.keyId;
    } else {
      NotYetHeldMeans(keys, otks, k);
      var j :| 0 <= j < |added| && added[j] == k;
      assert all[|otks| + j].keyId == k.keyId;
    }
  }

  /** The oldest unclaimed key is handed out and marked, and nothing else changes. */
  predicate HandsOutOldest(before: Device, after: Device, key: Prekey, i: nat) {
    && i < |before.otks| && !before.otks[i].claimed && (forall j :: 0 <= j < i ==> before.otks[j].claimed)
    && !key.isFallback && key.keyId == before.otks[i].keyId && key.publicKey == before.otks[i].publicKey
    && after == before.(otks := before.otks[i := before.otks[i].(claimed := true)])
  }

  /** No key is left; the newest fallback key that is not retired is handed out, and nothing changes. */
  predicate HandsOutFallback(before: Device, after: Device, key: Prekey, i: nat) {
    && (forall j :: 0 <= j < |before.otks| ==> before.otks[j].claimed)
    && i < |before.fallbacks| && !before.fallbacks[i].retired && (forall j :: i < j < |before.fallbacks| ==> before.fallbacks[j].retired)
    && key.isFallback && key.keyId == before.fallbacks[i].keyId && key.publicKey == before.fallbacks[i].publicKey
    && after == before
  }

  ghost predicate HandsOut(before: Device, after: Device, key: Prekey) {
    if key.isFallback then exists i: nat :: HandsOutFallback(before, after, key, i)
    else exists i: nat :: HandsOutOldest(before, after, key, i)
  }

  lemma {:induction false} LatestActiveIs(fallbacks: seq<FallbackKey>)
    requires LatestActive(fallbacks).Some?
    ensures exists i: nat :: i < |fallbacks| && fallbacks[i] == LatestActive(fallbacks).value && !fallbacks[i].retired
                             && forall j :: i < j < |fallbacks| ==> fallbacks[j].retired
  {
    var n := |fallbacks| - 1;
    if !fallbacks[n].retired {
    } else {
      LatestActiveIs(fallbacks[..n]);
      var i: nat :| i < n && fallbacks[..n][i] == LatestActive(fallbacks[..n]).value && !fallbacks[..n][i].retired
                    && forall j :: i < j < n ==> fallbacks[..n][j].retired;
      assert forall j :: i < j < |fallbacks| ==> fallbacks[j].retired by {
        forall j | i < j < |fallbacks| ensures fallbacks[j].retired {
          if j < n {
            assert fallbacks[..n][j].retired;
          }
        }
      }
    }
  }

  /** What a claim hands out. */
  lemma ClaimedMeans(d: Device)
    ensures var (d', key) := Claimed(d);
            && (key.Some? ==> HandsOut(d, d', key.value))
            && (key.None? ==> d' == d && (forall i :: 0 <= i < |d.otks| ==> d.otks[i].claimed)
                              && forall f :: f in d.fallbacks ==> f.retired)
  {
    var i := FirstUnclaimed(d.otks);
    var (d', key) := Claimed(d);
    if i < |d.otks| {
      assert HandsOutOldest(d, d', key.value, i);
    } else if LatestActive(d.fallbacks).Some? {
      LatestActiveIs(d.fallbacks);
      var f: nat :| f < |d.fallbacks| && d.fallbacks[f] == LatestActive(d.fallbacks).value && !d.fallbacks[f].retired
                    && forall j :: f < j < |d.fallbacks| ==> d.fallbacks[j].retired;
      assert HandsOutFallback(d, d', key.value, f);
    }
  }

  // The pool invariant ----------------------------------------------------------------------------

  /** An active device has exactly one active fallback key and at most 200 unclaimed one-time keys
      with distinct ids; a revoked one has nothing. */
  predicate PoolOk(d: Device) {
    if d.revoked then d.otks == [] && d.fallbacks == []
    else IdsUnique(d.otks) && Unclaimed(d.otks) <= OTK_POOL_MAX && Active(d.fallbacks) == 1
  }

  lemma {:induction false} UnclaimedConcat(a: seq<OneTimeKey>, b: seq<OneTimeKey>)
    ensures Unclaimed(a + b) == Unclaimed(a) + Unclaimed(b)
  {
    if b == [] {
      assert a + b == a;
    } else {
      assert (a + b)[..|a + b| - 1] == a + b[..|b| - 1];
      UnclaimedConcat(a, b[..|b| - 1]);
    }
  }

  lemma {:induction false} UnclaimedAtMost(a: seq<OneTimeKey>)
    ensures Unclaimed(a) <= |a|
  {
    if a == [] {
    } else {
      UnclaimedAtMost(a[..|a| - 1]);
    }
  }

  lemma {:induction false} NotYetHeldShorter(keys: seq<SignedKey>, otks: seq<OneTimeKey>)
    ensures |NotYetHeld(keys, otks)| <= |keys|
  {
    if keys == [] {
    } else {
      NotYetHeldShorter(keys[..|keys| - 1], otks);
    }
  }

  lemma {:induction false} AllRetired(fallbacks: seq<FallbackKey>)
    requires forall i :: 0 <= i < |fallbacks| ==> fallbacks[i].retired
    ensures Active(fallbacks) == 0
  {
    if fallbacks == [] {
    } else {
      AllRetired(fallbacks[..|fallbacks| - 1]);
    }
  }

  lemma {:induction false} ActiveMeansSome(fallbacks: seq<FallbackKey>)
    ensures LatestActive(fallbacks).Some? <==> Active(fallbacks) > 0
  {
    if fallbacks == [] {
    } else {
      ActiveMeansSome(fallbacks[..|fallbacks| - 1]);
    }
  }

  lemma RegisterKeepsPool(existing: Option<Device>, userId: string, keys: seq<SignedKey>, fallback: SignedKey)
    requires |keys| <= OTK_POOL_MAX && Registered(existing, userId, keys, fallback).Success?
    ensures PoolOk(Registered(existing, userId, keys, fallback).value)
  {
    UnclaimedAtMost(Fresh(keys));
    var f := FallbackKey(fallback.keyId, fallback.publicKey, false);
    assert [f][..0] == [];
  }

  lemma UploadKeepsPool(d: Device, userId: string, keys: seq<SignedKey>, fallback: Option<SignedKey>)
    requires PoolOk(d) && Uploaded(d, userId, keys, fallback).Success?
    ensures PoolOk(Uploaded(d, userId, keys, fallback).value)
  {
    var added := Fresh(NotYetHeld(keys, d.otks));
    UnclaimedConcat(d.otks, added);
    UnclaimedAtMost(added);
    NotYetHeldShorter(keys, d.otks);
    if fallback.Some? {
      var retired := Retire(d.fallbacks);
      AllRetired(retired);
      var f := FallbackKey(fallback.value.keyId, fallback.value.publicKey, false);
      assert (retired + [f])[..|retired|] == retired;
    }
  }

  lemma {:induction false} UnclaimedAfterClaim(otks: seq<OneTimeKey>, i: nat)
    requires i < |otks| && !otks[i].claimed
    ensures Unclaimed(otks[i := otks[i].(claimed := true)]) == Unclaimed(otks) - 1
  {
    var n := |otks| - 1;
    var otks' := otks[i := otks[i].(claimed := true)];
    if i < n {
      UnclaimedAfterClaim(otks[..n], i);
      assert otks'[..n] == otks[..n][i := otks[i].(claimed := true)];
    } else {
      assert otks'[..n] == otks[..n];
    }
  }

  lemma {:induction false} NoneLeft(otks: seq<OneTimeKey>)
    ensures FirstUnclaimed(otks) == |otks| <==> Unclaimed(otks) == 0
  {
    if Unclaimed(otks) == 0 {
      EachClaimed(otks);
    }
    if FirstUnclaimed(otks) == |otks| {
      NothingUnclaimed(otks);
    }
  }

  lemma {:induction false} EachClaimed(otks: seq<OneTimeKey>)
    requires Unclaimed(otks) == 0
    ensures forall i :: 0 <= i < |otks| ==> otks[i].claimed
  {
    if otks == [] {
    } else {
      EachClaimed(otks[..|otks| - 1]);
      assert forall i :: 0 <= i < |otks| - 1 ==> otks[i] == otks[..|otks| - 1][i];
    }
  }

  lemma {:induction false} NothingUnclaimed(otks: seq<OneTimeKey>)
    requires forall i :: 0 <= i < |otks| ==> otks[i].claimed
    ensures Unclaimed(otks) == 0
  {
    if otks == [] {
    } else {
      NothingUnclaimed(otks[..|otks| - 1]);
    }
  }

  /** A claim on an active device always hands something out, and falls back exactly when the pool is
      empty; otherwise it uses up one key. */
  lemma ClaimAlwaysServes(d: Device)
    requires PoolOk(d) && !d.revoked
    ensures var (d', k) := Claimed(d);
            && PoolOk(d') && !d'.revoked && k.Some?
            && (k.value.isFallback <==> Unclaimed(d.otks) == 0)
            && (k.value.isFallback ==> d' == d && exists f :: f in d.fallbacks && !f.retired && f.keyId == k.value.keyId)
            && (!k.value.isFallback ==> Unclaimed(d'.otks) == Unclaimed(d.otks) - 1)
  {
    NoneLeft(d.otks);
    ActiveMeansSome(d.fallbacks);
    var i := FirstUnclaimed(d.otks);
    if i < |d.otks| {
      UnclaimedAfterClaim(d.otks, i);
    }
  }

  // The service -----------------------------------------------------------------------------------

  datatype Bundle = Bundle(deviceId: string, prekey: Prekey)

  predicate PoolsOk(devices: map<string, Device>) {
    forall id :: id in devices ==> PoolOk(devices[id])
  }

  function ActiveDevices(devices: map<string, Device>, userId: string): set<string> {
    set id | id in devices && devices[id].userId == userId && !devices[id].revoked
  }

  /** The bundle is what one claim on the device as it was before yields, and the device is now as
      that claim leaves it; it is a fallback exactly when the pool was empty. */
  predicate Served(before: map<string, Device>, after: map<string, Device>, b: Bundle) {
    && b.deviceId in before && b.deviceId in after
    && Claimed(before[b.deviceId]) == (after[b.deviceId], Some(b.prekey))
    && (b.prekey.isFallback <==> Unclaimed(before[b.deviceId].otks) == 0)
  }

  /** Every active device of the user after one claim; the others unchanged. */
  function AllClaimed(devices: map<string, Device>, userId: string): map<string, Device> {
    map id | id in devices :: if id in ActiveDevices(devices, userId) then Claimed(devices[id]).0 else devices[id]
  }

  class KeyServer {
    var devices: map<string, Device>

    constructor ()
      ensures devices == map[]
    {
      devices := map[];
    }

    function Existing(id: string): Option<Device>
      reads this
    {
      if id in devices then Some(devices[id]) else None
    }

    /** The request is validated to carry between 1 and 200 one-time keys. */
    method Register(userId: string, id: string, keys: seq<SignedKey>, fallback: SignedKey) returns (r: Result<Device, KeyError>)
      requires PoolsOk(devices) && 1 <= |keys| <= OTK_POOL_MAX
      modifies this
      ensures PoolsOk(devices)
      ensures r == Registered(old(Existing(id)), userId, keys, fallback)
      ensures devices == if r.Success? then old(devices)[id := r.value] else old(devices)
      ensures id in old(devices) && old(devices)[id].userId != userId ==> r.Failure? && devices == old(devices)
    {
      r := Registered(Existing(id), userId, keys, fallback);
      if r.Success? {
        RegisterKeepsPool(Existing(id), userId, keys, fallback);
        devices := devices[id := r.value];
      }
    }

    method UploadOneTimeKeys(userId: string, id: string, keys: seq<SignedKey>, fallback: Option<SignedKey>)
      returns (r: Result<(nat, nat), KeyError>)
      requires PoolsOk(devices)
      modifies this
      ensures PoolsOk(devices)
      ensures id !in old(devices) ==> r == Failure(NotFound) && devices == old(devices)
      ensures id in old(devices) ==>
                match Uploaded(old(devices)[id], userId, keys, fallback)
                case Failure(e) => r == Failure(e) && devices == old(devices)
                case Success(d) =>
                  && devices == old(devices)[id := d]
                  && r == Success((|d.otks| - |old(devices)[id].otks|, Unclaimed(d.otks)))
    {
      if id !in devices {
        return Failure(NotFound);
      }
      var d := devices[id];
      var unclaimedBefore := Unclaimed(d.otks);
      var toInsert := NotYetHeld(keys, d.otks);
      var u := Uploaded(d, userId, keys, fallback);
      if u.Failure? {
        return Failure(u.error);
      }
      UploadKeepsPool(d, userId, keys, fallback);
      UnclaimedConcat(d.otks, Fresh(toInsert));
      AllFresh(toInsert);
      devices := devices[id := u.value];
      return Success((|toInsert|, unclaimedBefore + |toInsert|));
    }

    method RevokeDevice(userId: string, id: string) returns (r: Result<string, KeyError>)
      requires PoolsOk(devices)
      modifies this
      ensures PoolsOk(devices)
      ensures r == if id in old(devices) && old(devices)[id].userId == userId then Success(id) else Failure(NotFound)
      ensures devices == if r.Success? then old(devices)[id := Revoke(old(devices)[id])] else old(devices)
      ensures r.Success? && !old(devices)[id].revoked ==>
                devices[id] == Device(userId, true, [], [])
      ensures r.Success? && old(devices)[id].revoked ==> devices == old(devices)
    {
      if id !in devices || devices[id].userId != userId {
        return Failure(NotFound);
      }
      devices := devices[id := Revoke(devices[id])];
      return Success(id);
    }

    /** One bundle for every active device of the user and for no other, a one-time key wherever the
        pool has one; every other device is left alone. */
    method ClaimKeys(userId: string) returns (results: seq<Bundle>)
      requires PoolsOk(devices)
      modifies this
      ensures PoolsOk(devices) && devices.Keys == old(devices.Keys)
      ensures |results| == |ActiveDevices(old(devices), userId)|
      ensures forall i, j :: 0 <= i < j < |results| ==> results[i].deviceId != results[j].deviceId
      ensures forall i :: 0 <= i < |results| ==> results[i].deviceId in ActiveDevices(old(devices), userId)
      ensures forall i {:trigger Served(old(devices), devices, results[i])} :: 0 <= i < |results| ==>
                Served(old(devices), devices, results[i])
      ensures forall i {:trigger results[i]} :: 0 <= i < |results| ==>
                var id := results[i].deviceId;
                && id in old(devices) && id in devices
                && old(devices)[id].userId == userId && !old(devices)[id].revoked
                && HandsOut(old(devices)[id], devices[id], results[i].prekey)
      ensures devices == AllClaimed(old(devices), userId)
      ensures forall id :: id in devices && (old(devices)[id].userId != userId || old(devices)[id].revoked) ==>
                devices[id] == old(devices)[id]
    {
      ghost var before := devices;
      ghost var active := ActiveDevices(devices, userId);
      var rest := ActiveDevices(devices, userId);
      results := [];
      while rest != {}
        invariant Progress(before, devices, active, rest, results)
        decreases |rest|
      {
        var id :| id in rest;
        var (d, key) := Claimed(devices[id]);
        ProgressStep(before, devices, active, rest, results, id);
        if key.Some? {
          results := results + [Bundle(id, key.value)];
        }
        devices := devices[id := d];
        rest := rest - {id};
      }
      ProgressEnds(before, devices, userId, results);
      AllHandOut(before, devices, active, results);
    }
  }

  /** The state of the claim loop: `rest` is still to be served, the others have one bundle each. */
  ghost predicate Progress(before: map<string, Device>, now: map<string, Device>, active: set<string>,
                           rest: set<string>, results: seq<Bundle>) {
    && rest <= active <= before.Keys
    && (forall id :: id in active ==> !before[id].revoked)
    && PoolsOk(before) && PoolsOk(now) && now.Keys == before.Keys
    && (forall id :: id in before ==> now[id] == if id in active && id !in rest then Claimed(before[id]).0 else before[id])
    && Listed(active, rest, results)
    && (forall i {:trigger Served(before, now, results[i])} :: 0 <= i < |results| ==> Served(before, now, results[i]))
  }

  ghost predicate Listed(active: set<string>, rest: set<string>, results: seq<Bundle>) {
    && |results| == |active| - |rest|
    && (forall i, j :: 0 <= i < j < |results| ==> results[i].deviceId != results[j].deviceId)
    && (forall i :: 0 <= i < |results| ==> results[i].deviceId in active && results[i].deviceId !in rest)
  }

  lemma ListedStep(active: set<string>, rest: set<string>, results: seq<Bundle>, id: string, key: Prekey)
    requires Listed(active, rest, results) && id in rest && rest <= active
    ensures Listed(active, rest - {id}, results + [Bundle(id, key)])
  {
  }

  lemma ProgressEnds(before: map<string, Device>, now: map<string, Device>, userId: string, results: seq<Bundle>)
    requires Progress(before, now, ActiveDevices(before, userId), {}, results)
    ensures now == AllClaimed(before, userId)
  {
  }

  lemma AllHandOut(before: map<string, Device>, now: map<string, Device>, active: set<string>, results: seq<Bundle>)
    requires Progress(before, now, active, {}, results)
    ensures forall i {:trigger results[i]} :: 0 <= i < |results| ==>
              var id := results[i].deviceId;
              id in before && id in now && HandsOut(before[id], now[id], results[i].prekey)
  {
    forall i {:trigger results[i]} | 0 <= i < |results|
      ensures var id := results[i].deviceId; id in before && id in now && HandsOut(before[id], now[id], results[i].prekey)
    {
      assert Served(before, now, results[i]);
      ClaimedMeans(before[results[i].deviceId]);
    }
  }

  lemma ServedStep(before: map<string, Device>, now: map<string, Device>, results: seq<Bundle>, id: string, d: Device, key: Prekey)
    requires forall i {:trigger Served(before, now, results[i])} :: 0 <= i < |results| ==> Served(before, now, results[i])
    requires forall i :: 0 <= i < |results| ==> results[i].deviceId != id
    requires Served(before, now[id := d], Bundle(id, key))
    ensures var all := results + [Bundle(id, key)];
            forall i {:trigger Served(before, now[id := d], all[i])} :: 0 <= i < |all| ==> Served(before, now[id := d], all[i])
  {
    forall i | 0 <= i < |results| ensures Served(before, now[id := d], results[i]) {
      assert Served(before, now, results[i]);
    }
  }

  lemma ProgressStep(before: map<string, Device>, now: map<string, Device>, active: set<string>,
                     rest: set<string>, results: seq<Bundle>, id: string)
    requires Progress(before, now, active, rest, results) && id in rest
    ensures var (d, key) := Claimed(now[id]);
            key.Some? && Progress(before, now[id := d], active, rest - {id}, results + [Bundle(id, key.value)])
  {
    assert now[id] == before[id];
    ClaimAlwaysServes(now[id]);
    var (d, key) := Claimed(now[id]);
    ServedStep(before, now, results, id, d, key.value);
    ListedStep(active, rest, results, id, key.value);
  }

  lemma {:induction false} AllFresh(keys: seq<SignedKey>)
    ensures Unclaimed(Fresh(keys)) == |keys|
  {
    if keys == [] {
    } else {
      AllFresh(keys[..|keys| - 1]);
      assert Fresh(keys)[..|keys| - 1] == Fresh(keys[..|keys| - 1]);
    }
  }

  // Over whole runs -------------------------------------------------------------------------------

  datatype Call =
    | CallRegister(userId: string, id: string, keys: seq<SignedKey>, fallback: SignedKey)
    | CallUpload(userId: string, id: string, keys: seq<SignedKey>, newFallback: Option<SignedKey>)
    | CallRevoke(userId: string, id: string)
    | CallClaim(userId: string)

  /** The devices after the calls, each as the service leaves them. */
  function After(calls: seq<Call>): map<string, Device> {
    if calls == [] then map[]
    else
      var devices := After(calls[..|calls| - 1]);
      match calls[|calls| - 1]
      case CallRegister(u, id, keys, fallback) =>
        var existing := if id in devices then Some(devices[id]) else None;
        var r := Registered(existing, u, keys, fallback);
        if 1 <= |keys| <= OTK_POOL_MAX && r.Success? then devices[id := r.value] else devices
      case CallUpload(u, id, keys, fallback) =>
        if id !in devices then devices
        else
          var r := Uploaded(devices[id], u, keys, fallback);
          if r.Success? then devices[id := r.value] else devices
      case CallRevoke(u, id) =>
        if id in devices && devices[id].userId == u then devices[id := Revoke(devices[id])] else devices
      case CallClaim(u) => AllClaimed(devices, u)
  }

  lemma {:induction false} PoolsAlways(calls: seq<Call>)
    ensures PoolsOk(After(calls))
  {
    if calls == [] {
    } else {
      var devices := After(calls[..|calls| - 1]);
      PoolsAlways(calls[..|calls| - 1]);
      match calls[|calls| - 1] {
        case CallRegister(u, id, keys, fallback) =>
          var existing := if id in devices then Some(devices[id]) else None;
          if 1 <= |keys| <= OTK_POOL_MAX && Registered(existing, u, keys, fallback).Success? {
            RegisterKeepsPool(existing, u, keys, fallback);
          }
        case CallUpload(u, id, keys, fallback) =>
          if id in devices && Uploaded(devices[id], u, keys, fallback).Success? {
            UploadKeepsPool(devices[id], u, keys, fallback);
          }
        case CallRevoke(_, _) =>
        case CallClaim(u) =>
          forall id | id in ActiveDevices(devices, u) ensures PoolOk(Claimed(devices[id]).0) {
            ClaimAlwaysServes(devices[id]);
          }
      }
    }
  }

  /** After any calls, every active device has exactly one active fallback key and at most 200
      unclaimed keys; a claim on it hands out a one-time key or, only if none is left, the fallback. */
  lemma EveryClaimServes(calls: seq<Call>, id: string)
    requires id in After(calls) && !After(calls)[id].revoked
    ensures var d := After(calls)[id];
            Claimed(d).1.Some? && Unclaimed(d.otks) <= OTK_POOL_MAX && Active(d.fallbacks) == 1
            && (Claimed(d).1.value.isFallback <==> Unclaimed(d.otks) == 0)
  {
    PoolsAlways(calls);
    ClaimAlwaysServes(After(calls)[id]);
  }
}
