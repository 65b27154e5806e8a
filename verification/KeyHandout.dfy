/** One-time keys under fine-grained interleaving: an upload reads which ids exist and inserts later,
    a claim lists the active devices and takes a key later, and registrations and revocations happen
    in between. When can a key id be handed out twice? */
module KeyHandout {
  import opened Common

  /** A one-time key row; ids are unique per device. */
  datatype Row = Row(keyId: string, claimed: bool)

  datatype Dev = Dev(revoked: bool, rows: seq<Row>)

  /** What an upload carries from its reads into its transaction; `readAt` says how long the history
      was when it read. */
  datatype Upload = Upload(deviceId: string, toInsert: seq<string>, readAt: nat)

  const OTK_MAX := 200

  /** The observable history: keys handed out, and the two ways the key rows of a device are deleted. */
  datatype Mark = Handed(deviceId: string, keyId: string) | Reregistered(deviceId: string) | RevokedKeys(deviceId: string)

  datatype Sys = Sys(devices: map<string, Dev>, uploads: map<nat, Upload>, listed: map<nat, string>, history: seq<Mark>)

  const INIT := Sys(map[], map[], map[], [])

  datatype Event =
    | Register(deviceId: string, keyIds: seq<string>)
    | Revoke(deviceId: string)
    | UploadRead(id: nat, deviceId: string, keyIds: seq<string>)
    | UploadCommit(id: nat)
    | ClaimList(id: nat, deviceId: string)
    | ClaimTake(id: nat, pick: nat)

  // Steps -----------------------------------------------------------------------------------------

  predicate Known(rows: seq<Row>, keyId: string) {
    exists i :: 0 <= i < |rows| && rows[i].keyId == keyId
  }

  function Added(ids: seq<string>): (r: seq<Row>)
    ensures |r| == |ids| && forall i :: 0 <= i < |r| ==> r[i] == Row(ids[i], false)
  {
    seq(|ids|, i requires 0 <= i < |ids| => Row(ids[i], false))
  }

  function Skip(ids: seq<string>, rows: seq<Row>): seq<string> {
    if ids == [] then []
    else Skip(ids[..|ids| - 1], rows) + if Known(rows, ids[|ids| - 1]) then [] else [ids[|ids| - 1]]
  }

  ghost predicate UniqueIds(rows: seq<Row>) {
    forall i, j :: 0 <= i < j < |rows| ==> rows[i].keyId != rows[j].keyId
  }

  /** Deleting the old rows and inserting the new ones, of which there is at least one, is one
      transaction; repeated ids abort it. */
  ghost function RegisterStep(s: Sys, d: string, ids: seq<string>): Sys {
    if !(1 <= |ids| <= OTK_MAX) || !Distinct(ids) then s
    else s.(devices := s.devices[d := Dev(false, Added(ids))], history := s.history + [Reregistered(d)])
  }

  /** The transaction of a revocation. The check that the device is not revoked yet is made before it,
      so the transaction may also meet a revoked device. */
  ghost function RevokeStep(s: Sys, d: string): Sys {
    if d !in s.devices then s
    else s.(devices := s.devices[d := Dev(true, [])], history := s.history + [RevokedKeys(d)])
  }

  ghost function UploadReadStep(s: Sys, id: nat, d: string, ids: seq<string>): Sys {
    if d !in s.devices || s.devices[d].revoked || id in s.uploads then s
    else s.(uploads := s.uploads[id := Upload(d, Skip(ids, s.devices[d].rows), |s.history|)])
  }

  /** The unique index on (device, key id) aborts an insert that meets a row of another upload. */
  ghost function UploadCommitStep(s: Sys, id: nat): Sys {
    if id !in s.uploads then s
    else
      var u := s.uploads[id];
      var rest := s.uploads - {id};
      if u.deviceId !in s.devices then s.(uploads := rest)
      else
        var d := s.devices[u.deviceId];
        var rows := d.rows + Added(u.toInsert);
        if !UniqueIds(rows) then s.(uploads := rest)
        else s.(uploads := rest, devices := s.devices[u.deviceId := d.(rows := rows)])
  }

  ghost function ClaimListStep(s: Sys, id: nat, d: string): Sys {
    if d !in s.devices || s.devices[d].revoked || id in s.listed then s
    else s.(listed := s.listed[id := d])
  }

  /** The atomic update takes some unclaimed row of the listed device. */
  ghost function ClaimTakeStep(s: Sys, id: nat, pick: nat): Sys {
    if id !in s.listed then s
    else
      var d := s.listed[id];
      var rest := s.listed - {id};
      if d !in s.devices || pick >= |s.devices[d].rows| || s.devices[d].rows[pick].claimed then s.(listed := rest)
      else
        var dev := s.devices[d];
        var row := dev.rows[pick];
        s.(listed := rest,
           devices := s.devices[d := dev.(rows := dev.rows[pick := row.(claimed := true)])],
           history := s.history + [Handed(d, row.keyId)])
  }

  ghost function Step(s: Sys, e: Event): Sys {
    match e
    case Register(d, ids) => RegisterStep(s, d, ids)
    case Revoke(d) => RevokeStep(s, d)
    case UploadRead(id, d, ids) => UploadReadStep(s, id, d, ids)
    case UploadCommit(id) => UploadCommitStep(s, id)
    case ClaimList(id, d) => ClaimListStep(s, id, d)
    case ClaimTake(id, pick) => ClaimTakeStep(s, id, pick)
  }

  ghost function Run(es: seq<Event>): Sys {
    if es == [] then INIT else Step(Run(es[..|es| - 1]), es[|es| - 1])
  }

  /** What the two reads take with them: an upload the sent ids that the device does not have, a claim the
      device; both only while the device is active. */
  lemma ReadsMean(s: Sys, id: nat, d: string, ids: seq<string>)
    ensures id !in s.uploads ==>
              (id in UploadReadStep(s, id, d, ids).uploads <==> d in s.devices && !s.devices[d].revoked)
    ensures id !in s.uploads && d in s.devices && !s.devices[d].revoked ==>
              var u := UploadReadStep(s, id, d, ids).uploads[id];
              u.deviceId == d && forall k :: k in u.toInsert <==> k in ids && !Known(s.devices[d].rows, k)
    ensures id !in s.listed ==>
              (id in ClaimListStep(s, id, d).listed <==> d in s.devices && !s.devices[d].revoked)
              && (id in ClaimListStep(s, id, d).listed ==> ClaimListStep(s, id, d).listed[id] == d)
  {
    if d in s.devices {
      forall k ensures k in Skip(ids, s.devices[d].rows) <==> k in ids && !Known(s.devices[d].rows, k) {
        SkipMeans(ids, s.devices[d].rows, k);
      }
    }
  }

  lemma {:induction false} SkipMeans(ids: seq<string>, rows: seq<Row>, k: string)
    ensures k in Skip(ids, rows) <==> k in ids && !Known(rows, k)
  {
    if ids == [] {
    } else {
      assert ids == ids[..|ids| - 1] + [ids[|ids| - 1]];
      SkipMeans(ids[..|ids| - 1], rows, k);
    }
  }

  // Handed out since the last deletion -------------------------------------------------------------

  predicate Resets(m: Mark, d: string, revocationCounts: bool) {
    m == Reregistered(d) || (revocationCounts && m == RevokedKeys(d))
  }

  /** The key was handed out after the last time the device's rows were deleted (by a registration,
      or, if revocations count, by either). */
  predicate HandedSince(history: seq<Mark>, d: string, k: string, revocationCounts: bool) {
    history != [] &&
    var last := history[|history| - 1];
    if last == Handed(d, k) then true
    else if Resets(last, d, revocationCounts) then false
    else HandedSince(history[..|history| - 1], d, k, revocationCounts)
  }

  /** Whenever a key is handed out it had not been since the last deletion. */
  ghost predicate HandedOnce(history: seq<Mark>, revocationCounts: bool) {
    forall j :: 0 <= j < |history| ==> NewAt(history, j, revocationCounts)
  }

  predicate NewAt(history: seq<Mark>, j: nat, revocationCounts: bool)
    requires j < |history|
  {
    history[j].Handed? ==> !HandedSince(history[..j], history[j].deviceId, history[j].keyId, revocationCounts)
  }

  /** In plain words: between two hand-outs of the same key there is a deletion. */
  lemma {:induction false} HandedSinceMeans(history: seq<Mark>, d: string, k: string, rc: bool, i: nat)
    requires i < |history| && history[i] == Handed(d, k) && !HandedSince(history, d, k, rc)
    ensures exists m :: i < m < |history| && Resets(history[m], d, rc)
    decreases |history|
  {
    var n := |history| - 1;
    if Resets(history[n], d, rc) {
    } else {
      HandedSinceMeans(history[..n], d, k, rc, i);
      var m :| i < m < n && Resets(history[..n][m], d, rc);
      assert Resets(history[m], d, rc);
    }
  }

  lemma DeletionBetween(history: seq<Mark>, rc: bool, i: nat, j: nat)
    requires HandedOnce(history, rc) && i < j < |history|
    requires history[i].Handed? && history[i] == history[j]
    ensures exists m :: i < m < j && Resets(history[m], history[i].deviceId, rc)
  {
    assert NewAt(history, j, rc);
    HandedSinceMeans(history[..j], history[i].deviceId, history[i].keyId, rc, i);
    var m :| i < m < j && Resets(history[..j][m], history[i].deviceId, rc);
    assert Resets(history[m], history[i].deviceId, rc);
  }

  // The invariant ---------------------------------------------------------------------------------

  /** A key handed out since the last deletion is still in the table, as a claimed row. */
  predicate StillClaimed(s: Sys, d: string, k: string) {
    HandedSince(s.history, d, k, true) ==>
      d in s.devices && exists i :: 0 <= i < |s.devices[d].rows| && s.devices[d].rows[i] == Row(k, true)
  }

  ghost predicate Inv(s: Sys) {
    && (forall d :: d in s.devices ==> UniqueIds(s.devices[d].rows))
    && (forall d, k :: StillClaimed(s, d, k))
    && HandedOnce(s.history, true)
  }

  lemma HandedOnceAppend(history: seq<Mark>, m: Mark, rc: bool)
    requires HandedOnce(history, rc)
    requires m.Handed? ==> !HandedSince(history, m.deviceId, m.keyId, rc)
    ensures HandedOnce(history + [m], rc)
  {
    forall j | 0 <= j < |history + [m]| ensures NewAt(history + [m], j, rc) {
      if j < |history| {
        assert NewAt(history, j, rc);
        assert (history + [m])[..j] == history[..j];
      } else {
        assert (history + [m])[..j] == history;
      }
    }
  }

  lemma HandedSinceAppend(history: seq<Mark>, m: Mark, d: string, k: string, rc: bool)
    ensures HandedSince(history + [m], d, k, rc)
            == if m == Handed(d, k) then true else if Resets(m, d, rc) then false else HandedSince(history, d, k, rc)
  {
    assert (history + [m])[..|history|] == history;
  }

  /** Deleting the rows of a device starts its count afresh. */
  lemma ResetKeepsInv(s: Sys, s': Sys, d: string, m: Mark)
    requires Inv(s) && Resets(m, d, true)
    requires d in s'.devices && s'.history == s.history + [m] && s'.devices == s.devices[d := s'.devices[d]]
    requires UniqueIds(s'.devices[d].rows)
    ensures Inv(s')
  {
    HandedOnceAppend(s.history, m, true);
    forall c, k ensures StillClaimed(s', c, k) {
      HandedSinceAppend(s.history, m, c, k, true);
      assert StillClaimed(s, c, k);
    }
  }

  lemma RegisterKeepsInv(s: Sys, d: string, ids: seq<string>)
    requires Inv(s)
    ensures Inv(RegisterStep(s, d, ids))
  {
    if RegisterStep(s, d, ids) != s {
      ResetKeepsInv(s, RegisterStep(s, d, ids), d, Reregistered(d));
    }
  }

  lemma RevokeKeepsInv(s: Sys, d: string)
    requires Inv(s)
    ensures Inv(RevokeStep(s, d))
  {
    if d in s.devices {
      ResetKeepsInv(s, RevokeStep(s, d), d, RevokedKeys(d));
    }
  }

  /** Inserting rows leaves the claimed ones where they are. */
  lemma UploadKeepsInv(s: Sys, id: nat)
    requires Inv(s)
    ensures Inv(UploadCommitStep(s, id))
  {
    var s' := UploadCommitStep(s, id);
    forall d, k ensures StillClaimed(s', d, k) {
      assert StillClaimed(s, d, k);
      if HandedSince(s.history, d, k, true) {
        var i :| 0 <= i < |s.devices[d].rows| && s.devices[d].rows[i] == Row(k, true);
        assert s'.devices[d].rows[i] == Row(k, true);
      }
    }
  }

  lemma ClaimKeepsInv(s: Sys, id: nat, pick: nat)
    requires Inv(s)
    ensures Inv(ClaimTakeStep(s, id, pick))
  {
    var s' := ClaimTakeStep(s, id, pick);
    if s'.history == s.history {
      forall d, k ensures StillClaimed(s', d, k) {
        assert StillClaimed(s, d, k);
      }
    } else {
      var d := s.listed[id];
      var k := s.devices[d].rows[pick].keyId;
      assert StillClaimed(s, d, k);
      HandedOnceAppend(s.history, Handed(d, k), true);
      forall c, l ensures StillClaimed(s', c, l) {
        HandedSinceAppend(s.history, Handed(d, k), c, l, true);
        assert StillClaimed(s, c, l);
        if c == d && l == k {
          assert s'.devices[d].rows[pick] == Row(k, true);
        } else if HandedSince(s.history, c, l, true) {
          var i :| 0 <= i < |s.devices[c].rows| && s.devices[c].rows[i] == Row(l, true);
          assert s'.devices[c].rows[i] == Row(l, true);
        }
      }
    }
  }

  lemma ReadsKeepInv(s: Sys, s': Sys)
    requires Inv(s) && s'.devices == s.devices && s'.history == s.history
    ensures Inv(s')
  {
    forall d, k ensures StillClaimed(s', d, k) {
      assert StillClaimed(s, d, k);
    }
  }

  lemma {:induction false} RunKeepsInv(es: seq<Event>)
    ensures Inv(Run(es))
  {
    if es == [] {
    } else {
      var s, e := Run(es[..|es| - 1]), es[|es| - 1];
      RunKeepsInv(es[..|es| - 1]);
      match e {
        case Register(d, ids) => RegisterKeepsInv(s, d, ids);
        case Revoke(d) => RevokeKeepsInv(s, d);
        case UploadRead(_, _, _) => ReadsKeepInv(s, Step(s, e));
        case UploadCommit(id) => UploadKeepsInv(s, id);
        case ClaimList(_, _) => ReadsKeepInv(s, Step(s, e));
        case ClaimTake(id, pick) => ClaimKeepsInv(s, id, pick);
      }
    }
  }

  /** Over every interleaving: two hand-outs of the same key of a device have a registration or a
      revocation of that device between them. */
  lemma HandedOnceBetweenDeletions(es: seq<Event>, i: nat, j: nat)
    requires i < j < |Run(es).history| && Run(es).history[i].Handed? && Run(es).history[i] == Run(es).history[j]
    ensures var h := Run(es).history; exists m :: i < m < j && Resets(h[m], h[i].deviceId, true)
  {
    RunKeepsInv(es);
    DeletionBetween(Run(es).history, true, i, j);
  }

  // Between registrations alone -------------------------------------------------------------------

  /** The insert goes through: the device is known and no id meets one already stored. */
  ghost predicate Lands(s: Sys, id: nat) {
    id in s.uploads && s.uploads[id].deviceId in s.devices &&
    UniqueIds(s.devices[s.uploads[id].deviceId].rows + Added(s.uploads[id].toInsert))
  }

  /** The insert brings back an id that was handed out since the last registration. */
  ghost predicate Stale(s: Sys, id: nat) {
    Lands(s, id) && exists i :: 0 <= i < |s.uploads[id].toInsert| && StaleAt(s, id, i)
  }

  predicate StaleAt(s: Sys, id: nat, i: nat)
    requires id in s.uploads && i < |s.uploads[id].toInsert|
  {
    HandedSince(s.history, s.uploads[id].deviceId, s.uploads[id].toInsert[i], false)
  }

  /** No upload of the run brings back an id. */
  ghost predicate NeverStale(es: seq<Event>) {
    es == [] ||
    (NeverStale(es[..|es| - 1]) &&
     (es[|es| - 1].UploadCommit? ==> !Stale(Run(es[..|es| - 1]), es[|es| - 1].id)))
  }

  /** No row on offer was handed out since the last registration. */
  predicate Spent(s: Sys, d: string, k: string) {
    HandedSince(s.history, d, k, false) && d in s.devices ==>
      forall i :: 0 <= i < |s.devices[d].rows| ==> s.devices[d].rows[i] != Row(k, false)
  }

  ghost predicate SpentInv(s: Sys) {
    && (forall d, k :: Spent(s, d, k))
    && HandedOnce(s.history, false)
  }

  lemma RegisterKeepsSpent(s: Sys, d: string, ids: seq<string>)
    requires SpentInv(s)
    ensures SpentInv(RegisterStep(s, d, ids))
  {
    var s' := RegisterStep(s, d, ids);
    if s' != s {
      HandedOnceAppend(s.history, Reregistered(d), false);
      forall c, k ensures Spent(s', c, k) {
        HandedSinceAppend(s.history, Reregistered(d), c, k, false);
        assert Spent(s, c, k);
      }
    }
  }

  lemma RevokeKeepsSpent(s: Sys, d: string)
    requires SpentInv(s)
    ensures SpentInv(RevokeStep(s, d))
  {
    var s' := RevokeStep(s, d);
    if d in s.devices {
      HandedOnceAppend(s.history, RevokedKeys(d), false);
      forall c, k ensures Spent(s', c, k) {
        HandedSinceAppend(s.history, RevokedKeys(d), c, k, false);
        assert Spent(s, c, k);
      }
    }
  }

  lemma UploadKeepsSpent(s: Sys, id: nat)
    requires SpentInv(s) && !Stale(s, id)
    ensures SpentInv(UploadCommitStep(s, id))
  {
    var s' := UploadCommitStep(s, id);
    forall d, k ensures Spent(s', d, k) {
      assert Spent(s, d, k);
      if HandedSince(s.history, d, k, false) && Lands(s, id) && d == s.uploads[id].deviceId {
        var ids, stored := s.uploads[id].toInsert, s.devices[d].rows;
        forall i | 0 <= i < |stored + Added(ids)| ensures (stored + Added(ids))[i] != Row(k, false) {
          if i >= |stored| {
            assert !StaleAt(s, id, i - |stored|);
          }
        }
      }
    }
  }

  lemma ClaimKeepsSpent(s: Sys, id: nat, pick: nat)
    requires SpentInv(s) && forall d :: d in s.devices ==> UniqueIds(s.devices[d].rows)
    ensures SpentInv(ClaimTakeStep(s, id, pick))
  {
    var s' := ClaimTakeStep(s, id, pick);
    if s'.history == s.history {
      forall d, k ensures Spent(s', d, k) {
        assert Spent(s, d, k);
      }
    } else {
      var d := s.listed[id];
      var k := s.devices[d].rows[pick].keyId;
      assert Spent(s, d, k);
      assert s.devices[d].rows[pick] == Row(k, false);
      HandedOnceAppend(s.history, Handed(d, k), false);
      forall c, l ensures Spent(s', c, l) {
        HandedSinceAppend(s.history, Handed(d, k), c, l, false);
        assert Spent(s, c, l);
      }
    }
  }

  lemma ReadsKeepSpent(s: Sys, s': Sys)
    requires SpentInv(s) && s'.devices == s.devices && s'.history == s.history
    ensures SpentInv(s')
  {
    forall d, k ensures Spent(s', d, k) {
      assert Spent(s, d, k);
    }
  }

  lemma {:induction false} RunKeepsSpent(es: seq<Event>)
    requires NeverStale(es)
    ensures SpentInv(Run(es))
  {
    if es == [] {
    } else {
      var s, e := Run(es[..|es| - 1]), es[|es| - 1];
      RunKeepsSpent(es[..|es| - 1]);
      RunKeepsInv(es[..|es| - 1]);
      match e {
        case Register(d, ids) => RegisterKeepsSpent(s, d, ids);
        case Revoke(d) => RevokeKeepsSpent(s, d);
        case UploadRead(_, _, _) => ReadsKeepSpent(s, Step(s, e));
        case UploadCommit(id) => UploadKeepsSpent(s, id);
        case ClaimList(_, _) => ReadsKeepSpent(s, Step(s, e));
        case ClaimTake(id, pick) => ClaimKeepsSpent(s, id, pick);
      }
    }
  }

  // Landing on a revoked device -------------------------------------------------------------------

  /** The insert brings rows to a device that is revoked by then: the upload found it active. */
  ghost predicate LandsOnRevoked(s: Sys, id: nat) {
    Lands(s, id) && s.uploads[id].toInsert != [] && s.devices[s.uploads[id].deviceId].revoked
  }

  /** No upload of the run does that. */
  ghost predicate NoneLandsOnRevoked(es: seq<Event>) {
    es == [] ||
    (NoneLandsOnRevoked(es[..|es| - 1]) &&
     (es[|es| - 1].UploadCommit? ==> !LandsOnRevoked(Run(es[..|es| - 1]), es[|es| - 1].id)))
  }

  /** How many marks there are up to the last deletion of the device's rows, that one included. */
  function LastDeletion(history: seq<Mark>, d: string): (n: nat)
    ensures n <= |history| && (n > 0 ==> Resets(history[n - 1], d, true))
  {
    if history == [] then 0
    else if Resets(history[|history| - 1], d, true) then |history|
    else LastDeletion(history[..|history| - 1], d)
  }

  /** The last deletion was a revocation. */
  predicate RevokedLast(history: seq<Mark>, d: string) {
    var n := LastDeletion(history, d);
    n > 0 && history[n - 1] == RevokedKeys(d)
  }

  lemma RevokedLastAppend(history: seq<Mark>, m: Mark, d: string)
    ensures RevokedLast(history + [m], d) == if Resets(m, d, true) then m == RevokedKeys(d) else RevokedLast(history, d)
  {
    assert (history + [m])[..|history|] == history;
  }

  lemma {:induction false} LastDeletionPrefix(history: seq<Mark>, k: nat, d: string)
    requires LastDeletion(history, d) <= k <= |history|
    ensures LastDeletion(history[..k], d) == LastDeletion(history, d)
  {
    if k == |history| {
      assert history[..k] == history;
    } else {
      assert history[..|history| - 1][..k] == history[..k];
      LastDeletionPrefix(history[..|history| - 1], k, d);
    }
  }

  /** A device is marked revoked exactly when its rows were last deleted by a revocation. */
  predicate FlagOk(s: Sys, d: string) {
    d in s.devices ==> (s.devices[d].revoked <==> RevokedLast(s.history, d))
  }

  /** An upload found its device active. */
  predicate ReadWhileActive(s: Sys, id: nat) {
    id in s.uploads ==>
      s.uploads[id].readAt <= |s.history| && !RevokedLast(s.history[..s.uploads[id].readAt], s.uploads[id].deviceId)
  }

  ghost predicate FlagInv(s: Sys) {
    && (forall d :: FlagOk(s, d))
    && (forall id :: ReadWhileActive(s, id))
  }

  lemma MarkKeepsFlags(s: Sys, s': Sys, d: string, m: Mark)
    requires FlagInv(s) && s'.history == s.history + [m] && s'.uploads == s.uploads && m.deviceId == d
    requires d in s'.devices && s'.devices == s.devices[d := s'.devices[d]]
    requires Resets(m, d, true) ==> s'.devices[d].revoked == m.RevokedKeys?
    requires !Resets(m, d, true) ==> d in s.devices && s'.devices[d].revoked == s.devices[d].revoked
    ensures FlagInv(s')
  {
    forall c ensures FlagOk(s', c) {
      assert FlagOk(s, c);
      RevokedLastAppend(s.history, m, c);
    }
    forall id ensures ReadWhileActive(s', id) {
      assert ReadWhileActive(s, id);
      if id in s.uploads {
        assert s'.history[..s.uploads[id].readAt] == s.history[..s.uploads[id].readAt];
      }
    }
  }

  lemma UploadReadKeepsFlags(s: Sys, id: nat, d: string, ids: seq<string>)
    requires FlagInv(s)
    ensures FlagInv(UploadReadStep(s, id, d, ids))
  {
    var s' := UploadReadStep(s, id, d, ids);
    forall c ensures FlagOk(s', c) {
      assert FlagOk(s, c);
    }
    forall other ensures ReadWhileActive(s', other) {
      assert ReadWhileActive(s, other) && FlagOk(s, d);
      assert s.history[..|s.history|] == s.history;
    }
  }

  /** Steps that leave the history and the flags alone and start no upload. */
  lemma QuietKeepsFlags(s: Sys, s': Sys)
    requires FlagInv(s) && s'.history == s.history
    requires forall id :: id in s'.uploads ==> id in s.uploads && s'.uploads[id] == s.uploads[id]
    requires forall d :: d in s'.devices ==> d in s.devices && s'.devices[d].revoked == s.devices[d].revoked
    ensures FlagInv(s')
  {
    forall c ensures FlagOk(s', c) {
      assert FlagOk(s, c);
    }
    forall id ensures ReadWhileActive(s', id) {
      assert ReadWhileActive(s, id);
    }
  }

  lemma StepKeepsFlags(s: Sys, e: Event)
    requires FlagInv(s)
    ensures FlagInv(Step(s, e))
  {
    var s' := Step(s, e);
    if s'.history != s.history {
      var m := s'.history[|s.history|];
      MarkKeepsFlags(s, s', m.deviceId, m);
    } else if e.UploadRead? {
      UploadReadKeepsFlags(s, e.id, e.deviceId, e.keyIds);
    } else {
      QuietKeepsFlags(s, s');
    }
  }

  lemma {:induction false} RunKeepsFlags(es: seq<Event>)
    ensures FlagInv(Run(es))
  {
    if es == [] {
    } else {
      RunKeepsFlags(es[..|es| - 1]);
      StepKeepsFlags(Run(es[..|es| - 1]), es[|es| - 1]);
    }
  }

  /** The key was handed out at position i, and no registration followed. */
  predicate HandedAt(history: seq<Mark>, i: nat, d: string, k: string)
    requires i < |history|
  {
    history[i] == Handed(d, k) && forall l :: i < l < |history| ==> history[l] != Reregistered(d)
  }

  lemma {:induction false} HandedSomewhere(history: seq<Mark>, d: string, k: string)
    requires HandedSince(history, d, k, false)
    ensures exists i :: 0 <= i < |history| && HandedAt(history, i, d, k)
  {
    var n := |history| - 1;
    if history[n] == Handed(d, k) {
      assert HandedAt(history, n, d, k);
    } else {
      HandedSomewhere(history[..n], d, k);
      var i :| 0 <= i < n && HandedAt(history[..n], i, d, k);
      assert HandedAt(history, i, d, k);
    }
  }

  /** If only revocations stand between the two ways of counting, the last deletion is one, and it came
      after the hand-out. */
  lemma {:induction false} RevokedSince(history: seq<Mark>, d: string, k: string)
    requires HandedSince(history, d, k, false) && !HandedSince(history, d, k, true)
    ensures RevokedLast(history, d)
    ensures exists i :: 0 <= i < LastDeletion(history, d) - 1 && HandedAt(history, i, d, k)
  {
    var n := |history| - 1;
    if history[n] == RevokedKeys(d) {
      HandedSomewhere(history[..n], d, k);
      var i :| 0 <= i < n && HandedAt(history[..n], i, d, k);
      assert HandedAt(history, i, d, k);
    } else {
      RevokedSince(history[..n], d, k);
      var i :| 0 <= i < LastDeletion(history[..n], d) - 1 && HandedAt(history[..n], i, d, k);
      assert HandedAt(history, i, d, k);
    }
  }

  lemma KnownDoesNotLand(s: Sys, id: nat, r: nat, i: nat)
    requires id in s.uploads && s.uploads[id].deviceId in s.devices && i < |s.uploads[id].toInsert|
    requires r < |s.devices[s.uploads[id].deviceId].rows|
    requires s.devices[s.uploads[id].deviceId].rows[r].keyId == s.uploads[id].toInsert[i]
    ensures !Lands(s, id)
  {
    var rows := s.devices[s.uploads[id].deviceId].rows;
    var all := rows + Added(s.uploads[id].toInsert);
    assert all[r].keyId == all[|rows| + i].keyId;
  }

  /** A hand-out of one of the upload's ids at i, then a revocation at m that the upload did not see,
      and no registration since the hand-out. */
  predicate Overtakes(s: Sys, id: nat, i: nat, m: nat) {
    && id in s.uploads && i < m < |s.history|
    && var u := s.uploads[id];
    && s.history[i].Handed? && s.history[i].keyId in u.toInsert && HandedAt(s.history, i, u.deviceId, s.history[i].keyId)
    && s.history[m] == RevokedKeys(u.deviceId) && u.readAt <= m
  }

  /** Only an upload that read before a revocation and inserts after it can bring an id back, and it
      does so on a device that is revoked. */
  lemma StaleOnlyAfterRevocation(es: seq<Event>, id: nat)
    requires Stale(Run(es), id)
    ensures LandsOnRevoked(Run(es), id)
    ensures exists i, m :: Overtakes(Run(es), id, i, m)
  {
    var s := Run(es);
    var u := s.uploads[id];
    var j :| 0 <= j < |u.toInsert| && StaleAt(s, id, j);
    var k, d := u.toInsert[j], u.deviceId;
    NotHandedSinceDeletion(es, id, j);
    RevokedSince(s.history, d, k);
    RunKeepsFlags(es);
    assert FlagOk(s, d);
    RevocationUnseen(s, id);
    var i :| 0 <= i < LastDeletion(s.history, d) - 1 && HandedAt(s.history, i, d, k);
    assert Overtakes(s, id, i, LastDeletion(s.history, d) - 1);
  }

  /** An upload read before the revocation that its device ended up with. */
  lemma RevocationUnseen(s: Sys, id: nat)
    requires FlagInv(s) && id in s.uploads && RevokedLast(s.history, s.uploads[id].deviceId)
    ensures s.uploads[id].readAt < LastDeletion(s.history, s.uploads[id].deviceId)
  {
    var u := s.uploads[id];
    assert ReadWhileActive(s, id);
    if LastDeletion(s.history, u.deviceId) <= u.readAt {
      LastDeletionPrefix(s.history, u.readAt, u.deviceId);
    }
  }

  /** The rows that would show the hand-out were deleted since. */
  lemma NotHandedSinceDeletion(es: seq<Event>, id: nat, j: nat)
    requires Lands(Run(es), id) && j < |Run(es).uploads[id].toInsert|
    ensures !HandedSince(Run(es).history, Run(es).uploads[id].deviceId, Run(es).uploads[id].toInsert[j], true)
  {
    var s := Run(es);
    var u := s.uploads[id];
    var k, rows := u.toInsert[j], s.devices[u.deviceId].rows;
    RunKeepsInv(es);
    assert StillClaimed(s, u.deviceId, k);
    if HandedSince(s.history, u.deviceId, k, true) {
      var r :| 0 <= r < |rows| && rows[r] == Row(k, true);
      KnownDoesNotLand(s, id, r, j);
    }
  }

  lemma {:induction false} CalmIsNeverStale(es: seq<Event>)
    requires NoneLandsOnRevoked(es)
    ensures NeverStale(es)
  {
    if es == [] {
    } else {
      var before, e := es[..|es| - 1], es[|es| - 1];
      CalmIsNeverStale(before);
      if e.UploadCommit? && Stale(Run(before), e.id) {
        StaleOnlyAfterRevocation(before, e.id);
      }
    }
  }

  /** As long as no upload inserts into a revoked device, which the insert could test, two hand-outs of
      a key have a registration between them. */
  lemma HandedOnceBetweenRegistrations(es: seq<Event>, i: nat, j: nat)
    requires NoneLandsOnRevoked(es)
    requires i < j < |Run(es).history| && Run(es).history[i].Handed? && Run(es).history[i] == Run(es).history[j]
    ensures var h := Run(es).history; exists m :: i < m < j && h[m] == Reregistered(h[i].deviceId)
  {
    CalmIsNeverStale(es);
    RunKeepsSpent(es);
    DeletionBetween(Run(es).history, false, i, j);
    var h := Run(es).history;
    var m :| i < m < j && Resets(h[m], h[i].deviceId, false);
    assert h[m] == Reregistered(h[i].deviceId);
  }

  /** Exactly when an upload makes a repeat possible: it brings back an id of the device that some
      unfinished claim is about to take from. */
  lemma RepeatExactlyWhenStale(es: seq<Event>, id: nat, claim: nat)
    requires NeverStale(es)
    ensures var s := Run(es);
            (exists pick: nat :: !HandedOnce(AfterTake(s, id, claim, pick).history, false))
            <==> Stale(s, id) && claim in s.listed && s.listed[claim] == s.uploads[id].deviceId
  {
    var s := Run(es);
    RunKeepsSpent(es);
    RunKeepsInv(es);
    if Stale(s, id) && claim in s.listed && s.listed[claim] == s.uploads[id].deviceId {
      StaleTakeRepeats(s, id, claim);
    } else if !Stale(s, id) {
      UploadKeepsSpent(s, id);
      UploadKeepsInv(s, id);
      forall pick: nat ensures HandedOnce(AfterTake(s, id, claim, pick).history, false) {
        ClaimKeepsSpent(UploadCommitStep(s, id), claim, pick);
      }
    } else {
      forall pick: nat ensures HandedOnce(AfterTake(s, id, claim, pick).history, false) {
        OtherTakeIsNew(s, id, claim, pick);
      }
    }
  }

  /** The upload commits and then the claim takes a key. */
  ghost function AfterTake(s: Sys, id: nat, claim: nat, pick: nat): Sys {
    ClaimTakeStep(UploadCommitStep(s, id), claim, pick)
  }

  lemma StaleTakeRepeats(s: Sys, id: nat, claim: nat)
    requires Stale(s, id) && claim in s.listed && s.listed[claim] == s.uploads[id].deviceId
    ensures exists pick: nat :: !HandedOnce(AfterTake(s, id, claim, pick).history, false)
  {
    var u := s.uploads[id];
    var i :| 0 <= i < |u.toInsert| && StaleAt(s, id, i);
    var pick := |s.devices[u.deviceId].rows| + i;
    var s' := UploadCommitStep(s, id);
    assert s'.devices[u.deviceId].rows[pick] == Row(u.toInsert[i], false);
    var h := AfterTake(s, id, claim, pick).history;
    assert h == s.history + [Handed(u.deviceId, u.toInsert[i])];
    assert h[..|s.history|] == s.history;
    assert !NewAt(h, |s.history|, false);
  }

  lemma OtherTakeIsNew(s: Sys, id: nat, claim: nat, pick: nat)
    requires SpentInv(s)
    requires Lands(s, id) && !(claim in s.listed && s.listed[claim] == s.uploads[id].deviceId)
    ensures HandedOnce(AfterTake(s, id, claim, pick).history, false)
  {
    var s' := UploadCommitStep(s, id);
    var h := AfterTake(s, id, claim, pick).history;
    if h != s.history {
      var d := s.listed[claim];
      assert s'.devices[d] == s.devices[d];
      var k := s.devices[d].rows[pick].keyId;
      assert s.devices[d].rows[pick] == Row(k, false);
      assert Spent(s, d, k);
      HandedOnceAppend(s.history, Handed(d, k), false);
    }
  }
}
