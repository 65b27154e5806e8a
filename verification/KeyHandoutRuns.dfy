/** Concrete runs: a key handed out twice after one registration, and why no test of the tables alone
    could have told. */
module KeyHandoutRuns {
  import opened Common
  import opened KeyHandout

  // A run with a repeat ---------------------------------------------------------------------------

  const OFFER := [Register("d", ["b"]), UploadRead(1, "d", ["a"]), UploadRead(2, "d", ["a"]), UploadCommit(2),
                  ClaimList(6, "d"), ClaimTake(6, 0)]

  const OVERTAKEN := OFFER + [ClaimList(7, "d"), ClaimList(8, "d"), ClaimTake(7, 1), Revoke("d"), UploadCommit(1), ClaimTake(8, 0)]

  /** A key is handed out twice after one registration. The client registers "b" and sends the upload of
      "a" twice; both look before either inserts. "b", the older one, is handed out, then "a"; the
      device is revoked, the slower upload inserts "a" again, and an unfinished claim takes it. */
  lemma OvertakenUploadRepeats()
    ensures Run(OVERTAKEN).history == [Reregistered("d"), Handed("d", "b"), Handed("d", "a"), RevokedKeys("d"), Handed("d", "a")]
  {
    FirstHalf();
    SecondHalf();
    LastSix(OVERTAKEN, 6);
    assert OVERTAKEN[..6] == OFFER;
  }

  lemma LastSix(es: seq<Event>, k: nat)
    requires |es| == k + 6
    ensures Run(es) == Step(Step(Step(Step(Step(Step(Run(es[..k]), es[k]), es[k + 1]), es[k + 2]), es[k + 3]), es[k + 4]), es[k + 5])
  {
    Nth(es, k);
    Nth(es, k + 1);
    Nth(es, k + 2);
    Nth(es, k + 3);
    Nth(es, k + 4);
    Nth(es, k + 5);
    assert es[..k + 6] == es;
  }

  lemma Six(a: Event, b: Event, c: Event, d: Event, e: Event, f: Event)
    ensures Run([a, b, c, d, e, f]) == Step(Step(Step(Step(Step(Step(INIT, a), b), c), d), e), f)
  {
    var es := [a, b, c, d, e, f];
    LastSix(es, 0);
    assert es[..0] == [];
  }

  lemma Nth(es: seq<Event>, k: nat)
    requires k < |es|
    ensures Run(es[..k + 1]) == Step(Run(es[..k]), es[k])
  {
    assert es[..k + 1][..k] == es[..k];
  }

  const LOOKED := Upload("d", ["a"], 1)

  const REGISTERED := Sys(map["d" := Dev(false, [Row("b", false)])], map[], map[], [Reregistered("d")])

  const BOTH_LOOKED := REGISTERED.(uploads := map[1 := LOOKED, 2 := LOOKED])

  const INSERTED := REGISTERED.(uploads := map[1 := LOOKED], devices := map["d" := Dev(false, [Row("b", false), Row("a", false)])])

  const OFFERED := Sys(map["d" := Dev(false, [Row("b", true), Row("a", false)])], map[1 := LOOKED], map[],
                       [Reregistered("d"), Handed("d", "b")])

  lemma FirstHalf()
    ensures Run(OFFER) == OFFERED
  {
    BothLook();
    SecondInserts();
    OldestIsTaken();
    RegisterUploadClaim("d", ["b"], ["a"]);
  }

  lemma RegisterUploadClaim(d: string, ids: seq<string>, more: seq<string>)
    ensures Run([Register(d, ids), UploadRead(1, d, more), UploadRead(2, d, more), UploadCommit(2), ClaimList(6, d), ClaimTake(6, 0)])
            == ClaimTakeStep(ClaimListStep(UploadCommitStep(UploadReadStep(UploadReadStep(RegisterStep(INIT, d, ids), 1, d, more), 2, d, more), 2), 6, d), 6, 0)
  {
    Six(Register(d, ids), UploadRead(1, d, more), UploadRead(2, d, more), UploadCommit(2), ClaimList(6, d), ClaimTake(6, 0));
  }

  lemma BothLook()
    ensures UploadReadStep(UploadReadStep(RegisterStep(INIT, "d", ["b"]), 1, "d", ["a"]), 2, "d", ["a"]) == BOTH_LOOKED
  {
    assert Added(["b"]) == [Row("b", false)];
    assert RegisterStep(INIT, "d", ["b"]) == REGISTERED;
    Lookup(REGISTERED, 1);
    Lookup(REGISTERED.(uploads := map[1 := LOOKED]), 2);
    assert REGISTERED.uploads[1 := LOOKED] == map[1 := LOOKED];
    assert map[1 := LOOKED][2 := LOOKED] == BOTH_LOOKED.uploads;
  }

  lemma Lookup(s: Sys, id: nat)
    requires s.devices == REGISTERED.devices && |s.history| == 1 && id !in s.uploads
    ensures UploadReadStep(s, id, "d", ["a"]) == s.(uploads := s.uploads[id := LOOKED])
  {
    NothingSkipped();
  }

  lemma NothingSkipped()
    ensures Skip(["a"], [Row("b", false)]) == ["a"]
  {
    var rows := [Row("b", false)];
    assert Skip([], rows) == [];
    assert ["a"][..0] == [];
    assert !Known(rows, "a");
  }

  lemma SecondInserts()
    ensures UploadCommitStep(BOTH_LOOKED, 2) == INSERTED
  {
    assert [Row("b", false)] + Added(["a"]) == [Row("b", false), Row("a", false)];
    assert BOTH_LOOKED.uploads - {2} == map[1 := LOOKED];
  }

  lemma OldestIsTaken()
    ensures ClaimTakeStep(ClaimListStep(INSERTED, 6, "d"), 6, 0) == OFFERED
  {
    assert map[6 := "d"] - {6} == map[];
    assert INSERTED.devices["d"].rows[0 := Row("b", true)] == OFFERED.devices["d"].rows;
    assert INSERTED.devices["d" := OFFERED.devices["d"]] == OFFERED.devices;
  }

  /** The key is handed out, the device is revoked, and the first upload inserts the key again. */
  lemma SecondHalf()
    ensures var s := ClaimListStep(ClaimListStep(OFFERED, 7, "d"), 8, "d");
            ClaimTakeStep(UploadCommitStep(RevokeStep(ClaimTakeStep(s, 7, 1), "d"), 1), 8, 0).history
            == [Reregistered("d"), Handed("d", "b"), Handed("d", "a"), RevokedKeys("d"), Handed("d", "a")]
  {
    var s6 := ClaimListStep(ClaimListStep(OFFERED, 7, "d"), 8, "d");
    assert s6 == OFFERED.(listed := map[7 := "d", 8 := "d"]);
    var s7 := ClaimTakeStep(s6, 7, 1);
    assert s7.listed == map[8 := "d"] && s7.uploads == map[1 := LOOKED];
    var s8 := RevokeStep(s7, "d");
    assert s8.devices["d"].rows == [];
    assert [] + Added(["a"]) == [Row("a", false)];
    var s9 := UploadCommitStep(s8, 1);
    assert s9.devices["d"].rows == [Row("a", false)];
  }

  // Why the tables alone cannot tell --------------------------------------------------------------

  /** The run up to the late insert, and one that leads to the same tables although "a" was never handed
      out. */
  const BEFORE_REPEAT := OVERTAKEN[..10]

  const HARMLESS := [Register("d", ["b"]), UploadRead(1, "d", ["a"]), ClaimList(8, "d"), Revoke("d")]

  const EMPTIED := map["d" := Dev(true, [])]

  /** Both runs end with the same devices, uploads and claims, and in both the upload is about to land on
      a revoked device; in one of them it brings back an id, in the other it does not. So a test that
      looks at the tables cannot be exact, and the guard above is what it can do. */
  lemma TablesCannotTell()
    ensures var s, s' := Run(BEFORE_REPEAT), Run(HARMLESS);
            && s.devices == s'.devices && s.uploads == s'.uploads && s.listed == s'.listed
            && LandsOnRevoked(s, 1) && LandsOnRevoked(s', 1) && Stale(s, 1) && !Stale(s', 1)
  {
    BeforeRepeat();
    HarmlessRun();
    assert [] + Added(["a"]) == [Row("a", false)];
    assert StaleAt(Run(BEFORE_REPEAT), 1, 0);
    assert !HandedSince([Reregistered("d"), RevokedKeys("d")], "d", "a", false) by {
      assert [Reregistered("d"), RevokedKeys("d")][..1] == [Reregistered("d")];
    }
  }

  lemma BeforeRepeat()
    ensures Run(BEFORE_REPEAT) == Sys(EMPTIED, map[1 := LOOKED], map[8 := "d"],
                                      [Reregistered("d"), Handed("d", "b"), Handed("d", "a"), RevokedKeys("d")])
    ensures HandedSince(Run(BEFORE_REPEAT).history, "d", "a", false)
  {
    FirstHalf();
    LastFour(BEFORE_REPEAT, 6);
    assert BEFORE_REPEAT[..6] == OFFER;
    var h := [Reregistered("d"), Handed("d", "b"), Handed("d", "a"), RevokedKeys("d")];
    assert h[..3][2] == Handed("d", "a");
    var s6 := ClaimListStep(ClaimListStep(OFFERED, 7, "d"), 8, "d");
    assert s6 == OFFERED.(listed := map[7 := "d", 8 := "d"]);
    assert map[7 := "d", 8 := "d"] - {7} == map[8 := "d"];
    var s7 := ClaimTakeStep(s6, 7, 1);
    assert s7.listed == map[8 := "d"] && s7.uploads == map[1 := LOOKED];
    var s8 := RevokeStep(s7, "d");
    assert s8.devices == EMPTIED;
    assert s8.history == h;
  }

  lemma HarmlessRun()
    ensures Run(HARMLESS) == Sys(EMPTIED, map[1 := LOOKED], map[8 := "d"], [Reregistered("d"), RevokedKeys("d")])
  {
    LastFour(HARMLESS, 0);
    assert HARMLESS[..0] == [];
    assert Added(["b"]) == [Row("b", false)];
    assert RegisterStep(INIT, "d", ["b"]) == REGISTERED;
    Lookup(REGISTERED, 1);
    var s2 := REGISTERED.(uploads := map[1 := LOOKED]);
    assert REGISTERED.uploads[1 := LOOKED] == map[1 := LOOKED];
    var s3 := ClaimListStep(s2, 8, "d");
    assert s3 == s2.(listed := map[8 := "d"]);
    var s4 := RevokeStep(s3, "d");
    assert s4.devices == EMPTIED && s4.history == [Reregistered("d"), RevokedKeys("d")];
  }

  lemma LastFour(es: seq<Event>, k: nat)
    requires |es| == k + 4
    ensures Run(es) == Step(Step(Step(Step(Run(es[..k]), es[k]), es[k + 1]), es[k + 2]), es[k + 3])
  {
    Nth(es, k);
    Nth(es, k + 1);
    Nth(es, k + 2);
    Nth(es, k + 3);
    assert es[..k + 4] == es;
  }
}
