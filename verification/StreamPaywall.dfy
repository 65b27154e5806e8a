/** Two answers to "is this media locked for this viewer": the stream endpoint starts from the file
    and looks for posts, the feed starts from a post and looks for files. When they agree. */
module StreamPaywall {
  import opened Common

  datatype MediaType = Video | Audio | Other

  datatype File = File(url: string, path: Option<string>, ownerId: string, kind: MediaType, deleted: bool)

  datatype Post = Post(
    authorId: string, deleted: bool, published: bool, monetized: bool,
    media: seq<string>, blocks: seq<seq<string>>)

  /** Files and posts by id, and the (user, post) pairs that have an unlock row. */
  datatype Db = Db(files: map<string, File>, posts: map<string, Post>, unlocks: set<(string, string)>)

  // What it means to be locked --------------------------------------------------------------------

  predicate Playable(f: File) {
    f.kind == Video || f.kind == Audio
  }

  predicate ForSale(p: Post) {
    !p.deleted && p.published && p.monetized
  }

  predicate Names(urls: seq<string>, f: File) {
    f.url in urls || (f.path.Some? && f.path.value in urls)
  }

  /** The post's own media or one of its long-post blocks names the file. */
  predicate References(p: Post, f: File) {
    Names(p.media, f) || exists b :: 0 <= b < |p.blocks| && Names(p.blocks[b], f)
  }

  /** The posts that lock a file for a viewer: for sale, by someone else, and not unlocked. */
  function LockingPosts(db: Db, f: File, viewer: string): set<string> {
    set id | id in db.posts && ForSale(db.posts[id]) && References(db.posts[id], f)
             && db.posts[id].authorId != viewer && (viewer, id) !in db.unlocks
  }

  /** The files a post locks for a viewer. */
  function LockedFiles(db: Db, id: string, viewer: string): set<string> {
    if id in db.posts && ForSale(db.posts[id]) && db.posts[id].authorId != viewer && (viewer, id) !in db.unlocks then
      set fid | fid in db.files && References(db.posts[id], db.files[fid]) && Playable(db.files[fid]) && !db.files[fid].deleted
    else {}
  }

  predicate SignedIn(viewer: Option<string>) {
    viewer.Some? && viewer.value != ""
  }

  /** Some URL in the post's own media or in a block is the file's URL or path. */
  predicate IsNamedIn(p: Post, f: File) {
    || f.url in p.media || (f.path.Some? && f.path.value in p.media)
    || exists b :: b in p.blocks && (f.url in b || (f.path.Some? && f.path.value in b))
  }

  lemma ReferencesMeans(p: Post, f: File)
    ensures References(p, f) <==> IsNamedIn(p, f)
  {
    if i :| 0 <= i < |p.blocks| && Names(p.blocks[i], f) {
      assert p.blocks[i] in p.blocks;
    }
    if b :| b in p.blocks && (f.url in b || (f.path.Some? && f.path.value in b)) {
      var i :| 0 <= i < |p.blocks| && p.blocks[i] == b;
      assert Names(p.blocks[i], f);
    }
  }

  /** In full: the posts for sale that name a file, and those of them that lock it for a viewer. */
  lemma LockingPostsMeans(db: Db, f: File, viewer: string, id: string)
    ensures id in ReferencingPosts(db, f) <==>
            && id in db.posts && !db.posts[id].deleted && db.posts[id].published && db.posts[id].monetized
            && IsNamedIn(db.posts[id], f)
    ensures id in LockingPosts(db, f, viewer) <==>
            && id in db.posts && !db.posts[id].deleted && db.posts[id].published && db.posts[id].monetized
            && IsNamedIn(db.posts[id], f) && db.posts[id].authorId != viewer && (viewer, id) !in db.unlocks
  {
    if id in db.posts {
      ReferencesMeans(db.posts[id], f);
    }
  }

  /** In full: the files that a post locks. */
  lemma LockedFilesMeans(db: Db, id: string, viewer: string, fid: string)
    ensures fid in LockedFiles(db, id, viewer) <==>
            && id in db.posts && !db.posts[id].deleted && db.posts[id].published && db.posts[id].monetized
            && db.posts[id].authorId != viewer && (viewer, id) !in db.unlocks
            && fid in db.files && !db.files[fid].deleted && (db.files[fid].kind == Video || db.files[fid].kind == Audio)
            && IsNamedIn(db.posts[id], db.files[fid])
  {
    if id in db.posts && fid in db.files {
      ReferencesMeans(db.posts[id], db.files[fid]);
    }
  }

  // From the file to the posts --------------------------------------------------------------------

  function ReferencingPosts(db: Db, f: File): set<string> {
    set id | id in db.posts && ForSale(db.posts[id]) && References(db.posts[id], f)
  }

  /** Some listing of a set, in an order of the database's choosing. */
  method List(ids: set<string>) returns (rows: seq<string>)
    ensures forall id :: id in ids <==> id in rows
  {
    rows := [];
    var rest := ids;
    while rest != {}
      invariant rest <= ids
      invariant forall id :: id in ids - rest <==> id in rows
      decreases |rest|
    {
      var id :| id in rest;
      rows := rows + [id];
      rest := rest - {id};
    }
  }

  method ShouldBlockStreamForFile(db: Db, fileId: string, viewer: Option<string>) returns (blocked: bool)
    ensures blocked <==> fileId in db.files && Blocks(db, fileId, viewer)
  {
    if fileId !in db.files || (db.files[fileId].kind != Video && db.files[fileId].kind != Audio) {
      return false;
    }
    var f := db.files[fileId];
    if viewer.None? || viewer.value == "" {
      return ReferencingPosts(db, f) != {};
    }
    var v := viewer.value;
    if f.ownerId == v {
      return false;
    }
    var posts := List(ReferencingPosts(db, f));
    for n := 0 to |posts|
      invariant forall k :: 0 <= k < n ==> posts[k] !in LockingPosts(db, f, v)
    {
      var id := posts[n];
      assert id in posts;
      if db.posts[id].authorId == v {
        continue;
      }
      if (v, id) !in db.unlocks {
        assert id in LockingPosts(db, f, v);
        return true;
      }
    }
    assert forall id :: id in LockingPosts(db, f, v) ==> id in ReferencingPosts(db, f);
    return false;
  }

  // From the post to the files --------------------------------------------------------------------

  method GetMonetizedVideoFileIdsForPost(db: Db, id: string) returns (ids: set<string>)
    ensures ids == if id in db.posts && ForSale(db.posts[id]) then
                     set fid | fid in db.files && References(db.posts[id], db.files[fid]) && Playable(db.files[fid]) && !db.files[fid].deleted
                   else {}
  {
    if id !in db.posts || !ForSale(db.posts[id]) {
      return {};
    }
    var p := db.posts[id];
    var urls := p.media;
    for b := 0 to |p.blocks|
      invariant forall u :: u in urls <==> u in p.media || exists k :: 0 <= k < b && u in p.blocks[k]
    {
      urls := urls + p.blocks[b];
    }
    assert forall f :: Names(urls, f) <==> References(p, f);
    if |urls| == 0 {
      return {};
    }
    return set fid | fid in db.files && Names(urls, db.files[fid]) && Playable(db.files[fid]) && !db.files[fid].deleted;
  }

  /** `post` is the row the feed has just read. */
  method GetLockedVideoFileIdsForPostView(db: Db, id: string, viewer: Option<string>) returns (ids: set<string>)
    requires id in db.posts
    ensures ids == LockedInView(db, id, viewer)
  {
    var post := db.posts[id];
    if !post.published || !post.monetized || viewer.None? || viewer.value == "" || post.authorId == viewer.value {
      return {};
    }
    if (viewer.value, id) in db.unlocks {
      return {};
    }
    ids := GetMonetizedVideoFileIdsForPost(db, id);
  }

  method GetUnlockMapForUser(db: Db, userId: string, postIds: seq<string>) returns (m: map<string, bool>)
    ensures m == map id | id in postIds :: (userId, id) in db.unlocks
  {
    m := map[];
    for n := 0 to |postIds|
      invariant m == map id | id in postIds[..n] :: (userId, id) in db.unlocks
    {
      m := m[postIds[n] := (userId, postIds[n]) in db.unlocks];
    }
    assert postIds[..|postIds|] == postIds;
  }

  // Agreement -------------------------------------------------------------------------------------

  /** The stream of the file is blocked. */
  predicate Blocks(db: Db, fileId: string, viewer: Option<string>)
    requires fileId in db.files
  {
    var f := db.files[fileId];
    Playable(f) &&
    if SignedIn(viewer) then f.ownerId != viewer.value && LockingPosts(db, f, viewer.value) != {}
    else ReferencingPosts(db, f) != {}
  }

  /** What the feed marks as locked in a post; a visitor who is not signed in gets no marks. */
  function LockedInView(db: Db, id: string, viewer: Option<string>): set<string> {
    if SignedIn(viewer) then LockedFiles(db, id, viewer.value) else {}
  }

  predicate SomePostLocks(db: Db, fileId: string, viewer: Option<string>) {
    exists id :: id in db.posts && fileId in LockedInView(db, id, viewer)
  }

  /** A post locks a file in the feed exactly when it blocks the stream of that file, for files that
      are playable and not deleted. */
  lemma SamePosts(db: Db, fileId: string, id: string, viewer: string)
    requires fileId in db.files
    ensures fileId in LockedFiles(db, id, viewer)
            <==> id in LockingPosts(db, db.files[fileId], viewer) && Playable(db.files[fileId]) && !db.files[fileId].deleted
  {
  }

  lemma LocksMeans(db: Db, fileId: string, viewer: string)
    requires fileId in db.files && viewer != ""
    ensures SomePostLocks(db, fileId, Some(viewer)) <==>
            LockingPosts(db, db.files[fileId], viewer) != {} && Playable(db.files[fileId]) && !db.files[fileId].deleted
  {
    var posts := LockingPosts(db, db.files[fileId], viewer);
    if posts != {} && Playable(db.files[fileId]) && !db.files[fileId].deleted {
      var id :| id in posts;
      SamePosts(db, fileId, id, viewer);
      assert fileId in LockedInView(db, id, Some(viewer));
    }
    if SomePostLocks(db, fileId, Some(viewer)) {
      var id :| id in db.posts && fileId in LockedInView(db, id, Some(viewer));
      SamePosts(db, fileId, id, viewer);
      assert id in posts;
    }
  }

  /** Where the two answers part: for a signed-in viewer a playable file that some post locks and that is
      either the viewer's own or deleted, but not both; for anyone else a playable file that some post
      for sale names. */
  predicate Disputed(db: Db, fileId: string, viewer: Option<string>)
    requires fileId in db.files
  {
    var f := db.files[fileId];
    Playable(f) &&
    if SignedIn(viewer) then LockingPosts(db, f, viewer.value) != {} && (f.ownerId == viewer.value) != f.deleted
    else ReferencingPosts(db, f) != {}
  }

  /** For every viewer, signed in or not, and every file, the two answers agree exactly when the file is
      not such a one. */
  lemma AgreeUnlessDisputed(db: Db, fileId: string, viewer: Option<string>)
    requires fileId in db.files
    ensures (Blocks(db, fileId, viewer) <==> SomePostLocks(db, fileId, viewer)) <==> !Disputed(db, fileId, viewer)
  {
    if SignedIn(viewer) {
      LocksMeans(db, fileId, viewer.value);
    }
  }

  /** So for signed-in viewers the paywall is the same from both sides on files of others that are not
      deleted. */
  lemma PaywallAgreement(db: Db, fileId: string, viewer: string)
    requires viewer != "" && fileId in db.files && db.files[fileId].ownerId != viewer && !db.files[fileId].deleted
    ensures Blocks(db, fileId, Some(viewer)) <==> SomePostLocks(db, fileId, Some(viewer))
  {
    AgreeUnlessDisputed(db, fileId, Some(viewer));
  }

  /** A deleted file still blocks its stream while no feed entry locks it. */
  lemma DeletedFileDisagrees()
    ensures var db := Db(map["f" := File("u", None, "o", Video, true)], map["p" := Post("a", false, true, true, ["u"], [])], {});
            Blocks(db, "f", Some("v")) && !SomePostLocks(db, "f", Some("v"))
  {
    var f := File("u", None, "o", Video, true);
    var db := Db(map["f" := f], map["p" := Post("a", false, true, true, ["u"], [])], {});
    assert "p" in LockingPosts(db, f, "v") by {
      assert Names(["u"], f);
    }
    LocksMeans(db, "f", "v");
  }

  /** A visitor is blocked from a stream that no feed entry marks as locked. */
  lemma VisitorDisagrees()
    ensures var db := Db(map["f" := File("u", None, "o", Video, false)], map["p" := Post("a", false, true, true, ["u"], [])], {});
            Blocks(db, "f", None) && !SomePostLocks(db, "f", None)
  {
    var f := File("u", None, "o", Video, false);
    var db := Db(map["f" := f], map["p" := Post("a", false, true, true, ["u"], [])], {});
    assert "p" in ReferencingPosts(db, f) by {
      assert Names(["u"], f);
    }
  }

  /** Unlocking a post takes that post, and no other, out of the viewer's locking posts, and changes
      nothing for other viewers. */
  lemma UnlockRemovesOnePost(db: Db, f: File, viewer: string, id: string, other: string)
    ensures var db' := db.(unlocks := db.unlocks + {(viewer, id)});
            && LockingPosts(db', f, viewer) == LockingPosts(db, f, viewer) - {id}
            && (other != viewer ==> LockingPosts(db', f, other) == LockingPosts(db, f, other))
  {
    var db' := db.(unlocks := db.unlocks + {(viewer, id)});
    forall v: string, p: string
      ensures (v, p) in db'.unlocks <==> (v, p) in db.unlocks || (v == viewer && p == id)
    {
    }
  }
}
