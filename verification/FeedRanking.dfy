/** The ranked home feed: tiers, the order of the ranking query, its pages, and the loop that puts the
    rows of a second query back into ranked order. */
module FeedRanking {
  import opened Common

  /** Weights and threshold, each a non-negative whole number. */
  datatype Config = Config(replyBoostMinScore: nat, likeWeight: nat, commentWeight: nat, bookmarkWeight: nat)

  /** A post row; ids are numbered in the order in which the database compares them. `blocks` holds the
      media types of each block of the long post, if the post has one. */
  datatype Post = Post(
    id: nat, createdAt: int, published: bool, deleted: bool,
    isShort: bool, mediaTypes: seq<string>, blocks: Option<seq<seq<string>>>,
    parent: Option<nat>, likes: nat, comments: nat, bookmarks: nat)

  // Tiers -----------------------------------------------------------------------------------------

  function ReplyBoostInteractionScore(likes: nat, comments: nat, bookmarks: nat, cfg: Config): nat {
    likes * cfg.likeWeight + comments * cfg.commentWeight + bookmarks * cfg.bookmarkWeight
  }

  predicate HasVideo(p: Post) {
    || (p.isShort && "video" in p.mediaTypes)
    || (p.blocks.Some? && exists i :: 0 <= i < |p.blocks.value| && "video" in p.blocks.value[i])
  }

  function Tier(p: Post, cfg: Config): nat {
    if HasVideo(p) then 3
    else if p.parent.None? then 2
    else if ReplyBoostInteractionScore(p.likes, p.comments, p.bookmarks, cfg) >= cfg.replyBoostMinScore then 2
    else 1
  }

  /** `ORDER BY tier DESC, createdAt DESC, id DESC` */
  predicate Before(a: Post, b: Post, cfg: Config) {
    var s, t := Tier(a, cfg), Tier(b, cfg);
    s > t || (s == t && (a.createdAt > b.createdAt || (a.createdAt == b.createdAt && a.id > b.id)))
  }

  lemma OrderIsStrictAndTotal(a: Post, b: Post, c: Post, cfg: Config)
    ensures !Before(a, a, cfg)
    ensures Before(a, b, cfg) && Before(b, c, cfg) ==> Before(a, c, cfg)
    ensures Before(a, b, cfg) || Before(b, a, cfg) || (a.id == b.id && a.createdAt == b.createdAt)
    ensures !(Before(a, b, cfg) && Before(b, a, cfg))
  {
  }

  lemma ScoreMonotone(p: Post, q: Post, cfg: Config)
    requires p.likes <= q.likes && p.comments <= q.comments && p.bookmarks <= q.bookmarks
    ensures ReplyBoostInteractionScore(p.likes, p.comments, p.bookmarks, cfg)
         <= ReplyBoostInteractionScore(q.likes, q.comments, q.bookmarks, cfg)
  {
    TimesMonotone(p.likes, q.likes, cfg.likeWeight);
    TimesMonotone(p.comments, q.comments, cfg.commentWeight);
    TimesMonotone(p.bookmarks, q.bookmarks, cfg.bookmarkWeight);
  }

  lemma TimesMonotone(a: nat, b: nat, w: nat)
    requires a <= b
    ensures a * w <= b * w
  {
    assert b * w - a * w == (b - a) * w;
  }

  /** A post that gains interactions stays ahead of whatever it was ahead of. */
  lemma InteractionsNeverSink(p: Post, q: Post, other: Post, cfg: Config)
    requires p.likes <= q.likes && p.comments <= q.comments && p.bookmarks <= q.bookmarks
    requires q == p.(likes := q.likes, comments := q.comments, bookmarks := q.bookmarks)
    requires Before(p, other, cfg)
    ensures Before(q, other, cfg)
  {
    ScoreMonotone(p, q, cfg);
  }

  // The ranking query -----------------------------------------------------------------------------

  predicate Visible(p: Post) {
    p.published && !p.deleted
  }

  ghost predicate UniqueIds(rows: seq<Post>) {
    forall i, j :: 0 <= i < j < |rows| ==> rows[i].id != rows[j].id
  }

  predicate Sorted(rows: seq<Post>, cfg: Config) {
    forall i, j :: 0 <= i < j < |rows| ==> Before(rows[i], rows[j], cfg)
  }

  /** The result is in order and holds exactly the visible posts of the table. */
  ghost predicate IsRanking(table: seq<Post>, rows: seq<Post>, cfg: Config) {
    && Sorted(rows, cfg)
    && forall p :: p in rows <==> p in table && Visible(p)
  }

  function Insert(p: Post, rows: seq<Post>, cfg: Config): seq<Post> {
    if rows == [] || Before(p, rows[0], cfg) then [p] + rows else [rows[0]] + Insert(p, rows[1..], cfg)
  }

  /** One way to answer the query. */
  function Ranking(table: seq<Post>, cfg: Config): seq<Post> {
    if table == [] then []
    else
      var rest := Ranking(table[1..], cfg);
      if Visible(table[0]) then Insert(table[0], rest, cfg) else rest
  }

  lemma {:induction false} InsertKeepsOrder(p: Post, rows: seq<Post>, cfg: Config)
    requires Sorted(rows, cfg) && forall i :: 0 <= i < |rows| ==> rows[i].id != p.id
    ensures Sorted(Insert(p, rows, cfg), cfg)
    ensures forall q :: q in Insert(p, rows, cfg) <==> q == p || q in rows
  {
    if rows == [] {
    } else if Before(p, rows[0], cfg) {
      forall j | 0 <= j < |rows| ensures Before(p, rows[j], cfg) {
        OrderIsStrictAndTotal(p, rows[0], rows[j], cfg);
      }
    } else {
      var rest := Insert(p, rows[1..], cfg);
      InsertKeepsOrder(p, rows[1..], cfg);
      OrderIsStrictAndTotal(p, rows[0], p, cfg);
      forall j | 0 <= j < |rest| ensures Before(rows[0], rest[j], cfg) {
        assert rest[j] in rest;
        if rest[j] != p {
          var k :| 0 <= k < |rows[1..]| && rows[1..][k] == rest[j];
          assert rest[j] == rows[k + 1];
        }
      }
      assert rows == [rows[0]] + rows[1..];
    }
  }

  lemma {:induction false} RankingIsRanking(table: seq<Post>, cfg: Config)
    requires UniqueIds(table)
    ensures IsRanking(table, Ranking(table, cfg), cfg)
  {
    if table == [] {
    } else {
      var rest := Ranking(table[1..], cfg);
      RankingIsRanking(table[1..], cfg);
      assert table == [table[0]] + table[1..];
      forall i | 0 <= i < |rest| ensures rest[i].id != table[0].id {
        assert rest[i] in rest;
        var k :| 0 <= k < |table[1..]| && table[1..][k] == rest[i];
        assert rest[i] == table[k + 1];
      }
      if Visible(table[0]) {
        InsertKeepsOrder(table[0], rest, cfg);
      }
    }
  }

  /** Two sorted lists of the same posts are the same list. */
  lemma {:induction false} SortedIsUnique(a: seq<Post>, b: seq<Post>, cfg: Config)
    requires Sorted(a, cfg) && Sorted(b, cfg) && forall p :: p in a <==> p in b
    ensures a == b
  {
    assert b != [] ==> b[0] in b;
    if a == [] {
    } else {
      assert a[0] in b && b != [] && b[0] in a;
      HeadIsFirst(a, b, cfg);
      TailHasRest(a, cfg);
      TailHasRest(b, cfg);
      SortedIsUnique(a[1..], b[1..], cfg);
      assert a == [a[0]] + a[1..] && b == [b[0]] + b[1..];
    }
  }

  lemma HeadIsFirst(a: seq<Post>, b: seq<Post>, cfg: Config)
    requires a != [] && b != [] && Sorted(a, cfg) && Sorted(b, cfg) && a[0] in b && b[0] in a
    ensures a[0] == b[0]
  {
    if a[0] != b[0] {
      FirstLeads(a, b[0], cfg);
      FirstLeads(b, a[0], cfg);
      OrderIsStrictAndTotal(a[0], b[0], a[0], cfg);
    }
  }

  lemma FirstLeads(a: seq<Post>, p: Post, cfg: Config)
    requires Sorted(a, cfg) && p in a && p != a[0]
    ensures Before(a[0], p, cfg)
  {
    var i :| 0 <= i < |a| && a[i] == p;
  }

  lemma TailHasRest(a: seq<Post>, cfg: Config)
    requires a != [] && Sorted(a, cfg)
    ensures Sorted(a[1..], cfg)
    ensures forall p :: p in a[1..] <==> p in a && p != a[0]
  {
    forall p ensures p in a[1..] <==> p in a && p != a[0] {
      if p in a[1..] {
        var k :| 0 <= k < |a[1..]| && a[1..][k] == p;
        OrderIsStrictAndTotal(a[0], a[0], a[0], cfg);
        assert Before(a[0], a[k + 1], cfg);
      }
      if p in a && p != a[0] {
        var k :| 0 <= k < |a| && a[k] == p;
        assert a[1..][k - 1] == p;
      }
    }
  }

  /** The ranking does not depend on how the table is stored. */
  lemma RankingIsUnique(table: seq<Post>, rows: seq<Post>, cfg: Config)
    requires UniqueIds(table)
    ensures IsRanking(table, rows, cfg) <==> rows == Ranking(table, cfg)
  {
    RankingIsRanking(table, cfg);
    if IsRanking(table, rows, cfg) {
      SortedIsUnique(rows, Ranking(table, cfg), cfg);
    }
  }

  /** A post of the middle tier, video aside: a root post, or a reply with enough interactions. */
  predicate Promoted(p: Post, cfg: Config) {
    p.parent.None? ||
    p.likes * cfg.likeWeight + p.comments * cfg.commentWeight + p.bookmarks * cfg.bookmarkWeight >= cfg.replyBoostMinScore
  }

  /** What a reader of the feed sees: videos before everything else, then root posts and boosted
      replies, then the other replies; newest first within each, ties by id. */
  lemma FeedReadsAsPromised(table: seq<Post>, cfg: Config, i: nat, j: nat)
    requires UniqueIds(table) && i < j < |Ranking(table, cfg)|
    ensures var a, b := Ranking(table, cfg)[i], Ranking(table, cfg)[j];
            && (HasVideo(b) ==> HasVideo(a))
            && (Promoted(b, cfg) ==> HasVideo(a) || HasVideo(b) || Promoted(a, cfg))
            && (HasVideo(a) == HasVideo(b) && (HasVideo(a) || Promoted(a, cfg) == Promoted(b, cfg)) ==>
                  a.createdAt > b.createdAt || (a.createdAt == b.createdAt && a.id > b.id))
  {
    RankingIsRanking(table, cfg);
    assert Before(Ranking(table, cfg)[i], Ranking(table, cfg)[j], cfg);
  }

  /** In full: which posts the feed holds, and which of them count as videos. */
  lemma FeedHolds(table: seq<Post>, cfg: Config, p: Post)
    requires UniqueIds(table)
    ensures p in Ranking(table, cfg) <==> p in table && p.published && !p.deleted
    ensures HasVideo(p) <==>
            || (p.isShort && "video" in p.mediaTypes)
            || (p.blocks.Some? && exists b :: b in p.blocks.value && "video" in b)
  {
    RankingIsRanking(table, cfg);
    if p.blocks.Some? {
      var blocks := p.blocks.value;
      assert forall i :: 0 <= i < |blocks| ==> blocks[i] in blocks;
    }
  }

  // Pages -----------------------------------------------------------------------------------------

  function Page(rows: seq<Post>, skip: nat, take: nat): seq<Post> {
    if skip >= |rows| then [] else if skip + take >= |rows| then rows[skip..] else rows[skip..skip + take]
  }

  /** A page is the posts at the positions from `skip` on, at most `take` of them. */
  lemma PageMeans(rows: seq<Post>, skip: nat, take: nat)
    ensures |Page(rows, skip, take)| == Max(0, Min(take, |rows| - skip))
    ensures forall i :: 0 <= i < |Page(rows, skip, take)| ==> Page(rows, skip, take)[i] == rows[skip + i]
  {
  }

  /** The first `n` pages of `take` posts, one after the other. */
  function Pages(rows: seq<Post>, take: nat, n: nat): seq<Post> {
    if n == 0 then [] else Pages(rows, take, n - 1) + Page(rows, (n - 1) * take, take)
  }

  function UpTo(rows: seq<Post>, n: nat): seq<Post> {
    rows[..if n <= |rows| then n else |rows|]
  }

  lemma PageExtends(rows: seq<Post>, skip: nat, take: nat)
    ensures UpTo(rows, skip) + Page(rows, skip, take) == UpTo(rows, skip + take)
  {
  }

  lemma {:induction false} PagesAreAPrefix(rows: seq<Post>, take: nat, n: nat)
    ensures Pages(rows, take, n) == UpTo(rows, n * take)
  {
    if n == 0 {
    } else {
      PagesAreAPrefix(rows, take, n - 1);
      PageExtends(rows, (n - 1) * take, take);
      OneMoreTake(n, take);
    }
  }

  lemma OneMoreTake(n: nat, take: nat)
    requires n > 0
    ensures (n - 1) * take + take == n * take
  {
  }

  /** Enough pages give the whole feed, each post once. */
  lemma PagesAreTheFeed(table: seq<Post>, cfg: Config, take: nat, n: nat)
    requires UniqueIds(table) && n * take >= |Ranking(table, cfg)|
    ensures IsRanking(table, Pages(Ranking(table, cfg), take, n), cfg)
  {
    var rows := Ranking(table, cfg);
    PagesAreAPrefix(rows, take, n);
    assert rows[..|rows|] == rows;
    RankingIsRanking(table, cfg);
  }

  /** Two pages that do not overlap in position share no post. */
  lemma PagesAreDisjoint(table: seq<Post>, cfg: Config, skip: nat, take: nat, skip': nat, take': nat)
    requires UniqueIds(table) && skip + take <= skip'
    ensures var rows := Ranking(table, cfg);
            forall p :: p in Page(rows, skip, take) ==> p !in Page(rows, skip', take')
  {
    var rows := Ranking(table, cfg);
    var first, second := Page(rows, skip, take), Page(rows, skip', take');
    RankingIsRanking(table, cfg);
    forall i, j | 0 <= i < |first| && 0 <= j < |second| ensures first[i] != second[j] {
      assert Before(rows[skip + i], rows[skip' + j], cfg);
      OrderIsStrictAndTotal(first[i], second[j], first[i], cfg);
    }
  }

  // Restoring the order ---------------------------------------------------------------------------

  function Ids(rows: seq<Post>): (r: seq<nat>)
    ensures |r| == |rows| && forall i :: 0 <= i < |r| ==> r[i] == rows[i].id
  {
    seq(|rows|, i requires 0 <= i < |rows| => rows[i].id)
  }

  /** The map built from the fetched rows; a later row replaces an earlier one with its id. */
  function ById(rows: seq<Post>): map<nat, Post> {
    if rows == [] then map[] else ById(rows[..|rows| - 1])[rows[|rows| - 1].id := rows[|rows| - 1]]
  }

  /** The rows of the map in the order of the ids; an id without a row is passed over. */
  function InOrder(ids: seq<nat>, byId: map<nat, Post>): seq<Post> {
    if ids == [] then []
    else InOrder(ids[..|ids| - 1], byId) + if ids[|ids| - 1] in byId then [byId[ids[|ids| - 1]]] else []
  }

  /** `fetched` is what the second query returns for the ids of the page. */
  method GetFeedPosts(table: seq<Post>, cfg: Config, skip: nat, take: nat, fetched: seq<Post>) returns (ordered: seq<Post>)
    requires UniqueIds(table)
    ensures ordered == InOrder(Ids(Page(Ranking(table, cfg), skip, take)), ById(fetched))
    ensures multiset(fetched) == multiset(Page(Ranking(table, cfg), skip, take)) ==> ordered == Page(Ranking(table, cfg), skip, take)
  {
    var page := Page(Ranking(table, cfg), skip, take);
    var ids := Ids(page);
    ordered := [];
    if ids != [] {
      var byId := ById(fetched);
      for k := 0 to |ids|
        invariant ordered == InOrder(ids[..k], byId)
      {
        assert ids[..k + 1][..k] == ids[..k];
        if ids[k] in byId {
          ordered := ordered + [byId[ids[k]]];
        }
      }
      assert ids[..|ids|] == ids;
    }
    if multiset(fetched) == multiset(page) {
      PageOfFeedIsUnique(table, cfg, skip, take);
      OrderIsRestored(page, fetched);
    }
  }

  lemma PageOfFeedIsUnique(table: seq<Post>, cfg: Config, skip: nat, take: nat)
    requires UniqueIds(table)
    ensures UniqueIds(Page(Ranking(table, cfg), skip, take))
  {
    var rows := Ranking(table, cfg);
    var page := Page(rows, skip, take);
    RankingIsRanking(table, cfg);
    forall i, j | 0 <= i < j < |page| ensures page[i].id != page[j].id {
      assert Before(rows[skip + i], rows[skip + j], cfg);
      assert rows[skip + i] in rows && rows[skip + j] in rows;
      var a :| 0 <= a < |table| && table[a] == page[i];
      var b :| 0 <= b < |table| && table[b] == page[j];
      OrderIsStrictAndTotal(page[i], page[i], page[i], cfg);
    }
  }

  lemma {:induction false} ByIdFinds(rows: seq<Post>, p: Post)
    requires p in rows && forall q :: q in rows && q.id == p.id ==> q == p
    ensures p.id in ById(rows) && ById(rows)[p.id] == p
  {
    var n := |rows| - 1;
    assert rows[n] in rows;
    if rows[n].id != p.id {
      assert p in rows[..n];
      forall q | q in rows[..n] && q.id == p.id ensures q == p {
        assert q in rows;
      }
      ByIdFinds(rows[..n], p);
    }
  }

  lemma {:induction false} InOrderOfFound(page: seq<Post>, byId: map<nat, Post>)
    requires forall i :: 0 <= i < |page| ==> page[i].id in byId && byId[page[i].id] == page[i]
    ensures InOrder(Ids(page), byId) == page
  {
    if page == [] {
    } else {
      var n := |page| - 1;
      InOrderOfFound(page[..n], byId);
      assert Ids(page)[..n] == Ids(page[..n]);
    }
  }

  /** In whatever order the second query returns the rows of a page, the loop restores the page. */
  lemma OrderIsRestored(page: seq<Post>, fetched: seq<Post>)
    requires UniqueIds(page) && multiset(fetched) == multiset(page)
    ensures InOrder(Ids(page), ById(fetched)) == page
  {
    forall i | 0 <= i < |page| ensures page[i].id in ById(fetched) && ById(fetched)[page[i].id] == page[i] {
      assert page[i] in multiset(page);
      forall q | q in fetched && q.id == page[i].id ensures q == page[i] {
        assert q in multiset(fetched);
        assert q in page;
      }
      ByIdFinds(fetched, page[i]);
    }
    InOrderOfFound(page, ById(fetched));
  }

  /** Rows that are gone by the second query are left out; the others keep their order. */
  lemma {:induction false} MissingRowsAreDropped(ids: seq<nat>, byId: map<nat, Post>)
    requires forall id :: id in byId ==> byId[id].id == id
    ensures Ids(InOrder(ids, byId)) == Present(ids, byId.Keys)
  {
    if ids == [] {
    } else {
      var n := |ids| - 1;
      MissingRowsAreDropped(ids[..n], byId);
      assert Ids(InOrder(ids, byId)) == Ids(InOrder(ids[..n], byId)) + if ids[n] in byId then [ids[n]] else [];
    }
  }

  function Present(ids: seq<nat>, there: set<nat>): seq<nat> {
    if ids == [] then []
    else Present(ids[..|ids| - 1], there) + if ids[|ids| - 1] in there then [ids[|ids| - 1]] else []
  }
}
