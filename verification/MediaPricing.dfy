/** From uploaded videos to the stored price of a post, and from the stored price back to a quote. */
module MediaPricing {
  import opened Common
  import opened CoinPricing

  /** The columns of a file row that matter for pricing. `isVideo` is the type/mimetype test and
      `probe` what ffprobe reports for the file. */
  datatype File = File(
    id: string, url: string, path: Option<string>, filename: string, ownerId: string,
    isVideo: bool, deleted: bool,
    width: Option<int>, height: Option<int>, duration: Option<int>,
    probe: Option<Geometry>)

  datatype Geometry = Geometry(width: int, height: int, duration: int)

  datatype Inputs = Inputs(totalDurationSeconds: int, sourceStreamQuality: StreamQuality)

  function DimensionsToStreamQuality(width: int, height: int): StreamQuality {
    var longSide := if width >= height then width else height;
    if longSide >= 2160 then P4K else if longSide >= 1080 then P1080 else P720
  }

  function MaxStreamQuality(a: StreamQuality, b: StreamQuality): StreamQuality {
    if QualityRank(a) >= QualityRank(b) then a else b
  }

  /** Stored columns if all three are there, else the probe of a file that still has a path. */
  function Measured(f: File): Option<Geometry> {
    if f.width.Some? && f.height.Some? && f.duration.Some? then
      Some(Geometry(f.width.value, f.height.value, f.duration.value))
    else if f.path.None? || f.path.value == "" then None
    else f.probe
  }

  predicate Counts(f: File) {
    Measured(f).Some? && Measured(f).value.duration > 0
  }

  function Seconds(f: File): nat {
    if Counts(f) then Measured(f).value.duration else 0
  }

  function QualityOf(f: File): StreamQuality {
    if Counts(f) then DimensionsToStreamQuality(Measured(f).value.width, Measured(f).value.height) else P720
  }

  /** What a file contributes: the stored measures if all three are there, else the probe's, if the file has a
      path; a positive duration counts in full, with a quality by the longer side. */
  lemma FileContributes(f: File)
    ensures var stored := f.width.Some? && f.height.Some? && f.duration.Some?;
            var probed := !stored && f.path.Some? && f.path.value != "" && f.probe.Some?;
            var seconds := if stored then f.duration.value else if probed then f.probe.value.duration else 0;
            var width := if stored then f.width.value else if probed then f.probe.value.width else 0;
            var height := if stored then f.height.value else if probed then f.probe.value.height else 0;
            && Seconds(f) == (if seconds > 0 then seconds else 0)
            && (QualityOf(f) == P4K <==> seconds > 0 && (width >= 2160 || height >= 2160))
            && (QualityOf(f) == P1080 <==> seconds > 0 && (width >= 1080 || height >= 1080) && width < 2160 && height < 2160)
  {
  }

  // What the aggregate is: a sum and a maximum over a set -------------------------------------------

  ghost function TotalSeconds(files: set<File>): nat {
    if files == {} then 0
    else
      var f :| f in files;
      Seconds(f) + TotalSeconds(files - {f})
  }

  lemma {:induction false} TotalSecondsTake(files: set<File>, f: File)
    requires f in files
    ensures TotalSeconds(files) == Seconds(f) + TotalSeconds(files - {f})
    decreases |files|
  {
    var g :| g in files && TotalSeconds(files) == Seconds(g) + TotalSeconds(files - {g});
    if g == f {
    } else {
      TotalSecondsTake(files - {g}, f);
      TotalSecondsTake(files - {f}, g);
      assert files - {g} - {f} == files - {f} - {g};
    }
  }

  /** The highest tier among the files, the lowest tier when there is none. */
  ghost predicate IsBestQuality(files: set<File>, q: StreamQuality) {
    && (forall f :: f in files ==> QualityRank(QualityOf(f)) <= QualityRank(q))
    && (q == P720 || exists f :: f in files && QualityOf(f) == q)
  }

  lemma BestQualityUnique(files: set<File>, q: StreamQuality, r: StreamQuality)
    requires IsBestQuality(files, q) && IsBestQuality(files, r)
    ensures q == r
  {
    assert QualityRank(q) <= QualityRank(r) && QualityRank(r) <= QualityRank(q);
  }

  /** The aggregate of a set of files: nothing when no file has a positive duration. */
  ghost predicate Aggregates(files: set<File>, r: Option<Inputs>) {
    match r
    case None => TotalSeconds(files) == 0
    case Some(i) => i.totalDurationSeconds == TotalSeconds(files) > 0 && IsBestQuality(files, i.sourceStreamQuality)
  }

  /** The set decides the aggregate. */
  lemma AggregateUnique(files: set<File>, r: Option<Inputs>, r': Option<Inputs>)
    requires Aggregates(files, r) && Aggregates(files, r')
    ensures r == r'
  {
    if r.Some? && r'.Some? {
      BestQualityUnique(files, r.value.sourceStreamQuality, r'.value.sourceStreamQuality);
    }
  }

  lemma {:induction false} TotalSecondsMonotone(files: set<File>, more: set<File>)
    requires files <= more
    ensures TotalSeconds(files) <= TotalSeconds(more)
    decreases |files|
  {
    if files == {} {
    } else {
      var f :| f in files;
      TotalSecondsTake(files, f);
      TotalSecondsTake(more, f);
      TotalSecondsMonotone(files - {f}, more - {f});
    }
  }

  // The loop --------------------------------------------------------------------------------------

  /** Which file rows a post's media URLs name: by URL, by path, or by file name among the author's
      own files. `nameOf` is the last path segment of a URL. */
  predicate Named(f: File, urls: set<string>, nameOf: string -> Option<string>, owner: Option<string>) {
    || f.url in urls
    || (f.path.Some? && f.path.value in urls)
    || (owner.Some? && owner.value != "" && f.ownerId == owner.value
        && f.filename != "" && exists u :: u in urls && nameOf(u) == Some(f.filename))
  }

  function Matching(table: set<File>, urls: set<string>, nameOf: string -> Option<string>, owner: Option<string>): set<File> {
    set f | f in table && Named(f, urls - {""}, nameOf, owner) && f.isVideo && !f.deleted
  }

  /** Which files the URLs of a post match. */
  lemma MatchingMeans(table: set<File>, urls: set<string>, nameOf: string -> Option<string>, owner: Option<string>, f: File)
    ensures f in Matching(table, urls, nameOf, owner) <==>
            && f in table && f.isVideo && !f.deleted
            && (|| (f.url != "" && f.url in urls)
                || (f.path.Some? && f.path.value != "" && f.path.value in urls)
                || (&& owner.Some? && owner.value != "" && f.ownerId == owner.value && f.filename != ""
                    && exists u :: u in urls && u != "" && nameOf(u) == Some(f.filename)))
  {
  }

  function Elements<T>(s: seq<T>): set<T> {
    set x | x in s
  }

  lemma ElementsAppend<T>(s: seq<T>, x: T)
    ensures Elements(s + [x]) == Elements(s) + {x}
  {
    assert forall y :: y in s + [x] <==> y in s || y == x;
  }

  /** The rows come back in an order of the database's choosing, each once. */
  method FindMany(matching: set<File>) returns (rows: seq<File>)
    ensures Elements(rows) == matching && Distinct(rows)
  {
    rows := [];
    var rest := matching;
    while rest != {}
      invariant Elements(rows) == matching - rest && rest <= matching
      invariant Distinct(rows)
      decreases |rest|
    {
      var f :| f in rest;
      assert forall i :: 0 <= i < |rows| ==> rows[i] in Elements(rows);
      ElementsAppend(rows, f);
      rows := rows + [f];
      rest := rest - {f};
    }
  }

  lemma TotalSecondsAdd(files: set<File>, f: File)
    requires f !in files
    ensures TotalSeconds(files + {f}) == TotalSeconds(files) + Seconds(f)
  {
    TotalSecondsTake(files + {f}, f);
    assert files + {f} - {f} == files;
  }

  lemma BestQualityAdd(files: set<File>, q: StreamQuality, f: File)
    requires IsBestQuality(files, q)
    ensures IsBestQuality(files + {f}, MaxStreamQuality(q, QualityOf(f)))
  {
    var m := MaxStreamQuality(q, QualityOf(f));
    if m == q && q != P720 {
      var g :| g in files && QualityOf(g) == q;
      assert g in files + {f};
    } else {
      assert f in files + {f};
    }
  }

  /** Probing the file when one of the stored columns is missing. */
  method Measure(f: File) returns (g: Option<Geometry>)
    ensures g == Measured(f)
  {
    var w, h, d := f.width, f.height, f.duration;
    if w.None? || h.None? || d.None? {
      if f.path.None? || f.path.value == "" {
        return None;
      }
      if f.probe.Some? {
        w, h, d := Some(f.probe.value.width), Some(f.probe.value.height), Some(f.probe.value.duration);
      }
    }
    return if w.Some? && h.Some? && d.Some? then Some(Geometry(w.value, h.value, d.value)) else None;
  }

  /** The result is the aggregate of the set of matched files: neither the order or repetition of the
      URLs nor the order of the rows can change it. */
  method AggregateVideoMonetizationInputs(urls: seq<string>, nameOf: string -> Option<string>, owner: Option<string>,
                                          table: set<File>)
    returns (r: Option<Inputs>)
    ensures Aggregates(Matching(table, Elements(urls), nameOf, owner), r)
  {
    if Elements(urls) - {""} == {} {
      assert Matching(table, Elements(urls), nameOf, owner) == {};
      return None;
    }
    var files := FindMany(Matching(table, Elements(urls), nameOf, owner));
    var totalDuration, quality := 0, P720;
    for n := 0 to |files|
      invariant totalDuration == TotalSeconds(Elements(files[..n]))
      invariant IsBestQuality(Elements(files[..n]), quality)
    {
      var f := files[n];
      assert files[..n + 1] == files[..n] + [f];
      ElementsAppend(files[..n], f);
      TotalSecondsAdd(Elements(files[..n]), f);
      BestQualityAdd(Elements(files[..n]), quality, f);
      var g := Measure(f);
      if g.Some? && g.value.duration > 0 {
        totalDuration := totalDuration + g.value.duration;
        quality := MaxStreamQuality(quality, DimensionsToStreamQuality(g.value.width, g.value.height));
      }
    }
    assert files[..|files|] == files;
    return if totalDuration <= 0 then None else Some(Inputs(totalDuration, quality));
  }

  // The stored price ------------------------------------------------------------------------------

  /** The pricing columns of a post. */
  datatype Post = Post(
    monetized: bool, category: Option<VideoCategory>, tier: ProductionTier, baseRate: Option<int>,
    price: Option<int>, quality: Option<StreamQuality>, duration: Option<int>)

  function Cleared(p: Post): Post {
    p.(price := None, quality := None, duration := None)
  }

  /** `syncMonetizationPricingToDb`: `agg` is the aggregate of the post's media, `hasMedia` whether it
      has any URL. An error of the price computation leaves the row as it was. */
  function SyncPricing(p: Post, autoPricing: bool, hasMedia: bool, agg: Option<Inputs>, defaultRate: int): Result<Post, PricingError> {
    if !p.monetized || p.category.None? then Success(Cleared(p))
    else if !autoPricing then Success(p)
    else if !hasMedia || agg.None? then Success(Cleared(p))
    else
      var i := agg.value;
      var cost :- ComputeCostMinor(Pricing(Some(i.totalDurationSeconds), p.category, p.tier, p.baseRate),
                                   i.sourceStreamQuality, defaultRate);
      Success(p.(price := Some(cost), quality := Some(i.sourceStreamQuality), duration := Some(i.totalDurationSeconds)))
  }

  /** What the price sync does to a row: without monetization or category, without media to measure, the
      three columns are cleared; with pricing switched off they stay; otherwise they take the cost, the
      quality and the duration, or the row stays as it was if there is no cost. */
  lemma SyncPricingMeans(p: Post, autoPricing: bool, hasMedia: bool, agg: Option<Inputs>, defaultRate: int)
    ensures var r := SyncPricing(p, autoPricing, hasMedia, agg, defaultRate);
            var cleared := p.(price := None, quality := None, duration := None);
            && (!p.monetized || p.category.None? ==> r == Success(cleared))
            && (p.monetized && p.category.Some? && !autoPricing ==> r == Success(p))
            && (p.monetized && p.category.Some? && autoPricing && (!hasMedia || agg.None?) ==> r == Success(cleared))
            && (p.monetized && p.category.Some? && autoPricing && hasMedia && agg.Some? ==>
                  var i := agg.value;
                  match ComputeCostMinor(Pricing(Some(i.totalDurationSeconds), p.category, p.tier, p.baseRate),
                                         i.sourceStreamQuality, defaultRate)
                  case Failure(e) => r == Failure(e)
                  case Success(cost) =>
                    r == Success(p.(price := Some(cost), quality := Some(i.sourceStreamQuality), duration := Some(i.totalDurationSeconds))))
  {
  }

  /** `quote`: the price recomputed from the stored columns. */
  function RecomputedCost(p: Post, defaultRate: int): Result<int, PricingError> {
    if p.quality.None? then Failure(NoDuration)
    else ComputeCostMinor(Pricing(p.duration, p.category, p.tier, p.baseRate), p.quality.value, defaultRate)
  }

  /** Adding videos to a post never removes its aggregate and never lowers duration or quality. */
  lemma AggregateMonotone(files: set<File>, more: set<File>, r: Option<Inputs>, r': Option<Inputs>)
    requires files <= more && Aggregates(files, r) && Aggregates(more, r') && r.Some?
    ensures r'.Some? && r.value.totalDurationSeconds <= r'.value.totalDurationSeconds
    ensures QualityRank(r.value.sourceStreamQuality) <= QualityRank(r'.value.sourceStreamQuality)
  {
    TotalSecondsMonotone(files, more);
    var q := r.value.sourceStreamQuality;
    if q != P720 {
      var f :| f in files && QualityOf(f) == q;
      assert f in more;
    }
  }

  /** A priced post does not get cheaper by adding videos. */
  lemma MoreVideosNeverCheaper(p: Post, files: set<File>, more: set<File>, r: Option<Inputs>, r': Option<Inputs>, defaultRate: int)
    requires files <= more && Aggregates(files, r) && Aggregates(more, r')
    requires p.monetized && SyncPricing(p, true, true, r, defaultRate).Success?
    requires SyncPricing(p, true, true, r, defaultRate).value.price.Some?
    ensures var before := SyncPricing(p, true, true, r, defaultRate);
            var after := SyncPricing(p, true, true, r', defaultRate);
            after.Success? && after.value.price.Some? && before.value.price.value <= after.value.price.value
  {
    AggregateMonotone(files, more, r, r');
    CostMonotone(Pricing(Some(r.value.totalDurationSeconds), p.category, p.tier, p.baseRate),
                 Pricing(Some(r'.value.totalDurationSeconds), p.category, p.tier, p.baseRate),
                 r.value.sourceStreamQuality, r'.value.sourceStreamQuality, defaultRate);
  }

  /** More URLs match more files. */
  lemma MatchingMonotone(table: set<File>, urls: set<string>, more: set<string>, nameOf: string -> Option<string>, owner: Option<string>)
    requires urls <= more
    ensures Matching(table, urls, nameOf, owner) <= Matching(table, more, nameOf, owner)
  {
    forall f | f in Matching(table, urls, nameOf, owner) ensures Named(f, more - {""}, nameOf, owner) {
      assert Named(f, urls - {""}, nameOf, owner);
    }
  }

  /** Adding media URLs to a post: what the price sync stores for the longer list is a price, if it stored
      one for the shorter, and it is no lower. */
  lemma AddingMediaNeverCheaper(p: Post, urls: seq<string>, more: seq<string>, nameOf: string -> Option<string>, authorId: string,
                                files: set<File>, agg: Option<Inputs>, agg': Option<Inputs>, defaultRate: int)
    requires MeasuredAs(urls, nameOf, authorId, files, agg) && MeasuredAs(urls + more, nameOf, authorId, files, agg')
    requires p.monetized && SyncPricing(p, true, urls != [], agg, defaultRate).Success?
    requires SyncPricing(p, true, urls != [], agg, defaultRate).value.price.Some?
    ensures var before := SyncPricing(p, true, urls != [], agg, defaultRate);
            var after := SyncPricing(p, true, urls + more != [], agg', defaultRate);
            after.Success? && after.value.price.Some? && before.value.price.value <= after.value.price.value
  {
    assert Elements(urls) <= Elements(urls + more);
    MatchingMonotone(files, Elements(urls), Elements(urls + more), nameOf, Some(authorId));
    MoreVideosNeverCheaper(p, Matching(files, Elements(urls), nameOf, Some(authorId)),
                           Matching(files, Elements(urls + more), nameOf, Some(authorId)), agg, agg', defaultRate);
  }

  /** A freshly priced post quotes what it charges: the stored columns reproduce the stored price as
      long as rate, category and tier have not changed since. */
  lemma QuoteReproducesPrice(p: Post, autoPricing: bool, hasMedia: bool, agg: Option<Inputs>, defaultRate: int)
    requires SyncPricing(p, autoPricing, hasMedia, agg, defaultRate).Success?
    ensures var p' := SyncPricing(p, autoPricing, hasMedia, agg, defaultRate).value;
            && (autoPricing ==> (p'.price.Some? <==> p.monetized && p.category.Some? && hasMedia && agg.Some?))
            && (autoPricing && p'.price.Some? ==>
                  p'.price.value > 0 && RecomputedCost(p', defaultRate) == Success(p'.price.value))
  {
  }

  // In place --------------------------------------------------------------------------------------

  /** The post's aggregate: nothing without URLs, else that of the files they match. */
  ghost predicate MeasuredAs(urls: seq<string>, nameOf: string -> Option<string>, authorId: string, files: set<File>,
                             agg: Option<Inputs>) {
    if urls == [] then agg.None? else Aggregates(Matching(files, Elements(urls), nameOf, Some(authorId)), agg)
  }

  class PostTable {
    var posts: map<string, Post>

    constructor (initial: map<string, Post>)
      ensures posts == initial
    {
      posts := initial;
    }

    /** Only the post's pricing columns change, and they become what its media files say; a price that
        cannot be computed leaves the row alone. `urls` are the media URLs collected from the post.
        Aggregating only reads, so it can come before the checks. */
    method SyncMonetizationPricing(id: string, urls: seq<string>, nameOf: string -> Option<string>, authorId: string,
                                   files: set<File>, autoPricing: bool, defaultRate: int)
      returns (r: Result<(), PricingError>)
      modifies this
      ensures id !in old(posts) ==> posts == old(posts) && r.Success?
      ensures id in old(posts) ==>
                exists agg: Option<Inputs> :: MeasuredAs(urls, nameOf, authorId, files, agg) &&
                  match SyncPricing(old(posts)[id], autoPricing, urls != [], agg, defaultRate)
                  case Success(p) => r.Success? && posts == old(posts)[id := p]
                  case Failure(e) => r == Failure(e) && posts == old(posts)
    {
      if id !in posts {
        return Success(());
      }
      var p := posts[id];
      var agg: Option<Inputs> := None;
      if urls != [] {
        agg := AggregateVideoMonetizationInputs(urls, nameOf, Some(authorId), files);
      }
      assert MeasuredAs(urls, nameOf, authorId, files, agg);
      if !p.monetized || p.category.None? {
        posts := posts[id := Cleared(p)];
        return Success(());
      }
      if !autoPricing {
        assert posts == posts[id := p];
        return Success(());
      }
      if agg.None? {
        posts := posts[id := Cleared(p)];
        return Success(());
      }
      var pricing := Pricing(Some(agg.value.totalDurationSeconds), p.category, p.tier, p.baseRate);
      var cost := ComputeCostMinor(pricing, agg.value.sourceStreamQuality, defaultRate);
      if cost.Failure? {
        return Failure(cost.error);
      }
      posts := posts[id := p.(price := Some(cost.value), quality := Some(agg.value.sourceStreamQuality),
                              duration := Some(agg.value.totalDurationSeconds))];
      return Success(());
    }
  }
}
