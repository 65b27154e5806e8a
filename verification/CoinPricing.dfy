/** Prices, revenue shares and cash conversion: all integer arithmetic with rounding. */
module CoinPricing {
  import opened Common

  datatype StreamQuality = P720 | P1080 | P4K

  datatype VideoCategory = ENTERTAINMENT | EDUCATIONAL_DIY | LIVE_EVENT

  datatype ProductionTier = STANDARD | PRO

  /** Multipliers are numerators over ten. */
  function QualityNum(q: StreamQuality): nat {
    match q
    case P720 => 10
    case P1080 => 12
    case P4K => 16
  }

  function CategoryNum(c: VideoCategory): nat {
    match c
    case ENTERTAINMENT => 10
    case EDUCATIONAL_DIY => 15
    case LIVE_EVENT => 20
  }

  function ProductionNum(p: ProductionTier): nat {
    match p
    case STANDARD => 10
    case PRO => 13
  }

  function QualityRank(q: StreamQuality): nat {
    match q
    case P720 => 1
    case P1080 => 2
    case P4K => 3
  }

  const DENOMINATOR := 60 * 10 * 10 * 10

  /** `Math.round(n / d)`: the nearest integer, a tie going up. */
  function RoundedQuotient(n: int, d: int): int
    requires d > 0
  {
    (2 * n + d) / (2 * d)
  }

  datatype PricingError = NoDuration | NoCategory | NotPositive

  datatype Pricing = Pricing(
    durationSeconds: Option<int>,
    category: Option<VideoCategory>,
    tier: ProductionTier,
    baseRate: Option<int>)

  /** The exact cost times `DENOMINATOR`. */
  function CostNumerator(rate: int, duration: int, q: StreamQuality, c: VideoCategory, t: ProductionTier): int {
    rate * duration * QualityNum(q) * CategoryNum(c) * ProductionNum(t)
  }

  function EffectiveRate(p: Pricing, defaultRate: int): int {
    if p.baseRate.Some? then p.baseRate.value else defaultRate
  }

  function ComputeCostMinor(p: Pricing, q: StreamQuality, defaultRate: int): Result<int, PricingError> {
    if p.durationSeconds.None? || p.durationSeconds.value <= 0 then Failure(NoDuration)
    else if p.category.None? then Failure(NoCategory)
    else
      var n := CostNumerator(EffectiveRate(p, defaultRate), p.durationSeconds.value, q, p.category.value, p.tier);
      var cost := RoundedQuotient(n, DENOMINATOR);
      if cost <= 0 then Failure(NotPositive) else Success(cost)
  }

  /** 70% of the total, rounded down, goes to the creator. */
  function CreatorShare(totalMinor: int): int {
    totalMinor * 70 / 100
  }

  function PlatformShare(totalMinor: int): int {
    totalMinor - CreatorShare(totalMinor)
  }

  // Rounding --------------------------------------------------------------------------------------

  /** The rounded quotient is the one integer within half a unit of the exact value, the upper one
      on a tie. */
  lemma RoundedIsNearest(n: int, d: int, k: int)
    requires d > 0
    ensures RoundedQuotient(n, d) == k <==> 2 * n - d < 2 * d * k <= 2 * n + d
  {
    var q := RoundedQuotient(n, d);
    DivisionBounds(2 * n + d, 2 * d);
    if 2 * n - d < 2 * d * k <= 2 * n + d {
      BetweenMultiples(2 * d, q, k);
      BetweenMultiples(2 * d, k, q);
    }
  }

  lemma DivisionBounds(a: int, b: int)
    requires b > 0
    ensures b * (a / b) <= a < b * (a / b) + b
  {
  }

  lemma LaterMultiple(b: int, x: int, y: int)
    requires b > 0 && x > y
    ensures b * x >= b * y + b
  {
    var k := x - y - 1;
    ProductMonotone(0, b, 0, k);
    assert b * x == b * y + b + b * k by {
      assert b * (y + 1 + k) == b * y + b * 1 + b * k;
    }
  }

  /** Two multiples of b less than b apart are in order. */
  lemma BetweenMultiples(b: int, x: int, y: int)
    requires b > 0 && b * x < b * y + b
    ensures x <= y
  {
    if x > y {
      LaterMultiple(b, x, y);
    }
  }

  lemma RoundedMonotone(n: int, m: int, d: int)
    requires d > 0 && n <= m
    ensures RoundedQuotient(n, d) <= RoundedQuotient(m, d)
  {
    DivisionBounds(2 * n + d, 2 * d);
    DivisionBounds(2 * m + d, 2 * d);
    BetweenMultiples(2 * d, RoundedQuotient(n, d), RoundedQuotient(m, d));
  }

  /** The multipliers, over ten. */
  lemma Multipliers(q: StreamQuality, c: VideoCategory, t: ProductionTier)
    ensures QualityNum(q) == match q case P720 => 10 case P1080 => 12 case P4K => 16
    ensures CategoryNum(c) == match c case ENTERTAINMENT => 10 case EDUCATIONAL_DIY => 15 case LIVE_EVENT => 20
    ensures ProductionNum(t) == match t case STANDARD => 10 case PRO => 13
    ensures DENOMINATOR == 60000
  {
  }

  /** A price exists exactly for a positive duration, a category, and an exact cost of at least half a
      minor unit; and then it is the nearest whole number to that cost, which is the rate per minute for
      the seconds, times 1.0, 1.2 or 1.6 for the quality, 1.0, 1.5 or 2.0 for the category, and 1.0 or 1.3
      for the production tier. */
  lemma CostIsNearest(p: Pricing, q: StreamQuality, defaultRate: int)
    ensures var r := ComputeCostMinor(p, q, defaultRate);
            var described := p.durationSeconds.Some? && p.durationSeconds.value > 0 && p.category.Some?;
            && (r.Success? ==> described)
            && (described ==>
                  var rate := if p.baseRate.Some? then p.baseRate.value else defaultRate;
                  var n := rate * p.durationSeconds.value
                           * (match q case P720 => 10 case P1080 => 12 case P4K => 16)
                           * (match p.category.value case ENTERTAINMENT => 10 case EDUCATIONAL_DIY => 15 case LIVE_EVENT => 20)
                           * (match p.tier case STANDARD => 10 case PRO => 13);
                  && (r.Success? <==> 2 * n >= 60000)
                  && (r.Success? ==> 2 * n - 60000 < 120000 * r.value <= 2 * n + 60000))
    ensures var r := ComputeCostMinor(p, q, defaultRate);
            var timed := p.durationSeconds.Some? && p.durationSeconds.value > 0;
            && (r == Failure(NoDuration) <==> !timed)
            && (r == Failure(NoCategory) <==> timed && p.category.None?)
            && (r.Failure? && timed && p.category.Some? ==> r == Failure(NotPositive))
  {
    if p.durationSeconds.Some? && p.category.Some? {
      Multipliers(q, p.category.value, p.tier);
      CostIsNearestTo(p, q, defaultRate);
    }
  }

  lemma CostIsNearestTo(p: Pricing, q: StreamQuality, defaultRate: int)
    requires p.durationSeconds.Some? && p.category.Some?
    ensures var r := ComputeCostMinor(p, q, defaultRate);
            var n := CostNumerator(EffectiveRate(p, defaultRate), p.durationSeconds.value, q, p.category.value, p.tier);
            && (r.Success? <==> p.durationSeconds.value > 0 && 2 * n >= DENOMINATOR)
            && (r.Success? ==> 2 * n - DENOMINATOR < 2 * DENOMINATOR * r.value <= 2 * n + DENOMINATOR)
  {
    var n := CostNumerator(EffectiveRate(p, defaultRate), p.durationSeconds.value, q, p.category.value, p.tier);
    RoundedIsNearest(n, DENOMINATOR, RoundedQuotient(n, DENOMINATOR));
  }

  /** The creator's part is 70% rounded down, and the two parts make up the whole. */
  lemma SharesAreSeventyThirty(totalMinor: int)
    ensures 100 * CreatorShare(totalMinor) <= 70 * totalMinor < 100 * CreatorShare(totalMinor) + 100
    ensures CreatorShare(totalMinor) + PlatformShare(totalMinor) == totalMinor
  {
    DivisionBounds(totalMinor * 70, 100);
  }

  lemma ProductMonotone(a: int, b: int, x: int, y: int)
    requires 0 <= a <= b && 0 <= x <= y
    ensures 0 <= a * x <= b * y
  {
    assert b * y - a * x == (b - a) * y + a * (y - x);
  }

  lemma NumeratorMonotone(rate: int, rate': int, d: int, d': int, q: StreamQuality, q': StreamQuality,
                          c: VideoCategory, t: ProductionTier)
    requires 0 <= rate <= rate' && 0 <= d <= d' && QualityRank(q) <= QualityRank(q')
    ensures CostNumerator(rate, d, q, c, t) <= CostNumerator(rate', d', q', c, t)
  {
    ProductMonotone(rate, rate', d, d');
    ProductMonotone(rate * d, rate' * d', QualityNum(q), QualityNum(q'));
    ProductMonotone(rate * d * QualityNum(q), rate' * d' * QualityNum(q'), CategoryNum(c), CategoryNum(c));
    ProductMonotone(rate * d * QualityNum(q) * CategoryNum(c), rate' * d' * QualityNum(q') * CategoryNum(c),
                    ProductionNum(t), ProductionNum(t));
  }

  /** A priced post stays priced, and never gets cheaper, when its duration, quality or rate goes up. */
  lemma CostMonotone(p: Pricing, p': Pricing, q: StreamQuality, q': StreamQuality, defaultRate: int)
    requires ComputeCostMinor(p, q, defaultRate).Success?
    requires p'.durationSeconds.Some? && p.durationSeconds.value <= p'.durationSeconds.value
    requires p'.category == p.category && p'.tier == p.tier
    requires EffectiveRate(p, defaultRate) <= EffectiveRate(p', defaultRate)
    requires QualityRank(q) <= QualityRank(q')
    ensures ComputeCostMinor(p', q', defaultRate).Success?
    ensures ComputeCostMinor(p, q, defaultRate).value <= ComputeCostMinor(p', q', defaultRate).value
  {
    var rate, rate' := EffectiveRate(p, defaultRate), EffectiveRate(p', defaultRate);
    var d, d', c, t := p.durationSeconds.value, p'.durationSeconds.value, p.category.value, p.tier;
    if rate <= 0 {
      NoPriceWithoutRate(rate, d, q, c, t);
    }
    NumeratorMonotone(rate, rate', d, d', q, q', c, t);
    RoundedMonotone(CostNumerator(rate, d, q, c, t), CostNumerator(rate', d', q', c, t), DENOMINATOR);
  }

  lemma NoPriceWithoutRate(rate: int, d: int, q: StreamQuality, c: VideoCategory, t: ProductionTier)
    requires d > 0 && rate <= 0
    ensures RoundedQuotient(CostNumerator(rate, d, q, c, t), DENOMINATOR) <= 0
  {
    var k := QualityNum(q) * CategoryNum(c) * ProductionNum(t);
    ProductMonotone(0, -rate, 0, d);
    assert CostNumerator(rate, d, q, c, t) == (rate * d) * k;
    ProductMonotone(0, -(rate * d), 0, k);
    RoundedMonotone(CostNumerator(rate, d, q, c, t), 0, DENOMINATOR);
  }

  // Payout conversion -----------------------------------------------------------------------------

  function Sum(parts: seq<nat>): nat {
    if parts == [] then 0 else Sum(parts[..|parts| - 1]) + parts[|parts| - 1]
  }

  /** COIN_PAYOUT_USD_CENTS_NUMERATOR / DENOMINATOR */
  datatype Rate = Rate(num: nat, den: nat)

  type ValidRate = r: Rate | r.num > 0 && r.den > 0 witness Rate(100, 10000)

  function UsdCents(rate: ValidRate, coinsMinor: nat): nat {
    coinsMinor * rate.num / rate.den
  }

  function SumCents(rate: ValidRate, parts: seq<nat>): nat {
    if parts == [] then 0 else SumCents(rate, parts[..|parts| - 1]) + UsdCents(rate, parts[|parts| - 1])
  }

  /** The cash value is the exact conversion, rounded down. */
  lemma CentsAreTheFloor(rate: ValidRate, coinsMinor: nat)
    ensures UsdCents(rate, coinsMinor) * rate.den <= coinsMinor * rate.num < UsdCents(rate, coinsMinor) * rate.den + rate.den
  {
    DivisionBounds(coinsMinor * rate.num, rate.den);
  }

  lemma CentsOfTwo(rate: ValidRate, a: nat, b: nat)
    ensures UsdCents(rate, a) + UsdCents(rate, b) <= UsdCents(rate, a + b) <= UsdCents(rate, a) + UsdCents(rate, b) + 1
  {
    var num, den := rate.num, rate.den;
    var x, y, z := UsdCents(rate, a), UsdCents(rate, b), UsdCents(rate, a + b);
    DivisionBounds(a * num, den);
    DivisionBounds(b * num, den);
    DivisionBounds((a + b) * num, den);
    assert (a + b) * num == a * num + b * num;
    assert den * (x + y) == den * x + den * y;
    BetweenMultiples(den, x + y, z);
    assert den * (x + y + 1) == den * x + den * y + den;
    BetweenMultiples(den, z, x + y + 1);
  }

  /** Cashing out in parts never pays more than cashing out at once, and loses less than one cent per
      part. */
  lemma {:induction false} SplittingNeverGains(rate: ValidRate, parts: seq<nat>)
    ensures SumCents(rate, parts) <= UsdCents(rate, Sum(parts)) <= SumCents(rate, parts) + |parts|
    ensures parts != [] ==> UsdCents(rate, Sum(parts)) < SumCents(rate, parts) + |parts|
  {
    if parts == [] {
    } else {
      var rest := parts[..|parts| - 1];
      SplittingNeverGains(rate, rest);
      CentsOfTwo(rate, Sum(rest), parts[|parts| - 1]);
    }
  }
}
