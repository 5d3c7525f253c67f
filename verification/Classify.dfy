/** The `cmp-rules` decision table (crates/logscope-case/src/comparison.rs), with the
    widths and wrap-around of the integers it computes in. */
module Classify {
  import opened Rows

  const TWO_63 := 0x8000_0000_0000_0000
  const TWO_64 := 0x1_0000_0000_0000_0000
  const TWO_127 := TWO_63 * TWO_64
  const TWO_128 := TWO_64 * TWO_64

  type U64 = x: int | 0 <= x < TWO_64
  type I64 = x: int | -TWO_63 <= x < TWO_63

  function WrapI64(x: int): I64 { (x + TWO_63) % TWO_64 - TWO_63 }
  function WrapU128(x: int): int { x % TWO_128 }
  function WrapI128(x: int): int { (x + TWO_127) % TWO_128 - TWO_127 }
  predicate FitsI128(x: int) { -TWO_127 <= x < TWO_127 }

  function Abs(x: int): nat { if x < 0 then -x else x }

  /** Integer division truncating toward zero, as `/` does on signed integers. */
  function TruncDiv(a: int, b: int): int
    requires b > 0
  {
    if a >= 0 then a / b else -((-a) / b)
  }

  datatype Thresholds = Thresholds(minCount: U64, minNewCount: U64, minGoneCount: U64, relThresholdBp: U64, absThreshold: U64)

  datatype Classification = New | Disappeared | Increased | Decreased | Unchanged | InsufficientData

  /** `rateChangeBp` is `None` for the string state "undefined". */
  datatype Classified = Classified(classification: Classification, countChange: int, rateChangeBp: Option<int>)

  datatype Answer = Ok(value: Classified) | ZeroDuration

  /** The table itself, given the quantities it decides on. */
  function Decide(b: U64, s: U64, diff: int, relHit: bool, countChange: int, t: Thresholds): Classification {
    if b == 0 && s == 0 then InsufficientData
    else if b == 0 then (if s >= t.minNewCount then New else InsufficientData)
    else if s == 0 then (if b >= t.minGoneCount then Disappeared else InsufficientData)
    else if (if b > s then b else s) < t.minCount then InsufficientData
    else if relHit || Abs(countChange) >= t.absThreshold then
      (if diff > 0 then Increased else if diff < 0 then Decreased else Unchanged)
    else Unchanged
  }

  /** `classify`, with every operation at its machine width. */
  function Classify(b: U64, s: U64, durB: I64, durS: I64, t: Thresholds): Answer {
    if durB <= 0 || durS <= 0 then ZeroDuration
    else
      var lhs, rhs := WrapU128(s * durB), WrapU128(b * durS);
      var diff := WrapI128(WrapI128(lhs) - WrapI128(rhs));
      var rate := if b == 0 || WrapI128(rhs) <= 0 then None else Some(TruncDiv(WrapI128(diff * 10_000), WrapI128(rhs)));
      var countChange := WrapI64(WrapI64(s) - WrapI64(b));
      var relHit := WrapU128(Abs(diff) * 10_000) >= WrapU128(rhs * t.relThresholdBp);
      Ok(Classified(Decide(b, s, diff, relHit, countChange, t), countChange, rate))
  }

  /** The same table over unbounded integers: what the rules mean. */
  function Meant(b: U64, s: U64, durB: I64, durS: I64, t: Thresholds): Classified
    requires durB > 0 && durS > 0
  {
    var lhs, rhs := s * durB, b * durS;
    var rate := if b == 0 || rhs <= 0 then None else Some(RateBp(lhs, rhs));
    Classified(Decide(b, s, lhs - rhs, RelHit(lhs, rhs, t), s - b, t), s - b, rate)
  }

  /** Relative change in basis points, truncated toward zero. */
  function RateBp(lhs: int, rhs: int): int
    requires rhs > 0
  {
    TruncDiv((lhs - rhs) * 10_000, rhs)
  }

  predicate RelHit(lhs: int, rhs: int, t: Thresholds) {
    Abs(lhs - rhs) * 10_000 >= rhs * t.relThresholdBp
  }

  /** Only a duration that is not positive is refused. */
  lemma AnswersIff(b: U64, s: U64, durB: I64, durS: I64, t: Thresholds)
    ensures Classify(b, s, durB, durS, t).Ok? <==> durB > 0 && durS > 0
  {
    hide WrapI64, WrapI128, WrapU128, Decide, TruncDiv;
  }

  // ---- widths ------------------------------------------------------------------------

  lemma ProductBound(x: U64, d: I64)
    requires d > 0
    ensures 0 <= x * d < TWO_127
    ensures x > 0 ==> x * d > 0
  {
    TimesMonotone(x, TWO_64 - 1, d);
    TimesMonotone(d, TWO_63 - 1, TWO_64 - 1);
    if x > 0 { TimesMonotone(1, x, d); }
  }

  lemma TimesMonotone(a: int, b: int, c: int)
    requires a <= b && 0 <= c
    ensures a * c <= b * c && c * a <= c * b
    ensures 0 <= a ==> 0 <= a * c
  {
  }

  lemma WrapFits(x: int)
    ensures FitsI128(x) ==> WrapI128(x) == x
    ensures 0 <= x < TWO_128 ==> WrapU128(x) == x
    ensures -TWO_63 <= x < TWO_63 ==> WrapI64(x) == x
    ensures !FitsI128(x) ==> WrapI128(x) != x
    ensures exists k: int :: WrapI128(x) == x - k * TWO_128
  {
    var k := (x + TWO_127) / TWO_128;
    assert WrapI128(x) == x - k * TWO_128;
  }

  lemma RestMeans(x: int, d: int)
    requires d > 0
    ensures 0 <= x % d < d && (x - x % d) % d == 0
  {
    assert x - x % d == x / d * d;
    MultipleIsWhole(x / d, d);
  }

  lemma MultipleIsWhole(q: int, d: int)
    requires d > 0
    ensures (q * d) % d == 0
  {
    EuclidBound(q * d, d);
    QuotientUnique(q * d, d, q);
    assert (q * d) % d == q * d - (q * d) / d * d;
  }

  /** Wrapping keeps the value modulo the width, in the range of the type. */
  lemma WrapsMean(x: int)
    ensures 0 <= WrapU128(x) < TWO_128 && (x - WrapU128(x)) % TWO_128 == 0
    ensures -TWO_127 <= WrapI128(x) < TWO_127 && (x - WrapI128(x)) % TWO_128 == 0
    ensures -TWO_63 <= WrapI64(x) < TWO_63 && (x - WrapI64(x)) % TWO_64 == 0
  {
    RestMeans(x, TWO_128);
    RestMeans(x + TWO_127, TWO_128);
    RestMeans(x + TWO_63, TWO_64);
    assert x - WrapI128(x) == x + TWO_127 - (x + TWO_127) % TWO_128;
    assert x - WrapI64(x) == x + TWO_63 - (x + TWO_63) % TWO_64;
  }

  /** The cross products and their difference always fit; only scaling can overflow. */
  lemma CrossProductsFit(b: U64, s: U64, durB: I64, durS: I64)
    requires durB > 0 && durS > 0
    ensures var lhs, rhs := s * durB, b * durS;
      && WrapU128(lhs) == lhs == WrapI128(lhs)
      && WrapU128(rhs) == rhs == WrapI128(rhs)
      && WrapI128(lhs - rhs) == lhs - rhs
      && (b > 0 ==> rhs > 0)
  {
    ProductBound(s, durB);
    ProductBound(b, durS);
    WrapFits(s * durB);
    WrapFits(b * durS);
    WrapFits(s * durB - b * durS);
  }

  /** Counts whose difference an `i64` can hold keep it, whatever the casts did to each. */
  lemma CountChangeIsExact(b: U64, s: U64)
    ensures WrapI64(WrapI64(s) - WrapI64(b)) == s - b <==> -TWO_63 <= s - b < TWO_63
  {
  }

  /** The two scaled test values fit when the products do. */
  lemma ScaledFit(lhs: int, rhs: int, scale: int, t: Thresholds)
    requires 0 <= lhs && 0 <= rhs && scale >= 10_000 && scale >= t.relThresholdBp
    requires lhs * scale < TWO_127 && rhs * scale < TWO_127
    ensures WrapI128((lhs - rhs) * 10_000) == (lhs - rhs) * 10_000
    ensures WrapU128(Abs(lhs - rhs) * 10_000) == Abs(lhs - rhs) * 10_000
    ensures WrapU128(rhs * t.relThresholdBp) == rhs * t.relThresholdBp
  {
    ScaleBound(lhs, scale, 10_000);
    ScaleBound(rhs, scale, 10_000);
    ScaleBound(rhs, scale, t.relThresholdBp);
    WrapFits((lhs - rhs) * 10_000);
    WrapFits(Abs(lhs - rhs) * 10_000);
    WrapFits(rhs * t.relThresholdBp);
  }

  /** Every scaled intermediate fits when each product times the larger scale does. */
  lemma NothingWraps(b: U64, s: U64, durB: I64, durS: I64, t: Thresholds)
    requires durB > 0 && durS > 0
    requires var scale := if t.relThresholdBp > 10_000 then t.relThresholdBp else 10_000;
      s * durB * scale < TWO_127 && b * durS * scale < TWO_127
    requires -TWO_63 <= s - b < TWO_63
    ensures Classify(b, s, durB, durS, t) == Ok(Meant(b, s, durB, durS, t))
  {
    hide WrapI64, WrapI128, WrapU128, Decide, TruncDiv;
    CrossProductsFit(b, s, durB, durS);
    CountChangeIsExact(b, s);
    ProductBound(s, durB);
    ProductBound(b, durS);
    ScaledFit(s * durB, b * durS, if t.relThresholdBp > 10_000 then t.relThresholdBp else 10_000, t);
  }

  /** Neither count is zero and one of them reaches the minimum, so the two tests decide. */
  predicate Tested(b: U64, s: U64, t: Thresholds) { b > 0 && s > 0 && (b >= t.minCount || s >= t.minCount) }

  predicate Hit(lhs: int, rhs: int, b: U64, s: U64, t: Thresholds) {
    RelHit(lhs, rhs, t) || Abs(s - b) >= t.absThreshold
  }

  /** The two tests on wrapped values. */
  predicate WrappedHit(lhs: int, rhs: int, b: U64, s: U64, t: Thresholds) {
    || WrapU128(Abs(lhs - rhs) * 10_000) >= WrapU128(rhs * t.relThresholdBp)
    || Abs(WrapI64(s - b)) >= t.absThreshold
  }

  /** The verdict at machine width is the meant one exactly when no test is reached, the rates are
      equal, or the wrapped tests come out as the true ones. */
  lemma VerdictIsExactIff(b: U64, s: U64, durB: I64, durS: I64, t: Thresholds)
    requires durB > 0 && durS > 0
    ensures Classify(b, s, durB, durS, t).value.classification == Meant(b, s, durB, durS, t).classification <==>
      var lhs, rhs := s * durB, b * durS;
      !Tested(b, s, t) || lhs == rhs || (WrappedHit(lhs, rhs, b, s, t) <==> Hit(lhs, rhs, b, s, t))
  {
    CrossProductsFit(b, s, durB, durS);
    CountWraps(b, s);
    hide WrapI64, WrapI128, WrapU128, TruncDiv, RelHit;
  }

  lemma WrapShifts(x: int)
    ensures WrapI64(x + TWO_64) == WrapI64(x) == WrapI64(x - TWO_64)
  {
  }

  lemma CastDown(x: U64)
    ensures WrapI64(x) == if x < TWO_63 then x else x - TWO_64
  {
  }

  lemma CountWraps(b: U64, s: U64)
    ensures WrapI64(WrapI64(s) - WrapI64(b)) == WrapI64(s - b)
  {
    CastDown(b);
    CastDown(s);
    WrapShifts(s - b);
    hide WrapI64;
  }

  lemma ScaleBound(x: int, big: int, small: int)
    requires 0 <= x && 0 <= small <= big
    ensures 0 <= x * small <= x * big
  {
  }

  /** The reported rate change is the true one exactly when scaling by 10000 fits `i128`. */
  lemma RateIsExactIff(b: U64, s: U64, durB: I64, durS: I64, t: Thresholds)
    requires durB > 0 && durS > 0 && b > 0
    ensures Classify(b, s, durB, durS, t).value.rateChangeBp == Meant(b, s, durB, durS, t).rateChangeBp
            <==> FitsI128((s * durB - b * durS) * 10_000)
  {
    hide WrapI64, WrapI128, WrapU128, Decide, TruncDiv;
    var rhs := b * durS;
    var x := (s * durB - rhs) * 10_000;
    CrossProductsFit(b, s, durB, durS);
    ProductBound(b, durS);
    WrapFits(x);
    if !FitsI128(x) {
      var k: int :| WrapI128(x) == x - k * TWO_128;
      QuotientsDiffer(x, WrapI128(x), rhs);
    }
  }

  /** Dividends further apart than twice the divisor have different truncated quotients. */
  lemma QuotientsDiffer(x: int, y: int, d: int)
    requires d > 0 && (x - y >= 2 * d || y - x >= 2 * d)
    ensures TruncDiv(x, d) != TruncDiv(y, d)
  {
    TruncDivBound(x, d);
    TruncDivBound(y, d);
  }

  lemma TruncDivBound(a: int, d: int)
    requires d > 0
    ensures Abs(a - TruncDiv(a, d) * d) < d
  {
    EuclidBound(a, d);
    EuclidBound(-a, d);
    assert -((-a) / d) * d == -((-a) / d * d);
  }

  lemma EuclidBound(a: int, d: int)
    requires d > 0
    ensures 0 <= a - a / d * d < d
  {
    assert a == a / d * d + a % d;
  }

  /** A century-long window and ten quadrillion records are enough to report a wrong rate. */
  lemma RateCanWrap()
    ensures var t := Thresholds(5, 5, 5, 5_000, 10);
      var d := 3_155_760_000_000_000_000;
      var b, s := 1_000_000_000_000, 10_000_000_000_000_000;
      && Meant(b, s, d, d, t).rateChangeBp == Some(99_990_000)
      && Meant(b, s, d, d, t).classification == Increased
      && Classify(b, s, d, d, t).value.rateChangeBp != Some(99_990_000)
  {
    var t := Thresholds(5, 5, 5, 5_000, 10);
    RateIsExactIff(1_000_000_000_000, 10_000_000_000_000_000, 3_155_760_000_000_000_000, 3_155_760_000_000_000_000, t);
  }

  // ---- the reported change and the decision agree ------------------------------------------

  lemma FloorTest(n: int, d: int, q: int)
    requires d > 0 && n >= 0
    ensures n >= d * q <==> n / d >= q
  {
    EuclidBound(n, d);
    if n >= d * q && n / d < q { TimesMonotone(n / d + 1, q, d); }
    if n / d >= q { TimesMonotone(q, n / d, d); }
  }

  lemma RelHitReadsRate(lhs: int, rhs: int, t: Thresholds)
    requires rhs > 0
    ensures RelHit(lhs, rhs, t) <==> Abs(RateBp(lhs, rhs)) >= t.relThresholdBp
  {
    var n := (lhs - rhs) * 10_000;
    assert Abs(n) == Abs(lhs - rhs) * 10_000;
    FloorTest(Abs(n), rhs, t.relThresholdBp);
    SizeOfQuotient(n, rhs);
  }

  /** The relative test fires exactly when the size of the reported basis points reaches the threshold. */
  lemma RelativeTestReadsReport(b: U64, s: U64, durB: I64, durS: I64, t: Thresholds)
    requires durB > 0 && durS > 0 && b > 0
    ensures Meant(b, s, durB, durS, t).rateChangeBp.Some?
    ensures RelHit(s * durB, b * durS, t) <==> Abs(Meant(b, s, durB, durS, t).rateChangeBp.value) >= t.relThresholdBp
  {
    hide RateBp, RelHit, Decide;
    ProductBound(b, durS);
    RelHitReadsRate(s * durB, b * durS, t);
  }

  lemma SizeOfQuotient(n: int, d: int)
    requires d > 0
    ensures Abs(TruncDiv(n, d)) == Abs(n) / d
  {
    EuclidBound(Abs(n), d);
    if Abs(n) / d < 0 { TimesMonotone(Abs(n) / d, -1, d); }
  }

  lemma RateBpFloor(lhs: int, rhs: int)
    requires lhs >= 0 && rhs > 0
    ensures RateBp(lhs, rhs) >= -10_000 && (RateBp(lhs, rhs) == -10_000 <==> lhs == 0)
  {
    var n := (rhs - lhs) * 10_000;
    assert n == -((lhs - rhs) * 10_000);
    if lhs < rhs {
      FloorTest(n, rhs, 10_000);
      FloorTest(n, rhs, 10_001);
    } else {
      EuclidBound(-n, rhs);
      if (-n) / rhs < 0 { TimesMonotone((-n) / rhs, -1, rhs); }
    }
  }

  /** A rate never falls by more than everything, and by everything only to nothing. */
  lemma RateFloor(b: U64, s: U64, durB: I64, durS: I64, t: Thresholds)
    requires durB > 0 && durS > 0 && b > 0
    ensures var rate := Meant(b, s, durB, durS, t).rateChangeBp;
      rate.Some? && rate.value >= -10_000 && (rate.value == -10_000 <==> s == 0)
  {
    hide RateBp, RelHit, Decide;
    ProductBound(b, durS);
    ProductBound(s, durB);
    RateBpFloor(s * durB, b * durS);
  }

  lemma RelHitScales(k: int, lhs: int, rhs: int, t: Thresholds)
    requires k > 0
    ensures RelHit(k * lhs, k * rhs, t) == RelHit(lhs, rhs, t)
  {
    var diff := lhs - rhs;
    assert k * lhs - k * rhs == k * diff;
    SignScales(k, diff);
    assert Abs(k * diff) * 10_000 == k * (Abs(diff) * 10_000);
    assert k * rhs * t.relThresholdBp == k * (rhs * t.relThresholdBp);
    CompareScales(k, Abs(diff) * 10_000, rhs * t.relThresholdBp);
  }

  lemma RateBpScales(k: int, lhs: int, rhs: int)
    requires k > 0 && rhs > 0
    ensures k * rhs > 0 && RateBp(k * lhs, k * rhs) == RateBp(lhs, rhs)
  {
    var diff := lhs - rhs;
    SignScales(k, rhs);
    assert (k * lhs - k * rhs) * 10_000 == k * (diff * 10_000);
    QuotientScales(k, diff * 10_000, rhs);
  }

  lemma DecideReadsSign(b: U64, s: U64, d: int, e: int, hit: bool, change: int, t: Thresholds)
    requires (d > 0 <==> e > 0) && (d < 0 <==> e < 0)
    ensures Decide(b, s, d, hit, change, t) == Decide(b, s, e, hit, change, t)
  {
  }

  /** Verdict and reported change depend on the ratio of the windows, not on their unit. */
  lemma DurationsScale(b: U64, s: U64, durB: I64, durS: I64, k: int, t: Thresholds)
    requires durB > 0 && durS > 0 && k > 0 && 0 < k * durB < TWO_63 && 0 < k * durS < TWO_63
    ensures Meant(b, s, k * durB, k * durS, t) == Meant(b, s, durB, durS, t)
  {
    hide RateBp, RelHit, Decide;
    var lhs, rhs := s * durB, b * durS;
    assert s * (k * durB) == k * lhs && b * (k * durS) == k * rhs;
    assert k * lhs - k * rhs == k * (lhs - rhs);
    ProductBound(b, durS);
    ProductBound(b, k * durS);
    RelHitScales(k, lhs, rhs, t);
    SignScales(k, lhs - rhs);
    DecideReadsSign(b, s, k * lhs - k * rhs, lhs - rhs, RelHit(lhs, rhs, t), s - b, t);
    if b > 0 { RateBpScales(k, lhs, rhs); }
  }

  lemma SignScales(k: int, x: int)
    requires k > 0
    ensures (k * x > 0 <==> x > 0) && (k * x < 0 <==> x < 0) && Abs(k * x) == k * Abs(x)
  {
  }

  lemma CompareScales(k: int, x: int, y: int)
    requires k > 0
    ensures k * x >= k * y <==> x >= y
  {
    SignScales(k, x - y);
    assert k * (x - y) == k * x - k * y;
  }

  lemma FloorScales(k: int, n: int, d: int)
    requires k > 0 && d > 0
    ensures k * d > 0 && (k * n) / (k * d) == n / d
  {
    var q := n / d;
    EuclidBound(n, d);
    SignScales(k, d);
    var r := n - q * d;
    assert k * n == q * (k * d) + k * r;
    CompareScales(k, d, r);
    SignScales(k, r);
    SignScales(k, d - r);
    assert k * (d - r) == k * d - k * r;
    QuotientUnique(k * n, k * d, q);
  }

  lemma QuotientUnique(n: int, d: int, q: int)
    requires d > 0 && 0 <= n - q * d < d
    ensures n / d == q
  {
    EuclidBound(n, d);
    var p := n / d;
    if p < q { TimesMonotone(p + 1, q, d); }
    if q < p { TimesMonotone(q + 1, p, d); }
  }

  lemma QuotientScales(k: int, n: int, d: int)
    requires k > 0 && d > 0
    ensures k * d > 0 && TruncDiv(k * n, k * d) == TruncDiv(n, d)
  {
    FloorScales(k, n, d);
    FloorScales(k, -n, d);
    SignScales(k, n);
    assert k * -n == -(k * n);
  }

  // ---- what each verdict means ------------------------------------------------------------------

  /** The rates differ by the relative threshold, in basis points of the baseline rate, or the counts
      by the absolute one. */
  predicate Notable(b: U64, s: U64, durB: I64, durS: I64, t: Thresholds) {
    || (s * durB - b * durS >= 0 && (s * durB - b * durS) * 10_000 >= b * durS * t.relThresholdBp)
    || (b * durS - s * durB >= 0 && (b * durS - s * durB) * 10_000 >= b * durS * t.relThresholdBp)
    || s - b >= t.absThreshold || b - s >= t.absThreshold
  }

  /** Each verdict, exactly. */
  lemma VerdictsMean(b: U64, s: U64, durB: I64, durS: I64, t: Thresholds)
    requires durB > 0 && durS > 0
    ensures var c := Meant(b, s, durB, durS, t).classification;
      && (c == New <==> b == 0 && s > 0 && s >= t.minNewCount)
      && (c == Disappeared <==> s == 0 && b > 0 && b >= t.minGoneCount)
      && (c == Increased <==> Tested(b, s, t) && Notable(b, s, durB, durS, t) && s * durB > b * durS)
      && (c == Decreased <==> Tested(b, s, t) && Notable(b, s, durB, durS, t) && s * durB < b * durS)
      && (c == Unchanged <==> Tested(b, s, t) && (s * durB == b * durS || !Notable(b, s, durB, durS, t)))
    ensures Meant(b, s, durB, durS, t).countChange == s - b
  {
    var lhs, rhs := s * durB, b * durS;
    hide RateBp;
    assert RelHit(lhs, rhs, t) <==>
      (lhs - rhs >= 0 && (lhs - rhs) * 10_000 >= rhs * t.relThresholdBp) || (rhs - lhs >= 0 && (rhs - lhs) * 10_000 >= rhs * t.relThresholdBp);
  }

  /** `q` is the whole part of `n / d`. */
  predicate IsQuotient(n: int, d: int, q: int) { q >= 0 && q * d <= n < (q + 1) * d }

  /** The reported change: none without a baseline, otherwise the relative change of the rate in
      basis points, cut toward zero. */
  lemma RateMeans(b: U64, s: U64, durB: I64, durS: I64, t: Thresholds)
    requires durB > 0 && durS > 0
    ensures var rate := Meant(b, s, durB, durS, t).rateChangeBp;
      && (rate.None? <==> b == 0)
      && (rate.Some? && s * durB >= b * durS ==> IsQuotient((s * durB - b * durS) * 10_000, b * durS, rate.value))
      && (rate.Some? && s * durB <= b * durS ==> IsQuotient((b * durS - s * durB) * 10_000, b * durS, -rate.value))
  {
    var lhs, rhs := s * durB, b * durS;
    ProductBound(b, durS);
    hide RelHit, Decide;
    if b > 0 { CutMeans((lhs - rhs) * 10_000, rhs); }
  }

  lemma CutMeans(n: int, d: int)
    requires d > 0
    ensures var q := TruncDiv(n, d);
      (n >= 0 ==> IsQuotient(n, d, q)) && (n <= 0 ==> IsQuotient(-n, d, -q))
  {
    EuclidBound(n, d);
    EuclidBound(-n, d);
    if n >= 0 && n / d < 0 { TimesMonotone(n / d + 1, 0, d); }
    if n <= 0 && (-n) / d < 0 { TimesMonotone((-n) / d + 1, 0, d); }
  }

  // ---- directions --------------------------------------------------------------------------

  function Rank(c: Classification): int {
    match c case Decreased => 0 case Unchanged => 1 case Increased => 2 case _ => 3
  }

  /** With equal windows, more suspects never move the verdict down. */
  lemma MoreSuspectsNeverLower(b: U64, s: U64, s': U64, dur: I64, t: Thresholds)
    requires dur > 0 && b > 0 && 0 < s <= s' && (b >= t.minCount || s >= t.minCount)
    ensures Rank(Meant(b, s, dur, dur, t).classification) <= Rank(Meant(b, s', dur, dur, t).classification) <= 2
  {
    EqualWindows(b, s, dur, t);
    EqualWindows(b, s', dur, t);
  }

  /** With equal windows the duration cancels out of every test. */
  lemma EqualWindows(b: U64, s: U64, dur: I64, t: Thresholds)
    requires dur > 0
    ensures RelHit(s * dur, b * dur, t) <==> Abs(s - b) * 10_000 >= b * t.relThresholdBp
    ensures (s * dur - b * dur > 0 <==> s > b) && (s * dur - b * dur < 0 <==> s < b)
  {
    assert s * dur - b * dur == dur * (s - b);
    SignScales(dur, s - b);
    assert Abs(dur * (s - b)) * 10_000 == dur * (Abs(s - b) * 10_000);
    assert b * dur * t.relThresholdBp == dur * (b * t.relThresholdBp);
    CompareScales(dur, Abs(s - b) * 10_000, b * t.relThresholdBp);
  }

  /** For these window lengths no thresholds and no count let a verdict fall as suspects rise. */
  ghost predicate NeverLower(durB: I64, durS: I64)
    requires durB > 0 && durS > 0
  {
    forall b: U64, s: U64, s': U64, t: Thresholds :: b > 0 && 0 < s <= s' && (b >= t.minCount || s >= t.minCount) ==>
      Rank(Meant(b, s, durB, durS, t).classification) <= Rank(Meant(b, s', durB, durS, t).classification)
  }

  lemma Falls(durB: I64, durS: I64, b: U64, s: U64, s': U64, t: Thresholds)
    requires durB > 0 && durS > 0 && b > 0 && 0 < s <= s' && b >= t.minCount
    requires Rank(Meant(b, s, durB, durS, t).classification) > Rank(Meant(b, s', durB, durS, t).classification)
    ensures !NeverLower(durB, durS)
  {
    hide Meant;
  }

  /** Where neither count is missing or small, the verdict reads the two tests and the sign. */
  lemma Verdict(b: U64, s: U64, durB: I64, durS: I64, t: Thresholds)
    requires durB > 0 && durS > 0 && b > 0 && s > 0 && b >= t.minCount
    ensures var c, diff := Meant(b, s, durB, durS, t).classification, s * durB - b * durS;
      c == if !RelHit(s * durB, b * durS, t) && Abs(s - b) < t.absThreshold then Unchanged
           else if diff > 0 then Increased else if diff < 0 then Decreased else Unchanged
  {
    hide RelHit;
  }

  /** A difference below the whole cannot reach a threshold above ten thousand basis points. */
  lemma NoRelHit(lhs: int, rhs: int, q: nat, t: Thresholds)
    requires rhs > 0 && Abs(lhs - rhs) <= q * rhs && t.relThresholdBp > q * 10_000
    ensures !RelHit(lhs, rhs, t)
  {
    TimesMonotone(q * 10_000 + 1, t.relThresholdBp, rhs);
    assert (q * 10_000 + 1) * rhs == q * rhs * 10_000 + rhs;
  }

  /** The longer window of suspects: from as many suspects as baseline records, one more is a fall. */
  lemma LongerSuspectsFall(durB: I64, durS: I64)
    requires 0 < durB < durS
    ensures !NeverLower(durB, durS)
  {
    var b, t := durB + 1, Thresholds(0, 0, 0, 10_001, 1);
    var lhs, more, rhs := b * durB, (b + 1) * durB, b * durS;
    assert more == lhs + durB;
    assert rhs - lhs == b * (durS - durB);
    TimesMonotone(1, durS - durB, b);
    TimesMonotone(0, b, durB);
    NoRelHit(lhs, rhs, 1, t);
    Verdict(b, b, durB, durS, t);
    Verdict(b, b + 1, durB, durS, t);
    hide Meant, RelHit;
    Falls(durB, durS, b, b, b + 1, t);
  }

  /** The longer baseline window, by one unit: reaching the baseline's count hides the rise. */
  lemma OneLongerBaselineFalls(durB: I64, durS: I64)
    requires 0 < durS && durB == durS + 1
    ensures !NeverLower(durB, durS)
  {
    var b, t := durB + 1, Thresholds(0, 0, 0, 10_001, 1);
    var fewer, lhs, rhs := (b - 1) * durB, b * durB, b * durS;
    assert lhs - rhs == b * (durB - durS) == b;
    TimesMonotone(1, durS, b);
    assert fewer - rhs == 1 by { assert (durS + 1) * (durS + 1) == (durS + 2) * durS + 1; }
    NoRelHit(lhs, rhs, 1, t);
    Verdict(b, b - 1, durB, durS, t);
    Verdict(b, b, durB, durS, t);
    hide Meant, RelHit;
    Falls(durB, durS, b, b - 1, b, t);
  }

  lemma OneMore(s: int, d: int)
    ensures (s + 1) * d - d * s == d && (s + 1 + 1) * d - d * s == 2 * d
  {
  }

  /** By more: one suspect further brings the counts within the absolute threshold. */
  lemma LongerBaselineFalls(durB: I64, durS: I64)
    requires 0 < durS && durS + 2 <= durB
    ensures !NeverLower(durB, durS)
  {
    var b, s, t := durB, durS + 1, Thresholds(0, 0, 0, 20_001, durB - durS - 1);
    var lhs, more, rhs := s * durB, (s + 1) * durB, b * durS;
    hide RelHit, Meant;
    OneMore(durS, durB);
    TimesMonotone(1, durS, durB);
    NoRelHit(more, rhs, 2, t);
    Verdict(b, s, durB, durS, t);
    Verdict(b, s + 1, durB, durS, t);
    Falls(durB, durS, b, s, s + 1, t);
  }

  /** More suspects never move the verdict down, whatever the counts and thresholds, if and only
      if the windows are equally long. */
  lemma NeverLowerIffEqual(durB: I64, durS: I64)
    requires durB > 0 && durS > 0
    ensures NeverLower(durB, durS) <==> durB == durS
  {
    if durB == durS {
      hide Meant;
      forall b: U64, s: U64, s': U64, t: Thresholds | b > 0 && 0 < s <= s' && (b >= t.minCount || s >= t.minCount)
        ensures Rank(Meant(b, s, durB, durS, t).classification) <= Rank(Meant(b, s', durB, durS, t).classification)
      {
        MoreSuspectsNeverLower(b, s, s', durB, t);
      }
    } else if durB < durS {
      LongerSuspectsFall(durB, durS);
    } else if durB == durS + 1 {
      OneLongerBaselineFalls(durB, durS);
    } else {
      LongerBaselineFalls(durB, durS);
    }
    hide NeverLower;
  }

  /** Exchanging the windows never yields the same direction twice, and exchanges
      New with Disappeared when their minimums agree. */
  lemma SwappedWindows(b: U64, s: U64, durB: I64, durS: I64, t: Thresholds)
    requires durB > 0 && durS > 0
    ensures var c, d := Meant(b, s, durB, durS, t).classification, Meant(s, b, durS, durB, t).classification;
      && !(c == Increased && d == Increased)
      && !(c == Decreased && d == Decreased)
      && (t.minNewCount == t.minGoneCount ==> (c == New <==> d == Disappeared) && (c == Disappeared <==> d == New))
      && (c == InsufficientData && t.minNewCount == t.minGoneCount ==> d == InsufficientData)
  {
  }
}
