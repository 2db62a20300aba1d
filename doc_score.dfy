/** The document scorer: a quality score from the six interaction counters of a video
    (saturated, weighted, penalised when inconsistent) multiplied by a freshness factor
    interpolated in log-time.  Arithmetic is over `real`; the transcendental functions are
    the fields of a `Math` value constrained only by `Lawful`. */
module DocScore {
  import opened Wrappers
  import Dicts
  import RealArith

  /** `math.log1p`, `math.expm1`, `math.log` and `math.sqrt`. */
  datatype Math = Math(log1p: real -> real, expm1: real -> real, log: real -> real, sqrt: real -> real)

  /** The only facts about the transcendental functions that the proofs rely on. */
  ghost predicate Lawful(m: Math) {
    && m.log1p(0.0) == 0.0
    && (forall x, y :: 0.0 <= x < y ==> m.log1p(x) < m.log1p(y))
    && (forall x, y, d {:trigger Slope(m, x, d), Slope(m, y, d)} ::
          0.0 <= x < y && 0.0 < d ==> Slope(m, y, d) <= Slope(m, x, d))
    && (forall a :: a > 0.0 ==> m.expm1(a) > 0.0)
    && (forall x, y :: 0.0 < x < y ==> m.log(x) < m.log(y))
    && (forall x, y :: 0.0 <= x <= y ==> m.sqrt(x) <= m.sqrt(y))
    && (forall x :: 0.0 <= x <= 1.0 ==> 0.0 <= m.sqrt(x) <= 1.0)
  }

  /** The rise of `log1p` over `[x, x + d]`; `ln(1 + x)` is concave, so it never grows with x. */
  function Slope(m: Math, x: real, d: real): real {
    m.log1p(x + d) - m.log1p(x)
  }

  /** `log1p` undoes `expm1`, which places the half-saturation point. */
  ghost predicate Inverse(m: Math) {
    forall a :: a > 0.0 ==> m.log1p(m.expm1(a)) == a
  }

  // ---------------------------------------------------------------- configuration

  datatype FieldConfig = FieldConfig(name: string, weight: real, alpha: real)

  const StatConfigs: seq<FieldConfig> := [
    FieldConfig("view", 1.0, 8.0),
    FieldConfig("like", 2.0, 5.5),
    FieldConfig("coin", 3.0, 4.5),
    FieldConfig("favorite", 3.0, 4.5),
    FieldConfig("danmaku", 2.0, 5.5),
    FieldConfig("reply", 2.0, 5.0)
  ]

  /** Every configured field has a positive weight and a positive saturation constant. */
  lemma ConfigValid(i: nat)
    requires i < |StatConfigs|
    ensures StatConfigs[i].weight > 0.0 && StatConfigs[i].alpha > 0.0
  {
  }

  predicate IsStatField(f: string) {
    exists i :: 0 <= i < |StatConfigs| && StatConfigs[i].name == f
  }

  /** The sum of the weights of the first `n` configured fields. */
  function SumWeights(n: nat): real
    requires n <= |StatConfigs|
  {
    if n == 0 then 0.0 else SumWeights(n - 1) + StatConfigs[n - 1].weight
  }

  /** The sum of the configured weights. */
  function TotalWeight(): (w: real)
    ensures w == 13.0
  {
    assert SumWeights(1) == 1.0;
    assert SumWeights(2) == 3.0;
    assert SumWeights(3) == 6.0;
    assert SumWeights(4) == 9.0;
    assert SumWeights(5) == 11.0;
    SumWeights(|StatConfigs|)
  }

  const Seconds1H: int := 3600
  const Seconds1D: int := 86400
  const Seconds3D: int := 259200
  const Seconds7D: int := 604800
  const Seconds15D: int := 1296000
  const Seconds30D: int := 2592000

  datatype Anchor = Anchor(seconds: int, factor: real)

  /** Freshness anchors: after `seconds` of age a document gets `factor`. */
  const TimeAnchors: seq<Anchor> := [
    Anchor(Seconds1H, 1.30),
    Anchor(Seconds1D, 1.10),
    Anchor(Seconds3D, 0.90),
    Anchor(Seconds7D, 0.70),
    Anchor(Seconds15D, 0.55),
    Anchor(Seconds30D, 0.45)
  ]

  const TimeFactorMax: real := TimeAnchors[0].factor
  const TimeFactorMin: real := TimeAnchors[|TimeAnchors| - 1].factor

  const AnomalyMinLogScale: real := 0.5
  const AnomalyConsistencyThreshold: real := 0.5
  const AnomalyMinFactor: real := 0.3

  const BaseScore: real := 0.01

  // ---------------------------------------------------------------- saturation

  /** `ln(1+x) / (ln(1+x) + alpha)`, and 0 for `x <= 0`. */
  function Saturate(m: Math, x: real, alpha: real): (r: real)
    requires Lawful(m) && alpha > 0.0
    ensures x <= 0.0 ==> r == 0.0
    ensures x > 0.0 ==> 0.0 < r < 1.0
  {
    if x <= 0.0 then 0.0
    else
      var logVal := m.log1p(x);
      assert logVal > m.log1p(0.0);
      RealArith.RatioBounds(logVal, alpha);
      logVal / (logVal + alpha)
  }

  /** Saturation is strictly increasing on the non-negative reals. */
  lemma SaturateIncreasing(m: Math, x: real, y: real, alpha: real)
    requires Lawful(m) && alpha > 0.0
    requires 0.0 <= x < y
    ensures Saturate(m, x, alpha) < Saturate(m, y, alpha)
  {
    if x > 0.0 {
      RealArith.RatioIncreasing(m.log1p(x), m.log1p(y), alpha);
    }
  }

  /** Saturation never decreases. */
  lemma SaturateMonotone(m: Math, x: real, y: real, alpha: real)
    requires Lawful(m) && alpha > 0.0
    requires x <= y
    ensures Saturate(m, x, alpha) <= Saturate(m, y, alpha)
  {
    if 0.0 <= x < y {
      SaturateIncreasing(m, x, y, alpha);
    }
  }

  /** On the non-negative reals, including 0, saturation is `ln(1+x) / (ln(1+x) + alpha)`. */
  lemma SaturateRatio(m: Math, x: real, alpha: real)
    requires Lawful(m) && alpha > 0.0 && x >= 0.0
    ensures m.log1p(x) >= 0.0
    ensures Saturate(m, x, alpha) == m.log1p(x) / (m.log1p(x) + alpha)
  {
    if x > 0.0 {
      assert m.log1p(0.0) < m.log1p(x);
    }
  }

  /** Diminishing returns: the same increase `d` gains less from a larger starting count. */
  lemma SaturateDiminishing(m: Math, x: real, y: real, d: real, alpha: real)
    requires Lawful(m) && alpha > 0.0
    requires 0.0 <= x < y && d > 0.0
    ensures Saturate(m, y + d, alpha) - Saturate(m, y, alpha) < Saturate(m, x + d, alpha) - Saturate(m, x, alpha)
  {
    SaturateRatio(m, x, alpha);
    SaturateRatio(m, x + d, alpha);
    SaturateRatio(m, y, alpha);
    SaturateRatio(m, y + d, alpha);
    assert m.log1p(x) < m.log1p(x + d) && m.log1p(y) < m.log1p(y + d);
    assert m.log1p(x) < m.log1p(y) && m.log1p(x + d) < m.log1p(y + d);
    assert Slope(m, y, d) <= Slope(m, x, d);
    RealArith.RatioGapShrinks(m.log1p(x), m.log1p(x + d), m.log1p(y), m.log1p(y + d), alpha);
  }

  /** The steps 0 to 100, 100 to 200 and 200 to 300 gain less and less. */
  lemma SaturateDiminishingSteps(m: Math)
    requires Lawful(m)
    ensures var d1 := Saturate(m, 100.0, 5.0) - Saturate(m, 0.0, 5.0);
      var d2 := Saturate(m, 200.0, 5.0) - Saturate(m, 100.0, 5.0);
      var d3 := Saturate(m, 300.0, 5.0) - Saturate(m, 200.0, 5.0);
      d2 < d1 && d3 < d2
  {
    SaturateDiminishing(m, 0.0, 100.0, 100.0, 5.0);
    SaturateDiminishing(m, 100.0, 200.0, 100.0, 5.0);
  }

  /** At `x = e^alpha - 1` the saturation is exactly one half. */
  lemma SaturateHalf(m: Math, alpha: real)
    requires Lawful(m) && Inverse(m) && alpha > 0.0
    ensures Saturate(m, m.expm1(alpha), alpha) == 0.5
  {
    var x := m.expm1(alpha);
    assert x > 0.0 && m.log1p(x) == alpha;
    assert alpha / (alpha + alpha) == 0.5;
  }

  // ---------------------------------------------------------------- stat score

  /** The `stats` dict of a document: a counter is a number or `None`. */
  type Stats = map<string, Option<real>>

  /** `max(0, stats.get(field, 0) or 0)` */
  function FieldValue(stats: Stats, field: string): (r: real)
    ensures r >= 0.0
  {
    var v := if field in stats && stats[field].Some? then stats[field].value else 0.0;
    if v < 0.0 then 0.0 else v
  }

  /** Two stats dicts that agree on every configured field after normalisation. */
  predicate SameFieldValues(s1: Stats, s2: Stats) {
    forall i :: 0 <= i < |StatConfigs| ==> FieldValue(s1, StatConfigs[i].name) == FieldValue(s2, StatConfigs[i].name)
  }

  /** `weight * saturate(value, alpha)` for configured field `i`. */
  function Term(m: Math, stats: Stats, i: nat): (r: real)
    requires Lawful(m) && i < |StatConfigs|
    ensures 0.0 <= r < StatConfigs[i].weight
  {
    var c := StatConfigs[i];
    var s := Saturate(m, FieldValue(stats, c.name), c.alpha);
    RealArith.ScaledBelow(c.weight, s);
    c.weight * s
  }

  /** `sum(weight * saturate(value, alpha))` over the first `n` configured fields. */
  function WeightedSum(m: Math, stats: Stats, n: nat): (r: real)
    requires Lawful(m) && n <= |StatConfigs|
    ensures 0.0 <= r <= SumWeights(n)
    ensures n > 0 ==> r < SumWeights(n)
  {
    if n == 0 then 0.0 else WeightedSum(m, stats, n - 1) + Term(m, stats, n - 1)
  }

  /** The weighted average of the saturated counters, divided by the total weight. */
  function StatScore(m: Math, stats: Stats): (r: real)
    requires Lawful(m)
    ensures 0.0 <= r < 1.0
  {
    var w := WeightedSum(m, stats, |StatConfigs|);
    assert SumWeights(|StatConfigs|) == TotalWeight();
    RealArith.DivLess(w, 1.0, TotalWeight(), 1.0);
    w / TotalWeight()
  }

  lemma {:induction false} WeightedSumFieldValues(m: Math, s1: Stats, s2: Stats, n: nat)
    requires Lawful(m) && n <= |StatConfigs| && SameFieldValues(s1, s2)
    ensures WeightedSum(m, s1, n) == WeightedSum(m, s2, n)
  {
    if n > 0 {
      var c := StatConfigs[n - 1];
      assert FieldValue(s1, c.name) == FieldValue(s2, c.name);
      assert Term(m, s1, n - 1) == Term(m, s2, n - 1);
      WeightedSumFieldValues(m, s1, s2, n - 1);
    }
  }

  /** The stat score depends only on the normalised configured counters. */
  lemma StatScoreFieldValues(m: Math, s1: Stats, s2: Stats)
    requires Lawful(m) && SameFieldValues(s1, s2)
    ensures StatScore(m, s1) == StatScore(m, s2)
  {
    WeightedSumFieldValues(m, s1, s2, |StatConfigs|);
  }

  lemma {:induction false} WeightedSumOfZero(m: Math, stats: Stats, n: nat)
    requires Lawful(m) && n <= |StatConfigs|
    requires forall i :: 0 <= i < |StatConfigs| ==> FieldValue(stats, StatConfigs[i].name) == 0.0
    ensures WeightedSum(m, stats, n) == 0.0
  {
    if n > 0 {
      assert FieldValue(stats, StatConfigs[n - 1].name) == 0.0;
      WeightedSumOfZero(m, stats, n - 1);
    }
  }

  /** With every counter zero, missing, `None` or negative, the stat score is 0. */
  lemma StatScoreOfZero(m: Math, stats: Stats)
    requires Lawful(m)
    requires forall i :: 0 <= i < |StatConfigs| ==> FieldValue(stats, StatConfigs[i].name) == 0.0
    ensures StatScore(m, stats) == 0.0
  {
    WeightedSumOfZero(m, stats, |StatConfigs|);
  }

  /** Each weighted term grows with its counter, strictly when the counter grows. */
  lemma TermMonotone(m: Math, s1: Stats, s2: Stats, i: nat)
    requires Lawful(m) && i < |StatConfigs|
    requires FieldValue(s1, StatConfigs[i].name) <= FieldValue(s2, StatConfigs[i].name)
    ensures Term(m, s1, i) <= Term(m, s2, i)
    ensures FieldValue(s1, StatConfigs[i].name) < FieldValue(s2, StatConfigs[i].name) ==> Term(m, s1, i) < Term(m, s2, i)
  {
    var c := StatConfigs[i];
    var v1, v2 := FieldValue(s1, c.name), FieldValue(s2, c.name);
    SaturateMonotone(m, v1, v2, c.alpha);
    RealArith.MulLe(c.weight, Saturate(m, v1, c.alpha), Saturate(m, v2, c.alpha));
    if v1 < v2 {
      SaturateIncreasing(m, v1, v2, c.alpha);
      RealArith.MulLess(c.weight, Saturate(m, v1, c.alpha), Saturate(m, v2, c.alpha));
    }
  }

  lemma {:induction false} WeightedSumMonotone(m: Math, s1: Stats, s2: Stats, n: nat, i: nat)
    requires Lawful(m) && n <= |StatConfigs| && i < |StatConfigs|
    requires forall j :: 0 <= j < |StatConfigs| ==> FieldValue(s1, StatConfigs[j].name) <= FieldValue(s2, StatConfigs[j].name)
    requires FieldValue(s1, StatConfigs[i].name) < FieldValue(s2, StatConfigs[i].name)
    ensures WeightedSum(m, s1, n) <= WeightedSum(m, s2, n)
    ensures i < n ==> WeightedSum(m, s1, n) < WeightedSum(m, s2, n)
  {
    if n > 0 {
      WeightedSumMonotone(m, s1, s2, n - 1, i);
      TermMonotone(m, s1, s2, n - 1);
    }
  }

  /** More of every configured counter, and strictly more of one, gives a strictly higher
      stat score. */
  lemma StatScoreIncreasing(m: Math, s1: Stats, s2: Stats, i: nat)
    requires Lawful(m) && i < |StatConfigs|
    requires forall j :: 0 <= j < |StatConfigs| ==> FieldValue(s1, StatConfigs[j].name) <= FieldValue(s2, StatConfigs[j].name)
    requires FieldValue(s1, StatConfigs[i].name) < FieldValue(s2, StatConfigs[i].name)
    ensures StatScore(m, s1) < StatScore(m, s2)
  {
    WeightedSumMonotone(m, s1, s2, |StatConfigs|, i);
    var w1, w2 := WeightedSum(m, s1, |StatConfigs|), WeightedSum(m, s2, |StatConfigs|);
    RealArith.DivLess(w1, w2, TotalWeight(), TotalWeight());
  }

  /** A single positive configured counter already gives a positive stat score. */
  lemma StatScorePositive(m: Math, stats: Stats, i: nat)
    requires Lawful(m) && i < |StatConfigs|
    requires FieldValue(stats, StatConfigs[i].name) > 0.0
    ensures StatScore(m, stats) > 0.0
  {
    var empty: Stats := map[];
    StatScoreOfZero(m, empty);
    StatScoreIncreasing(m, empty, stats, i);
  }

  /** A stats dict holding counter `field` alone; every other counter reads as missing, i.e. 0. */
  function SingleStat(field: string, x: real): Stats {
    map[field := Some(x)]
  }

  lemma {:induction false} WeightedSumOfSingle(m: Math, i: nat, x: real, n: nat)
    requires Lawful(m) && i < |StatConfigs| && n <= |StatConfigs|
    ensures WeightedSum(m, SingleStat(StatConfigs[i].name, x), n)
         == if i < n then Term(m, SingleStat(StatConfigs[i].name, x), i) else 0.0
  {
    if n > 0 {
      WeightedSumOfSingle(m, i, x, n - 1);
      if n - 1 != i {
        assert StatConfigs[n - 1].name != StatConfigs[i].name;
        assert FieldValue(SingleStat(StatConfigs[i].name, x), StatConfigs[n - 1].name) == 0.0;
      }
    }
  }

  /** With one positive counter alone, the stat score is that field's weighted saturation
      over the total weight. */
  lemma StatScoreOfSingle(m: Math, i: nat, x: real)
    requires Lawful(m) && i < |StatConfigs| && x > 0.0
    ensures var c := StatConfigs[i];
      StatScore(m, SingleStat(c.name, x))
        == c.weight * (m.log1p(x) / (m.log1p(x) + c.alpha)) / TotalWeight()
  {
    WeightedSumOfSingle(m, i, x, |StatConfigs|);
    SaturateRatio(m, x, StatConfigs[i].alpha);
  }

  /** The weight tiers: at the same positive count, coin and favorite score alike, above
      reply, which is above like and danmaku (alike), which are above view. */
  lemma StatScoreWeightOrder(m: Math, x: real)
    requires Lawful(m) && x > 0.0
    ensures StatScore(m, SingleStat("coin", x)) == StatScore(m, SingleStat("favorite", x))
    ensures StatScore(m, SingleStat("coin", x)) > StatScore(m, SingleStat("reply", x))
    ensures StatScore(m, SingleStat("reply", x)) > StatScore(m, SingleStat("like", x))
    ensures StatScore(m, SingleStat("like", x)) == StatScore(m, SingleStat("danmaku", x))
    ensures StatScore(m, SingleStat("like", x)) > StatScore(m, SingleStat("view", x))
  {
    var l := m.log1p(x);
    assert l > m.log1p(0.0);
    StatScoreOfSingle(m, 0, x);
    StatScoreOfSingle(m, 1, x);
    StatScoreOfSingle(m, 2, x);
    StatScoreOfSingle(m, 3, x);
    StatScoreOfSingle(m, 4, x);
    StatScoreOfSingle(m, 5, x);
    var view, like, coin := 1.0 * (l / (l + 8.0)), 2.0 * (l / (l + 5.5)), 3.0 * (l / (l + 4.5));
    var reply := 2.0 * (l / (l + 5.0));
    RealArith.WeightedRatioLess(l, 2.0, 5.0, 3.0, 4.5);
    RealArith.WeightedRatioLess(l, 2.0, 5.5, 2.0, 5.0);
    RealArith.WeightedRatioLess(l, 1.0, 8.0, 2.0, 5.5);
    RealArith.DivLess(reply, coin, TotalWeight(), TotalWeight());
    RealArith.DivLess(like, reply, TotalWeight(), TotalWeight());
    RealArith.DivLess(view, like, TotalWeight(), TotalWeight());
  }

  /** The comparisons made at a count of 1000 for each field alone. */
  lemma StatScoreWeightOrderTests(m: Math)
    requires Lawful(m)
    ensures StatScore(m, SingleStat("coin", 1000.0)) == StatScore(m, SingleStat("favorite", 1000.0))
    ensures StatScore(m, SingleStat("coin", 1000.0)) > StatScore(m, SingleStat("like", 1000.0))
    ensures StatScore(m, SingleStat("like", 1000.0)) > StatScore(m, SingleStat("view", 1000.0))
    ensures StatScore(m, SingleStat("reply", 1000.0)) > StatScore(m, SingleStat("view", 1000.0))
    ensures StatScore(m, SingleStat("danmaku", 1000.0)) > StatScore(m, SingleStat("view", 1000.0))
  {
    StatScoreWeightOrder(m, 1000.0);
  }

  /** The loop of `_calc_stat_score`. */
  method CalcStatScore(m: Math, stats: Stats) returns (score: real)
    requires Lawful(m)
    ensures score == StatScore(m, stats)
    ensures 0.0 <= score < 1.0
  {
    var weightedSum := 0.0;
    for i := 0 to |StatConfigs|
      invariant weightedSum == WeightedSum(m, stats, i)
    {
      weightedSum := weightedSum + Term(m, stats, i);
    }
    score := weightedSum / TotalWeight();
  }

  // ---------------------------------------------------------------- anomaly factor

  /** `log1p(value / expm1(alpha))`: counter `i` measured against its half-saturation point. */
  function LogScale(m: Math, stats: Stats, i: nat): (r: real)
    requires Lawful(m) && i < |StatConfigs|
    ensures r >= 0.0
  {
    var c := StatConfigs[i];
    var halfSat := m.expm1(c.alpha);
    var relative := FieldValue(stats, c.name) / halfSat;
    assert relative >= 0.0;
    assert relative > 0.0 ==> m.log1p(0.0) < m.log1p(relative);
    m.log1p(relative)
  }

  /** The log-scales of the first `n` configured fields, in order. */
  function LogScales(m: Math, stats: Stats, n: nat): (r: seq<real>)
    requires Lawful(m) && n <= |StatConfigs|
    ensures |r| == n
    ensures forall i :: 0 <= i < n ==> r[i] == LogScale(m, stats, i)
  {
    if n == 0 then [] else LogScales(m, stats, n - 1) + [LogScale(m, stats, n - 1)]
  }

  /** Python's `max(s)` */
  function SeqMax(s: seq<real>): (r: real)
    requires s != []
    ensures r in s
    ensures forall i :: 0 <= i < |s| ==> s[i] <= r
  {
    if |s| == 1 then s[0]
    else
      var m := SeqMax(s[..|s| - 1]);
      if m < s[|s| - 1] then s[|s| - 1] else m
  }

  /** Python's `sum(s)` */
  function SeqSum(s: seq<real>): real {
    if s == [] then 0.0 else SeqSum(s[..|s| - 1]) + s[|s| - 1]
  }

  lemma {:induction false} SeqSumBounds(s: seq<real>, hi: real)
    requires forall i :: 0 <= i < |s| ==> 0.0 <= s[i] <= hi
    ensures 0.0 <= SeqSum(s) <= |s| as real * hi
  {
    if s != [] {
      SeqSumBounds(s[..|s| - 1], hi);
    }
  }

  /** `mean / max` of the log-scales, between 0 and 1 when none is negative. */
  function Consistency(s: seq<real>): (r: real)
    requires s != [] && SeqMax(s) > 0.0
    requires forall i :: 0 <= i < |s| ==> s[i] >= 0.0
    ensures 0.0 <= r <= 1.0
  {
    var mx := SeqMax(s);
    var n := |s| as real;
    var sum := SeqSum(s);
    SeqSumBounds(s, mx);
    RealArith.MeanBelowMax(sum, n, mx);
    (sum / n) / mx
  }

  /** The square-root penalty ramp: 1 at or above the threshold, 0.3 at consistency 0. */
  function Ramp(m: Math, consistency: real): (r: real)
    requires Lawful(m) && 0.0 <= consistency
    ensures AnomalyMinFactor <= r <= 1.0
  {
    if consistency >= AnomalyConsistencyThreshold then 1.0
    else
      var s := m.sqrt(consistency / AnomalyConsistencyThreshold);
      assert 0.0 <= s <= 1.0;
      AnomalyMinFactor + (1.0 - AnomalyMinFactor) * s
  }

  /** A more consistent document is never penalised more. */
  lemma RampMonotone(m: Math, c1: real, c2: real)
    requires Lawful(m) && 0.0 <= c1 <= c2
    ensures Ramp(m, c1) <= Ramp(m, c2)
  {
    if c2 < AnomalyConsistencyThreshold {
      assert m.sqrt(c1 / AnomalyConsistencyThreshold) <= m.sqrt(c2 / AnomalyConsistencyThreshold);
    }
  }

  /** The anomaly factor of a list of non-negative log-scales: no penalty when the largest
      is below 0.5, otherwise the ramp of their consistency. */
  function AnomalyOf(m: Math, ls: seq<real>): (r: real)
    requires Lawful(m) && ls != []
    requires forall i :: 0 <= i < |ls| ==> ls[i] >= 0.0
    ensures AnomalyMinFactor <= r <= 1.0
    ensures r < 1.0 ==> SeqMax(ls) >= AnomalyMinLogScale && 0.0 <= Consistency(ls) < AnomalyConsistencyThreshold
  {
    if SeqMax(ls) < AnomalyMinLogScale then 1.0 else Ramp(m, Consistency(ls))
  }

  /** The consistency-based anomaly factor of `_calc_anomaly_factor`: in [0.3, 1], and below
      1 only when some field reaches log-scale 0.5 and the consistency is below 0.5. */
  function AnomalyFactor(m: Math, stats: Stats): (r: real)
    requires Lawful(m)
    ensures AnomalyMinFactor <= r <= 1.0
    ensures var ls := LogScales(m, stats, |StatConfigs|);
      r < 1.0 ==> SeqMax(ls) >= AnomalyMinLogScale && 0.0 <= Consistency(ls) < AnomalyConsistencyThreshold
  {
    AnomalyOf(m, LogScales(m, stats, |StatConfigs|))
  }

  /** Without any activity there is nothing to penalise. */
  lemma AnomalyFactorOfZero(m: Math, stats: Stats)
    requires Lawful(m)
    requires forall i :: 0 <= i < |StatConfigs| ==> FieldValue(stats, StatConfigs[i].name) == 0.0
    ensures AnomalyFactor(m, stats) == 1.0
  {
    var ls := LogScales(m, stats, |StatConfigs|);
    assert forall i :: 0 <= i < |ls| ==> ls[i] == 0.0;
  }

  /** The anomaly factor depends only on the normalised configured counters. */
  lemma AnomalyFactorFieldValues(m: Math, s1: Stats, s2: Stats)
    requires Lawful(m) && SameFieldValues(s1, s2)
    ensures AnomalyFactor(m, s1) == AnomalyFactor(m, s2)
  {
    var l1 := LogScales(m, s1, |StatConfigs|);
    var l2 := LogScales(m, s2, |StatConfigs|);
    forall i | 0 <= i < |StatConfigs| ensures l1[i] == l2[i] {
      assert FieldValue(s1, StatConfigs[i].name) == FieldValue(s2, StatConfigs[i].name);
    }
    assert l1 == l2;
  }

  /** `_calc_anomaly_factor`: one log-scale per configured field, in order, then the penalty
      computed from them. */
  method CalcAnomalyFactor(m: Math, stats: Stats) returns (factor: real)
    requires Lawful(m)
    ensures factor == AnomalyFactor(m, stats)
  {
    var logScales: seq<real> := [];
    for i := 0 to |StatConfigs|
      invariant logScales == LogScales(m, stats, i)
    {
      var cfg := StatConfigs[i];
      var value := FieldValue(stats, cfg.name);
      ConfigValid(i);
      var halfSat := m.expm1(cfg.alpha);
      var relative := value / halfSat;
      logScales := logScales + [m.log1p(relative)];
    }
    factor := PenaltyOf(m, logScales);
  }

  /** The tail of `_calc_anomaly_factor`, with its two early returns of 1.0: small maximum,
      then high consistency. */
  method PenaltyOf(m: Math, logScales: seq<real>) returns (factor: real)
    requires Lawful(m) && logScales != []
    requires forall i :: 0 <= i < |logScales| ==> logScales[i] >= 0.0
    ensures factor == AnomalyOf(m, logScales)
  {
    var maxLog := SeqMax(logScales);
    if maxLog < AnomalyMinLogScale {
      return 1.0;
    }
    var meanLog := SeqSum(logScales) / |logScales| as real;
    var consistency := meanLog / maxLog;
    assert consistency == Consistency(logScales);
    if consistency >= AnomalyConsistencyThreshold {
      return 1.0;
    }
    var t := consistency / AnomalyConsistencyThreshold;
    factor := AnomalyMinFactor + (1.0 - AnomalyMinFactor) * m.sqrt(t);
  }

  // ---------------------------------------------------------------- time factor

  /** The piecewise-linear interpolation in log-time between anchors `i` and `i + 1`. */
  function Interpolate(m: Math, t: int, i: nat): real
    requires Lawful(m) && i < |TimeAnchors| - 1 && t > 0
  {
    var a0 := TimeAnchors[i];
    var a1 := TimeAnchors[i + 1];
    var logT0 := m.log(a0.seconds as real);
    var logT1 := m.log(a1.seconds as real);
    var frac := (m.log(t as real) - logT0) / (logT1 - logT0);
    a0.factor + frac * (a1.factor - a0.factor)
  }

  /** The anchor scan, started at pair `i`, for an age strictly between the first and the
      last anchor. */
  function Scan(m: Math, t: int, i: nat): (r: real)
    requires Lawful(m) && i < |TimeAnchors| - 1
    requires TimeAnchors[i].seconds < t < TimeAnchors[|TimeAnchors| - 1].seconds
    ensures TimeFactorMin <= r < TimeAnchors[i].factor
    decreases |TimeAnchors| - i
  {
    if t <= TimeAnchors[i + 1].seconds then
      InterpolateBetween(m, t, i);
      Interpolate(m, t, i)
    else
      Scan(m, t, i + 1)
  }

  /** `_calc_time_factor`: clamp, constant below the first and above the last anchor,
      interpolation between. */
  function TimeFactor(m: Math, pubToInsert: int): (r: real)
    requires Lawful(m)
    ensures TimeFactorMin <= r <= TimeFactorMax
  {
    var t := if pubToInsert < 0 then 0 else pubToInsert;
    if t <= TimeAnchors[0].seconds then TimeAnchors[0].factor
    else if t >= TimeAnchors[|TimeAnchors| - 1].seconds then TimeAnchors[|TimeAnchors| - 1].factor
    else Scan(m, t, 0)
  }

  /** The scan settles on the pair of anchors that brackets `t`. */
  lemma {:induction false} ScanFinds(m: Math, t: int, i: nat, j: nat)
    requires Lawful(m) && i <= j < |TimeAnchors| - 1
    requires TimeAnchors[i].seconds < t < TimeAnchors[|TimeAnchors| - 1].seconds
    requires TimeAnchors[j].seconds < t <= TimeAnchors[j + 1].seconds
    ensures Scan(m, t, i) == Interpolate(m, t, j)
    decreases j - i
  {
    if i < j {
      assert TimeAnchors[i + 1].seconds <= TimeAnchors[j].seconds;
      ScanFinds(m, t, i + 1, j);
    }
  }

  /** The pair of anchors bracketing an age between the first and the last anchor. */
  function Bracket(t: int): (j: nat)
    requires TimeAnchors[0].seconds < t < TimeAnchors[|TimeAnchors| - 1].seconds
    ensures j < |TimeAnchors| - 1
    ensures TimeAnchors[j].seconds < t <= TimeAnchors[j + 1].seconds
  {
    if t <= Seconds1D then 0
    else if t <= Seconds3D then 1
    else if t <= Seconds7D then 2
    else if t <= Seconds15D then 3
    else 4
  }

  /** Within a bracket the interpolation moves from `f0` (exclusive) down to `f1`. */
  lemma InterpolateBetween(m: Math, t: int, j: nat)
    requires Lawful(m) && j < |TimeAnchors| - 1
    requires TimeAnchors[j].seconds < t <= TimeAnchors[j + 1].seconds
    ensures TimeAnchors[j + 1].factor <= Interpolate(m, t, j) < TimeAnchors[j].factor
    ensures t == TimeAnchors[j + 1].seconds ==> Interpolate(m, t, j) == TimeAnchors[j + 1].factor
  {
    var a0 := TimeAnchors[j];
    var a1 := TimeAnchors[j + 1];
    var l0 := m.log(a0.seconds as real);
    var l1 := m.log(a1.seconds as real);
    var lt := m.log(t as real);
    assert l0 < lt;
    assert lt <= l1 by {
      if t < a1.seconds {
        assert m.log(t as real) < m.log(a1.seconds as real);
      }
    }
    RealArith.FracBounds(l0, lt, l1);
    if t == a1.seconds {
      assert (lt - l0) / (l1 - l0) == 1.0;
    }
    RealArith.LerpBounds(a0.factor, a1.factor, (lt - l0) / (l1 - l0));
  }

  /** Interpolation within one bracket never increases with age. */
  lemma InterpolateMonotone(m: Math, t1: int, t2: int, j: nat)
    requires Lawful(m) && j < |TimeAnchors| - 1
    requires TimeAnchors[j].seconds < t1 <= t2 <= TimeAnchors[j + 1].seconds
    ensures Interpolate(m, t2, j) <= Interpolate(m, t1, j)
  {
    var a0 := TimeAnchors[j];
    var a1 := TimeAnchors[j + 1];
    var l0 := m.log(a0.seconds as real);
    var l1 := m.log(a1.seconds as real);
    assert l0 < l1;
    if t1 < t2 {
      assert m.log(t1 as real) < m.log(t2 as real);
      RealArith.FracMonotone(l0, m.log(t1 as real), m.log(t2 as real), l1);
      RealArith.LerpMonotone(a0.factor, a1.factor, (m.log(t1 as real) - l0) / (l1 - l0), (m.log(t2 as real) - l0) / (l1 - l0));
    }
  }

  /** Ages at or below one hour get 1.30, at or beyond thirty days 0.45. */
  lemma TimeFactorClamps(m: Math, p: int)
    requires Lawful(m)
    ensures p <= Seconds1H ==> TimeFactor(m, p) == TimeFactorMax
    ensures p >= Seconds30D ==> TimeFactor(m, p) == TimeFactorMin
  {
  }

  /** At every anchor the factor is exactly that anchor's factor. */
  lemma TimeFactorAtAnchors(m: Math, i: nat)
    requires Lawful(m) && i < |TimeAnchors|
    ensures TimeFactor(m, TimeAnchors[i].seconds) == TimeAnchors[i].factor
  {
    if 0 < i < |TimeAnchors| - 1 {
      var t := TimeAnchors[i].seconds;
      ScanFinds(m, t, 0, i - 1);
      InterpolateBetween(m, t, i - 1);
    }
  }

  /** Between bracketing anchors `t0 < t <= t1` the factor lies in `[f1, f0)`. */
  lemma TimeFactorBetween(m: Math, t: int, j: nat)
    requires Lawful(m) && j < |TimeAnchors| - 1
    requires TimeAnchors[j].seconds < t <= TimeAnchors[j + 1].seconds
    ensures TimeAnchors[j + 1].factor <= TimeFactor(m, t) < TimeAnchors[j].factor
  {
    if t < TimeAnchors[|TimeAnchors| - 1].seconds {
      ScanFinds(m, t, 0, j);
      InterpolateBetween(m, t, j);
    }
  }

  /** Older documents never get a larger factor. */
  lemma TimeFactorNonIncreasing(m: Math, p1: int, p2: int)
    requires Lawful(m) && p1 <= p2
    ensures TimeFactor(m, p2) <= TimeFactor(m, p1)
  {
    var first := TimeAnchors[0].seconds;
    var last := TimeAnchors[|TimeAnchors| - 1].seconds;
    if first < p1 && p2 < last {
      var j1 := Bracket(p1);
      var j2 := Bracket(p2);
      if j1 == j2 {
        ScanFinds(m, p1, 0, j1);
        ScanFinds(m, p2, 0, j2);
        InterpolateMonotone(m, p1, p2, j1);
      } else {
        assert j1 < j2;
        TimeFactorBetween(m, p1, j1);
        TimeFactorBetween(m, p2, j2);
        assert TimeAnchors[j2].factor <= TimeAnchors[j1 + 1].factor;
      }
    }
  }

  /** The anchor scan of `_calc_time_factor`, with its early return.  The return after the
      loop is never reached: every age strictly between the first and the last anchor is
      bracketed by some pair. */
  method CalcTimeFactor(m: Math, pubToInsert: int) returns (factor: real)
    requires Lawful(m)
    ensures factor == TimeFactor(m, pubToInsert)
  {
    var t := if pubToInsert < 0 then 0 else pubToInsert;
    if t <= TimeAnchors[0].seconds {
      return TimeAnchors[0].factor;
    }
    if t >= TimeAnchors[|TimeAnchors| - 1].seconds {
      return TimeAnchors[|TimeAnchors| - 1].factor;
    }
    for i := 0 to |TimeAnchors| - 1
      invariant TimeAnchors[i].seconds < t
      invariant i < |TimeAnchors| - 1 ==> Scan(m, t, 0) == Scan(m, t, i)
    {
      if t <= TimeAnchors[i + 1].seconds {
        return Interpolate(m, t, i);
      }
    }
    assert false;
  }

  // ---------------------------------------------------------------- score

  /** The fields of a document that the scorer reads; `None` stands for a missing key or an
      explicit `None`. */
  datatype Doc = Doc(stats: Option<Stats>, pubToInsert: Option<int>, insertAt: Option<int>, pubdate: Option<int>)

  function DocStats(d: Doc): Stats {
    d.stats.GetOr(map[])
  }

  /** `pub_to_insert`, or `(insert_at or 0) - (pubdate or 0)` when it is absent. */
  function ElapsedTime(d: Doc): (r: int)
    ensures d.pubToInsert.Some? ==> r == d.pubToInsert.value
    ensures d.pubToInsert.None? ==> r == d.insertAt.GetOr(0) - d.pubdate.GetOr(0)
  {
    match d.pubToInsert
    case Some(p) => p
    case None => d.insertAt.GetOr(0) - d.pubdate.GetOr(0)
  }

  /** `(BASE_SCORE + stat * anomaly) * time`: every document, even `{}`, scores strictly
      between 0 and 1.01 * 1.30. */
  function Score(m: Math, d: Doc): (r: real)
    requires Lawful(m)
    ensures 0.0 < r < (BaseScore + 1.0) * TimeFactorMax
  {
    var stats := DocStats(d);
    Combine(StatScore(m, stats), AnomalyFactor(m, stats), TimeFactor(m, ElapsedTime(d)))
  }

  /** `(BASE_SCORE + stat * anomaly) * time` for components within their bounds. */
  function Combine(s: real, a: real, t: real): (r: real)
    requires 0.0 <= s < 1.0 && AnomalyMinFactor <= a <= 1.0 && TimeFactorMin <= t <= TimeFactorMax
    ensures 0.0 < r < (BaseScore + 1.0) * TimeFactorMax
  {
    var q := BaseScore + s * a;
    RealArith.ProductBelow(s, a);
    RealArith.ProductBounds(q, t, BaseScore + 1.0, TimeFactorMax);
    q * t
  }

  /** An empty document scores `BASE_SCORE * 1.30`: no activity, no anomaly, age 0. */
  lemma ScoreOfEmpty(m: Math)
    requires Lawful(m)
    ensures Score(m, Doc(None, None, None, None)) == BaseScore * TimeFactorMax
  {
    var stats: Stats := map[];
    StatScoreOfZero(m, stats);
    AnomalyFactorOfZero(m, stats);
    TimeFactorClamps(m, 0);
  }

  /** Documents that agree on the normalised counters and on the age get the same score, so
      `None`, missing, zero and negative counters, and fields such as `share`, are alike. */
  lemma ScoreFieldValues(m: Math, d1: Doc, d2: Doc)
    requires Lawful(m)
    requires SameFieldValues(DocStats(d1), DocStats(d2)) && ElapsedTime(d1) == ElapsedTime(d2)
    ensures Score(m, d1) == Score(m, d2)
  {
    StatScoreFieldValues(m, DocStats(d1), DocStats(d2));
    AnomalyFactorFieldValues(m, DocStats(d1), DocStats(d2));
  }

  /** A smaller time factor never raises the combined score. */
  lemma CombineTimeMonotone(s: real, a: real, t1: real, t2: real)
    requires 0.0 <= s < 1.0 && AnomalyMinFactor <= a <= 1.0
    requires TimeFactorMin <= t2 <= t1 <= TimeFactorMax
    ensures Combine(s, a, t2) <= Combine(s, a, t1)
  {
    RealArith.ProductBelow(s, a);
    RealArith.MulLe(BaseScore + s * a, t2, t1);
  }

  /** Between documents with the same counters, the fresher one scores at least as high. */
  lemma ScoreFresherNotLower(m: Math, d1: Doc, d2: Doc)
    requires Lawful(m)
    requires SameFieldValues(DocStats(d1), DocStats(d2)) && ElapsedTime(d1) <= ElapsedTime(d2)
    ensures Score(m, d2) <= Score(m, d1)
  {
    var stats := DocStats(d1);
    StatScoreFieldValues(m, stats, DocStats(d2));
    AnomalyFactorFieldValues(m, stats, DocStats(d2));
    TimeFactorNonIncreasing(m, ElapsedTime(d1), ElapsedTime(d2));
    CombineTimeMonotone(StatScore(m, stats), AnomalyFactor(m, stats), TimeFactor(m, ElapsedTime(d1)), TimeFactor(m, ElapsedTime(d2)));
  }

  /** A counter outside the configuration, negative, `None` or missing changes nothing. */
  lemma SameFieldValuesExamples(stats: Stats, f: string, v: Option<real>)
    ensures !IsStatField(f) ==> SameFieldValues(stats[f := v], stats)
    ensures (v.None? || v.value <= 0.0) ==> SameFieldValues(stats[f := v], stats - {f})
  {
  }

  /** `calc_score` */
  method CalcScore(m: Math, d: Doc) returns (score: real)
    requires Lawful(m)
    ensures score == Score(m, d)
    ensures 0.0 < score < (BaseScore + 1.0) * TimeFactorMax
  {
    var stats := DocStats(d);
    var statScore := CalcStatScore(m, stats);
    var anomalyFactor := CalcAnomalyFactor(m, stats);
    var pubToInsert := ElapsedTime(d);
    var timeFactor := CalcTimeFactor(m, pubToInsert);
    score := Combine(statScore, anomalyFactor, timeFactor);
  }

  /** The record `calc_score_detail` returns. */
  datatype ScoreDetail = ScoreDetail(
    score: real,
    statScore: real,
    anomalyFactor: real,
    timeFactor: real,
    fieldScores: Dicts.Dict<string, real>,
    pubToInsert: int)

  /** One `(field, saturate(value, alpha))` entry per configured field among the first `n`,
      in order. */
  function FieldScores(m: Math, stats: Stats, n: nat): (r: Dicts.Dict<string, real>)
    requires Lawful(m) && n <= |StatConfigs|
    ensures |r| == n
    ensures forall i :: 0 <= i < n ==> r[i] == (StatConfigs[i].name, Saturate(m, FieldValue(stats, StatConfigs[i].name), StatConfigs[i].alpha))
  {
    if n == 0 then []
    else
      var c := StatConfigs[n - 1];
      FieldScores(m, stats, n - 1) + [(c.name, Saturate(m, FieldValue(stats, c.name), c.alpha))]
  }

  /** Assigning the next configured field appends it, since the field names are distinct. */
  lemma FieldScoresStep(m: Math, stats: Stats, i: nat)
    requires Lawful(m) && i < |StatConfigs|
    ensures var c := StatConfigs[i];
      Dicts.Set(FieldScores(m, stats, i), c.name, Saturate(m, FieldValue(stats, c.name), c.alpha))
      == FieldScores(m, stats, i + 1)
  {
    var d := FieldScores(m, stats, i);
    var name := StatConfigs[i].name;
    Dicts.KeysIndex(d, name);
  }

  /** The `field_scores` loop of `calc_score_detail`: one assignment per configured field. */
  method CalcFieldScores(m: Math, stats: Stats) returns (fieldScores: Dicts.Dict<string, real>)
    requires Lawful(m)
    ensures fieldScores == FieldScores(m, stats, |StatConfigs|)
    ensures forall i :: 0 <= i < |fieldScores| ==> 0.0 <= fieldScores[i].1 < 1.0
  {
    fieldScores := [];
    for i := 0 to |StatConfigs|
      invariant fieldScores == FieldScores(m, stats, i)
    {
      var cfg := StatConfigs[i];
      var value := FieldValue(stats, cfg.name);
      ConfigValid(i);
      FieldScoresStep(m, stats, i);
      fieldScores := Dicts.Set(fieldScores, cfg.name, Saturate(m, value, cfg.alpha));
    }
  }

  /** `calc_score_detail`: the field scores, then the components of the score and the score
      itself, computed as `calc_score` does. */
  method CalcScoreDetail(m: Math, d: Doc) returns (detail: ScoreDetail)
    requires Lawful(m)
    ensures detail.statScore == StatScore(m, DocStats(d))
    ensures detail.anomalyFactor == AnomalyFactor(m, DocStats(d))
    ensures detail.pubToInsert == ElapsedTime(d)
    ensures detail.timeFactor == TimeFactor(m, detail.pubToInsert)
    ensures detail.score == Combine(detail.statScore, detail.anomalyFactor, detail.timeFactor)
    ensures detail.score == Score(m, d)
    ensures detail.fieldScores == FieldScores(m, DocStats(d), |StatConfigs|)
    ensures forall i :: 0 <= i < |detail.fieldScores| ==> 0.0 <= detail.fieldScores[i].1 < 1.0
  {
    var stats := DocStats(d);
    var fieldScores := CalcFieldScores(m, stats);
    var statScore := CalcStatScore(m, stats);
    var anomalyFactor := CalcAnomalyFactor(m, stats);
    var pubToInsert := ElapsedTime(d);
    var timeFactor := CalcTimeFactor(m, pubToInsert);
    var score := Combine(statScore, anomalyFactor, timeFactor);
    detail := ScoreDetail(score, statScore, anomalyFactor, timeFactor, fieldScores, pubToInsert);
  }
}
