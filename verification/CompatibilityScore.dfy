/**
 * The compatibility score twice: the SQL expression that ranks the units and the function that explains a score.  Both
 * are modelled on exact rationals and proved equal, so the comparison that guards them never fails.
 */
module CompatibilityScore {
  import opened Common
  import opened Rounding

  datatype Interest = Interest(minPrice: Option<real>, maxPrice: Option<real>, minArea: Option<real>, maxArea: Option<real>,
                               minBedrooms: Option<int>, maxBedrooms: Option<int>)

  /** The catalogue row; the price is never null, as the query joins it. */
  datatype Candidate = Candidate(price: real, area: Option<real>, bedrooms: Option<int>)

  const PRICE_WEIGHT := 50
  const AREA_WEIGHT := 25
  const BEDROOMS_WEIGHT := 25
  const PRICE_MULTIPLIER := 1000.0
  const AREA_MULTIPLIER := 500.0

  /** The constraints on the interest table: bounds are not negative. */
  predicate Bounded(bound: Option<real>) { bound.Some? ==> bound.value >= 0.0 }

  predicate Allowed(i: Interest) {
    Bounded(i.minPrice) && Bounded(i.maxPrice) && Bounded(i.minArea) && Bounded(i.maxArea)
  }

  // ------------------------------------------------------------------------------------- the function

  function Abs(x: real): real { if x < 0.0 then -x else x }

  /** A quotient under a name. */
  function Over(x: real, y: real): real
    requires y != 0.0
  {
    x / y
  }

  function ClampScore(x: real): int {
    var rounded := RoundHalfUp(x);
    if rounded > 100 then 100 else if rounded < 0 then 0 else rounded
  }

  /** The bound a value violates, if any; the lower one first. */
  function Boundary(actual: real, minimum: Option<real>, maximum: Option<real>): Option<real> {
    if minimum.Some? && actual < minimum.value then minimum
    else if maximum.Some? && actual > maximum.value then maximum
    else None
  }

  function RangeScore(value: Option<real>, minimum: Option<real>, maximum: Option<real>, multiplier: real): Option<int> {
    if value.None? || (minimum.None? && maximum.None?) then None
    else
      var boundary := Boundary(value.value, minimum, maximum);
      if boundary.None? then Some(100)
      else if boundary.value == 0.0 then Some(0)
      else Some(ClampScore(100.0 - Times(Over(Abs(value.value - boundary.value), boundary.value), multiplier)))
  }

  function ScoreBedrooms(bedrooms: Option<int>, minimum: Option<int>, maximum: Option<int>): Option<int> {
    if bedrooms.None? || (minimum.None? && maximum.None?) then None
    else
      var distance := if minimum.Some? && bedrooms.value < minimum.value then minimum.value - bedrooms.value
                      else if maximum.Some? && bedrooms.value > maximum.value then bedrooms.value - maximum.value
                      else 0;
      Some(if 100 - distance * 50 > 0 then 100 - distance * 50 else 0)
  }

  /** Math.round: half up, towards positive infinity. */
  function MathRound(x: real): int { (x + 0.5).Floor }

  datatype Scores = Scores(price: Option<int>, area: Option<int>, bedrooms: Option<int>)

  function Weight(score: Option<int>, weight: int): int { if score.None? then 0 else weight }

  function Points(score: Option<int>, weight: int): int { if score.None? then 0 else score.value * weight }

  function EvaluatedWeight(s: Scores): int {
    Weight(s.price, PRICE_WEIGHT) + Weight(s.area, AREA_WEIGHT) + Weight(s.bedrooms, BEDROOMS_WEIGHT)
  }

  function WeightedPoints(s: Scores): int {
    Points(s.price, PRICE_WEIGHT) + Points(s.area, AREA_WEIGHT) + Points(s.bedrooms, BEDROOMS_WEIGHT)
  }

  function CriterionScores(i: Interest, c: Candidate): Scores {
    Scores(RangeScore(Some(c.price), i.minPrice, i.maxPrice, PRICE_MULTIPLIER),
           RangeScore(c.area, i.minArea, i.maxArea, AREA_MULTIPLIER),
           ScoreBedrooms(c.bedrooms, i.minBedrooms, i.maxBedrooms))
  }

  function Overall(s: Scores): Option<int> {
    if EvaluatedWeight(s) == 0 then None else Some(MathRound(WeightedPoints(s) as real / EvaluatedWeight(s) as real))
  }

  function ScoreUnitCompatibility(i: Interest, c: Candidate): Option<int> { Overall(CriterionScores(i, c)) }

  // ------------------------------------------------------------------------------------------ the SQL

  /** The match columns: null without a preference or a value. */
  function SqlMatch(value: Option<real>, minimum: Option<real>, maximum: Option<real>): Option<bool> {
    if minimum.None? && maximum.None? then None
    else if value.None? then None
    else Some((minimum.None? || value.value >= minimum.value) && (maximum.None? || value.value <= maximum.value))
  }

  function SqlBedroomsMatch(value: Option<int>, minimum: Option<int>, maximum: Option<int>): Option<bool> {
    if minimum.None? && maximum.None? then None
    else if value.None? then None
    else Some((minimum.None? || value.value >= minimum.value) && (maximum.None? || value.value <= maximum.value))
  }

  function SqlPriceDeviation(price: real, i: Interest): real {
    if i.minPrice.Some? && price < i.minPrice.value then i.minPrice.value - price
    else if i.maxPrice.Some? && price > i.maxPrice.value then price - i.maxPrice.value
    else 0.0
  }

  /** The inner CASE: the lower bound when it is violated, otherwise the upper one, which may be null. */
  function SqlBound(value: real, minimum: Option<real>, maximum: Option<real>): Option<real> {
    if minimum.Some? && value < minimum.value then minimum else maximum
  }

  /** COALESCE(GREATEST(0, ROUND(100 - deviation * multiplier / NULLIF(bound, 0), 0))::integer, 0); nulls propagate, GREATEST skips them. */
  function SqlCriterion(deviation: real, multiplier: real, bound: Option<real>): int {
    var divisor := if bound == Some(0.0) then None else bound;
    var rounded: Option<int> := if divisor.None? then None else Some(RoundHalfUp(100.0 - Over(Times(deviation, multiplier), divisor.value)));
    if rounded.None? || rounded.value < 0 then 0 else rounded.value
  }

  function SqlPriceScore(i: Interest, c: Candidate): Option<int> {
    match SqlMatch(Some(c.price), i.minPrice, i.maxPrice)
    case None => None
    case Some(true) => Some(100)
    case Some(false) => Some(SqlCriterion(SqlPriceDeviation(c.price, i), PRICE_MULTIPLIER, SqlBound(c.price, i.minPrice, i.maxPrice)))
  }

  function SqlAreaScore(i: Interest, c: Candidate): Option<int> {
    match SqlMatch(c.area, i.minArea, i.maxArea)
    case None => None
    case Some(true) => Some(100)
    case Some(false) =>
      var bound := SqlBound(c.area.value, i.minArea, i.maxArea);
      Some(if bound.None? then 0 else SqlCriterion(Abs(c.area.value - bound.value), AREA_MULTIPLIER, bound))
  }

  function SqlBedroomsScore(i: Interest, c: Candidate): Option<int> {
    match SqlBedroomsMatch(c.bedrooms, i.minBedrooms, i.maxBedrooms)
    case None => None
    case Some(true) => Some(100)
    case Some(false) =>
      var distance := if i.minBedrooms.Some? && c.bedrooms.value < i.minBedrooms.value then Some(i.minBedrooms.value - c.bedrooms.value)
                      else if i.maxBedrooms.Some? then Some(c.bedrooms.value - i.maxBedrooms.value) else None;
      Some(if distance.None? || 100 - 50 * distance.value < 0 then 0 else 100 - 50 * distance.value)
  }

  /** ROUND(points::numeric / weight, 0), null when no criterion was evaluated. */
  function SqlScore(i: Interest, c: Candidate): Option<int> {
    var s := Scores(SqlPriceScore(i, c), SqlAreaScore(i, c), SqlBedroomsScore(i, c));
    if EvaluatedWeight(s) == 0 then None else Some(RoundHalfUp(WeightedPoints(s) as real / EvaluatedWeight(s) as real))
  }

  // ----------------------------------------------------------------------------------------- equality

  lemma OverTimes(x: real, y: real, m: real)
    requires y != 0.0
    ensures Over(Times(x, m), y) == Times(Over(x, y), m)
  {
    assert x * m / y == x / y * m;
  }

  lemma OverNonNegative(x: real, y: real)
    requires x >= 0.0 && y > 0.0
    ensures Over(x, y) >= 0.0
  {
  }

  /** The two criterion formulas agree wherever the function has one, provided the bound is not negative. */
  lemma CriterionAgrees(value: real, bound: real, multiplier: real)
    requires bound >= 0.0 && multiplier >= 0.0
    ensures SqlCriterion(Abs(value - bound), multiplier, Some(bound))
         == if bound == 0.0 then 0 else ClampScore(100.0 - Times(Over(Abs(value - bound), bound), multiplier))
  {
    if bound != 0.0 {
      OverTimes(Abs(value - bound), bound, multiplier);
      OverNonNegative(Abs(value - bound), bound);
      TimesNonNegative(Over(Abs(value - bound), bound), multiplier);
      RoundMonotone(100.0 - Times(Over(Abs(value - bound), bound), multiplier), 100.0);
      RoundExact(100);
    }
  }

  lemma PriceAgrees(i: Interest, c: Candidate)
    requires Allowed(i)
    ensures SqlPriceScore(i, c) == RangeScore(Some(c.price), i.minPrice, i.maxPrice, PRICE_MULTIPLIER)
  {
    var boundary := Boundary(c.price, i.minPrice, i.maxPrice);
    if boundary.Some? {
      assert SqlPriceDeviation(c.price, i) == Abs(c.price - boundary.value);
      CriterionAgrees(c.price, boundary.value, PRICE_MULTIPLIER);
    }
  }

  lemma AreaAgrees(i: Interest, c: Candidate)
    requires Allowed(i)
    ensures SqlAreaScore(i, c) == RangeScore(c.area, i.minArea, i.maxArea, AREA_MULTIPLIER)
  {
    if c.area.Some? {
      var boundary := Boundary(c.area.value, i.minArea, i.maxArea);
      if boundary.Some? {
        CriterionAgrees(c.area.value, boundary.value, AREA_MULTIPLIER);
      }
    }
  }

  lemma BedroomsAgree(i: Interest, c: Candidate)
    ensures SqlBedroomsScore(i, c) == ScoreBedrooms(c.bedrooms, i.minBedrooms, i.maxBedrooms)
  {
  }

  lemma AverageRoundsAlike(points: int, weight: int)
    requires 0 <= points && 0 < weight
    ensures MathRound(points as real / weight as real) == RoundHalfUp(points as real / weight as real)
  {
  }

  /** The explained score is the ranked score for every interest the table admits and every candidate. */
  lemma ScoresAgree(i: Interest, c: Candidate)
    requires Allowed(i)
    ensures SqlScore(i, c) == ScoreUnitCompatibility(i, c)
  {
    PriceAgrees(i, c);
    AreaAgrees(i, c);
    BedroomsAgree(i, c);
    var s := CriterionScores(i, c);
    CriteriaInRange(i, c);
    if EvaluatedWeight(s) > 0 {
      AverageRoundsAlike(WeightedPoints(s), EvaluatedWeight(s));
    }
  }

  // ------------------------------------------------------------------------------ in literal numbers

  /** The integer nearest to a mean, ties up. */
  predicate Nearest(n: int, points: int, weight: int) {
    2 * weight * n - weight <= 2 * points < 2 * weight * n + weight
  }

  /** The price counts twice, area and bedrooms once each, and a criterion that could not be evaluated not at all. */
  predicate MeanOf(price: Option<int>, area: Option<int>, bedrooms: Option<int>, score: Option<int>) {
    match (price, area, bedrooms)
    case (None, None, None) => score == None
    case (Some(p), None, None) => score == Some(p)
    case (None, Some(a), None) => score == Some(a)
    case (None, None, Some(b)) => score == Some(b)
    case (Some(p), Some(a), None) => score.Some? && Nearest(score.value, 2 * p + a, 3)
    case (Some(p), None, Some(b)) => score.Some? && Nearest(score.value, 2 * p + b, 3)
    case (None, Some(a), Some(b)) => score.Some? && Nearest(score.value, a + b, 2)
    case (Some(p), Some(a), Some(b)) => score.Some? && Nearest(score.value, 2 * p + a + b, 4)
  }

  lemma ProductBetween(n: int, x: real, bound: real, product: real)
    requires bound > 0.0 && n as real - 0.5 <= x < n as real + 0.5 && x * bound == product
    ensures (n as real - 0.5) * bound <= product < (n as real + 0.5) * bound
  {
    var over, under := x - (n as real - 0.5), n as real + 0.5 - x;
    assert over * bound >= 0.0 && over * bound == x * bound - (n as real - 0.5) * bound;
    assert under * bound > 0.0 && under * bound == (n as real + 0.5) * bound - x * bound;
  }

  lemma MathRoundNearest(points: int, weight: int, scale: int)
    requires 0 < weight && 0 < scale
    ensures Nearest(MathRound((points * scale) as real / (weight * scale) as real), points, weight)
  {
    var x := (points * scale) as real / (weight * scale) as real;
    assert x == points as real / weight as real by {
      assert (points * scale) as real == points as real * scale as real;
      assert (weight * scale) as real == weight as real * scale as real;
    }
    NearestOf(points, weight, x);
  }

  lemma NearestOf(points: int, weight: int, x: real)
    requires 0 < weight && x * weight as real == points as real
    ensures Nearest(MathRound(x), points, weight)
  {
    NearestBetween(MathRound(x), points, weight, x);
  }

  lemma NearestBetween(n: int, points: int, weight: int, x: real)
    requires n as real - 0.5 <= x < n as real + 0.5 && 0 < weight && x * weight as real == points as real
    ensures Nearest(n, points, weight)
  {
    var low, high := 2 * weight * n - weight, 2 * weight * n + weight;
    assert low as real / 2.0 <= points as real < high as real / 2.0 by {
      ProductBetween(n, x, weight as real, points as real);
      HalfStep(n, weight);
    }
    Doubled(low, points, high);
  }

  lemma Doubled(low: int, points: int, high: int)
    requires low as real / 2.0 <= points as real < high as real / 2.0
    ensures low <= 2 * points < high
  {
  }

  lemma HalfStep(n: int, weight: int)
    ensures (n as real - 0.5) * weight as real == (2 * weight * n - weight) as real / 2.0
    ensures (n as real + 0.5) * weight as real == (2 * weight * n + weight) as real / 2.0
  {
    assert (2 * weight * n) as real == 2.0 * (n as real * weight as real) by {
      assert (weight * n) as real == weight as real * n as real;
      assert 2 * weight * n == 2 * (weight * n);
    }
  }

  lemma OverallIsMean(s: Scores)
    ensures MeanOf(s.price, s.area, s.bedrooms, Overall(s))
  {
    match s
    case Scores(None, None, None) =>
    case Scores(Some(p), None, None) => MathRoundNearest(p, 1, 50);
    case Scores(None, Some(a), None) => MathRoundNearest(a, 1, 25);
    case Scores(None, None, Some(b)) => MathRoundNearest(b, 1, 25);
    case Scores(Some(p), Some(a), None) => MathRoundNearest(2 * p + a, 3, 25);
    case Scores(Some(p), None, Some(b)) => MathRoundNearest(2 * p + b, 3, 25);
    case Scores(None, Some(a), Some(b)) => MathRoundNearest(a + b, 2, 25);
    case Scores(Some(p), Some(a), Some(b)) => MathRoundNearest(2 * p + a + b, 4, 25);
  }

  /** Both scores are that mean of the criterion points. */
  lemma ScoreIsMean(i: Interest, c: Candidate)
    requires Allowed(i)
    ensures MeanOf(SqlPriceScore(i, c), SqlAreaScore(i, c), SqlBedroomsScore(i, c), SqlScore(i, c))
    ensures MeanOf(SqlPriceScore(i, c), SqlAreaScore(i, c), SqlBedroomsScore(i, c), ScoreUnitCompatibility(i, c))
  {
    PriceAgrees(i, c);
    AreaAgrees(i, c);
    BedroomsAgree(i, c);
    ScoresAgree(i, c);
    OverallIsMean(CriterionScores(i, c));
  }

  /**
   * The points of a value outside its range: 0 at a bound of 0, else 100 less the scaled part of the bound it deviates
   * by, to the nearest integer with ties up, and never below 0.
   */
  predicate DeviationPoints(deviation: real, bound: real, scale: real, n: int) {
    if bound == 0.0 || scale * deviation > 100.0 * bound then n == 0
    else (n as real - 0.5) * bound <= 100.0 * bound - scale * deviation < (n as real + 0.5) * bound
  }

  /** The points of a value: none without a value or a bound, 100 inside the range, by the violated bound outside it. */
  predicate PointsOf(value: Option<real>, minimum: Option<real>, maximum: Option<real>, scale: real, score: Option<int>) {
    if value.None? || (minimum.None? && maximum.None?) then score == None
    else if minimum.Some? && value.value < minimum.value then
      score.Some? && DeviationPoints(minimum.value - value.value, minimum.value, scale, score.value)
    else if maximum.Some? && value.value > maximum.value then
      score.Some? && DeviationPoints(value.value - maximum.value, maximum.value, scale, score.value)
    else score == Some(100)
  }

  lemma ClampedPoints(deviation: real, bound: real, scale: real)
    requires deviation >= 0.0 && bound > 0.0 && scale > 0.0
    ensures DeviationPoints(deviation, bound, scale, ClampScore(100.0 - Times(Over(deviation, bound), scale)))
  {
    var x := 100.0 - Times(Over(deviation, bound), scale);
    OverNonNegative(deviation, bound);
    TimesNonNegative(Over(deviation, bound), scale);
    ScaledBound(deviation, bound, scale, x);
    PointsAt(deviation, bound, scale, x);
  }

  lemma PointsAt(deviation: real, bound: real, scale: real, x: real)
    requires bound > 0.0 && x <= 100.0 && x * bound == 100.0 * bound - scale * deviation
    ensures DeviationPoints(deviation, bound, scale, ClampScore(x))
  {
    if scale * deviation > 100.0 * bound {
      NegativeFactor(x, bound);
    } else {
      PositiveFactor(x, bound);
      ClampRounds(x);
      ProductBetween(ClampScore(x), x, bound, 100.0 * bound - scale * deviation);
    }
  }

  lemma ClampRounds(x: real)
    requires 0.0 <= x <= 100.0
    ensures ClampScore(x) as real - 0.5 <= x < ClampScore(x) as real + 0.5
  {
  }

  lemma ScaledBound(deviation: real, bound: real, scale: real, x: real)
    requires bound > 0.0 && x == 100.0 - Times(Over(deviation, bound), scale)
    ensures x * bound == 100.0 * bound - scale * deviation
  {
    var part := Over(deviation, bound);
    assert part * bound == deviation;
    assert part * scale * bound == scale * deviation;
  }

  lemma NegativeFactor(x: real, bound: real)
    requires bound > 0.0 && x * bound < 0.0
    ensures x < 0.0
  {
  }

  lemma PositiveFactor(x: real, bound: real)
    requires bound > 0.0 && x * bound >= 0.0
    ensures x >= 0.0
  {
  }

  lemma RangePoints(value: Option<real>, minimum: Option<real>, maximum: Option<real>, scale: real)
    requires Bounded(minimum) && Bounded(maximum) && scale > 0.0
    ensures PointsOf(value, minimum, maximum, scale, RangeScore(value, minimum, maximum, scale))
  {
    if value.Some? && minimum.Some? && 0.0 < minimum.value && value.value < minimum.value {
      ClampedPoints(minimum.value - value.value, minimum.value, scale);
    } else if value.Some? && maximum.Some? && 0.0 < maximum.value < value.value {
      ClampedPoints(value.value - maximum.value, maximum.value, scale);
    }
  }

  /** The criterion points: a price loses 10 points for each percent it deviates, an area 5, and bedrooms 50 for each one. */
  lemma CriterionPoints(i: Interest, c: Candidate)
    requires Allowed(i)
    ensures PointsOf(Some(c.price), i.minPrice, i.maxPrice, 1000.0, SqlPriceScore(i, c))
    ensures PointsOf(c.area, i.minArea, i.maxArea, 500.0, SqlAreaScore(i, c))
    ensures SqlBedroomsScore(i, c).Some? <==> c.bedrooms.Some? && (i.minBedrooms.Some? || i.maxBedrooms.Some?)
    ensures SqlBedroomsScore(i, c).Some? ==>
              var n, points := c.bedrooms.value, SqlBedroomsScore(i, c).value;
              if i.minBedrooms.Some? && n < i.minBedrooms.value then points == if n + 1 == i.minBedrooms.value then 50 else 0
              else if i.maxBedrooms.Some? && n > i.maxBedrooms.value then points == if n == i.maxBedrooms.value + 1 then 50 else 0
              else points == 100
  {
    PriceAgrees(i, c);
    AreaAgrees(i, c);
    RangePoints(Some(c.price), i.minPrice, i.maxPrice, 1000.0);
    RangePoints(c.area, i.minArea, i.maxArea, 500.0);
  }

  /** Half the points are left at 5 percent of the price bound and at 10 percent of the area bound. */
  lemma HalfwayPoints(bound: real, n: int)
    requires bound > 0.0
    ensures DeviationPoints(0.05 * bound, bound, 1000.0, n) <==> n == 50
    ensures DeviationPoints(0.1 * bound, bound, 500.0, n) <==> n == 50
  {
    HalfOf(bound, n);
  }

  lemma HalfOf(bound: real, n: int)
    requires bound > 0.0
    ensures (n as real - 0.5) * bound <= 50.0 * bound < (n as real + 0.5) * bound <==> n == 50
  {
    if n > 50 {
      assert (n as real - 0.5) * bound >= 50.5 * bound;
    } else if n < 50 {
      assert (n as real + 0.5) * bound <= 49.5 * bound;
    }
  }

  // --------------------------------------------------------------------------------------- comparison

  /** presentUnitMatch refuses a row whose score differs from the explained one. */
  function PresentUnitMatch(i: Interest, c: Candidate, rowScore: Option<int>): Outcome<Option<int>> {
    if rowScore != ScoreUnitCompatibility(i, c) then Err(Conflict) else Ok(rowScore)
  }

  lemma NeverDivergent(i: Interest, c: Candidate)
    requires Allowed(i)
    ensures PresentUnitMatch(i, c, SqlScore(i, c)).Ok?
  {
    ScoresAgree(i, c);
  }

  /** The constraint is needed: under a negative bound the SQL score is not capped and the two differ. */
  lemma NegativeBoundDiverges()
    ensures var i := Interest(None, Some(-1.0), None, None, None, None);
            var c := Candidate(1.0, None, None);
            SqlScore(i, c) == Some(2100) && ScoreUnitCompatibility(i, c) == Some(100)
  {
    assert Over(Times(2.0, 1000.0), -1.0) == -2000.0;
    assert Times(Over(2.0, -1.0), 1000.0) == -2000.0;
    assert RoundHalfUp(2100.0) == 2100;
    assert RoundHalfUp(2100.0 * 1.0) == 2100;
    assert (2100 * 50) as real / 50 as real == 2100.0;
    assert (100 * 50) as real / 50 as real == 100.0;
  }

  // ---------------------------------------------------------------------------------------- behaviour

  predicate InRange(score: Option<int>) { score.Some? ==> 0 <= score.value <= 100 }

  lemma CriteriaInRange(i: Interest, c: Candidate)
    ensures var s := CriterionScores(i, c); InRange(s.price) && InRange(s.area) && InRange(s.bedrooms)
    ensures var s := CriterionScores(i, c); 0 <= WeightedPoints(s) <= 100 * EvaluatedWeight(s)
  {
  }

  lemma AverageInRange(points: int, weight: int)
    requires 0 < weight && 0 <= points <= 100 * weight
    ensures 0 <= MathRound(points as real / weight as real) <= 100
  {
    assert 0.0 <= points as real / weight as real <= 100.0;
  }

  /** The score lies in 0..100, and is absent exactly when no criterion could be evaluated. */
  lemma ScoreInRange(i: Interest, c: Candidate)
    ensures InRange(ScoreUnitCompatibility(i, c))
    ensures ScoreUnitCompatibility(i, c).None? <==>
              && (i.minPrice.None? && i.maxPrice.None?)
              && (c.area.None? || (i.minArea.None? && i.maxArea.None?))
              && (c.bedrooms.None? || (i.minBedrooms.None? && i.maxBedrooms.None?))
  {
    CriteriaInRange(i, c);
    var s := CriterionScores(i, c);
    if EvaluatedWeight(s) > 0 {
      AverageInRange(WeightedPoints(s), EvaluatedWeight(s));
    }
  }

  /** Outside its range a criterion is 0 exactly when the bound is 0 or the scaled deviation exceeds 99.5 bounds. */
  lemma ZeroExactly(value: real, minimum: Option<real>, maximum: Option<real>, multiplier: real)
    requires Bounded(minimum) && Bounded(maximum) && multiplier >= 0.0
    requires Boundary(value, minimum, maximum).Some?
    ensures var bound := Boundary(value, minimum, maximum).value;
            RangeScore(Some(value), minimum, maximum, multiplier) == Some(0)
            <==> bound == 0.0 || Times(Over(Abs(value - bound), bound), multiplier) > 99.5
  {
    var bound := Boundary(value, minimum, maximum).value;
    if bound != 0.0 {
      var x := 100.0 - Times(Over(Abs(value - bound), bound), multiplier);
      RoundAtLeast(x, 1);
    }
  }

  /** At a deviation of a tenth of the bound the price scores 0, at a fifth the area does. */
  lemma ZeroAtTenAndTwentyPercent(value: real, minimum: Option<real>, maximum: Option<real>)
    requires Bounded(minimum) && Bounded(maximum)
    requires Boundary(value, minimum, maximum).Some?
    ensures var bound := Boundary(value, minimum, maximum).value;
            && (Abs(value - bound) >= 0.1 * bound ==> RangeScore(Some(value), minimum, maximum, PRICE_MULTIPLIER) == Some(0))
            && (Abs(value - bound) >= 0.2 * bound ==> RangeScore(Some(value), minimum, maximum, AREA_MULTIPLIER) == Some(0))
  {
    var bound := Boundary(value, minimum, maximum).value;
    ZeroExactly(value, minimum, maximum, PRICE_MULTIPLIER);
    ZeroExactly(value, minimum, maximum, AREA_MULTIPLIER);
    if bound != 0.0 {
      OverAtLeast(Abs(value - bound), bound, 0.1);
      OverAtLeast(Abs(value - bound), bound, 0.2);
    }
  }

  lemma OverAtLeast(x: real, y: real, part: real)
    requires y > 0.0
    ensures x >= part * y ==> Over(x, y) >= part
  {
    if x >= part * y {
      OverMonotone(part * y, x, y);
      assert part * y / y == part;
    }
  }

  lemma OverMonotone(x: real, z: real, y: real)
    requires x <= z && y > 0.0
    ensures Over(x, y) <= Over(z, y)
  {
  }

  /** A value further outside the same bound never scores higher. */
  lemma FurtherOutScoresLess(near: real, far: real, bound: real, multiplier: real)
    requires bound > 0.0 && multiplier >= 0.0 && Abs(near - bound) <= Abs(far - bound)
    ensures ClampScore(100.0 - Times(Over(Abs(far - bound), bound), multiplier))
         <= ClampScore(100.0 - Times(Over(Abs(near - bound), bound), multiplier)) <= 100
  {
    OverMonotone(Abs(near - bound), Abs(far - bound), bound);
    TimesMonotone(Over(Abs(near - bound), bound), Over(Abs(far - bound), bound), multiplier);
    RoundMonotone(100.0 - Times(Over(Abs(far - bound), bound), multiplier), 100.0 - Times(Over(Abs(near - bound), bound), multiplier));
  }

  /** Moving a value away from its range, down below it or up above it, never raises the criterion. */
  lemma CriterionMonotone(near: real, far: real, minimum: Option<real>, maximum: Option<real>, multiplier: real)
    requires Bounded(minimum) && Bounded(maximum) && multiplier >= 0.0
    requires minimum.Some? && maximum.Some? ==> minimum.value <= maximum.value
    requires || (far <= near && (maximum.None? || near <= maximum.value))
             || (near <= far && (minimum.None? || minimum.value <= near))
    requires minimum.Some? || maximum.Some?
    ensures RangeScore(Some(far), minimum, maximum, multiplier).value <= RangeScore(Some(near), minimum, maximum, multiplier).value
  {
    var there, here := Boundary(far, minimum, maximum), Boundary(near, minimum, maximum);
    if here.Some? && here.value != 0.0 {
      assert there == here;
      FurtherOutScoresLess(near, far, here.value, multiplier);
    }
  }

  /** A lower criterion never raises the overall score. */
  lemma OverallMonotone(s: Scores, t: Scores)
    requires s.price.Some? <==> t.price.Some?
    requires s.area.Some? <==> t.area.Some?
    requires s.bedrooms.Some? <==> t.bedrooms.Some?
    requires (s.price.Some? ==> s.price.value <= t.price.value) && (s.area.Some? ==> s.area.value <= t.area.value)
    requires s.bedrooms.Some? ==> s.bedrooms.value <= t.bedrooms.value
    ensures Overall(s).Some? <==> Overall(t).Some?
    ensures Overall(s).Some? ==> Overall(s).value <= Overall(t).value
  {
    if EvaluatedWeight(s) > 0 {
      QuotientMonotone(WeightedPoints(s), WeightedPoints(t), EvaluatedWeight(s));
    }
  }

  lemma QuotientMonotone(p: int, q: int, weight: int)
    requires p <= q && 0 < weight
    ensures MathRound(p as real / weight as real) <= MathRound(q as real / weight as real)
  {
    assert p as real / weight as real <= q as real / weight as real;
  }

  /** A unit whose price moves further out of the wanted range is never ranked with a higher score. */
  lemma PriceMovesScore(i: Interest, c: Candidate, far: real)
    requires Allowed(i) && (i.minPrice.Some? || i.maxPrice.Some?)
    requires i.minPrice.Some? && i.maxPrice.Some? ==> i.minPrice.value <= i.maxPrice.value
    requires || (far <= c.price && (i.maxPrice.None? || c.price <= i.maxPrice.value))
             || (c.price <= far && (i.minPrice.None? || i.minPrice.value <= c.price))
    ensures SqlScore(i, c.(price := far)).value <= SqlScore(i, c).value
    ensures SqlScore(i, c.(price := far)).Some? && SqlScore(i, c).Some?
  {
    ScoresAgree(i, c);
    ScoresAgree(i, c.(price := far));
    CriterionMonotone(c.price, far, i.minPrice, i.maxPrice, PRICE_MULTIPLIER);
    OverallMonotone(CriterionScores(i, c.(price := far)), CriterionScores(i, c));
  }

  /** The same for the area. */
  lemma AreaMovesScore(i: Interest, c: Candidate, far: real)
    requires Allowed(i) && c.area.Some? && (i.minArea.Some? || i.maxArea.Some?)
    requires i.minArea.Some? && i.maxArea.Some? ==> i.minArea.value <= i.maxArea.value
    requires || (far <= c.area.value && (i.maxArea.None? || c.area.value <= i.maxArea.value))
             || (c.area.value <= far && (i.minArea.None? || i.minArea.value <= c.area.value))
    ensures SqlScore(i, c.(area := Some(far))).Some? && SqlScore(i, c).Some?
    ensures SqlScore(i, c.(area := Some(far))).value <= SqlScore(i, c).value
  {
    ScoresAgree(i, c);
    ScoresAgree(i, c.(area := Some(far)));
    CriterionMonotone(c.area.value, far, i.minArea, i.maxArea, AREA_MULTIPLIER);
    OverallMonotone(CriterionScores(i, c.(area := Some(far))), CriterionScores(i, c));
  }

  /** A number of bedrooms further from the wanted ones never raises the criterion. */
  lemma BedroomsMonotone(near: int, far: int, minimum: Option<int>, maximum: Option<int>)
    requires minimum.Some? || maximum.Some?
    requires minimum.Some? && maximum.Some? ==> minimum.value <= maximum.value
    requires || (far <= near && (maximum.None? || near <= maximum.value))
             || (near <= far && (minimum.None? || minimum.value <= near))
    ensures ScoreBedrooms(Some(far), minimum, maximum).value <= ScoreBedrooms(Some(near), minimum, maximum).value
  {
  }

  /** The same for the bedrooms. */
  lemma BedroomsMoveScore(i: Interest, c: Candidate, far: int)
    requires Allowed(i) && c.bedrooms.Some? && (i.minBedrooms.Some? || i.maxBedrooms.Some?)
    requires i.minBedrooms.Some? && i.maxBedrooms.Some? ==> i.minBedrooms.value <= i.maxBedrooms.value
    requires || (far <= c.bedrooms.value && (i.maxBedrooms.None? || c.bedrooms.value <= i.maxBedrooms.value))
             || (c.bedrooms.value <= far && (i.minBedrooms.None? || i.minBedrooms.value <= c.bedrooms.value))
    ensures SqlScore(i, c.(bedrooms := Some(far))).Some? && SqlScore(i, c).Some?
    ensures SqlScore(i, c.(bedrooms := Some(far))).value <= SqlScore(i, c).value
  {
    ScoresAgree(i, c);
    ScoresAgree(i, c.(bedrooms := Some(far)));
    BedroomsMonotone(c.bedrooms.value, far, i.minBedrooms, i.maxBedrooms);
    OverallMonotone(CriterionScores(i, c.(bedrooms := Some(far))), CriterionScores(i, c));
  }
}
