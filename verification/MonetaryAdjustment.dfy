/**
 * Monetary adjustment of a receivable: the index values of a period are multiplied into one factor, the
 * current amount is multiplied by it and rounded to the cent.  Amounts are integer cents; percentages are
 * exact rationals.
 */
module MonetaryAdjustment {
  import opened Common
  import opened Rounding

  /** A row of the index table; the DTO admits no percentage below -0.9999. */
  type Percentage = p: real | -0.9999 <= p witness 0.0

  datatype IndexValue = IndexValue(competence: int, percentage: Percentage)

  /** The active policy of a receivable with the values of its index in ascending competence. */
  datatype Policy = Policy(baseDate: int, values: seq<IndexValue>)

  datatype Calculation = Calculation(previous: int, adjusted: int, difference: int, factor: real)

  /** The values the query selects: from the later of the start and the base date up to the end. */
  function Window(values: seq<IndexValue>, from: int, to: int): (selected: seq<IndexValue>)
    ensures forall v :: v in selected <==> v in values && from <= v.competence <= to
  {
    if values == [] then []
    else
      var rest := Window(values[1..], from, to);
      assert values == [values[0]] + values[1..];
      if from <= values[0].competence <= to then [values[0]] + rest else rest
  }

  function Factor(values: seq<IndexValue>): (f: real)
    ensures f > 0.0
  {
    if values == [] then 1.0
    else
      var front := Factor(values[..|values| - 1]);
      TimesPositive(front, 1.0 + values[|values| - 1].percentage);
      Times(front, 1.0 + values[|values| - 1].percentage)
  }

  function Adjusted(previous: int, values: seq<IndexValue>): int {
    RoundHalfUp(Times(previous as real, Factor(values)))
  }

  /** The first competence a policy lets into the factor. */
  function EffectiveStart(policy: Policy, start: int): int {
    if start < policy.baseDate then policy.baseDate else start
  }

  function Calculate(previous: int, policy: Policy, start: int, end: int): Outcome<Calculation> {
    var values := Window(policy.values, EffectiveStart(policy, start), end);
    if start > end then Err(BadRequest)
    else if values == [] then Err(BadRequest)
    else
      var adjusted := Adjusted(previous, values);
      Ok(Calculation(previous, adjusted, adjusted - previous, Factor(values)))
  }

  /** One index value is a factor of one plus its percentage; FactorConcat then gives every list. */
  lemma FactorOfOne(v: IndexValue)
    ensures Factor([v]) == 1.0 + v.percentage
  {
    assert [v][..0] == [];
  }

  /** The adjusted amount is the exact product to the nearest cent. */
  lemma AdjustedIsNearest(previous: int, values: seq<IndexValue>)
    ensures -0.5 <= Adjusted(previous, values) as real - Times(previous as real, Factor(values)) <= 0.5
  {
  }

  /** The selection repeats and drops nothing of the period. */
  lemma {:induction false} WindowCounts(values: seq<IndexValue>, from: int, to: int, v: IndexValue)
    ensures multiset(Window(values, from, to))[v] == if from <= v.competence <= to then multiset(values)[v] else 0
  {
    if values != [] {
      WindowCounts(values[1..], from, to, v);
      assert values == [values[0]] + values[1..];
    }
  }

  /** The accumulation loop of the calculation: one multiplication for each selected value. */
  method AccumulateFactor(values: seq<IndexValue>) returns (factor: real)
    ensures factor == Factor(values)
  {
    factor := 1.0;
    for i := 0 to |values|
      invariant factor == Factor(values[..i])
    {
      assert values[..i + 1][..i] == values[..i];
      factor := Times(factor, 1.0 + values[i].percentage);
    }
    assert values[..|values|] == values;
  }

  lemma {:induction false} FactorConcat(a: seq<IndexValue>, b: seq<IndexValue>)
    ensures Factor(a + b) == Times(Factor(a), Factor(b))
  {
    if b == [] {
      assert a + b == a;
    } else {
      var front, last := b[..|b| - 1], b[|b| - 1];
      assert (a + b)[..|a + b| - 1] == a + front;
      FactorConcat(a, front);
      TimesAssociates(Factor(a), Factor(front), 1.0 + last.percentage);
    }
  }

  /**
   * Applying two consecutive periods one after the other differs from applying both at once by at most half a
   * cent carried through the second factor, plus one cent of final rounding.
   */
  lemma ConsecutivePeriods(previous: int, first: seq<IndexValue>, second: seq<IndexValue>)
    ensures var drift := Adjusted(Adjusted(previous, first), second) as real - Adjusted(previous, first + second) as real;
            -(0.5 * Factor(second) + 1.0) <= drift <= 0.5 * Factor(second) + 1.0
  {
    var g := Factor(second);
    var exact, rounded := Times(previous as real, Factor(first)), Adjusted(previous, first) as real;
    FactorConcat(first, second);
    TimesAssociates(previous as real, Factor(first), g);
    TimesOfHalf(rounded - exact, g);
    TimesDistributes(rounded, exact, g);
    RoundDrift(Times(rounded, g), Times(exact, g), 0.5 * g);
  }

  ghost predicate Ascending(values: seq<IndexValue>) {
    forall i, j :: 0 <= i < j < |values| ==> values[i].competence < values[j].competence
  }

  lemma {:induction false} WindowOfLater(values: seq<IndexValue>, from: int, to: int)
    requires forall i :: 0 <= i < |values| ==> to < values[i].competence
    ensures Window(values, from, to) == []
  {
    if values != [] {
      WindowOfLater(values[1..], from, to);
    }
  }

  lemma Regroup(a: seq<IndexValue>, b: seq<IndexValue>, c: seq<IndexValue>)
    ensures (a + b) + c == a + (b + c)
  {
  }

  lemma WindowFirst(values: seq<IndexValue>, from: int, to: int)
    requires values != []
    ensures Window(values, from, to) == (if from <= values[0].competence <= to then [values[0]] else []) + Window(values[1..], from, to)
  {
  }

  /** Two windows that meet are one window: the values are in ascending competence. */
  lemma {:induction false} WindowsJoin(values: seq<IndexValue>, from: int, middle: int, to: int)
    requires Ascending(values) && from <= middle + 1 && middle <= to
    ensures Window(values, from, middle) + Window(values, middle + 1, to) == Window(values, from, to)
  {
    if values != [] {
      var first, rest := values[0], values[1..];
      AscendingRest(values);
      WindowsJoin(rest, from, middle, to);
      WindowFirst(values, from, middle);
      WindowFirst(values, middle + 1, to);
      WindowFirst(values, from, to);
      if middle < first.competence {
        WindowOfLater(rest, from, middle);
      } else {
        Regroup(if from <= first.competence then [first] else [], Window(rest, from, middle), Window(rest, middle + 1, to));
      }
    }
  }

  lemma AscendingRest(values: seq<IndexValue>)
    requires Ascending(values) && values != []
    ensures Ascending(values[1..]) && forall i :: 0 <= i < |values[1..]| ==> values[0].competence < values[1..][i].competence
  {
  }

  /**
   * Calculating up to a competence and on from the next one differs from calculating both at once by at most half a cent
   * carried through the factor of the second period, plus one cent.
   */
  lemma ConsecutiveCalculations(previous: int, policy: Policy, start: int, middle: int, end: int)
    requires Ascending(policy.values) && middle <= end
    requires Calculate(previous, policy, start, middle).Ok?
    requires Calculate(Calculate(previous, policy, start, middle).value.adjusted, policy, middle + 1, end).Ok?
    ensures Calculate(previous, policy, start, end).Ok?
    ensures var first := Calculate(previous, policy, start, middle).value;
            var second := Calculate(first.adjusted, policy, middle + 1, end).value;
            var drift := second.adjusted as real - Calculate(previous, policy, start, end).value.adjusted as real;
            -(0.5 * second.factor + 1.0) <= drift <= 0.5 * second.factor + 1.0
  {
    var from := EffectiveStart(policy, start);
    var first := Window(policy.values, from, middle);
    assert first[0] in first && from <= first[0].competence <= middle;
    WindowsJoin(policy.values, from, middle, end);
    ConsecutivePeriods(previous, first, Window(policy.values, middle + 1, end));
  }

  /** An index period without deflation never lowers a non-negative amount. */
  lemma InflationNeverLowers(previous: int, values: seq<IndexValue>)
    requires 0 <= previous
    requires forall v :: v in values ==> v.percentage >= 0.0
    ensures Adjusted(previous, values) >= previous
  {
    InflationFactor(values);
    TimesMonotone(1.0, Factor(values), previous as real);
    TimesCommutes(Factor(values), previous as real);
    RoundExact(previous);
    RoundMonotone(previous as real, Times(previous as real, Factor(values)));
  }

  lemma {:induction false} InflationFactor(values: seq<IndexValue>)
    requires forall v :: v in values ==> v.percentage >= 0.0
    ensures Factor(values) >= 1.0
  {
    if values != [] {
      var front, last := values[..|values| - 1], values[|values| - 1];
      assert last in values;
      assert forall v :: v in front ==> v in values;
      InflationFactor(front);
      TimesMonotone(1.0, 1.0 + last.percentage, Factor(front));
      TimesCommutes(1.0 + last.percentage, Factor(front));
    }
  }

  /** A non-negative amount stays non-negative under any admitted index. */
  lemma AdjustedNonNegative(previous: int, values: seq<IndexValue>)
    requires 0 <= previous
    ensures 0 <= Adjusted(previous, values)
  {
  }
}
