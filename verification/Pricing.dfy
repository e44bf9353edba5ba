/**
 * Pricing of a proposal version and its way into a sale: the validated conditions become the payment plan, and the
 * plan becomes receivables.  Inputs are exact rationals in currency units; validated values are integer cents.
 */
module Pricing {
  import opened Common
  import opened Rounding
  import opened Sums
  import opened Installments

  /** A payment condition as the request states it. */
  datatype Condition = Condition(kind: ConditionType, amount: real, installments: Option<int>,
                                 firstDueDate: Option<Calendar.Instant>, intervalMonths: Option<int>)

  datatype Priced = Priced(basePrice: int, discount: int, finalPrice: int, downPayment: int, amounts: seq<int>)

  /** toDecimalPlaces(2), counted in cents. */
  function Money(value: real): int {
    RoundHalfUp(value * 100.0)
  }

  function MoneyOf(conditions: seq<Condition>): seq<int> {
    seq(|conditions|, i requires 0 <= i < |conditions| => Money(conditions[i].amount))
  }

  /** The reduction over the conditions that keeps the ENTRADA amounts. */
  function DownPayment(conditions: seq<Condition>, amounts: seq<int>): int
    requires |amounts| == |conditions|
  {
    if conditions == [] then 0
    else
      var last := |conditions| - 1;
      var front := DownPayment(conditions[..last], amounts[..last]);
      if conditions[last].kind == Entrada then front + amounts[last] else front
  }

  function ValidatePricing(base: real, discount: real, conditions: seq<Condition>): Outcome<Priced> {
    var basePrice, discountCents := Money(base), Money(discount);
    if basePrice < 0 || discountCents < 0 then Err(BadRequest)
    else if discountCents > basePrice then Err(BadRequest)
    else
      var amounts := MoneyOf(conditions);
      if exists i | 0 <= i < |amounts| :: amounts[i] < 0 then Err(BadRequest)
      else if Sum(amounts) != basePrice - discountCents then Err(BadRequest)
      else Ok(Priced(basePrice, discountCents, basePrice - discountCents, DownPayment(conditions, amounts), amounts))
  }

  function AssertPaymentPlan(finalPrice: int, amounts: seq<int>): Outcome<()> {
    if |amounts| == 0 then Err(Conflict)
    else if Sum(amounts) != finalPrice then Err(Conflict)
    else Ok(())
  }

  lemma {:induction false} DownPaymentBounded(conditions: seq<Condition>, amounts: seq<int>)
    requires |amounts| == |conditions|
    requires forall i :: 0 <= i < |amounts| ==> 0 <= amounts[i]
    ensures 0 <= DownPayment(conditions, amounts) <= Sum(amounts)
  {
    if conditions != [] {
      var last := |conditions| - 1;
      DownPaymentBounded(conditions[..last], amounts[..last]);
    }
  }

  /** The down payment of a list is the sum of its parts, so with the next lemma that of its ENTRADA conditions. */
  lemma {:induction false} DownPaymentAdds(before: seq<Condition>, xs: seq<int>, after: seq<Condition>, ys: seq<int>)
    requires |xs| == |before| && |ys| == |after|
    ensures DownPayment(before + after, xs + ys) == DownPayment(before, xs) + DownPayment(after, ys)
  {
    if after == [] {
      assert before + after == before && xs + ys == xs;
    } else {
      var last := |after| - 1;
      assert (before + after)[..|before| + last] == before + after[..last];
      assert (xs + ys)[..|before| + last] == xs + ys[..last];
      DownPaymentAdds(before, xs, after[..last], ys[..last]);
    }
  }

  /** Only conditions of type ENTRADA move the down payment; without them it is zero, with them alone it is all. */
  lemma {:induction false} DownPaymentIsEntrada(conditions: seq<Condition>, amounts: seq<int>)
    requires |amounts| == |conditions|
    ensures (forall i :: 0 <= i < |conditions| ==> conditions[i].kind != Entrada) ==> DownPayment(conditions, amounts) == 0
    ensures (forall i :: 0 <= i < |conditions| ==> conditions[i].kind == Entrada) ==> DownPayment(conditions, amounts) == Sum(amounts)
  {
    if conditions != [] {
      var last := |conditions| - 1;
      DownPaymentIsEntrada(conditions[..last], amounts[..last]);
    }
  }

  /**
   * A pricing is accepted exactly when the discount is between zero and the base price, no condition is negative, and the
   * conditions sum to what is left of the price, all in cents rounded half away from zero; what it gives are those cents.
   */
  lemma PricingExactly(base: real, discount: real, conditions: seq<Condition>, cents: seq<int>)
    requires |cents| == |conditions|
    requires forall i :: 0 <= i < |cents| ==> cents[i] == RoundHalfUp(conditions[i].amount * 100.0)
    ensures ValidatePricing(base, discount, conditions).Ok? <==>
              && 0 <= RoundHalfUp(discount * 100.0) <= RoundHalfUp(base * 100.0)
              && (forall i :: 0 <= i < |cents| ==> 0 <= cents[i])
              && Sum(cents) == RoundHalfUp(base * 100.0) - RoundHalfUp(discount * 100.0)
    ensures ValidatePricing(base, discount, conditions).Ok? ==>
              var p := ValidatePricing(base, discount, conditions).value;
              && p.basePrice == RoundHalfUp(base * 100.0) && p.discount == RoundHalfUp(discount * 100.0)
              && p.amounts == cents && p.downPayment == DownPayment(conditions, cents)
  {
    assert cents == MoneyOf(conditions);
  }

  /**
   * What an accepted pricing conserves: the conditions sum to the base price minus the discount, the down payment
   * is part of it, and every value meets the constraints of the version table (financial values not negative, the
   * price arithmetic, the limit of the down payment).
   */
  lemma PricingConserves(base: real, discount: real, conditions: seq<Condition>)
    requires ValidatePricing(base, discount, conditions).Ok?
    ensures var p := ValidatePricing(base, discount, conditions).value;
            && Sum(p.amounts) == p.finalPrice == p.basePrice - p.discount
            && |p.amounts| == |conditions|
            && 0 <= p.discount <= p.basePrice
            && 0 <= p.downPayment <= p.finalPrice
            && (forall i :: 0 <= i < |p.amounts| ==> 0 <= p.amounts[i])
            && (AssertPaymentPlan(p.finalPrice, p.amounts).Ok? <==> conditions != [])
  {
    DownPaymentBounded(conditions, MoneyOf(conditions));
  }

  /** The plan rows a conversion copies from the accepted version; ids are the rows of the plan table. */
  function PlansOf(conditions: seq<Condition>, amounts: seq<int>, firstId: Id): seq<Plan>
    requires |amounts| == |conditions|
  {
    seq(|conditions|, i requires 0 <= i < |conditions| =>
      Plan(firstId + i, conditions[i].kind, amounts[i], conditions[i].installments,
           conditions[i].firstDueDate, conditions[i].intervalMonths))
  }

  /** The receivables a conversion creates for an accepted version, if it gets that far. */
  function Convert(p: Priced, conditions: seq<Condition>, firstId: Id, due: Schedule): Outcome<seq<Row>>
    requires |p.amounts| == |conditions|
  {
    match AssertPaymentPlan(p.finalPrice, p.amounts)
    case Err(e) => Err(e)
    case Ok(_) => Generate({}, PlansOf(conditions, p.amounts, firstId), due)
  }

  /**
   * Money is conserved from proposal to installments: whatever an accepted proposal converts into sums to its base
   * price minus its discount, each installment at least one cent.
   */
  lemma ProposalToInstallments(base: real, discount: real, conditions: seq<Condition>, firstId: Id, due: Schedule)
    requires ValidatePricing(base, discount, conditions).Ok?
    requires Convert(ValidatePricing(base, discount, conditions).value, conditions, firstId, due).Ok?
    ensures var p := ValidatePricing(base, discount, conditions).value;
            var created := Convert(p, conditions, firstId, due).value;
            && Sum(Amounts(created)) == p.basePrice - p.discount
            && (forall i :: 0 <= i < |created| ==> 1 <= created[i].amount)
            && created != []
  {
    var p := ValidatePricing(base, discount, conditions).value;
    var plans := PlansOf(conditions, p.amounts, firstId);
    PricingConserves(base, discount, conditions);
    GenerateConserves(plans, due);
    assert Totals(plans) == p.amounts;
    GenerateAllWanted({}, plans, due, (firstId, 1)) by {
      GenerateSucceeds({}, plans, due);
      assert plans[0] in plans && Splittable(plans[0]);
    }
  }

  /** When an accepted proposal can be converted: it has conditions, and each leaves a cent for each installment. */
  lemma ConvertibleExactly(base: real, discount: real, conditions: seq<Condition>, firstId: Id, due: Schedule)
    requires ValidatePricing(base, discount, conditions).Ok?
    ensures var p := ValidatePricing(base, discount, conditions).value;
            Convert(p, conditions, firstId, due).Ok?
            <==> conditions != [] && forall i :: 0 <= i < |conditions| ==> Splittable(PlansOf(conditions, p.amounts, firstId)[i])
  {
    var p := ValidatePricing(base, discount, conditions).value;
    var plans := PlansOf(conditions, p.amounts, firstId);
    PricingConserves(base, discount, conditions);
    GenerateSucceeds({}, plans, due);
    assert forall i :: 0 <= i < |plans| ==> plans[i] in plans;
  }

  /** A condition of zero passes the pricing rules of a proposal and then blocks its conversion. */
  lemma ZeroConditionBlocksConversion(firstId: Id, due: Schedule)
    ensures var conditions := [Condition(Entrada, 100.0, None, None, None), Condition(Outro, 0.0, None, None, None)];
            && ValidatePricing(100.0, 0.0, conditions).Ok?
            && Convert(ValidatePricing(100.0, 0.0, conditions).value, conditions, firstId, due).Err?
  {
    var conditions := [Condition(Entrada, 100.0, None, None, None), Condition(Outro, 0.0, None, None, None)];
    assert MoneyOf(conditions) == [10000, 0];
    assert [10000, 0][..1] == [10000] && [10000][..0] == [];
    assert Sum([10000, 0]) == 10000;
    ConvertibleExactly(100.0, 0.0, conditions, firstId, due);
    var p := ValidatePricing(100.0, 0.0, conditions).value;
    assert !Splittable(PlansOf(conditions, p.amounts, firstId)[1]);
  }
}
