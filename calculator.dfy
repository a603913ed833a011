/** `calculateDepreciation`: validates its inputs, handles the zero-year case,
    then builds the schedule one calendar year at a time. */
module Calculator {
  import opened Validation
  import opened Kernel
  import opened Schedule
  import ScheduleFacts

  /** The whole of `calculateDepreciation`: the first invalid input is reported;
      otherwise the schedule starts at the purchase amount, ends at zero, and its
      depreciation amounts add up to the purchase amount. */
  method CalculateDepreciation(input: Input) returns (r: Result<seq<Segment>>)
    ensures r == Depreciation(input)
    ensures r.Err? <==> Validate(input).Err?
    ensures r.Ok? ==>
              |r.value| > 0 &&
              r.value[0].startAmount as real == input.purchaseAmount &&
              r.value[|r.value| - 1].endAmount == 0 &&
              TotalAmount(r.value) as real == input.purchaseAmount
  {
    var checked := Validate(input);
    if checked.Err? {
      return Err(checked.field);
    }
    var v := checked.value;
    assert Depreciation(input) == Ok(ScheduleOf(v));

    if v.years == 0 {
      r := Ok([ImmediateSegment(v)]);
    } else {
      var results := YearlySegments(v.amount, v.year, v.month, v.years);
      r := Ok(results);
    }
    assert |r.value| > 0 && r.value[0].startAmount == v.amount &&
           r.value[|r.value| - 1].endAmount == 0 && TotalAmount(r.value) == v.amount by {
      ScheduleFacts.ScheduleResiduals(v);
    }
  }

  /** The loop of `calculateDepreciation` for at least one depreciation year: one
      `calculate` call per calendar year, each starting from the previous end amount,
      the last one closing the schedule. */
  method YearlySegments(purchaseAmount: nat, purchaseYear: int, purchaseMonth: Month,
                        totalDepreciationYears: nat) returns (results: seq<Segment>)
    requires totalDepreciationYears > 0
    ensures results == ScheduleOf(Valid(purchaseAmount, purchaseYear, purchaseMonth, totalDepreciationYears))
  {
    var parts := if purchaseMonth > 1 then totalDepreciationYears + 1 else totalDepreciationYears;
    var monthsInFirstYear := MonthsInYear - purchaseMonth + 1;
    var monthsInLastYear := if monthsInFirstYear == MonthsInYear then MonthsInYear
                            else MonthsInYear - monthsInFirstYear;
    var monthsInThisYear := monthsInFirstYear;
    var endAmount := purchaseAmount;
    results := [];

    ghost var plan := MonthPlan(purchaseMonth, totalDepreciationYears);
    ghost var whole := ScheduleOf(Valid(purchaseAmount, purchaseYear, purchaseMonth, totalDepreciationYears));
    assert whole == Chain(purchaseAmount, totalDepreciationYears, purchaseYear, plan, purchaseAmount);
    var index := 0;
    while index < parts
      invariant 0 <= index <= parts == |plan| == |whole|
      invariant index < parts ==> monthsInThisYear == plan[index]
      invariant results == whole[..index]
      invariant endAmount == if index == 0 then purchaseAmount else whole[index - 1].endAmount
    {
      var part := Calculate(purchaseAmount, totalDepreciationYears, endAmount, monthsInThisYear,
                            index == parts - 1);
      ScheduleFacts.ChainExtend(purchaseAmount, totalDepreciationYears, purchaseYear, plan, whole,
                                results, index, endAmount, monthsInThisYear, part);
      results := results + [Segment(purchaseYear + index, monthsInThisYear, part.depreciationAmount,
                                    part.percentage, part.startAmount, part.endAmount)];
      endAmount := part.endAmount;
      monthsInThisYear := if index + 1 == parts - 1 then monthsInLastYear else MonthsInYear;
      index := index + 1;
    }
    assert results == whole;
  }
}
