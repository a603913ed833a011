/** The depreciation schedule that `calculateDepreciation` returns, defined as
    pure functions: the month counts of the calendar-year segments, the chain
    of segments built with `calculate`, and the zero-year special case. */
module Schedule {
  import opened Validation
  import opened Kernel

  /** One calendar year of the schedule (`DepreciationResult`). */
  datatype Segment = Segment(year: int, depreciationMonths: int, depreciationAmount: int,
                             percentage: Ratio, startAmount: int, endAmount: int)

  /** The number of segments: one more than the years when the purchase month
      leaves a trailing partial year. */
  function Parts(month: Month, years: nat): nat
  {
    if month > 1 then years + 1 else years
  }

  /** The months from the purchase month to the end of its year. */
  function FirstYearMonths(month: Month): int
  {
    MonthsInYear - month + 1
  }

  /** The months of the trailing partial year, or a full year when the purchase
      was in January. */
  function LastYearMonths(month: Month): int
  {
    var first := FirstYearMonths(month);
    if first == MonthsInYear then MonthsInYear else MonthsInYear - first
  }

  /** The months covered by segment `index`: the first year's months for the
      first segment, then, after each step, the last year's months when the next
      segment is the last one and twelve otherwise. */
  function MonthsAt(month: Month, years: nat, index: nat): int
  {
    if index == 0 then FirstYearMonths(month)
    else if index == Parts(month, years) - 1 then LastYearMonths(month)
    else MonthsInYear
  }

  /** The month counts of all segments, in order. */
  function MonthPlan(month: Month, years: nat): (plan: seq<int>)
    ensures |plan| == Parts(month, years)
  {
    seq(Parts(month, years), i requires 0 <= i => MonthsAt(month, years, i))
  }

  /** The segments for the remaining month counts `plan`, the first of them in
      `year` and starting from residual `previousEndAmount`; the segment for the
      last entry of `plan` is the closing part. */
  function Chain(purchaseAmount: int, years: int, year: int, plan: seq<int>,
                 previousEndAmount: int): (segments: seq<Segment>)
    requires years > 0
    ensures |segments| == |plan|
    decreases |plan|
  {
    if plan == [] then []
    else
      var part := Calculate(purchaseAmount, years, previousEndAmount, plan[0], |plan| == 1);
      [Segment(year, plan[0], part.depreciationAmount, part.percentage, part.startAmount, part.endAmount)]
        + Chain(purchaseAmount, years, year + 1, plan[1..], part.endAmount)
  }

  /** The segment for a zero-year depreciation: all of it at once, in the
      purchase year, over zero months. */
  function ImmediateSegment(v: Valid): (s: Segment)
    ensures s.year == v.year && s.depreciationMonths == 0
    ensures s.startAmount == v.amount && s.endAmount == 0
    ensures s.endAmount == s.startAmount - s.depreciationAmount
    ensures s.percentage == Finite(1.0)
  {
    Segment(v.year, 0, v.amount, Finite(1.0), v.amount, 0)
  }

  /** The schedule for validated inputs: one immediate segment without
      depreciation years, otherwise one segment per calendar year touched,
      the first in the purchase year and starting at the purchase amount. */
  function ScheduleOf(v: Valid): (s: seq<Segment>)
    ensures |s| == if v.years == 0 then 1 else Parts(v.month, v.years)
    ensures |s| > 0 && s[0].year == v.year && s[0].startAmount == v.amount
  {
    if v.years == 0 then [ImmediateSegment(v)]
    else Chain(v.amount, v.years, v.year, MonthPlan(v.month, v.years), v.amount)
  }

  /** `calculateDepreciation` as a function: validate, then build the schedule.
      The error is that of the first failing guard; a schedule is never empty
      and starts in the purchase year at the purchase amount. */
  function Depreciation(input: Input): (r: Result<seq<Segment>>)
    ensures r.Err? <==> Validate(input).Err?
    ensures r.Err? ==> r.field == Validate(input).field
    ensures r.Ok? ==> |r.value| > 0 && r.value[0].startAmount as real == input.purchaseAmount &&
                      input.purchaseDate.Date? && r.value[0].year == input.purchaseDate.year
  {
    match Validate(input)
    case Err(field) => Err(field)
    case Ok(v) => Ok(ScheduleOf(v))
  }

  /** The sum of the depreciation amounts. */
  function TotalAmount(segments: seq<Segment>): int
  {
    if segments == [] then 0 else segments[0].depreciationAmount + TotalAmount(segments[1..])
  }

  /** The sum of the depreciation months. */
  function TotalMonths(segments: seq<Segment>): int
  {
    if segments == [] then 0 else segments[0].depreciationMonths + TotalMonths(segments[1..])
  }

  function Sum(s: seq<int>): int
  {
    if s == [] then 0 else s[0] + Sum(s[1..])
  }
}
