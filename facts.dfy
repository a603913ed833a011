/** What the schedule guarantees: the month partition, the consecutive years,
    the chaining of residuals, the closing segment and the exact total. */
module ScheduleFacts {
  import opened Validation
  import opened Kernel
  import opened Schedule

  // ---------------------------------------------------------------------------
  // Sums

  lemma {:induction false} SumConcat(s: seq<int>, t: seq<int>)
    ensures Sum(s + t) == Sum(s) + Sum(t)
  {
    if s == [] {
      assert s + t == t;
    } else {
      assert (s + t)[1..] == s[1..] + t;
      SumConcat(s[1..], t);
    }
  }

  lemma {:induction false} SumOfFullYears(s: seq<int>)
    requires forall i :: 0 <= i < |s| ==> s[i] == MonthsInYear
    ensures Sum(s) == MonthsInYear * |s|
  {
    if s != [] {
      SumOfFullYears(s[1..]);
    }
  }

  // ---------------------------------------------------------------------------
  // The month partition

  /** The first segment covers the purchase month to December, every interior
      segment a full year, and the last one the rest of the final year (a full
      year when the purchase was in January). */
  lemma PlanShape(month: Month, years: nat)
    requires years > 0
    ensures |MonthPlan(month, years)| == (if month == 1 then years else years + 1)
    ensures MonthPlan(month, years)[0] == 13 - month
    ensures forall i :: 0 < i < |MonthPlan(month, years)| - 1 ==> MonthPlan(month, years)[i] == 12
    ensures var plan := MonthPlan(month, years);
            plan[|plan| - 1] == if month == 1 then 12 else 12 - plan[0]
  {
  }

  /** The month counts add up to twelve per depreciation year. */
  lemma PlanCoversAllMonths(month: Month, years: nat)
    requires years > 0
    ensures Sum(MonthPlan(month, years)) == MonthsInYear * years
  {
    var plan := MonthPlan(month, years);
    PlanShape(month, years);
    if month == 1 {
      SumOfFullYears(plan);
    } else {
      var middle := plan[1..years];
      assert plan == [plan[0]] + middle + [plan[years]];
      SumOfFullYears(middle);
      SumConcat([plan[0]] + middle, [plan[years]]);
      SumConcat([plan[0]], middle);
    }
  }

  // ---------------------------------------------------------------------------
  // The chain of segments

  /** Segment `i` of a chain is `calculate` applied to the end amount of segment
      `i - 1` (the starting residual for the first) and the `i`-th month count. */
  lemma {:induction false} ChainAt(purchaseAmount: int, years: int, year: int, plan: seq<int>,
                                   previousEndAmount: int, i: nat)
    requires years > 0 && i < |plan|
    ensures var c := Chain(purchaseAmount, years, year, plan, previousEndAmount);
            |c| == |plan| &&
            var start := if i == 0 then previousEndAmount else c[i - 1].endAmount;
            var part := Calculate(purchaseAmount, years, start, plan[i], i == |plan| - 1);
            c[i] == Segment(year + i, plan[i], part.depreciationAmount, part.percentage,
                            part.startAmount, part.endAmount)
    decreases |plan|
  {
    ChainShape(purchaseAmount, years, year, plan, previousEndAmount);
    if i > 0 {
      var part := Calculate(purchaseAmount, years, previousEndAmount, plan[0], |plan| == 1);
      var c := Chain(purchaseAmount, years, year, plan, previousEndAmount);
      var tail := Chain(purchaseAmount, years, year + 1, plan[1..], part.endAmount);
      assert c == [c[0]] + tail;
      ChainAt(purchaseAmount, years, year + 1, plan[1..], part.endAmount, i - 1);
      assert c[i] == tail[i - 1];
      assert c[i - 1].endAmount == if i - 1 == 0 then part.endAmount else tail[i - 2].endAmount;
    }
  }

  /** One step of building a chain front to back: with the first `index` segments
      built and the residual at the end of the last of them, `calculate` on the next
      month count gives the next segment. */
  lemma ChainExtend(purchaseAmount: int, years: int, year: int, plan: seq<int>, whole: seq<Segment>,
                    built: seq<Segment>, index: nat, endAmount: int, months: int, part: Part)
    requires years > 0 && index < |plan|
    requires whole == Chain(purchaseAmount, years, year, plan, purchaseAmount)
    requires built == whole[..index]
    requires endAmount == if index == 0 then purchaseAmount else whole[index - 1].endAmount
    requires months == plan[index]
    requires part == Calculate(purchaseAmount, years, endAmount, months, index == |plan| - 1)
    ensures built + [Segment(year + index, months, part.depreciationAmount, part.percentage,
                             part.startAmount, part.endAmount)] == whole[..index + 1]
    ensures part.endAmount == whole[index].endAmount
  {
    ChainAt(purchaseAmount, years, year, plan, purchaseAmount, index);
    assert whole[..index + 1] == whole[..index] + [whole[index]];
  }

  /** One segment per month count, in consecutive years, covering those months. */
  lemma {:induction false} ChainShape(purchaseAmount: int, years: int, year: int, plan: seq<int>,
                                      previousEndAmount: int)
    requires years > 0
    ensures var c := Chain(purchaseAmount, years, year, plan, previousEndAmount);
            |c| == |plan| &&
            (forall i :: 0 <= i < |c| ==> c[i].year == year + i) &&
            (forall i :: 0 <= i < |c| ==> c[i].depreciationMonths == plan[i])
    decreases |plan|
  {
    if plan != [] {
      var part := Calculate(purchaseAmount, years, previousEndAmount, plan[0], |plan| == 1);
      ChainShape(purchaseAmount, years, year + 1, plan[1..], part.endAmount);
    }
  }

  /** The residuals chain from segment to segment; every segment but the last
      depreciates its rounded straight-line share, and the last one depreciates
      whatever is left and ends at zero. */
  lemma {:induction false} ChainLinks(purchaseAmount: int, years: int, year: int, plan: seq<int>,
                                      previousEndAmount: int)
    requires years > 0
    ensures var c := Chain(purchaseAmount, years, year, plan, previousEndAmount);
            |c| == |plan| &&
            (|c| > 0 ==> c[0].startAmount == previousEndAmount) &&
            (forall i :: 0 <= i < |c| - 1 ==> c[i + 1].startAmount == c[i].endAmount) &&
            (forall i :: 0 <= i < |c| ==> c[i].endAmount == c[i].startAmount - c[i].depreciationAmount) &&
            (forall i :: 0 <= i < |c| ==> c[i].percentage == Divide(c[i].depreciationAmount, purchaseAmount)) &&
            (forall i :: 0 <= i < |c| - 1 ==>
               IsRoundedQuotient(c[i].depreciationAmount, purchaseAmount * plan[i], MonthsInYear * years)) &&
            (|c| > 0 ==> c[|c| - 1].depreciationAmount == c[|c| - 1].startAmount && c[|c| - 1].endAmount == 0)
    decreases |plan|
  {
    if plan != [] {
      var part := Calculate(purchaseAmount, years, previousEndAmount, plan[0], |plan| == 1);
      ChainLinks(purchaseAmount, years, year + 1, plan[1..], part.endAmount);
      OrdinaryPartRounds(purchaseAmount, years, previousEndAmount, plan[0]);
      var c := Chain(purchaseAmount, years, year, plan, previousEndAmount);
      var tail := Chain(purchaseAmount, years, year + 1, plan[1..], part.endAmount);
      assert c[1..] == tail;
      assert forall i :: 1 <= i < |c| ==> c[i] == tail[i - 1];
    }
  }

  /** A chain started from residual `previousEndAmount` depreciates exactly that much. */
  lemma {:induction false} ChainTotal(purchaseAmount: int, years: int, year: int, plan: seq<int>,
                                      previousEndAmount: int)
    requires years > 0
    requires plan != []
    ensures TotalAmount(Chain(purchaseAmount, years, year, plan, previousEndAmount)) == previousEndAmount
    decreases |plan|
  {
    var part := Calculate(purchaseAmount, years, previousEndAmount, plan[0], |plan| == 1);
    var c := Chain(purchaseAmount, years, year, plan, previousEndAmount);
    assert c[1..] == Chain(purchaseAmount, years, year + 1, plan[1..], part.endAmount);
    if |plan| > 1 {
      ChainTotal(purchaseAmount, years, year + 1, plan[1..], part.endAmount);
    }
  }

  /** A chain covers exactly the months of its plan. */
  lemma {:induction false} ChainMonths(purchaseAmount: int, years: int, year: int, plan: seq<int>,
                                       previousEndAmount: int)
    requires years > 0
    ensures TotalMonths(Chain(purchaseAmount, years, year, plan, previousEndAmount)) == Sum(plan)
    decreases |plan|
  {
    if plan != [] {
      var part := Calculate(purchaseAmount, years, previousEndAmount, plan[0], |plan| == 1);
      var c := Chain(purchaseAmount, years, year, plan, previousEndAmount);
      assert c[1..] == Chain(purchaseAmount, years, year + 1, plan[1..], part.endAmount);
      ChainMonths(purchaseAmount, years, year + 1, plan[1..], part.endAmount);
    }
  }

  /** Nothing to depreciate: every amount of the chain is zero. */
  lemma {:induction false} ChainOfNothing(years: int, year: int, plan: seq<int>)
    requires years > 0
    ensures forall i :: 0 <= i < |plan| ==>
              Chain(0, years, year, plan, 0)[i].depreciationAmount == 0 &&
              Chain(0, years, year, plan, 0)[i].endAmount == 0
    decreases |plan|
  {
    if plan != [] {
      var part := Calculate(0, years, 0, plan[0], |plan| == 1);
      assert part.depreciationAmount == 0 by {
        if |plan| > 1 {
          OrdinaryPartRounds(0, years, 0, plan[0]);
          assert 0 * plan[0] == 0;
          RoundedQuotientUnique(part.depreciationAmount, 0, 0, MonthsInYear * years);
        }
      }
      ChainOfNothing(years, year + 1, plan[1..]);
      var c := Chain(0, years, year, plan, 0);
      var rest := Chain(0, years, year + 1, plan[1..], 0);
      assert part.endAmount == 0;
      assert c == [Segment(year, plan[0], 0, part.percentage, 0, 0)] + rest;
      forall i | 0 <= i < |c|
        ensures c[i].depreciationAmount == 0 && c[i].endAmount == 0
      {
        if i > 0 {
          assert c[i] == rest[i - 1];
        } else {
          assert c[0] == Segment(year, plan[0], 0, part.percentage, 0, 0);
        }
      }
    }
  }

  // ---------------------------------------------------------------------------
  // The schedule

  /** With no depreciation years, a single immediate write-off in the purchase year. */
  lemma ZeroYearSchedule(v: Valid)
    requires v.years == 0
    ensures var s := ScheduleOf(v);
            |s| == 1 && s[0].year == v.year && s[0].depreciationMonths == 0 &&
            s[0].depreciationAmount == v.amount && s[0].startAmount == v.amount &&
            s[0].percentage == Finite(1.0) && s[0].endAmount == 0
  {
  }

  /** One segment per calendar year touched, in consecutive years from the purchase year. */
  lemma ScheduleYears(v: Valid)
    ensures var s := ScheduleOf(v);
            |s| == (if v.years == 0 then 1 else if v.month == 1 then v.years else v.years + 1) &&
            forall i :: 0 <= i < |s| ==> s[i].year == v.year + i
  {
    if v.years > 0 {
      ChainShape(v.amount, v.years, v.year, MonthPlan(v.month, v.years), v.amount);
    }
  }

  /** The months partition the depreciation period: the first segment runs from the
      purchase month, the interior ones are full years, the last one ends the period,
      and all together they cover twelve months per year. */
  lemma ScheduleMonths(v: Valid)
    ensures TotalMonths(ScheduleOf(v)) == MonthsInYear * v.years
    ensures var s := ScheduleOf(v);
            v.years > 0 ==>
              s[0].depreciationMonths == 13 - v.month &&
              (forall i :: 0 < i < |s| - 1 ==> s[i].depreciationMonths == 12) &&
              s[|s| - 1].depreciationMonths == if v.month == 1 then 12 else 12 - s[0].depreciationMonths
  {
    if v.years > 0 {
      var plan := MonthPlan(v.month, v.years);
      PlanShape(v.month, v.years);
      PlanCoversAllMonths(v.month, v.years);
      ChainShape(v.amount, v.years, v.year, plan, v.amount);
      ChainMonths(v.amount, v.years, v.year, plan, v.amount);
    }
  }

  /** The residual starts at the purchase amount, passes unchanged from each
      segment's end to the next one's start, falls by each segment's depreciation,
      reaches exactly zero, and the depreciation amounts add up to the purchase amount. */
  lemma ScheduleResiduals(v: Valid)
    ensures var s := ScheduleOf(v);
            |s| > 0 &&
            s[0].startAmount == v.amount &&
            (forall i :: 0 <= i < |s| - 1 ==> s[i + 1].startAmount == s[i].endAmount) &&
            (forall i :: 0 <= i < |s| ==> s[i].endAmount == s[i].startAmount - s[i].depreciationAmount) &&
            s[|s| - 1].endAmount == 0 &&
            TotalAmount(s) == v.amount
  {
    if v.years > 0 {
      var plan := MonthPlan(v.month, v.years);
      PlanShape(v.month, v.years);
      ChainLinks(v.amount, v.years, v.year, plan, v.amount);
      ChainTotal(v.amount, v.years, v.year, plan, v.amount);
    } else {
      var s := ScheduleOf(v);
      assert s[1..] == [];
    }
  }

  /** Every segment but the last depreciates `purchaseAmount * months / (12 * years)`
      rounded half up; the last one depreciates its whole start amount. */
  lemma ScheduleAmounts(v: Valid)
    requires v.years > 0
    ensures var s := ScheduleOf(v);
            (forall i :: 0 <= i < |s| - 1 ==>
               IsRoundedQuotient(s[i].depreciationAmount, v.amount * s[i].depreciationMonths,
                                 MonthsInYear * v.years)) &&
            s[|s| - 1].depreciationAmount == s[|s| - 1].startAmount
  {
    var plan := MonthPlan(v.month, v.years);
    PlanShape(v.month, v.years);
    ChainShape(v.amount, v.years, v.year, plan, v.amount);
    ChainLinks(v.amount, v.years, v.year, plan, v.amount);
  }

  /** Each percentage is the depreciation amount over the purchase amount, as an
      unscaled fraction; for a purchase amount of zero it is NaN (0 / 0), except in
      the zero-year case, which reports 1. */
  lemma SchedulePercentages(v: Valid)
    ensures var s := ScheduleOf(v);
            forall i :: 0 <= i < |s| ==>
              s[i].percentage ==
                if v.years == 0 then Finite(1.0)
                else if v.amount == 0 then NaN
                else Finite(s[i].depreciationAmount as real / v.amount as real)
  {
    if v.years > 0 {
      var plan := MonthPlan(v.month, v.years);
      PlanShape(v.month, v.years);
      ChainLinks(v.amount, v.years, v.year, plan, v.amount);
      if v.amount == 0 {
        ChainOfNothing(v.years, v.year, plan);
      }
    }
  }

  /** With a positive purchase amount, the percentages are the shares of the
      purchase amount, so they add up to one. */
  lemma PercentagesAddUpToOne(v: Valid)
    requires v.amount > 0
    ensures SumOfFractions(ScheduleOf(v)) == 1.0
  {
    var s := ScheduleOf(v);
    var total := TotalAmount(s);
    assert total == v.amount by {
      ScheduleResiduals(v);
    }
    assert SumOfFractions(s) == total as real / v.amount as real by {
      if v.years == 0 {
        FractionsShareTotal(s, v.amount, true);
      } else {
        SchedulePercentages(v);
        FractionsShareTotal(s, v.amount, false);
      }
    }
    WholeShare(SumOfFractions(s), total, v.amount);
  }

  lemma WholeShare(x: real, part: int, whole: int)
    requires whole > 0 && part == whole && x == part as real / whole as real
    ensures x == 1.0
  {
  }

  /** The sum of the finite percentages (a NaN or an infinity counts as zero). */
  function SumOfFractions(segments: seq<Segment>): real
  {
    if segments == [] then 0.0
    else (if segments[0].percentage.Finite? then segments[0].percentage.value else 0.0)
         + SumOfFractions(segments[1..])
  }

  lemma {:induction false} FractionsShareTotal(segments: seq<Segment>, amount: int, immediate: bool)
    requires amount > 0
    requires immediate ==> |segments| == 1 && segments[0].depreciationAmount == amount &&
                           segments[0].percentage == Finite(1.0)
    requires !immediate ==> forall i :: 0 <= i < |segments| ==>
               segments[i].percentage == Finite(segments[i].depreciationAmount as real / amount as real)
    ensures SumOfFractions(segments) == TotalAmount(segments) as real / amount as real
  {
    if immediate {
      assert segments[1..] == [];
    } else if segments != [] {
      var rest := segments[1..];
      assert forall i :: 0 <= i < |rest| ==> rest[i] == segments[i + 1];
      FractionsShareTotal(rest, amount, false);
      QuotientsAdd(segments[0].depreciationAmount, TotalAmount(rest), amount);
    }
  }

  lemma QuotientsAdd(x: int, y: int, d: int)
    requires d > 0
    ensures x as real / d as real + y as real / d as real == (x + y) as real / d as real
  {
  }
}
