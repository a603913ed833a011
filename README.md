# Asset depreciation calculator — a verified model

This project models the straight-line depreciation calculator of
`src/index.ts` in Dafny. Its inputs are a purchase amount, a purchase date
and a number of depreciation years. `calculateDepreciation` validates them,
then builds one segment per calendar year that the depreciation period
touches. Each segment records:

- the year;
- the months of that year that are depreciated;
- the depreciated amount and its percentage of the purchase amount;
- the residual value at the start and at the end of the segment.

The modules follow the parts of the source:

- `Validation` (`validation.dfy`) holds the three guards `assertPurchaseAmount`,
  `assertPurchaseDate` and `assertDepreciationYears`, and the order in which
  `calculateDepreciation` runs them. Amounts and years are JavaScript numbers,
  so they are modelled as `real`. `x % 1` is JavaScript's truncating remainder.
  An error is reported as the name of the field that failed.
- `Kernel` (`kernel.dfy`) holds the per-segment `calculate`. For the
  `Math.round(purchaseAmount / years / 12 * months)` of a non-last segment, the
  model uses exact half-up integer rounding of
  `purchaseAmount * months / (12 * years)`. A lemma proves it equal to
  `Math.round` applied to the exact real value of the source's expression.
  Percentages are JavaScript divisions: a finite quotient, an infinity, or NaN.
- `Schedule` (`schedule.dfy`) defines the schedule as pure functions:
  - the month count of each segment;
  - the chain of `calculate` calls, each starting from the previous end amount;
  - the zero-year branch.
- `Calculator` (`calculator.dfy`) holds `calculateDepreciation` as a method,
  with the source's loop over the segments. The loop updates the running end
  amount and the months of the next year, and appends to the result sequence.
  The method is proved equal to the schedule function.
- `ScheduleFacts` (`facts.dfy`) proves what the schedule guarantees:
  - the segment count and consecutive years;
  - the month partition;
  - the chaining of residuals;
  - the rounded share of each ordinary segment;
  - the closing segment and the exact total;
  - the percentages.
- `Scenarios` (`scenarios.dfy`) proves the schedules of concrete inputs exactly:
  - the test-suite inputs, as the code computes them;
  - the two rounding examples in the comment of `calculate`;
  - an input whose residual goes negative.

Line 100 of the source declares `monthsInFirstYear`, but lines 101 and 103
read `monthInFirstYear`. The model treats them as the same variable, the
month count of the first year.

Where the test file and the code disagree, the model follows the code:

- The code does not round amounts to two decimals. It rounds them to whole units.
- The code gives percentages as fractions, not on a 0–100 scale.
- The code has no immediate write-off below 800.
- The code accepts zero depreciation years; it does not reject them.

The code also does not keep residuals non-negative: 5 over 7 years from January
ends its sixth segment at −1 (`Scenarios.ResidualGoesNegative`).

## Model

| member | source | states |
|---|---|---|
| Validation.RemainderOne | src/index.ts:20 | `x % 1` lies strictly between −1 and 1, is non-negative for non-negative `x`, and is zero exactly when `x` is a whole number |
| Validation.PurchaseAmountOk | src/index.ts:19-23 | the purchase amount passes exactly when it is non-negative and whole |
| Validation.PurchaseDateOk | src/index.ts:25-29 | the date passes exactly when it is a valid date |
| Validation.DepreciationYearsOk | src/index.ts:31-35 | the years pass exactly when they are non-negative and whole, so zero passes |
| Validation.Validate | src/index.ts:78-80 | the amount is reported iff it is invalid; the date iff the amount is valid and the date is not; the years iff amount and date are valid and the years are not; on success the validated values equal the inputs |
| Kernel.Divide | src/index.ts:59 | a JavaScript quotient: for a non-zero divisor a finite value that multiplies back to the dividend; 0 / 0 is NaN; any other number over 0 is an infinity with the dividend's sign |
| Kernel.MathRound | src/index.ts:49 | `Math.round` yields the integer within half of `x`, with halves rounded up |
| Kernel.RoundHalfUp | src/index.ts:49 | the integer result is `n / d` rounded half up (`2dr − d ≤ 2n < 2dr + d`) |
| Kernel.RoundedQuotientUnique | src/index.ts:49 | at most one integer is `n / d` rounded half up |
| Kernel.RoundHalfUpIsMathRound | src/index.ts:49 | integer rounding equals `Math.round` of the exact quotient |
| Kernel.StraightLineShare | src/index.ts:49 | `purchaseAmount / years / 12 * months` equals `purchaseAmount * months / (12 * years)` on exact reals |
| Kernel.Calculate | src/index.ts:37-71 | a part starts at the previous end amount; it ends at the start minus the depreciation; its percentage is depreciation over purchase amount; the last part depreciates the whole previous residual and ends at 0 |
| Kernel.OrdinaryPartRounds | src/index.ts:49-50 | a non-last part depreciates `purchaseAmount * months / (12 * years)` rounded half up, which is `Math.round` of the source's expression |
| Schedule.MonthPlan | src/index.ts:99-103 | there is one month count per segment: `years + 1` segments after a purchase later than January, `years` otherwise |
| Schedule.Chain | src/index.ts:106-116 | the chain has one segment per month count |
| Schedule.ImmediateSegment | src/index.ts:88-97 | the zero-year segment lies in the purchase year, covers 0 months, starts at the purchase amount, depreciates all of it (end = start − depreciation) to end at 0, and has percentage 1 |
| Schedule.ScheduleOf | src/index.ts:86-118 | there is 1 segment without depreciation years and one per month count otherwise (`years + 1` after a purchase later than January, `years` otherwise); the first is in the purchase year and starts at the purchase amount |
| Schedule.Depreciation | src/index.ts:73-119 | the result is an error exactly when validation fails, and then reports the same field; otherwise the schedule is non-empty, its first segment is in the purchase year and starts at the purchase amount |
| ScheduleFacts.PlanShape | src/index.ts:99-103 | the first segment covers `13 − month` months; interior segments cover 12; the last covers `12 − first`, or 12 after a January purchase |
| ScheduleFacts.PlanCoversAllMonths | src/index.ts:99-103 | the month counts add up to `12 × years` |
| ScheduleFacts.ChainAt | src/index.ts:106-113 | segment `i` is `calculate` on the end amount of segment `i − 1` (the starting residual for `i = 0`), in year `start + i`, over the `i`-th month count |
| ScheduleFacts.ChainExtend | src/index.ts:107-113 | appending the next `calculate` result to the first `index` segments gives the first `index + 1`, and its end amount is the next starting residual |
| ScheduleFacts.ChainShape | src/index.ts:107-110 | segment `i` lies in year `start + i` and covers the `i`-th month count |
| ScheduleFacts.ChainLinks | src/index.ts:50-70 | the chain starts from the given residual; each start equals the previous end; each end is start minus depreciation; percentages are depreciation over purchase amount; non-last amounts are the rounded share; the last depreciates its start and ends at 0 |
| ScheduleFacts.ChainTotal | src/index.ts:56-63 | a chain started from residual `e` depreciates exactly `e` in total |
| ScheduleFacts.ChainMonths | src/index.ts:110 | a chain's depreciation months add up to its month counts |
| ScheduleFacts.ChainOfNothing | src/index.ts:49-70 | with a purchase amount of 0, every amount and residual of the chain is 0 |
| ScheduleFacts.ZeroYearSchedule | src/index.ts:88-97 | with 0 years the schedule is one segment in the purchase year: 0 months, the whole amount depreciated, percentage 1, ending at 0 |
| ScheduleFacts.ScheduleYears | src/index.ts:99-109 | there is 1 segment for 0 years, `years` after a January purchase, `years + 1` otherwise; segment `i` is in year `purchaseYear + i` |
| ScheduleFacts.ScheduleMonths | src/index.ts:100-115 | the months total `12 × years`; the first segment covers `13 − month`; interior ones cover 12; the last covers `12 − first`, or 12 after January |
| ScheduleFacts.ScheduleResiduals | src/index.ts:86-113 | the first start is the purchase amount; each start equals the previous end; each end is start minus depreciation; the last end is 0; the amounts sum to the purchase amount |
| ScheduleFacts.ScheduleAmounts | src/index.ts:49-63 | every non-last amount is `purchaseAmount * months / (12 * years)` rounded half up; the last one is its start amount |
| ScheduleFacts.SchedulePercentages | src/index.ts:59-67 | each percentage is the unscaled fraction depreciation / purchase amount; it is NaN for an amount of 0; it is 1 in the zero-year branch |
| ScheduleFacts.PercentagesAddUpToOne | src/index.ts:59-67 | for a positive purchase amount, the percentages add up to exactly 1 on exact reals (not necessarily in double arithmetic) |
| Calculator.CalculateDepreciation | src/index.ts:73-119 | the method's result equals the specification; it is an error exactly when validation fails; otherwise it is non-empty, starts at the purchase amount, ends at 0 and depreciates exactly the purchase amount |
| Calculator.YearlySegments | src/index.ts:99-118 | the loop over the segments yields exactly the chain of `calculate` results over the month plan |
| Scenarios.AugustPurchase | src/index.spec.ts:6-54 | 20000 from August 2016 over 5 years: months 5, 12, 12, 12, 12, 7 in years 2016–2021, amounts 1667, 4000 ×4, 2333 |
| Scenarios.JanuaryPurchase | src/index.spec.ts:56-97 | 20000 from January 2016 over 5 years: five segments of 12 months and 4000, residuals 20000 → 0 |
| Scenarios.DecemberPurchase | src/index.spec.ts:99-147 | 20000 from December 2016 over 5 years: months 1, 12 ×4, 11; amounts 333, 4000 ×4, 3667 |
| Scenarios.OneYearFromJanuary | src/index.spec.ts:149-162 | 20000 over one year from January: one segment of 12 months, 20000, percentage 1 |
| Scenarios.OneYearFromMay | src/index.spec.ts:164-184 | 20000 over one year from May: 8 months and 13333, then 4 months and 6667 |
| Scenarios.ThirtyOneOverThree | src/index.ts:52-53 | 31 over three years: 10, 10, 11, with the closing part absorbing the rounding |
| Scenarios.TwentyNineOverThree | src/index.ts:54-55 | 29 over three years: 10, 10, 9, with the last part the remaining residual |
| Scenarios.LowValueIsNotWrittenOff | src/index.spec.ts:186-199 | 799 from May over 5 years is spread over six segments (107, 160 ×4, 52), not written off at once |
| Scenarios.ResidualGoesNegative | src/index.ts:49-70 | 5 from January over 7 years: the sixth segment ends at −1, and the last depreciates −1 and ends above its start |
| Scenarios.ZeroYears | src/index.ts:88-97 | 20000 with 0 years is one immediate segment; it is not an error |
| Scenarios.InvalidInputs | src/index.spec.ts:203-212 | −1 and 20000.5 fail on the amount, and so does an input where everything is invalid; an invalid date fails on the date; 1.5 and −1 years fail on the years |

## Left out

- Date handling is left out. This covers constructing a `Date`, `getMonth()` / `getFullYear()` with their local time-zone dependence, and the NaN check on the date's time value (src/index.ts:26, 82-83). A date is either invalid or a calendar year and month 1–12.
- NaN and ±Infinity inputs and JavaScript `%` on non-numbers are not modelled. Amounts and years are exact reals, which have neither. The source rejects all of them: `isNaN` catches NaN, and `Infinity % 1` is NaN, so it fails the `!== 0` test.
- The misspelt `monthInFirstYear` (src/index.ts:101, 103) is not modelled as written. It is never declared, so the TypeScript compiler rejects the file. Run as plain JavaScript, line 101 would throw a `ReferenceError` for every valid input with at least one depreciation year. The model reads it as `monthsInFirstYear`, declared on line 100.
- IEEE-754 floating point is not modelled. That includes the evaluation order of `purchaseAmount / years / 12 * months` and `Math.round` on doubles near a half. Rounding is exact on rationals.
- Kernel.Calculate: for a non-last part it does not compute the `Math.round` bound in its own contract. `Kernel.OrdinaryPartRounds` states it instead, because the contract of a function this widely used is kept small.
- The exception classes and message strings, the default parameter `isLastPart = false` (every call passes it) and the module exports are not modelled. An error is the name of the failing field.
- Amounts that the test file expects but the code does not produce are not modelled: two-decimal amounts, the 0–100 percentage scale, the immediate write-off below 800, and rejecting 0 years (src/index.spec.ts:14-17, 186-199, 214-223).
- Non-negative and non-increasing residuals are not claimed, because the code does not ensure them; `Scenarios.ResidualGoesNegative` shows an input that breaks both.
