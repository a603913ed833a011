/** Input validation of the depreciation calculator: the three `assert*` guards
    and the order in which `calculateDepreciation` runs them. */
module Validation {

  /** The field an invalid input is reported against. */
  datatype Field = PurchaseAmount | PurchaseDate | TotalDepreciationYears

  datatype Result<T> = Ok(value: T) | Err(field: Field)

  /** A calendar month, January = 1 (what `getMonth() + 1` yields). */
  type Month = m: int | 1 <= m <= 12 witness 1

  /** A purchase date as far as the calculator looks at it: an invalid date
      (one whose time value is NaN), or a calendar year and month. */
  datatype PurchaseDate = InvalidDate | Date(year: int, month: Month)

  /** The caller's inputs. Amounts and years are JavaScript numbers, so they
      may carry a fractional part that validation must reject. */
  datatype Input = Input(purchaseAmount: real, purchaseDate: PurchaseDate, totalDepreciationYears: real)

  /** Inputs that passed validation. */
  datatype Valid = Valid(amount: nat, year: int, month: Month, years: nat)

  /** A real number with no fractional part. */
  predicate IsWhole(x: real)
  {
    x == x.Floor as real
  }

  /** Rounding toward zero, as JavaScript's remainder operator uses it. */
  function Truncate(x: real): (t: int)
    ensures x >= 0.0 ==> t as real <= x < t as real + 1.0
    ensures x < 0.0 ==> t as real - 1.0 < x <= t as real
  {
    if x >= 0.0 then x.Floor else -((-x).Floor)
  }

  /** JavaScript's `x % 1`: the remainder keeps the sign of `x`. */
  function RemainderOne(x: real): (r: real)
    ensures -1.0 < r < 1.0
    ensures x >= 0.0 ==> 0.0 <= r
    ensures r == 0.0 <==> IsWhole(x)
  {
    // -x is whole exactly when x is
    assert x < 0.0 ==> (IsWhole(-x) <==> IsWhole(x)) by {
      if x < 0.0 {
        assert (-x).Floor == -(x.Floor) || (-x).Floor == -(x.Floor) - 1;
      }
    }
    x - Truncate(x) as real
  }

  /** `assertPurchaseAmount`: passes exactly on the non-negative whole numbers. */
  function PurchaseAmountOk(amount: real): (ok: bool)
    ensures ok <==> 0.0 <= amount && IsWhole(amount)
  {
    !(amount < 0.0 || RemainderOne(amount) != 0.0)
  }

  /** `assertPurchaseDate`: passes exactly on a date that is not NaN. */
  function PurchaseDateOk(date: PurchaseDate): (ok: bool)
    ensures ok <==> date != InvalidDate
  {
    !date.InvalidDate?
  }

  /** `assertDepreciationYears`: passes exactly on the non-negative whole numbers;
      zero is accepted. */
  function DepreciationYearsOk(years: real): (ok: bool)
    ensures ok <==> 0.0 <= years && IsWhole(years)
  {
    !(years < 0.0 || RemainderOne(years) != 0.0)
  }

  /** The three guards in the order `calculateDepreciation` calls them: the
      first failing one is the one reported. */
  function Validate(input: Input): (r: Result<Valid>)
    ensures r == Err(PurchaseAmount) <==>
              !(0.0 <= input.purchaseAmount && IsWhole(input.purchaseAmount))
    ensures r == Err(PurchaseDate) <==>
              0.0 <= input.purchaseAmount && IsWhole(input.purchaseAmount) &&
              input.purchaseDate == InvalidDate
    ensures r == Err(TotalDepreciationYears) <==>
              0.0 <= input.purchaseAmount && IsWhole(input.purchaseAmount) &&
              input.purchaseDate != InvalidDate &&
              !(0.0 <= input.totalDepreciationYears && IsWhole(input.totalDepreciationYears))
    ensures r.Ok? ==>
              r.value.amount as real == input.purchaseAmount &&
              r.value.years as real == input.totalDepreciationYears &&
              input.purchaseDate == Date(r.value.year, r.value.month)
  {
    if !PurchaseAmountOk(input.purchaseAmount) then Err(PurchaseAmount)
    else if !PurchaseDateOk(input.purchaseDate) then Err(PurchaseDate)
    else if !DepreciationYearsOk(input.totalDepreciationYears) then Err(TotalDepreciationYears)
    else
      Ok(Valid(input.purchaseAmount.Floor, input.purchaseDate.year, input.purchaseDate.month,
               input.totalDepreciationYears.Floor))
  }
}
