/** Concrete schedules: the cases of src/index.spec.ts on which the code and its
    tests agree (months, years, chaining, the zero ending, whole-unit amounts),
    the comment's 31-over-3 example, and inputs on which the code differs from
    its tests or from the documented invariants. */
module Scenarios {
  import opened Validation
  import opened Kernel
  import opened Schedule
  import ScheduleFacts

  /** A segment of a schedule for purchase amount `purchase`. */
  function Seg(purchase: int, year: int, months: int, amount: int, start: int, end: int): Segment
    requires purchase > 0
  {
    Segment(year, months, amount, Finite(amount as real / purchase as real), start, end)
  }

  /** An ordinary segment followed by the rest of the chain. */
  lemma Step(purchase: int, years: int, year: int, months: int, rest: seq<int>, previous: int, amount: int)
    requires purchase > 0 && years > 0 && rest != []
    requires RoundHalfUp(purchase * months, MonthsInYear * years) == amount
    ensures Chain(purchase, years, year, [months] + rest, previous)
            == [Seg(purchase, year, months, amount, previous, previous - amount)]
               + Chain(purchase, years, year + 1, rest, previous - amount)
  {
    assert ([months] + rest)[1..] == rest;
  }

  /** The closing segment. */
  lemma Close(purchase: int, years: int, year: int, months: int, previous: int)
    requires purchase > 0 && years > 0
    ensures Chain(purchase, years, year, [months], previous)
            == [Seg(purchase, year, months, previous, previous, 0)]
  {
  }

  /** 20000 bought in August 2016 over five years: five months in 2016, four full years and seven months in 2021, in whole units. */
  lemma AugustPurchase()
    ensures Depreciation(Input(20000.0, Date(2016, 8), 5.0)) == Ok([
      Seg(20000, 2016, 5, 1667, 20000, 18333),
      Seg(20000, 2017, 12, 4000, 18333, 14333),
      Seg(20000, 2018, 12, 4000, 14333, 10333),
      Seg(20000, 2019, 12, 4000, 10333, 6333),
      Seg(20000, 2020, 12, 4000, 6333, 2333),
      Seg(20000, 2021, 7, 2333, 2333, 0)])
  {
    assert Validate(Input(20000.0, Date(2016, 8), 5.0)) == Ok(Valid(20000, 2016, 8, 5));
    var tail := [12, 12, 12, 12, 7];
    assert MonthPlan(8, 5) == [5] + tail;
    Close(20000, 5, 2021, 7, 2333);
    Step(20000, 5, 2020, 12, tail[4..], 6333, 4000);
    Step(20000, 5, 2019, 12, tail[3..], 10333, 4000);
    Step(20000, 5, 2018, 12, tail[2..], 14333, 4000);
    Step(20000, 5, 2017, 12, tail[1..], 18333, 4000);
    Step(20000, 5, 2016, 5, tail, 20000, 1667);
    assert [12] + tail[4..] == tail[3..];
    assert [12] + tail[3..] == tail[2..];
    assert [12] + tail[2..] == tail[1..];
    assert [12] + tail[1..] == tail;
    assert ScheduleOf(Valid(20000, 2016, 8, 5)) == Chain(20000, 5, 2016, [5] + tail, 20000);
    assert Chain(20000, 5, 2016, [5] + tail, 20000) == [
      Seg(20000, 2016, 5, 1667, 20000, 18333),
      Seg(20000, 2017, 12, 4000, 18333, 14333),
      Seg(20000, 2018, 12, 4000, 14333, 10333),
      Seg(20000, 2019, 12, 4000, 10333, 6333),
      Seg(20000, 2020, 12, 4000, 6333, 2333),
      Seg(20000, 2021, 7, 2333, 2333, 0)];
  }

  /** 20000 bought in January 2016 over five years: five full years of 4000 each. */
  lemma JanuaryPurchase()
    ensures Depreciation(Input(20000.0, Date(2016, 1), 5.0)) == Ok([
      Seg(20000, 2016, 12, 4000, 20000, 16000),
      Seg(20000, 2017, 12, 4000, 16000, 12000),
      Seg(20000, 2018, 12, 4000, 12000, 8000),
      Seg(20000, 2019, 12, 4000, 8000, 4000),
      Seg(20000, 2020, 12, 4000, 4000, 0)])
  {
    assert Validate(Input(20000.0, Date(2016, 1), 5.0)) == Ok(Valid(20000, 2016, 1, 5));
    var tail := [12, 12, 12, 12];
    assert MonthPlan(1, 5) == [12] + tail;
    Close(20000, 5, 2020, 12, 4000);
    Step(20000, 5, 2019, 12, tail[3..], 8000, 4000);
    Step(20000, 5, 2018, 12, tail[2..], 12000, 4000);
    Step(20000, 5, 2017, 12, tail[1..], 16000, 4000);
    Step(20000, 5, 2016, 12, tail, 20000, 4000);
    assert [12] + tail[3..] == tail[2..];
    assert [12] + tail[2..] == tail[1..];
    assert [12] + tail[1..] == tail;
    assert ScheduleOf(Valid(20000, 2016, 1, 5)) == Chain(20000, 5, 2016, [12] + tail, 20000);
    assert Chain(20000, 5, 2016, [12] + tail, 20000) == [
      Seg(20000, 2016, 12, 4000, 20000, 16000),
      Seg(20000, 2017, 12, 4000, 16000, 12000),
      Seg(20000, 2018, 12, 4000, 12000, 8000),
      Seg(20000, 2019, 12, 4000, 8000, 4000),
      Seg(20000, 2020, 12, 4000, 4000, 0)];
  }

  /** 20000 bought in December 2016 over five years: one month in 2016, four full years and eleven months in 2021. */
  lemma DecemberPurchase()
    ensures Depreciation(Input(20000.0, Date(2016, 12), 5.0)) == Ok([
      Seg(20000, 2016, 1, 333, 20000, 19667),
      Seg(20000, 2017, 12, 4000, 19667, 15667),
      Seg(20000, 2018, 12, 4000, 15667, 11667),
      Seg(20000, 2019, 12, 4000, 11667, 7667),
      Seg(20000, 2020, 12, 4000, 7667, 3667),
      Seg(20000, 2021, 11, 3667, 3667, 0)])
  {
    assert Validate(Input(20000.0, Date(2016, 12), 5.0)) == Ok(Valid(20000, 2016, 12, 5));
    var tail := [12, 12, 12, 12, 11];
    assert MonthPlan(12, 5) == [1] + tail;
    Close(20000, 5, 2021, 11, 3667);
    Step(20000, 5, 2020, 12, tail[4..], 7667, 4000);
    Step(20000, 5, 2019, 12, tail[3..], 11667, 4000);
    Step(20000, 5, 2018, 12, tail[2..], 15667, 4000);
    Step(20000, 5, 2017, 12, tail[1..], 19667, 4000);
    Step(20000, 5, 2016, 1, tail, 20000, 333);
    assert [12] + tail[4..] == tail[3..];
    assert [12] + tail[3..] == tail[2..];
    assert [12] + tail[2..] == tail[1..];
    assert [12] + tail[1..] == tail;
    assert ScheduleOf(Valid(20000, 2016, 12, 5)) == Chain(20000, 5, 2016, [1] + tail, 20000);
    assert Chain(20000, 5, 2016, [1] + tail, 20000) == [
      Seg(20000, 2016, 1, 333, 20000, 19667),
      Seg(20000, 2017, 12, 4000, 19667, 15667),
      Seg(20000, 2018, 12, 4000, 15667, 11667),
      Seg(20000, 2019, 12, 4000, 11667, 7667),
      Seg(20000, 2020, 12, 4000, 7667, 3667),
      Seg(20000, 2021, 11, 3667, 3667, 0)];
  }

  /** 20000 over one year from January: a single full-year segment. */
  lemma OneYearFromJanuary()
    ensures Depreciation(Input(20000.0, Date(2016, 1), 1.0)) == Ok([
      Seg(20000, 2016, 12, 20000, 20000, 0)])
  {
    assert Validate(Input(20000.0, Date(2016, 1), 1.0)) == Ok(Valid(20000, 2016, 1, 1));
    assert MonthPlan(1, 1) == [12];
    Close(20000, 1, 2016, 12, 20000);
  }

  /** 20000 over one year from May: eight months, then the remaining four. */
  lemma OneYearFromMay()
    ensures Depreciation(Input(20000.0, Date(2016, 5), 1.0)) == Ok([
      Seg(20000, 2016, 8, 13333, 20000, 6667),
      Seg(20000, 2017, 4, 6667, 6667, 0)])
  {
    assert Validate(Input(20000.0, Date(2016, 5), 1.0)) == Ok(Valid(20000, 2016, 5, 1));
    var tail := [4];
    assert MonthPlan(5, 1) == [8] + tail;
    Close(20000, 1, 2017, 4, 6667);
    Step(20000, 1, 2016, 8, tail, 20000, 13333);
    assert ScheduleOf(Valid(20000, 2016, 5, 1)) == Chain(20000, 1, 2016, [8] + tail, 20000);
    assert Chain(20000, 1, 2016, [8] + tail, 20000) == [
      Seg(20000, 2016, 8, 13333, 20000, 6667),
      Seg(20000, 2017, 4, 6667, 6667, 0)];
  }

  /** 31 over three years: 10, 10 and a closing 11, instead of a third 10 that would leave 1 over. */
  lemma ThirtyOneOverThree()
    ensures Depreciation(Input(31.0, Date(2018, 1), 3.0)) == Ok([
      Seg(31, 2018, 12, 10, 31, 21),
      Seg(31, 2019, 12, 10, 21, 11),
      Seg(31, 2020, 12, 11, 11, 0)])
  {
    assert Validate(Input(31.0, Date(2018, 1), 3.0)) == Ok(Valid(31, 2018, 1, 3));
    var tail := [12, 12];
    assert MonthPlan(1, 3) == [12] + tail;
    Close(31, 3, 2020, 12, 11);
    Step(31, 3, 2019, 12, tail[1..], 21, 10);
    Step(31, 3, 2018, 12, tail, 31, 10);
    assert [12] + tail[1..] == tail;
    assert ScheduleOf(Valid(31, 2018, 1, 3)) == Chain(31, 3, 2018, [12] + tail, 31);
    assert Chain(31, 3, 2018, [12] + tail, 31) == [
      Seg(31, 2018, 12, 10, 31, 21),
      Seg(31, 2019, 12, 10, 21, 11),
      Seg(31, 2020, 12, 11, 11, 0)];
  }

  /** 29 over three years: 10, 10 and a closing 9, instead of a third 10 that would end at -1. */
  lemma TwentyNineOverThree()
    ensures Depreciation(Input(29.0, Date(2018, 1), 3.0)) == Ok([
      Seg(29, 2018, 12, 10, 29, 19),
      Seg(29, 2019, 12, 10, 19, 9),
      Seg(29, 2020, 12, 9, 9, 0)])
  {
    assert Validate(Input(29.0, Date(2018, 1), 3.0)) == Ok(Valid(29, 2018, 1, 3));
    var tail := [12, 12];
    assert MonthPlan(1, 3) == [12] + tail;
    Close(29, 3, 2020, 12, 9);
    Step(29, 3, 2019, 12, tail[1..], 19, 10);
    Step(29, 3, 2018, 12, tail, 29, 10);
    assert [12] + tail[1..] == tail;
    assert ScheduleOf(Valid(29, 2018, 1, 3)) == Chain(29, 3, 2018, [12] + tail, 29);
    assert Chain(29, 3, 2018, [12] + tail, 29) == [
      Seg(29, 2018, 12, 10, 29, 19),
      Seg(29, 2019, 12, 10, 19, 9),
      Seg(29, 2020, 12, 9, 9, 0)];
  }

  /** 799 over five years from May is spread over six segments like any other amount: the code has no immediate write-off below 800. */
  lemma LowValueIsNotWrittenOff()
    ensures Depreciation(Input(799.0, Date(2016, 5), 5.0)) == Ok([
      Seg(799, 2016, 8, 107, 799, 692),
      Seg(799, 2017, 12, 160, 692, 532),
      Seg(799, 2018, 12, 160, 532, 372),
      Seg(799, 2019, 12, 160, 372, 212),
      Seg(799, 2020, 12, 160, 212, 52),
      Seg(799, 2021, 4, 52, 52, 0)])
  {
    assert Validate(Input(799.0, Date(2016, 5), 5.0)) == Ok(Valid(799, 2016, 5, 5));
    var tail := [12, 12, 12, 12, 4];
    assert MonthPlan(5, 5) == [8] + tail;
    Close(799, 5, 2021, 4, 52);
    Step(799, 5, 2020, 12, tail[4..], 212, 160);
    Step(799, 5, 2019, 12, tail[3..], 372, 160);
    Step(799, 5, 2018, 12, tail[2..], 532, 160);
    Step(799, 5, 2017, 12, tail[1..], 692, 160);
    Step(799, 5, 2016, 8, tail, 799, 107);
    assert [12] + tail[4..] == tail[3..];
    assert [12] + tail[3..] == tail[2..];
    assert [12] + tail[2..] == tail[1..];
    assert [12] + tail[1..] == tail;
    assert ScheduleOf(Valid(799, 2016, 5, 5)) == Chain(799, 5, 2016, [8] + tail, 799);
    assert Chain(799, 5, 2016, [8] + tail, 799) == [
      Seg(799, 2016, 8, 107, 799, 692),
      Seg(799, 2017, 12, 160, 692, 532),
      Seg(799, 2018, 12, 160, 532, 372),
      Seg(799, 2019, 12, 160, 372, 212),
      Seg(799, 2020, 12, 160, 212, 52),
      Seg(799, 2021, 4, 52, 52, 0)];
  }

  /** 5 over seven years from January: each ordinary year rounds 5/7 up to 1, so the residual falls to -1 before the closing segment depreciates -1 and ends at 0. */
  lemma ResidualGoesNegative()
    ensures Depreciation(Input(5.0, Date(2020, 1), 7.0)) == Ok([
      Seg(5, 2020, 12, 1, 5, 4),
      Seg(5, 2021, 12, 1, 4, 3),
      Seg(5, 2022, 12, 1, 3, 2),
      Seg(5, 2023, 12, 1, 2, 1),
      Seg(5, 2024, 12, 1, 1, 0),
      Seg(5, 2025, 12, 1, 0, -1),
      Seg(5, 2026, 12, -1, -1, 0)])
    ensures var s := ScheduleOf(Valid(5, 2020, 1, 7));
            s[5].endAmount < 0 && s[6].depreciationAmount < 0 && s[6].endAmount > s[6].startAmount
  {
    assert Validate(Input(5.0, Date(2020, 1), 7.0)) == Ok(Valid(5, 2020, 1, 7));
    var tail := [12, 12, 12, 12, 12, 12];
    assert MonthPlan(1, 7) == [12] + tail;
    Close(5, 7, 2026, 12, -1);
    Step(5, 7, 2025, 12, tail[5..], 0, 1);
    Step(5, 7, 2024, 12, tail[4..], 1, 1);
    Step(5, 7, 2023, 12, tail[3..], 2, 1);
    Step(5, 7, 2022, 12, tail[2..], 3, 1);
    Step(5, 7, 2021, 12, tail[1..], 4, 1);
    Step(5, 7, 2020, 12, tail, 5, 1);
    assert [12] + tail[5..] == tail[4..];
    assert [12] + tail[4..] == tail[3..];
    assert [12] + tail[3..] == tail[2..];
    assert [12] + tail[2..] == tail[1..];
    assert [12] + tail[1..] == tail;
    assert ScheduleOf(Valid(5, 2020, 1, 7)) == Chain(5, 7, 2020, [12] + tail, 5);
    assert Chain(5, 7, 2020, [12] + tail, 5) == [
      Seg(5, 2020, 12, 1, 5, 4),
      Seg(5, 2021, 12, 1, 4, 3),
      Seg(5, 2022, 12, 1, 3, 2),
      Seg(5, 2023, 12, 1, 2, 1),
      Seg(5, 2024, 12, 1, 1, 0),
      Seg(5, 2025, 12, 1, 0, -1),
      Seg(5, 2026, 12, -1, -1, 0)];
  }

  /** With zero years the whole amount is written off in the purchase year
      (the code accepts zero years). */
  lemma ZeroYears()
    ensures Depreciation(Input(20000.0, Date(2016, 1), 0.0))
            == Ok([Segment(2016, 0, 20000, Finite(1.0), 20000, 0)])
  {
    assert Validate(Input(20000.0, Date(2016, 1), 0.0)) == Ok(Valid(20000, 2016, 1, 0));
  }

  /** The first invalid field in the order amount, date, years is the one reported. */
  lemma InvalidInputs()
    ensures Depreciation(Input(-1.0, Date(2016, 1), 1.0)) == Err(PurchaseAmount)
    ensures Depreciation(Input(20000.5, Date(2016, 1), 1.0)) == Err(PurchaseAmount)
    ensures Depreciation(Input(-1.0, InvalidDate, -1.0)) == Err(PurchaseAmount)
    ensures Depreciation(Input(20000.0, InvalidDate, 1.5)) == Err(PurchaseDate)
    ensures Depreciation(Input(20000.0, Date(2016, 1), 1.5)) == Err(TotalDepreciationYears)
    ensures Depreciation(Input(20000.0, Date(2016, 1), -1.0)) == Err(TotalDepreciationYears)
  {
    assert !IsWhole(20000.5) by {
      assert (20000.5).Floor == 20000;
    }
    assert !IsWhole(1.5) by {
      assert (1.5).Floor == 1;
    }
  }
}
