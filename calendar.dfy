/**
  `datetime_advance` (slip39/invoice/artifact.py lines 791-811) on the date
  part of a datetime: add years and months, carry a month past December
  into the year, and clamp the day to the length of the target month as
  the Gregorian calendar gives it.
 */
module Calendar {
  import opened Options

  datatype Date = Date(year: int, month: int, day: int)

  /** Python's `calendar.isleap`. */
  predicate Leap(year: int)
  {
    year % 4 == 0 && (year % 100 != 0 || year % 400 == 0)
  }

  /** The day count that `calendar.monthrange(year, month)` returns second. */
  function DaysIn(year: int, month: int): (n: int)
    requires 1 <= month <= 12
    ensures 28 <= n <= 31
    ensures month == 2 ==> (n == 29 <==> Leap(year))
  {
    if month == 2 then (if Leap(year) then 29 else 28)
    else if month == 4 || month == 6 || month == 9 || month == 11 then 30
    else 31
  }

  /** A date a Python `datetime` can hold. */
  predicate ValidDate(d: Date)
  {
    1 <= d.year <= 9999 && 1 <= d.month <= 12 && 1 <= d.day <= DaysIn(d.year, d.month)
  }

  /** Months since January of year 0: the number that advancing by months adds to. */
  function MonthIndex(d: Date): int
  {
    12 * d.year + d.month - 1
  }

  function Min(a: int, b: int): int
  {
    if a <= b then a else b
  }

  /** Why the call raised: `monthrange` rejects the month, or `replace` the year. */
  datatype AdvanceError = IllegalMonth(month: int) | YearOutOfRange(year: int)

  /**
    The date part of `datetime_advance(dt, years, months)`; a None count is
    zero. The month is only carried upwards: a month that falls below 1 is
    handed to `monthrange`, which raises.
   */
  function Advance(d: Date, years: int, months: int): (r: Result<Date, AdvanceError>)
    requires ValidDate(d)
    ensures years == 0 && months == 0 ==> r == Ok(d)
    ensures r.Ok? ==> ValidDate(r.value)
    ensures (years != 0 || months != 0) && r.Ok? ==>
      MonthIndex(r.value) == MonthIndex(d) + 12 * years + months &&
      r.value.day == Min(d.day, DaysIn(r.value.year, r.value.month))
    ensures r.Err? <==>
      (years != 0 || months != 0) &&
      (d.month + months < 1 || !(1 <= (MonthIndex(d) + 12 * years + months) / 12 <= 9999))
    ensures r.Err? && r.error.IllegalMonth? <==> (years != 0 || months != 0) && d.month + months < 1
  {
    if years == 0 && months == 0 then Ok(d)
    else
      var yr0 := d.year + years;
      var mo0 := d.month + months;
      var yr := if mo0 > 12 then yr0 + (mo0 - 1) / 12 else yr0;
      var mo := if mo0 > 12 then (mo0 - 1) % 12 + 1 else mo0;
      if mo < 1 then Err(IllegalMonth(mo))
      else if yr < 1 || yr > 9999 then Err(YearOutOfRange(yr))
      else Ok(Date(yr, mo, Min(d.day, DaysIn(yr, mo))))
  }

  /**
    Advancing by a non-negative number of months lands on the month whose
    index is the sum, so two advances make one: with a day every month has,
    advancing by m1 and then by m2 is advancing by m1 + m2.
   */
  lemma AdvanceCompose(d: Date, m1: int, m2: int)
    requires ValidDate(d) && d.day <= 28 && m1 >= 0 && m2 >= 0
    ensures Advance(d, 0, m1).Ok? && Advance(Advance(d, 0, m1).value, 0, m2).Ok? ==>
      Advance(Advance(d, 0, m1).value, 0, m2) == Advance(d, 0, m1 + m2)
    ensures Advance(d, 0, m1 + m2).Ok? ==> Advance(d, 0, m1).Ok?
  {
    var i := MonthIndex(d);
    if m1 > 0 && Advance(d, 0, m1).Ok? {
      var e := Advance(d, 0, m1).value;
      assert MonthIndex(e) == i + m1 && e.day == d.day;
      if m2 > 0 && Advance(e, 0, m2).Ok? {
        var f := Advance(e, 0, m2).value;
        assert MonthIndex(f) == i + m1 + m2 && f.day == d.day;
        var g := Advance(d, 0, m1 + m2).value;
        assert MonthIndex(g) == i + m1 + m2 && g.day == d.day;
        MonthIndexInjective(f, g);
      }
    }
  }

  /** A valid date is fixed by its month index and its day. */
  lemma MonthIndexInjective(d: Date, e: Date)
    requires 1 <= d.month <= 12 && 1 <= e.month <= 12
    requires MonthIndex(d) == MonthIndex(e) && d.day == e.day
    ensures d == e
  {
    assert d.year == MonthIndex(d) / 12 && d.month == MonthIndex(d) % 12 + 1;
    assert e.year == MonthIndex(e) / 12 && e.month == MonthIndex(e) % 12 + 1;
  }

  /** The 31st of January 2024 advanced by one month is the 29th of February, a leap day. */
  lemma EndOfMonthExample()
    ensures Advance(Date(2024, 1, 31), 0, 1) == Ok(Date(2024, 2, 29))
    ensures Advance(Date(2023, 1, 31), 0, 1) == Ok(Date(2023, 2, 28))
    ensures Advance(Date(2023, 11, 30), 0, 3) == Ok(Date(2024, 2, 29))
    ensures Advance(Date(2024, 3, 15), 0, -3) == Err(IllegalMonth(0))
  {
  }
}
