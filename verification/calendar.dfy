/**
 * The part of JavaScript's `Date` the profit page relies on: building a date
 * from a year, a month index and a day, and reading back its day of the month.
 * Out-of-range days and months roll over into neighbouring months and years,
 * as the `Date` constructor does.
 */
module Calendar {

  /** The `Date` constructor reads years 0 to 99 as 1900 to 1999. */
  function FullYear(y: int): int {
    if 0 <= y <= 99 then 1900 + y else y
  }

  /** Gregorian leap years. */
  predicate IsLeap(y: int) {
    y % 4 == 0 && (y % 100 != 0 || y % 400 == 0)
  }

  /** The length of month `m` (0 = January) of year `y`. */
  function DaysIn(y: int, m: int): (n: int)
    requires 0 <= m < 12
    ensures 28 <= n <= 31
    ensures n == 28 <==> m == 1 && !IsLeap(y)
  {
    if m == 1 then (if IsLeap(y) then 29 else 28)
    else if m == 3 || m == 5 || m == 8 || m == 10 then 30
    else 31
  }

  /** `new Date(y, m, d).getDate()` for an already expanded year `y`: the month
      index carries into the year (floor division), then the day rolls forward
      or back through whole months until it lands inside one. */
  function DayOfMonth(y: int, m: int, d: int): (r: int)
    ensures 1 <= r <= 31
    ensures 0 <= m < 12 && 1 <= d <= DaysIn(y, m) ==> r == d
    decreases if d < 1 then 1 else 0, if d < 1 then -d else d
  {
    var y1 := y + m / 12;
    var m1 := m % 12;
    if d < 1 then
      var py := if m1 == 0 then y1 - 1 else y1;
      var pm := if m1 == 0 then 11 else m1 - 1;
      DayOfMonth(py, pm, d + DaysIn(py, pm))
    else if d > DaysIn(y1, m1) then
      var ny := if m1 == 11 then y1 + 1 else y1;
      var nm := if m1 == 11 then 0 else m1 + 1;
      DayOfMonth(ny, nm, d - DaysIn(y1, m1))
    else d
  }

  /** The month after month `m` of year `y`: December rolls into January of
      the next year. */
  function NextMonth(y: int, m: int): (ym: (int, int))
    requires 0 <= m < 12
    ensures 0 <= ym.1 < 12
    ensures ym.0 * 12 + ym.1 == y * 12 + m + 1
  {
    if m == 11 then (y + 1, 0) else (y, m + 1)
  }

  /** A day past the end of a month is that many days into the next month,
      December's included. */
  lemma {:induction false} RollsIntoNextMonth(y: int, m: int, k: int)
    requires 0 <= m < 12 && 1 <= k <= DaysIn(NextMonth(y, m).0, NextMonth(y, m).1)
    ensures DayOfMonth(y, m, DaysIn(y, m) + k) == k
  {
    var (ny, nm) := NextMonth(y, m);
    assert y + m / 12 == y && m % 12 == m;
    assert DayOfMonth(y, m, DaysIn(y, m) + k) == DayOfMonth(ny, nm, k);
  }

  /** Day 0 is the last day of the month before. */
  lemma {:induction false} DayZeroIsPreviousMonthEnd(y: int, m: int)
    requires 1 <= m < 12
    ensures DayOfMonth(y, m, 0) == DaysIn(y, m - 1)
  {
    assert y + m / 12 == y && m % 12 == m;
    assert DayOfMonth(y, m, 0) == DayOfMonth(y, m - 1, DaysIn(y, m - 1));
  }
}
