/**
 * Dates as day numbers: day 0 is 1970-01-01, the epoch of pandas' `datetime64`,
 * and a date with a time of day is represented by its day. This module gives
 * the proleptic Gregorian calendar date of a day number (what
 * `strftime("%Y-%m-%d")` prints) and the Monday that starts its week (what
 * `to_period("W").start_time` gives).
 */
module Dates {
  import opened Text

  predicate IsLeap(y: int) {
    y % 4 == 0 && (y % 100 != 0 || y % 400 == 0)
  }

  function YearLength(y: int): int {
    if IsLeap(y) then 366 else 365
  }

  function MonthLength(y: int, m: int): int
    requires 1 <= m <= 12
  {
    if m == 2 then (if IsLeap(y) then 29 else 28)
    else if m == 4 || m == 6 || m == 9 || m == 11 then 30
    else 31
  }

  /** Days from the first of month `m` to the end of year `y`. */
  function DaysFromMonth(y: int, m: int): int
    requires 1 <= m <= 12
    decreases 12 - m
  {
    MonthLength(y, m) + (if m == 12 then 0 else DaysFromMonth(y, m + 1))
  }

  lemma DaysFromJanuary(y: int)
    ensures DaysFromMonth(y, 1) == YearLength(y)
  {
    assert DaysFromMonth(y, 12) == 31;
    assert DaysFromMonth(y, 9) == 30 + 31 + 30 + 31;
    assert DaysFromMonth(y, 5) == 31 + 30 + 31 + 31 + 30 + 31 + 30 + 31;
    assert DaysFromMonth(y, 3) == 31 + 30 + 31 + 30 + 31 + 31 + 30 + 31 + 30 + 31;
  }

  /** Days from the first of January of year `y` to the first of month `m`. */
  function DaysBeforeMonth(y: int, m: int): int
    requires 1 <= m <= 12
  {
    if m == 1 then 0 else DaysBeforeMonth(y, m - 1) + MonthLength(y, m - 1)
  }

  /** Days from 1970-01-01 to the first of January of year `y` (negative before 1970). */
  function DaysBeforeYear(y: int): int
    decreases if y < 1970 then 1970 - y else y - 1970
  {
    if y == 1970 then 0
    else if y > 1970 then DaysBeforeYear(y - 1) + YearLength(y - 1)
    else DaysBeforeYear(y + 1) - YearLength(y)
  }

  lemma DaysBeforeYearStep(y: int)
    ensures DaysBeforeYear(y) == DaysBeforeYear(y - 1) + YearLength(y - 1)
  {
  }

  datatype Civil = Civil(year: int, month: int, day: int)

  predicate ValidCivil(c: Civil) {
    1 <= c.month <= 12 && 1 <= c.day <= MonthLength(c.year, c.month)
  }

  /** The day number of a calendar date: the reference the conversion below is proved against. */
  function DaysFromCivil(c: Civil): int
    requires ValidCivil(c)
  {
    DaysBeforeYear(c.year) + DaysBeforeMonth(c.year, c.month) + c.day - 1
  }

  /** The date `d` days after the first of month `m` of year `y`. */
  function MonthAndDay(y: int, m: int, d: int): (c: Civil)
    requires 1 <= m <= 12 && 0 <= d < DaysFromMonth(y, m)
    ensures ValidCivil(c) && c.year == y
    ensures DaysBeforeMonth(y, c.month) + c.day - 1 == DaysBeforeMonth(y, m) + d
    decreases 12 - m
  {
    if d < MonthLength(y, m) then Civil(y, m, d + 1)
    else MonthAndDay(y, m + 1, d - MonthLength(y, m))
  }

  /** The date `d` days after (or, for negative `d`, before) the first of January of year `y`. */
  function CivilFrom(y: int, d: int): (c: Civil)
    ensures ValidCivil(c)
    ensures DaysFromCivil(c) == DaysBeforeYear(y) + d
    decreases if d < 0 then 1000 - d else d
  {
    if d < 0 then
      DaysBeforeYearStep(y);
      CivilFrom(y - 1, d + YearLength(y - 1))
    else if d >= YearLength(y) then
      DaysBeforeYearStep(y + 1);
      CivilFrom(y + 1, d - YearLength(y))
    else
      DaysFromJanuary(y);
      MonthAndDay(y, 1, d)
  }

  /** The calendar date of day number `d`; converting it back gives `d`. */
  function CivilFromDays(d: int): (c: Civil)
    ensures ValidCivil(c)
    ensures DaysFromCivil(c) == d
  {
    CivilFrom(1970, d)
  }

  function ZeroPad(s: string, width: nat): (r: string)
    ensures |r| == if |s| < width then width else |s|
    ensures r == Zeros(|r| - |s|) + s
  {
    if |s| < width then Zeros(width - |s|) + s else s
  }

  function Zeros(n: nat): (r: string)
    ensures |r| == n && AllDigits(r)
  {
    seq(n, _ => '0')
  }

  lemma {:induction false} ZerosValue(n: nat)
    ensures DecimalValue(Zeros(n)) == 0
  {
    if n > 0 {
      assert Zeros(n)[..n - 1] == Zeros(n - 1);
      ZerosValue(n - 1);
    }
  }

  /** Leading zeros do not change the number a digit string denotes. */
  lemma {:induction false} ZeroPadValue(z: nat, s: string)
    requires AllDigits(s)
    ensures AllDigits(Zeros(z) + s) && DecimalValue(Zeros(z) + s) == DecimalValue(s)
    decreases |s|
  {
    var t := Zeros(z) + s;
    if s == [] {
      assert t == Zeros(z);
      ZerosValue(z);
    } else {
      assert t[..|t| - 1] == Zeros(z) + s[..|s| - 1];
      ZeroPadValue(z, s[..|s| - 1]);
    }
  }

  function Pow10(k: nat): nat {
    if k == 0 then 1 else 10 * Pow10(k - 1)
  }

  lemma {:induction false} DecimalLength(n: nat, k: nat)
    requires 1 <= k && n < Pow10(k)
    ensures |NatToDecimal(n)| <= k
    decreases k
  {
    if n >= 10 {
      DecimalLength(n / 10, k - 1);
    }
  }

  /** A number below `10^width` printed with `width` digits, zero-padded, and what it reads back as. */
  function Padded(n: nat, width: nat): (r: string)
    requires 1 <= width && n < Pow10(width)
    ensures |r| == width && AllDigits(r) && DecimalValue(r) == n
  {
    var s := NatToDecimal(n);
    DecimalLength(n, width);
    DecimalRoundTrip(n);
    ZeroPadValue(width - |s|, s);
    var r := ZeroPad(s, width);
    assert r == Zeros(width - |s|) + s;
    r
  }

  /**
   * `strftime("%Y-%m-%d")` of day number `d`. Every date pandas can hold lies in
   * the years 1677 to 2262; the text of a year outside 0..9999 is not modelled.
   */
  function IsoDate(d: int): (r: string)
    ensures var c := CivilFromDays(d);
      0 <= c.year < 10000 ==>
        && |r| == 10 && r[4] == '-' && r[7] == '-'
        && AllDigits(r[..4]) && AllDigits(r[5..7]) && AllDigits(r[8..])
        && DecimalValue(r[..4]) == c.year && DecimalValue(r[5..7]) == c.month && DecimalValue(r[8..]) == c.day
  {
    var c := CivilFromDays(d);
    var y := if 0 <= c.year < 10000 then c.year else 0;
    var year, month, day := Padded(y, 4), Padded(c.month, 2), Padded(c.day, 2);
    DashJoined(year, month, day);
    year + "-" + month + "-" + day
  }

  /** Where the three fields sit in `YYYY-MM-DD`. */
  lemma DashJoined(year: string, month: string, day: string)
    requires |year| == 4 && |month| == 2 && |day| == 2
    ensures var r := year + "-" + month + "-" + day;
      && |r| == 10 && r[4] == '-' && r[7] == '-'
      && r[..4] == year && r[5..7] == month && r[8..] == day
  {
    var r := year + "-" + month + "-" + day;
    assert r[..4] == year;
    assert r[5..7] == month;
    assert r[8..] == day;
  }

  /** The weekday of day 0, 1970-01-01, was a Thursday: three days after a Monday. */
  predicate IsMonday(d: int) {
    (d + 3) % 7 == 0
  }

  /** `to_period("W").start_time`: the Monday on or before day `d` (pandas' weeks end on Sunday). */
  function WeekStart(d: int): (r: int)
    ensures IsMonday(r) && r <= d < r + 7
  {
    d - (d + 3) % 7
  }
}
