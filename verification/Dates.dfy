/** Calendar arithmetic of HTTP dates. */
module Dates {
  import opened Bytes

  datatype Date = Date(y: int, m: int, d: int)

  datatype Time = Time(date: Date, hh: nat, mm: nat, ss: nat)

  /** C's division, toward zero. */
  function Quotient(a: int, b: int): int
    requires b > 0
  {
    if a >= 0 then a / b else -((-a) / b)
  }

  /** cookie_days_from_civil. */
  function DaysFromCivil(y0: int, m: int, d: int): int {
    var y := if m <= 2 then y0 - 1 else y0;
    var era := Quotient(if y >= 0 then y else y - 399, 400);
    var yoe := y - era * 400;
    var doy := Quotient(153 * (m + (if m > 2 then -3 else 9)) + 2, 5) + d - 1;
    var doe := yoe * 365 + Quotient(yoe, 4) - Quotient(yoe, 100) + doy;
    era * 146097 + doe - 719468
  }

  // ---- the calendar, by counting

  predicate Leap(y: int) {
    y % 4 == 0 && (y % 100 != 0 || y % 400 == 0)
  }

  function YearLength(y: int): nat {
    if Leap(y) then 366 else 365
  }

  function MonthLength(y: int, m: int): nat {
    if m == 2 then (if Leap(y) then 29 else 28)
    else if m == 4 || m == 6 || m == 9 || m == 11 then 30
    else 31
  }

  predicate Valid(t: Date) {
    1 <= t.m <= 12 && 1 <= t.d <= MonthLength(t.y, t.m)
  }

  function Tomorrow(t: Date): (n: Date)
    requires Valid(t)
    ensures Valid(n)
  {
    if t.d < MonthLength(t.y, t.m) then Date(t.y, t.m, t.d + 1)
    else if t.m < 12 then Date(t.y, t.m + 1, 1)
    else Date(t.y + 1, 1, 1)
  }

  /** Days from 1970-01-01 to the first of January of `y`, year by year. */
  function YearStart(y: int): int
    decreases if y >= 1970 then y - 1970 else 1970 - y
  {
    if y == 1970 then 0
    else if y > 1970 then YearStart(y - 1) + YearLength(y - 1)
    else YearStart(y + 1) - YearLength(y)
  }

  /** Days of the year before month `m`, month by month. */
  function MonthStart(y: int, m: int): nat
    decreases m
  {
    if m <= 1 then 0 else MonthStart(y, m - 1) + MonthLength(y, m - 1)
  }

  /** The day number by counting. */
  function DayNumber(t: Date): int {
    YearStart(t.y) + MonthStart(t.y, t.m) + t.d - 1
  }

  // ---- the closed form counts

  /** The years part of the closed form, for a year that starts in March. */
  function MarchYear(y: int): int {
    var era := y / 400;
    var yoe := y % 400;
    era * 146097 + yoe * 365 + yoe / 4 - yoe / 100
  }

  lemma EraIsFloor(y: int)
    ensures Quotient(if y >= 0 then y else y - 399, 400) == y / 400
  {
  }

  /** A year's place in its 400-year era decides whether it is a leap year. */
  lemma LeapInEra(y: int)
    ensures Leap(y) <==> (y % 400) % 4 == 0 && ((y % 400) % 100 != 0 || y % 400 == 0)
  {
    var e, r := y / 400, y % 400;
    ModUnique(y, 100 * e + r / 4, r % 4, 4);
    ModUnique(y, 4 * e + r / 100, r % 100, 100);
  }

  lemma EraStep(r: int)
    requires 0 < r < 400
    ensures r / 4 == (r - 1) / 4 + if r % 4 == 0 then 1 else 0
    ensures r / 100 == (r - 1) / 100 + if r % 100 == 0 then 1 else 0
    ensures r % 100 == 0 ==> r % 4 == 0
  {
  }

  lemma MarchYearStep(y: int)
    ensures MarchYear(y) == MarchYear(y - 1) + YearLength(y)
  {
    var e, r := y / 400, y % 400;
    LeapInEra(y);
    if r == 0 {
      assert (y - 1) / 400 == e - 1 && (y - 1) % 400 == 399;
      assert MarchYear(y - 1) == (e - 1) * 146097 + 399 * 365 + 99 - 3;
    } else {
      assert (y - 1) / 400 == e && (y - 1) % 400 == r - 1;
      EraStep(r);
    }
  }

  /** The month part of the closed form. */
  function MonthPart(m: int): int {
    (153 * (if m > 2 then m - 3 else m + 9) + 2) / 5
  }

  lemma YearPart(y: int)
    ensures var era := Quotient(if y >= 0 then y else y - 399, 400);
      var yoe := y - era * 400;
      era * 146097 + yoe * 365 + Quotient(yoe, 4) - Quotient(yoe, 100) == MarchYear(y)
  {
    EraIsFloor(y);
  }

  lemma ClosedForm(y: int, m: int, d: int)
    requires 1 <= m <= 12
    ensures DaysFromCivil(y, m, d) == MarchYear(if m > 2 then y else y - 1) + MonthPart(m) + d - 1 - 719468
  {
    YearPart(if m > 2 then y else y - 1);
  }

  lemma {:induction false} JanuaryFirst(y: int)
    ensures MarchYear(y - 1) + 306 - 719468 == YearStart(y)
    decreases if y >= 1970 then y - 1970 else 1970 - y
  {
    if y > 1970 {
      JanuaryFirst(y - 1);
      MarchYearStep(y - 1);
    } else if y < 1970 {
      JanuaryFirst(y + 1);
      MarchYearStep(y);
    }
  }

  lemma MonthTable(y: int, m: int)
    requires 1 <= m <= 12
    ensures m <= 2 ==> MonthStart(y, m) == MonthPart(m) - 306
    ensures m > 2 ==> MonthStart(y, m) + 306 == MonthPart(m) + YearLength(y)
  {
    assert MonthStart(y, 1) == 0 && MonthStart(y, 2) == 31;
    var feb := MonthLength(y, 2);
    assert MonthStart(y, 3) == 31 + feb;
    assert MonthStart(y, 4) == 62 + feb && MonthStart(y, 5) == 92 + feb;
    assert MonthStart(y, 6) == 123 + feb && MonthStart(y, 7) == 153 + feb;
    assert MonthStart(y, 8) == 184 + feb && MonthStart(y, 9) == 215 + feb;
    assert MonthStart(y, 10) == 245 + feb && MonthStart(y, 11) == 276 + feb;
    assert MonthStart(y, 12) == 306 + feb;
  }

  /** The closed form is the count of days since 1970-01-01, for every year and month. */
  lemma DaysCount(t: Date)
    requires 1 <= t.m <= 12
    ensures DaysFromCivil(t.y, t.m, t.d) == DayNumber(t)
  {
    ClosedForm(t.y, t.m, t.d);
    JanuaryFirst(t.y);
    MarchYearStep(t.y);
    MonthTable(t.y, t.m);
  }

  lemma CountNext(t: Date)
    requires Valid(t)
    ensures DayNumber(Tomorrow(t)) == DayNumber(t) + 1
  {
    YearLengthIsMonths(t.y);
    YearStartStep(t.y);
  }

  /** The next calendar day is exactly one more, counting from 0 on 1970-01-01. */
  lemma NextDay(t: Date)
    requires Valid(t)
    ensures DaysFromCivil(Tomorrow(t).y, Tomorrow(t).m, Tomorrow(t).d) == DaysFromCivil(t.y, t.m, t.d) + 1
    ensures t == Date(1970, 1, 1) ==> DaysFromCivil(t.y, t.m, t.d) == 0
  {
    DaysCount(t);
    DaysCount(Tomorrow(t));
    CountNext(t);
  }

  lemma YearLengthIsMonths(y: int)
    ensures MonthStart(y, 12) + 31 == YearLength(y)
  {
    MonthTable(y, 12);
  }

  lemma YearStartStep(y: int)
    ensures YearStart(y + 1) == YearStart(y) + YearLength(y)
  {
  }

  // ---- order

  predicate Earlier(a: Date, b: Date) {
    a.y < b.y || (a.y == b.y && (a.m < b.m || (a.m == b.m && a.d < b.d)))
  }

  lemma {:induction false} MonthStartGrows(y: int, m: int, n: int)
    requires 1 <= m < n
    ensures MonthStart(y, m) + MonthLength(y, m) <= MonthStart(y, n)
    decreases n
  {
    if m + 1 < n { MonthStartGrows(y, m, n - 1); }
  }

  lemma {:induction false} YearStartGrows(y: int, z: int)
    requires y < z
    ensures YearStart(y) + YearLength(y) <= YearStart(z)
    decreases z - y
  {
    YearStartStep(z - 1);
    if y + 1 < z { YearStartGrows(y, z - 1); }
  }

  lemma InsideYear(t: Date)
    requires Valid(t)
    ensures YearStart(t.y) <= DayNumber(t) < YearStart(t.y) + YearLength(t.y)
  {
    YearLengthIsMonths(t.y);
    if t.m < 12 { MonthStartGrows(t.y, t.m, 12); }
  }

  /** Earlier dates get smaller day numbers. */
  lemma DaysOrdered(a: Date, b: Date)
    requires Valid(a) && Valid(b) && Earlier(a, b)
    ensures DaysFromCivil(a.y, a.m, a.d) < DaysFromCivil(b.y, b.m, b.d)
  {
    DaysCount(a);
    DaysCount(b);
    if a.y < b.y {
      YearStartGrows(a.y, b.y);
      InsideYear(a);
      InsideYear(b);
    } else if a.m < b.m {
      MonthStartGrows(a.y, a.m, b.m);
    }
  }

  /** The end of http_date_parse, once day, month, year and time have been found: 0 is failure. */
  function EpochOf(year0: nat, month: nat, day: nat, hh: nat, mm: nat, ss: nat): nat {
    var year := if 70 <= year0 <= 99 then year0 + 1900 else if year0 <= 69 then year0 + 2000 else year0;
    if day < 1 || day > 31 || month < 1 || month > 12 || hh > 23 || mm > 59 || ss > 59 || year < 1601 then 0
    else
      var epoch := DaysFromCivil(year, month, day) * 86400 + hh * 3600 + mm * 60 + ss;
      if epoch < 0 then 0 else epoch
  }

  predicate ValidTime(t: Time) {
    Valid(t.date) && t.hh <= 23 && t.mm <= 59 && t.ss <= 59
  }

  predicate EarlierTime(a: Time, b: Time) {
    || Earlier(a.date, b.date)
    || (a.date == b.date && a.hh * 3600 + a.mm * 60 + a.ss < b.hh * 3600 + b.mm * 60 + b.ss)
  }

  /** From the epoch on, the parsed number keeps the strict order of date-times. */
  lemma EpochOrdered(a: Time, b: Time)
    requires ValidTime(a) && ValidTime(b) && EarlierTime(a, b)
    requires a.date.y >= 1970
    ensures EpochOf(a.date.y, a.date.m, a.date.d, a.hh, a.mm, a.ss) < EpochOf(b.date.y, b.date.m, b.date.d, b.hh, b.mm, b.ss)
  {
    DaysCount(a.date);
    InsideYear(a.date);
    if 1970 < a.date.y { YearStartGrows(1970, a.date.y); }
    if Earlier(a.date, b.date) { DaysOrdered(a.date, b.date); }
  }

  /** Before it, every valid date-time parses to 0, like a failure. */
  lemma BeforeEpochIsZero(t: Time)
    requires ValidTime(t) && 1601 <= t.date.y < 1970
    ensures EpochOf(t.date.y, t.date.m, t.date.d, t.hh, t.mm, t.ss) == 0
  {
    DaysCount(t.date);
    InsideYear(t.date);
    YearStartGrows(t.date.y, 1970);
  }

  /** One second on, with the carries. */
  function NextSecond(t: Time): (n: Time)
    requires ValidTime(t)
    ensures ValidTime(n)
  {
    if t.ss < 59 then t.(ss := t.ss + 1)
    else if t.mm < 59 then t.(mm := t.mm + 1, ss := 0)
    else if t.hh < 23 then t.(hh := t.hh + 1, mm := 0, ss := 0)
    else Time(Tomorrow(t.date), 0, 0, 0)
  }

  function Epoch(t: Time): nat
    requires t.date.y >= 0 && t.date.m >= 0 && t.date.d >= 0
  {
    EpochOf(t.date.y, t.date.m, t.date.d, t.hh, t.mm, t.ss)
  }

  /** The number of seconds since 1970 began, by counting days. */
  lemma EpochIs(t: Time)
    requires ValidTime(t) && t.date.y >= 1970
    ensures Epoch(t) == DayNumber(t.date) * 86400 + t.hh * 3600 + t.mm * 60 + t.ss
  {
    DaysCount(t.date);
    InsideYear(t.date);
    if 1970 < t.date.y { YearStartGrows(1970, t.date.y); }
  }

  /** It is 0 when 1970 begins, ... */
  lemma EpochBegins(t: Time)
    requires t == Time(Date(1970, 1, 1), 0, 0, 0)
    ensures ValidTime(t) && Epoch(t) == 0
  {
    EpochIs(t);
  }

  /** ... and one more every second after. */
  lemma EpochCounts(t: Time)
    requires ValidTime(t) && t.date.y >= 1970
    ensures Epoch(NextSecond(t)) == Epoch(t) + 1
  {
    var n := NextSecond(t);
    EpochIs(t);
    EpochIs(n);
    if t.hh == 23 && t.mm == 59 && t.ss == 59 { CountNext(t.date); }
  }

  /** Two-digit years from 70 on are of the last century, those below of this one. */
  lemma TwoDigitYears(yy: nat, month: nat, day: nat, hh: nat, mm: nat, ss: nat)
    requires yy < 100
    ensures EpochOf(yy, month, day, hh, mm, ss)
         == EpochOf(if yy >= 70 then 1900 + yy else 2000 + yy, month, day, hh, mm, ss)
  {
  }

  /** A field out of range, or a year before 1601, is a failure. */
  lemma BadFieldsFail(year: nat, month: nat, day: nat, hh: nat, mm: nat, ss: nat)
    requires day == 0 || day > 31 || month == 0 || month > 12 || hh > 23 || mm > 59 || ss > 59 || 100 <= year < 1601
    ensures EpochOf(year, month, day, hh, mm, ss) == 0
  {
  }
}
