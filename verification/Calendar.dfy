/**
 The time values of ECMA-262, section 21.4.1: days and milliseconds since 1 January 1970 UTC
 on the proleptic Gregorian calendar.
 */
module Calendar {

  type Time = int
  type Day = int

  predicate Leap(y: int) { y % 4 == 0 && (y % 100 != 0 || y % 400 == 0) }

  function DaysInYear(y: int): int { if Leap(y) then 366 else 365 }

  /** The number of the first day of a year. */
  function DayFromYear(y: int): Day {
    365 * (y - 1970) + (y - 1969) / 4 - (y - 1901) / 100 + (y - 1601) / 400
  }

  lemma NextYear(y: int)
    ensures DayFromYear(y + 1) == DayFromYear(y) + DaysInYear(y)
  {
    EveryFourth(y);
    EveryHundredth(y);
    EveryFourHundredth(y);
    Centuries(y);
  }

  lemma Centuries(y: int)
    ensures y % 400 == 0 ==> y % 100 == 0
    ensures y % 100 == 0 ==> y % 4 == 0
  {}

  lemma EveryFourth(y: int)
    ensures (y - 1968) / 4 - (y - 1969) / 4 == if y % 4 == 0 then 1 else 0
  {}

  lemma EveryHundredth(y: int)
    ensures (y - 1900) / 100 - (y - 1901) / 100 == if y % 100 == 0 then 1 else 0
  {}

  lemma EveryFourHundredth(y: int)
    ensures (y - 1600) / 400 - (y - 1601) / 400 == if y % 400 == 0 then 1 else 0
  {}

  lemma {:induction false} YearsAscend(a: int, b: int)
    requires a <= b
    ensures DayFromYear(a) + 365 * (b - a) <= DayFromYear(b)
    decreases b - a
  {
    if a < b {
      NextYear(b - 1);
      YearsAscend(a, b - 1);
    }
  }

  /** The year of a day: climb from an estimate that is not too late. */
  function YearFromDay(d: Day): (y: int)
    ensures DayFromYear(y) <= d < DayFromYear(y + 1)
  {
    EstimateIsEarly(d);
    Climb(d, Estimate(d))
  }

  function Estimate(d: Day): int { 1970 + if d >= 0 then d / 366 else d / 365 }

  lemma EstimateIsEarly(d: Day)
    ensures DayFromYear(Estimate(d)) <= d
  {
    var k := Estimate(d) - 1970;
    if d >= 0 {
      assert 366 * k <= d;
    } else {
      assert 365 * k <= d;
    }
  }

  function Climb(d: Day, y: int): (r: int)
    requires DayFromYear(y) <= d
    ensures DayFromYear(r) <= d < DayFromYear(r + 1)
    decreases d - DayFromYear(y)
  {
    NextYear(y);
    if DayFromYear(y + 1) <= d then Climb(d, y + 1) else y
  }

  lemma YearIsUnique(d: Day, y: int)
    requires DayFromYear(y) <= d < DayFromYear(y + 1)
    ensures YearFromDay(d) == y
  {
    var r := YearFromDay(d);
    if r < y { YearsAscend(r + 1, y); }
    if y < r { YearsAscend(y + 1, r); }
  }

  // ---------------------------------------------------------------- months

  /** Days of the year before a month; months count from 0, and 12 is the end of the year. */
  function MonthStart(m: nat, leap: bool): int
    requires m <= 12
  {
    var l := if leap then 1 else 0;
    if m == 0 then 0
    else if m == 1 then 31
    else if m == 2 then 59 + l
    else if m == 3 then 90 + l
    else if m == 4 then 120 + l
    else if m == 5 then 151 + l
    else if m == 6 then 181 + l
    else if m == 7 then 212 + l
    else if m == 8 then 243 + l
    else if m == 9 then 273 + l
    else if m == 10 then 304 + l
    else if m == 11 then 334 + l
    else 365 + l
  }

  function MonthOf(dayInYear: int, leap: bool): (m: nat)
    requires 0 <= dayInYear < MonthStart(12, leap)
    ensures m < 12 && MonthStart(m, leap) <= dayInYear < MonthStart(m + 1, leap)
  {
    if dayInYear < MonthStart(1, leap) then 0
    else if dayInYear < MonthStart(2, leap) then 1
    else if dayInYear < MonthStart(3, leap) then 2
    else if dayInYear < MonthStart(4, leap) then 3
    else if dayInYear < MonthStart(5, leap) then 4
    else if dayInYear < MonthStart(6, leap) then 5
    else if dayInYear < MonthStart(7, leap) then 6
    else if dayInYear < MonthStart(8, leap) then 7
    else if dayInYear < MonthStart(9, leap) then 8
    else if dayInYear < MonthStart(10, leap) then 9
    else if dayInYear < MonthStart(11, leap) then 10
    else 11
  }

  /** How long a month is; here months count from 1. */
  function DaysInMonth(y: int, month: int): int {
    if month == 2 then (if Leap(y) then 29 else 28)
    else if month in {4, 6, 9, 11} then 30
    else 31
  }

  lemma MonthLength(y: int, m: nat)
    requires m < 12
    ensures MonthStart(m + 1, Leap(y)) - MonthStart(m, Leap(y)) == DaysInMonth(y, m + 1)
  {}

  lemma MonthIsUnique(dayInYear: int, leap: bool, m: nat)
    requires m < 12 && MonthStart(m, leap) <= dayInYear < MonthStart(m + 1, leap)
    ensures dayInYear < MonthStart(12, leap) && MonthOf(dayInYear, leap) == m
  {}

  // ---------------------------------------------------------------- civil dates

  datatype Civil = Civil(year: int, month: int, day: int)

  /** A date of the calendar: months and days count from 1. */
  predicate Real(c: Civil) {
    1 <= c.month <= 12 && 1 <= c.day <= DaysInMonth(c.year, c.month)
  }

  /** MakeDay: a month outside 0..11 moves the year, a day outside the month moves on in days. */
  function MakeDay(year: int, month0: int, date: int): Day {
    var y, m := year + month0 / 12, month0 % 12;
    DayFromYear(y) + MonthStart(m, Leap(y)) + date - 1
  }

  function CivilOfDay(d: Day): Civil {
    var y := YearFromDay(d);
    NextYear(y);
    var n := d - DayFromYear(y);
    var m := MonthOf(n, Leap(y));
    Civil(y, m + 1, n - MonthStart(m, Leap(y)) + 1)
  }

  lemma CivilOfDayIsReal(d: Day, c: Civil)
    requires c == CivilOfDay(d)
    ensures Real(c)
  {
    NextYear(c.year);
    MonthLength(c.year, c.month - 1);
  }

  lemma DayOfCivilOfDay(d: Day, c: Civil)
    requires c == CivilOfDay(d)
    ensures MakeDay(c.year, c.month - 1, c.day) == d
  {
    CivilParts(d, c);
    DayOfParts(d, c.year, c.month - 1, c.day);
  }

  lemma CivilParts(d: Day, c: Civil)
    requires c == CivilOfDay(d)
    ensures 1 <= c.month <= 12
    ensures c.day == d - DayFromYear(c.year) - MonthStart(c.month - 1, Leap(c.year)) + 1
  {}

  lemma DayOfParts(d: Day, y: int, m: nat, date: int)
    requires m < 12 && date == d - DayFromYear(y) - MonthStart(m, Leap(y)) + 1
    ensures MakeDay(y, m, date) == d
  {
    InRangeDay(y, m, date);
  }

  /** With the month in range, the year is not moved. */
  lemma InRangeDay(y: int, m: nat, date: int)
    requires m < 12
    ensures MakeDay(y, m, date) == DayFromYear(y) + MonthStart(m, Leap(y)) + date - 1
  {
    assert m / 12 == 0 && m % 12 == m;
  }

  /** The date of a day known to lie in a month of a year. */
  lemma CivilOfDayInMonth(d: Day, y: int, m: nat)
    requires m < 12
    requires MonthStart(m, Leap(y)) <= d - DayFromYear(y) < MonthStart(m + 1, Leap(y))
    ensures CivilOfDay(d) == Civil(y, m + 1, d - DayFromYear(y) - MonthStart(m, Leap(y)) + 1)
  {
    MonthIsUnique(d - DayFromYear(y), Leap(y), m);
    NextYear(y);
    YearIsUnique(d, y);
  }

  lemma CivilOfDayOfCivil(c: Civil)
    requires Real(c)
    ensures CivilOfDay(MakeDay(c.year, c.month - 1, c.day)) == c
  {
    InRangeDay(c.year, c.month - 1, c.day);
    MonthLength(c.year, c.month - 1);
    CivilOfDayInMonth(MakeDay(c.year, c.month - 1, c.day), c.year, c.month - 1);
  }

  /** Days and dates correspond one to one: a day has one date and a real date one day. */
  lemma DaysAreDates(d: Day, c: Civil)
    requires Real(c)
    ensures CivilOfDay(d) == c <==> MakeDay(c.year, c.month - 1, c.day) == d
  {
    DayOfCivilOfDay(d, CivilOfDay(d));
    CivilOfDayOfCivil(c);
  }

  predicate LastOfMonth(c: Civil) {
    if c.month == 2 then c.day == if (c.year % 4 == 0 && c.year % 100 != 0) || c.year % 400 == 0 then 29 else 28
    else if c.month == 4 || c.month == 6 || c.month == 9 || c.month == 11 then c.day == 30
    else c.day == 31
  }

  /** The date after a date. */
  function Tomorrow(c: Civil): Civil {
    if !LastOfMonth(c) then Civil(c.year, c.month, c.day + 1)
    else if c.month < 12 then Civil(c.year, c.month + 1, 1)
    else Civil(c.year + 1, 1, 1)
  }

  /** Day 0 is 1 January 1970, and each day is followed by the next date of the Gregorian calendar. */
  lemma DaysCountFromTheEpoch(d: Day)
    ensures d == 0 ==> CivilOfDay(d) == Civil(1970, 1, 1)
    ensures CivilOfDay(d + 1) == Tomorrow(CivilOfDay(d))
  {
    if d == 0 { Epoch(d); }
    var c := CivilOfDay(d);
    CivilOfDayIsReal(d, c);
    DayOfCivilOfDay(d, c);
    TomorrowIs(c, d);
  }

  lemma Epoch(d: Day)
    requires d == 0
    ensures CivilOfDay(d) == Civil(1970, 1, 1)
  {
    CivilOfDayInMonth(d, 1970, 0);
  }

  lemma TomorrowIs(c: Civil, d: Day)
    requires Real(c) && MakeDay(c.year, c.month - 1, c.day) == d
    ensures CivilOfDay(d + 1) == Tomorrow(c)
  {
    LastDay(c);
    if !LastOfMonth(c) {
      DayFollows(c.year, c.month - 1, c.day, d);
    } else if c.month < 12 {
      MonthFollows(c.year, c.month - 1, c.day, d);
    } else {
      YearFollows(c.year, c.day, d);
    }
  }

  lemma DayFollows(y: int, m: nat, date: int, d: Day)
    requires m < 12 && 1 <= date < DaysInMonth(y, m + 1) && MakeDay(y, m, date) == d
    ensures CivilOfDay(d + 1) == Civil(y, m + 1, date + 1)
  {
    DayAfter(y, m, date);
    IsDateOf(d + 1, y, m, date + 1);
  }

  lemma MonthFollows(y: int, m: nat, date: int, d: Day)
    requires m < 11 && date == DaysInMonth(y, m + 1) && MakeDay(y, m, date) == d
    ensures CivilOfDay(d + 1) == Civil(y, m + 2, 1)
  {
    MonthAfter(y, m);
    IsDateOf(d + 1, y, m + 1, 1);
  }

  lemma YearFollows(y: int, date: int, d: Day)
    requires date == DaysInMonth(y, 12) && MakeDay(y, 11, date) == d
    ensures CivilOfDay(d + 1) == Civil(y + 1, 1, 1)
  {
    YearAfter(y);
    IsDateOf(d + 1, y + 1, 0, 1);
  }

  lemma IsDateOf(d: Day, y: int, m: nat, date: int)
    requires m < 12 && 1 <= date <= DaysInMonth(y, m + 1) && MakeDay(y, m, date) == d
    ensures CivilOfDay(d) == Civil(y, m + 1, date)
  {
    CivilOfDayOfCivil(Civil(y, m + 1, date));
  }

  lemma LastDay(c: Civil)
    requires Real(c)
    ensures LastOfMonth(c) <==> c.day == DaysInMonth(c.year, c.month)
  {}

  lemma DayAfter(y: int, m: nat, date: int)
    requires m < 12
    ensures MakeDay(y, m, date + 1) == MakeDay(y, m, date) + 1
  {}

  lemma MonthAfter(y: int, m: nat)
    requires m < 11
    ensures MakeDay(y, m + 1, 1) == MakeDay(y, m, DaysInMonth(y, m + 1)) + 1
  {
    InRangeDay(y, m, DaysInMonth(y, m + 1));
    InRangeDay(y, m + 1, 1);
    MonthLength(y, m);
  }

  lemma YearAfter(y: int)
    ensures MakeDay(y + 1, 0, 1) == MakeDay(y, 11, 31) + 1
  {
    InRangeDay(y, 11, 31);
    InRangeDay(y + 1, 0, 1);
    NextYear(y);
  }

  // ---------------------------------------------------------------- times

  datatype Fields = Fields(date: Civil, hour: int, minute: int, second: int, ms: int)

  predicate RealClock(f: Fields) {
    0 <= f.hour <= 23 && 0 <= f.minute <= 59 && 0 <= f.second <= 59 && 0 <= f.ms <= 999
  }

  predicate RealTime(f: Fields) { Real(f.date) && RealClock(f) }

  function MakeTime(hour: int, minute: int, second: int, ms: int): int {
    hour * 3600000 + minute * 60000 + second * 1000 + ms
  }

  function MakeDate(day: Day, time: int): Time { day * 86400000 + time }

  /** The UTC fields of a time value. */
  function FieldsOf(t: Time): Fields { FieldsFrom(t / 86400000, t % 86400000) }

  function FieldsFrom(day: Day, r: int): Fields {
    Fields(CivilOfDay(day), r / 3600000, r / 60000 % 60, r / 1000 % 60, r % 1000)
  }

  /** The time value of fields, in range or not. */
  function TimeOf(f: Fields): Time {
    MakeDate(MakeDay(f.date.year, f.date.month - 1, f.date.day), MakeTime(f.hour, f.minute, f.second, f.ms))
  }

  lemma SplitTime(day: Day, h: int, m: int, s: int, ms: int)
    requires 0 <= h <= 23 && 0 <= m <= 59 && 0 <= s <= 59 && 0 <= ms <= 999
    ensures var t := MakeDate(day, MakeTime(h, m, s, ms));
            var r := t % 86400000;
            && t / 86400000 == day && r == MakeTime(h, m, s, ms)
            && r / 3600000 == h && r / 60000 % 60 == m && r / 1000 % 60 == s && r % 1000 == ms
  {
    var r := MakeTime(h, m, s, ms);
    assert 0 <= r < 86400000;
    assert r / 60000 == h * 60 + m;
    assert r / 1000 == (h * 60 + m) * 60 + s;
  }

  lemma JoinTime(r: int)
    requires 0 <= r < 86400000
    ensures MakeTime(r / 3600000, r / 60000 % 60, r / 1000 % 60, r % 1000) == r
    ensures 0 <= r / 3600000 <= 23
  {
    var s := r / 1000;
    assert r == 1000 * s + r % 1000;
    assert r / 60000 == s / 60 && r / 3600000 == s / 60 / 60;
    var m := s / 60;
    assert s == 60 * m + s % 60 && m == 60 * (m / 60) + m % 60;
  }

  lemma TimeOfParts(t: Time, day: Day, r: int, f: Fields)
    requires t == MakeDate(day, r) && day == MakeDay(f.date.year, f.date.month - 1, f.date.day)
    requires r == MakeTime(f.hour, f.minute, f.second, f.ms)
    ensures TimeOf(f) == t
  {}

  lemma RealParts(r: int, c: Civil, f: Fields)
    requires 0 <= r < 86400000 && f == Fields(c, r / 3600000, r / 60000 % 60, r / 1000 % 60, r % 1000)
    ensures RealClock(f) && MakeTime(f.hour, f.minute, f.second, f.ms) == r
  {
    JoinTime(r);
  }

  /** The fields of a time value are always real, and give the time value back. */
  lemma TimeOfFieldsOf(t: Time)
    ensures RealTime(FieldsOf(t)) && TimeOf(FieldsOf(t)) == t
  {
    var day, r := t / 86400000, t % 86400000;
    var f := FieldsOf(t);
    CivilOfDayIsReal(day, f.date);
    DayOfCivilOfDay(day, f.date);
    RealParts(r, f.date, f);
    TimeOfParts(t, day, r, f);
  }

  lemma FieldsAt(t: Time, day: Day, f: Fields)
    requires RealClock(f) && CivilOfDay(day) == f.date
    requires t == MakeDate(day, MakeTime(f.hour, f.minute, f.second, f.ms))
    ensures FieldsOf(t) == f
  {
    SplitTime(day, f.hour, f.minute, f.second, f.ms);
  }

  lemma FieldsOfTimeOfDay(day: Day, f: Fields)
    requires RealClock(f) && CivilOfDay(day) == f.date && day == MakeDay(f.date.year, f.date.month - 1, f.date.day)
    ensures FieldsOf(TimeOf(f)) == f
  {
    FieldsAt(TimeOf(f), day, f);
  }

  /** Real fields come back from their time value. */
  lemma FieldsOfTimeOf(f: Fields)
    requires RealTime(f)
    ensures FieldsOf(TimeOf(f)) == f
  {
    CivilOfDayOfCivil(f.date);
    FieldsOfTimeOfDay(MakeDay(f.date.year, f.date.month - 1, f.date.day), f);
  }

  /** A time value counts the days since the epoch and the milliseconds of the day. */
  lemma TimeCounts(f: Fields, day: Day)
    requires MakeDay(f.date.year, f.date.month - 1, f.date.day) == day
    ensures TimeOf(f) == 86_400_000 * day + 3_600_000 * f.hour + 60_000 * f.minute + 1000 * f.second + f.ms
  {
    var clock := MakeTime(f.hour, f.minute, f.second, f.ms);
    TimeOfParts(MakeDate(day, clock), day, clock, f);
    CountOut(MakeDate(day, clock), day, clock, f.hour, f.minute, f.second, f.ms);
  }

  lemma CountOut(t: Time, day: Day, clock: int, h: int, m: int, s: int, ms: int)
    requires t == MakeDate(day, clock) && clock == MakeTime(h, m, s, ms)
    ensures t == 86_400_000 * day + 3_600_000 * h + 60_000 * m + 1000 * s + ms
  {}
}
