/**
 The optional date of a query: a date and time with an offset, in fixed-width digits, accepted
 only when the calendar gives its fields back unchanged.
 */
module IsoDate {
  import opened Base
  import opened Calendar

  // ---------------------------------------------------------------- digits

  predicate IsDigit(c: char) { '0' <= c <= '9' }

  predicate Digits(s: string) { forall c <- s :: IsDigit(c) }

  function Digit(d: nat): char
    requires d < 10
  {
    ('0' as int + d) as char
  }

  function DigitValue(c: char): (d: nat)
    requires IsDigit(c)
    ensures d < 10 && Digit(d) == c
  {
    c as int - '0' as int
  }

  /** The number a run of digits stands for. */
  function Number(s: string): nat
    requires Digits(s)
  {
    if s == "" then 0
    else
      assert s[|s| - 1] in s;
      10 * Number(s[..|s| - 1]) + DigitValue(s[|s| - 1])
  }

  /** The last `w` decimal digits of a number. */
  function Padded(n: nat, w: nat): (s: string)
    ensures |s| == w && Digits(s)
  {
    if w == 0 then "" else Padded(n / 10, w - 1) + [Digit(n % 10)]
  }

  function Pow10(w: nat): nat { if w == 0 then 1 else 10 * Pow10(w - 1) }

  lemma {:induction false} NumberOfPadded(n: nat, w: nat)
    requires n < Pow10(w)
    ensures Number(Padded(n, w)) == n
  {
    if w > 0 {
      NumberOfPadded(n / 10, w - 1);
      assert Padded(n, w)[..w - 1] == Padded(n / 10, w - 1);
    }
  }

  lemma LastDigit(n: nat, d: nat)
    requires d < 10
    ensures (10 * n + d) / 10 == n && (10 * n + d) % 10 == d
  {}

  lemma {:induction false} PaddedOfNumber(s: string)
    requires Digits(s)
    ensures Padded(Number(s), |s|) == s && Number(s) < Pow10(|s|)
  {
    if s != "" {
      var front, last := s[..|s| - 1], s[|s| - 1];
      assert last in s && s == front + [last];
      PaddedOfNumber(front);
      PaddedOneMore(front, last, Number(front), |front|);
    }
  }

  lemma PaddedOneMore(front: string, last: char, n: nat, w: nat)
    requires IsDigit(last) && |front| == w && Padded(n, w) == front && n < Pow10(w)
    ensures var m := 10 * n + DigitValue(last); Padded(m, w + 1) == front + [last] && m < Pow10(w + 1)
  {
    LastDigit(n, DigitValue(last));
  }

  // ---------------------------------------------------------------- the pattern

  datatype Offset = Z | Shift(plus: bool, hours: nat, minutes: nat)

  /** What the text of a date says; the fraction keeps its zero to three digits. */
  datatype Stamp = Stamp(
    year: nat, month: nat, day: nat,
    hour: nat, minute: nat, second: nat,
    fraction: string,
    offset: Offset)

  /** What fixed widths can hold. */
  predicate Fits(s: Stamp) {
    && s.year < 10000 && s.month < 100 && s.day < 100
    && s.hour < 100 && s.minute < 100 && s.second < 100
    && |s.fraction| <= 3 && Digits(s.fraction)
    && (s.offset.Shift? ==> s.offset.hours < 100 && s.offset.minutes < 100)
  }

  predicate Two(s: string, at: nat) {
    at + 2 <= |s| && Digits(s[at..at + 2])
  }

  /** The first nineteen characters of the pattern: the date, a T, and the time to the second. */
  predicate Head(s: string) {
    && |s| == 19
    && Digits(s[0..4]) && s[4] == '-'
    && Two(s, 5) && s[7] == '-'
    && Two(s, 8) && s[10] == 'T'
    && Two(s, 11) && s[13] == ':'
    && Two(s, 14) && s[16] == ':'
    && Two(s, 17)
  }

  /** The group of the offset. */
  function ScanOffset(s: string): Option<Offset> {
    if s == "Z" then Some(Z)
    else if |s| == 6 && (s[0] == '+' || s[0] == '-') && Two(s, 1) && s[3] == ':' && Two(s, 4) then
      Some(Shift(s[0] == '+', Number(s[1..3]), Number(s[4..6])))
    else None
  }

  /** How many digits a text starts with, up to a bound. */
  function Leading(s: string, bound: nat): (n: nat)
    ensures n <= bound && n <= |s| && Digits(s[..n])
    ensures n < bound && n < |s| ==> !IsDigit(s[n])
  {
    if bound == 0 || s == "" || !IsDigit(s[0]) then 0
    else
      var n := Leading(s[1..], bound - 1);
      assert s[..n + 1] == [s[0]] + s[1..][..n];
      n + 1
  }

  /** After the head: an optional fraction of one to three digits, and the offset to the end. */
  function ScanTail(rest: string): Option<(string, Offset)> {
    var n := if rest != "" && rest[0] == '.' then Leading(rest[1..], 3) else 0;
    var offset := ScanOffset(if n > 0 then rest[n + 1..] else rest);
    if offset.None? then None else Some((if n > 0 then rest[1..n + 1] else "", offset.value))
  }

  function ScanHead(t: string, fraction: string, offset: Offset): Stamp
    requires Head(t)
  {
    Stamp(Number(t[0..4]), Number(t[5..7]), Number(t[8..10]),
          Number(t[11..13]), Number(t[14..16]), Number(t[17..19]), fraction, offset)
  }

  /** The whole pattern. */
  function Scan(s: string): Option<Stamp> {
    if |s| < 19 || !Head(s[..19]) then None
    else
      var tail := ScanTail(s[19..]);
      if tail.None? then None else Some(ScanHead(s[..19], tail.value.0, tail.value.1))
  }

  // ---------------------------------------------------------------- the texts of a stamp

  function HeadText(s: Stamp): (t: string)
    ensures |t| == 19
  {
    Padded(s.year, 4) + "-" + Padded(s.month, 2) + "-" + Padded(s.day, 2) + "T" +
    Padded(s.hour, 2) + ":" + Padded(s.minute, 2) + ":" + Padded(s.second, 2)
  }

  function OffsetText(o: Offset): string {
    match o
    case Z => "Z"
    case Shift(plus, hours, minutes) =>
      (if plus then "+" else "-") + Padded(hours, 2) + ":" + Padded(minutes, 2)
  }

  function FractionText(fraction: string): string {
    if fraction == "" then "" else "." + fraction
  }

  function Text(s: Stamp): string { HeadText(s) + FractionText(s.fraction) + OffsetText(s.offset) }

  lemma HeadOfHeadText(s: Stamp)
    requires Fits(s)
    ensures Head(HeadText(s)) && ScanHead(HeadText(s), s.fraction, s.offset) == s
  {
    var t := HeadText(s);
    assert Pow10(4) == 10000 && Pow10(2) == 100;
    NumberOfPadded(s.year, 4);
    NumberOfPadded(s.month, 2);
    NumberOfPadded(s.day, 2);
    NumberOfPadded(s.hour, 2);
    NumberOfPadded(s.minute, 2);
    NumberOfPadded(s.second, 2);
    assert t[0..4] == Padded(s.year, 4);
    assert t[5..7] == Padded(s.month, 2);
    assert t[8..10] == Padded(s.day, 2);
    assert t[11..13] == Padded(s.hour, 2);
    assert t[14..16] == Padded(s.minute, 2);
    assert t[17..19] == Padded(s.second, 2);
  }

  lemma HeadTextOfHead(t: string, fraction: string, offset: Offset)
    requires Head(t)
    ensures HeadText(ScanHead(t, fraction, offset)) == t
  {
    PaddedOfNumber(t[0..4]);
    PaddedOfNumber(t[5..7]);
    PaddedOfNumber(t[8..10]);
    PaddedOfNumber(t[11..13]);
    PaddedOfNumber(t[14..16]);
    PaddedOfNumber(t[17..19]);
    assert t == t[0..4] + [t[4]] + t[5..7] + [t[7]] + t[8..10] + [t[10]] +
                t[11..13] + [t[13]] + t[14..16] + [t[16]] + t[17..19];
  }

  lemma OffsetRoundTrip(o: Offset)
    requires o.Shift? ==> o.hours < 100 && o.minutes < 100
    ensures ScanOffset(OffsetText(o)) == Some(o)
  {
    if o.Shift? {
      var t := OffsetText(o);
      assert Pow10(2) == 100;
      NumberOfPadded(o.hours, 2);
      NumberOfPadded(o.minutes, 2);
      assert t[1..3] == Padded(o.hours, 2);
      assert t[4..6] == Padded(o.minutes, 2);
    }
  }

  lemma OffsetTextOfScan(t: string)
    requires ScanOffset(t).Some?
    ensures OffsetText(ScanOffset(t).value) == t
    ensures var o := ScanOffset(t).value; o.Shift? ==> o.hours < 100 && o.minutes < 100
  {
    if t != "Z" {
      PaddedOfNumber(t[1..3]);
      PaddedOfNumber(t[4..6]);
      assert Pow10(2) == 100;
      assert t == [t[0]] + t[1..3] + [t[3]] + t[4..6];
    }
  }

  lemma {:induction false} LeadingOfDigits(f: string, rest: string, bound: nat)
    requires Digits(f) && |f| <= bound && (rest == "" || !IsDigit(rest[0]))
    ensures Leading(f + rest, bound) == |f|
  {
    if f == "" {
      assert f + rest == rest;
    } else {
      assert (f + rest)[1..] == f[1..] + rest;
      LeadingOfDigits(f[1..], rest, bound - 1);
    }
  }

  lemma TailRoundTrip(fraction: string, o: Offset)
    requires |fraction| <= 3 && Digits(fraction) && (o.Shift? ==> o.hours < 100 && o.minutes < 100)
    ensures ScanTail(FractionText(fraction) + OffsetText(o)) == Some((fraction, o))
  {
    var rest, off := FractionText(fraction) + OffsetText(o), OffsetText(o);
    OffsetRoundTrip(o);
    if fraction == "" {
      assert rest == off;
    } else {
      assert rest[1..] == fraction + off;
      LeadingOfDigits(fraction, off, 3);
      assert rest[1..|fraction| + 1] == fraction;
      assert rest[|fraction| + 1..] == off;
    }
  }

  lemma TextOfTail(rest: string)
    requires ScanTail(rest).Some?
    ensures var (fraction, o) := ScanTail(rest).value;
            && |fraction| <= 3 && Digits(fraction) && (o.Shift? ==> o.hours < 100 && o.minutes < 100)
            && FractionText(fraction) + OffsetText(o) == rest
  {
    var n := if rest != "" && rest[0] == '.' then Leading(rest[1..], 3) else 0;
    OffsetTextOfScan(if n > 0 then rest[n + 1..] else rest);
    if n > 0 {
      assert rest[1..n + 1] == rest[1..][..n];
      assert rest == "." + rest[1..n + 1] + rest[n + 1..];
    }
  }

  /** The pattern reads every text of a stamp back. */
  lemma ScanUndoesText(s: Stamp)
    requires Fits(s)
    ensures Scan(Text(s)) == Some(s)
  {
    var t := Text(s);
    assert t[..19] == HeadText(s) && t[19..] == FractionText(s.fraction) + OffsetText(s.offset);
    HeadOfHeadText(s);
    TailRoundTrip(s.fraction, s.offset);
  }

  lemma ScannedFits(t: string)
    requires Scan(t).Some?
    ensures Fits(Scan(t).value)
  {
    HeadFits(t[..19]);
    TextOfTail(t[19..]);
  }

  /** And it matches nothing else. */
  lemma TextUndoesScan(t: string)
    requires Scan(t).Some?
    ensures Fits(Scan(t).value) && Text(Scan(t).value) == t
  {
    ScannedFits(t);
    var s := Scan(t).value;
    HeadTextOfHead(t[..19], s.fraction, s.offset);
    TextOfTail(t[19..]);
    Rejoined(t, HeadText(s), FractionText(s.fraction), OffsetText(s.offset));
  }

  lemma Rejoined(t: string, head: string, fraction: string, offset: string)
    requires |t| >= 19 && head == t[..19] && fraction + offset == t[19..]
    ensures head + fraction + offset == t
  {
    assert t == t[..19] + t[19..];
  }

  lemma HeadFits(t: string)
    requires Head(t)
    ensures Number(t[0..4]) < 10000 && Number(t[5..7]) < 100 && Number(t[8..10]) < 100
    ensures Number(t[11..13]) < 100 && Number(t[14..16]) < 100 && Number(t[17..19]) < 100
  {
    assert Pow10(4) == 10000 && Pow10(2) == 100;
    PaddedOfNumber(t[0..4]);
    PaddedOfNumber(t[5..7]);
    PaddedOfNumber(t[8..10]);
    PaddedOfNumber(t[11..13]);
    PaddedOfNumber(t[14..16]);
    PaddedOfNumber(t[17..19]);
  }

  // ---------------------------------------------------------------- the probe

  /** A fraction padded with zeros to milliseconds. */
  function Milliseconds(fraction: string): nat
    requires Digits(fraction)
  {
    Number(PadEnd(fraction))
  }

  function PadEnd(s: string): (r: string)
    requires Digits(s)
    ensures Digits(r) && (|s| <= 3 ==> |r| == 3)
    decreases 3 - |s|
  {
    if |s| >= 3 then s else PadEnd(s + "0")
  }

  lemma MillisecondsFit(fraction: string)
    requires Digits(fraction) && |fraction| <= 3
    ensures Milliseconds(fraction) < 1000
  {
    PaddedOfNumber(PadEnd(fraction));
    assert Pow10(3) == 1000;
  }

  function WrittenFields(s: Stamp): Fields
    requires Fits(s)
  {
    Fields(Civil(s.year, s.month, s.day), s.hour, s.minute, s.second, Milliseconds(s.fraction))
  }

  /** Date.UTC takes the years 0 to 99 for those of the twentieth century. */
  function FullYear(year: int): int { if 0 <= year <= 99 then 1900 + year else year }

  function DateUTC(f: Fields): Time { TimeOf(f.(date := f.date.(year := FullYear(f.date.year)))) }

  /** The comparison of the probe with the fields as written; milliseconds are not compared. */
  predicate ProbeAccepts(f: Fields) {
    var p := FieldsOf(DateUTC(f));
    && p.date.year == f.date.year && p.date.month - 1 == f.date.month - 1 && p.date.day == f.date.day
    && p.hour == f.hour && p.minute == f.minute && p.second == f.second
  }

  /** A month or day that runs over cannot lead before the day before the year's first month. */
  lemma RemappedDayIsLate(year: int, month: int, date: int)
    requires 1900 <= year && 0 <= month && 0 <= date
    ensures MakeDay(year, month - 1, date) >= DayFromYear(1899)
  {
    var y, m := year + (month - 1) / 12, (month - 1) % 12;
    YearsAscend(1899, y);
    if y == 1899 { assert m == 11; }
  }

  lemma LateDayLateYear(d: Day)
    requires d >= DayFromYear(1899)
    ensures CivilOfDay(d).year >= 1899
  {
    var r := YearFromDay(d);
    if r < 1899 { YearsAscend(r + 1, 1899); }
  }

  /** However far months, days and times run over, the probe of a remapped year is not before 1899. */
  lemma RemappedYearIsLate(f: Fields)
    requires 0 <= f.date.year <= 99 && 0 <= f.date.month && 0 <= f.date.day
    requires 0 <= f.hour && 0 <= f.minute && 0 <= f.second && 0 <= f.ms
    ensures FieldsOf(DateUTC(f)).date.year >= 1899
  {
    var day := MakeDay(1900 + f.date.year, f.date.month - 1, f.date.day);
    RemappedDayIsLate(1900 + f.date.year, f.date.month, f.date.day);
    LaterDay(day, MakeTime(f.hour, f.minute, f.second, f.ms));
    LateDayLateYear(DateUTC(f) / 86400000);
  }

  lemma LaterDay(day: Day, time: int)
    requires time >= 0
    ensures MakeDate(day, time) / 86400000 >= day
  {}

  /** The probe accepts exactly the real dates and times from the year 100 on. */
  lemma ProbeAcceptsExactly(f: Fields)
    requires 0 <= f.date.year <= 9999 && 0 <= f.date.month <= 99 && 0 <= f.date.day <= 99
    requires 0 <= f.hour <= 99 && 0 <= f.minute <= 99 && 0 <= f.second <= 99 && 0 <= f.ms <= 999
    ensures ProbeAccepts(f) <==> f.date.year >= 100 && RealTime(f)
  {
    if f.date.year < 100 {
      RemappedYearIsLate(f);
    } else {
      assert DateUTC(f) == TimeOf(f);
      TimeOfFieldsOf(TimeOf(f));
      if RealTime(f) { FieldsOfTimeOf(f); }
    }
  }

  // ---------------------------------------------------------------- the whole parse

  datatype Parsed = Absent | Malformed | Invalid | Date(time: Time)

  predicate OffsetInRange(o: Offset) { o.Shift? ==> o.hours <= 23 && o.minutes <= 59 }

  /** How far local time is ahead of UTC. */
  function OffsetMs(o: Offset): int {
    match o
    case Z => 0
    case Shift(plus, hours, minutes) =>
      var ms := MakeTime(hours, minutes, 0, 0);
      if plus then ms else -ms
  }

  /** Time values outside this range are not numbers: section 21.4.1.1 of ECMA-262. */
  predicate InTimeRange(t: Time) { -8640000000000000 <= t <= 8640000000000000 }

  function ParseOptionalIsoDate(value: Option<string>): Parsed {
    if value.None? then Absent
    else if Scan(value.value).None? then Malformed
    else
      TextUndoesScan(value.value);
      var s := Scan(value.value).value;
      if !ProbeAccepts(WrittenFields(s)) then Invalid
      else if !OffsetInRange(s.offset) then Invalid
      else
        var t := InstantOf(s);
        if InTimeRange(t) then Date(t) else Invalid
  }

  predicate RealStamp(s: Stamp) {
    Fits(s) && 100 <= s.year && RealTime(WrittenFields(s)) && OffsetInRange(s.offset)
  }

  lemma RealStampsAreInRange(s: Stamp)
    requires RealStamp(s)
    ensures InTimeRange(InstantOf(s))
  {
    var f := WrittenFields(s);
    var day := MakeDay(f.date.year, f.date.month - 1, f.date.day);
    InRangeDay(f.date.year, f.date.month - 1, f.date.day);
    YearsAscend(100, f.date.year);
    YearsAscend(f.date.year, 9999);
    assert -700000 <= day <= 3000000;
    assert 0 <= MakeTime(f.hour, f.minute, f.second, f.ms) < 86400000;
    DayInRange(day, MakeTime(f.hour, f.minute, f.second, f.ms), OffsetMs(s.offset));
  }

  lemma DayInRange(day: Day, time: int, offset: int)
    requires -700000 <= day <= 3000000 && 0 <= time < 86400000 && -86400000 <= offset <= 86400000
    ensures InTimeRange(MakeDate(day, time) - offset)
  {}

  /** A text is accepted exactly when it is the text of a real date from the year 100 on. */
  lemma AcceptedExactly(value: string)
    ensures ParseOptionalIsoDate(Some(value)).Date? <==> exists s: Stamp :: RealStamp(s) && Text(s) == value
  {
    if Scan(value).Some? {
      TextUndoesScan(value);
      var s := Scan(value).value;
      MillisecondsFit(s.fraction);
      ProbeAcceptsExactly(WrittenFields(s));
      if RealStamp(s) { RealStampsAreInRange(s); }
    }
    forall s: Stamp | RealStamp(s) && Text(s) == value ensures Scan(value) == Some(s) {
      ScanUndoesText(s);
    }
  }

  /** The instant a stamp stands for. */
  function InstantOf(s: Stamp): Time
    requires Fits(s)
  {
    TimeOf(WrittenFields(s)) - OffsetMs(s.offset)
  }

  lemma ParsedInstant(s: Stamp)
    requires Fits(s) && ParseOptionalIsoDate(Some(Text(s))).Date?
    ensures ParseOptionalIsoDate(Some(Text(s))).time == InstantOf(s)
  {
    ScanUndoesText(s);
  }

  /** The minutes an offset says, plus for a clock ahead of UTC and minus for one behind, in milliseconds. */
  function AheadMs(o: Offset): int {
    if o.Z? then 0 else (if o.plus then 60_000 else -60_000) * (60 * o.hours + o.minutes)
  }

  lemma OffsetsAreAhead(o: Offset)
    ensures OffsetMs(o) == AheadMs(o)
  {}

  /**
   The accepted instant is the one at which a clock ahead of UTC by the offset shows what is
   written: `local` is the reading of that clock as a time value, and there is just one.
   */
  lemma AcceptedReadsBack(s: Stamp, local: Time)
    requires RealStamp(s)
    ensures (ParseOptionalIsoDate(Some(Text(s))) == Date(local - AheadMs(s.offset)))
              <==> FieldsOf(local) == WrittenFields(s)
  {
    var f := WrittenFields(s);
    OffsetsAreAhead(s.offset);
    RealStampIsAccepted(s);
    ParsedInstant(s);
    InstantIs(s, f, TimeOf(f), OffsetMs(s.offset));
    OneTimeShows(f, local);
  }

  lemma OneTimeShows(f: Fields, local: Time)
    requires RealTime(f)
    ensures FieldsOf(local) == f <==> local == TimeOf(f)
  {
    if local == TimeOf(f) { FieldsOfTimeOf(f); }
    TimeOfFieldsOf(local);
  }

  lemma InstantIs(s: Stamp, f: Fields, local: Time, o: int)
    requires Fits(s) && f == WrittenFields(s) && o == OffsetMs(s.offset) && local == TimeOf(f)
    ensures InstantOf(s) == local - o
  {}

  lemma RealStampIsAccepted(s: Stamp)
    requires RealStamp(s)
    ensures ParseOptionalIsoDate(Some(Text(s))).Date?
  {
    AcceptedExactly(Text(s));
  }

  // ---------------------------------------------------------------- what is accepted, literally

  /** The stamps that are accepted: from the year 100 on, a day its month has, a clock time, an offset below a day. */
  lemma RealStampsAre(s: Stamp)
    ensures RealStamp(s) <==>
              && Fits(s) && 100 <= s.year
              && 1 <= s.month <= 12 && 1 <= s.day <= 31
              && (s.month in {4, 6, 9, 11} ==> s.day <= 30)
              && (s.month == 2 ==> s.day <= 29)
              && (s.month == 2 && s.day == 29 ==> (s.year % 4 == 0 && s.year % 100 != 0) || s.year % 400 == 0)
              && s.hour <= 23 && s.minute <= 59 && s.second <= 59
              && (s.offset.Shift? ==> s.offset.hours <= 23 && s.offset.minutes <= 59)
  {
    if Fits(s) { MillisecondsFit(s.fraction); }
  }

  /** A fraction counts tenths, hundredths and thousandths of a second. */
  lemma FractionsAre(fraction: string)
    requires Digits(fraction) && |fraction| <= 3
    ensures |fraction| == 0 ==> Milliseconds(fraction) == 0
    ensures |fraction| == 1 ==> Milliseconds(fraction) == 100 * Number(fraction)
    ensures |fraction| == 2 ==> Milliseconds(fraction) == 10 * Number(fraction)
    ensures |fraction| == 3 ==> Milliseconds(fraction) == Number(fraction)
  {
    PaddingScales(fraction);
    PowersOfTen();
    if |fraction| == 0 { assert fraction == ""; }
  }

  lemma PowersOfTen()
    ensures Pow10(0) == 1 && Pow10(1) == 10 && Pow10(2) == 100 && Pow10(3) == 1000
  {}

  lemma {:induction false} PaddingScales(s: string)
    requires Digits(s) && |s| <= 3
    ensures Number(PadEnd(s)) == Number(s) * Pow10(3 - |s|)
    decreases 3 - |s|
  {
    if |s| < 3 {
      ZeroAppended(s);
      PaddingScales(s + "0");
      Shifted(Number(s), Pow10(2 - |s|));
    }
  }

  lemma Shifted(n: nat, p: nat)
    ensures (10 * n) * p == n * (10 * p)
  {}

  lemma ZeroAppended(s: string)
    requires Digits(s)
    ensures Digits(s + "0") && Number(s + "0") == 10 * Number(s)
  {
    assert (s + "0")[..|s|] == s;
  }

  /** The three ways a text is turned down. */
  lemma RejectedExactly(value: Option<string>)
    ensures ParseOptionalIsoDate(value) == Absent <==> value.None?
    ensures value.Some? ==>
              (ParseOptionalIsoDate(value) == Malformed <==> forall s: Stamp :: Fits(s) ==> Text(s) != value.value)
    ensures value.Some? ==>
              (ParseOptionalIsoDate(value) == Invalid <==>
                 exists s: Stamp :: Fits(s) && Text(s) == value.value && !RealStamp(s))
  {
    if value.Some? {
      AcceptedExactly(value.value);
      forall s: Stamp | Fits(s) && Text(s) == value.value ensures Scan(value.value) == Some(s) { ScanUndoesText(s); }
      if Scan(value.value).Some? { TextUndoesScan(value.value); }
    }
  }

  const LEAP_DAY := Stamp(2000, 2, 29, 12, 30, 5, "25", Shift(false, 3, 0))

  lemma TwoDigits(n: nat)
    requires n < 100
    ensures Padded(n, 2) == [Digit(n / 10), Digit(n % 10)]
  {
    assert Padded(n / 10, 1) == [Digit(n / 10)];
  }

  lemma LeapDayText()
    ensures Text(LEAP_DAY) == "2000-02-29T12:30:05.25-03:00"
  {
    TwoDigits(2); TwoDigits(29); TwoDigits(12); TwoDigits(30); TwoDigits(5); TwoDigits(3); TwoDigits(0);
    TwoDigits(20);
    assert Padded(2000, 4) == Padded(200, 3) + "0" && Padded(200, 3) == Padded(20, 2) + "0";
  }

  /** One text and its instant. */
  lemma KnownInstant()
    ensures ParseOptionalIsoDate(Some("2000-02-29T12:30:05.25-03:00")) == Date(951838205250)
  {
    LeapDayText();
    LeapDayInstant();
  }

  lemma LeapDayInstant()
    ensures ParseOptionalIsoDate(Some(Text(LEAP_DAY))) == Date(951838205250)
  {
    var s := LEAP_DAY;
    RealStampsAre(s);
    RealStampIsAccepted(s);
    ParsedInstant(s);
    LeapDayFields(s, 11016);
    OffsetsAreAhead(s.offset);
  }

  lemma LeapDayFields(s: Stamp, day: Day)
    requires s == LEAP_DAY && day == 11016
    ensures TimeOf(WrittenFields(s)) == 951_827_405_250
  {
    TwentyFive(s.fraction);
    InRangeDay(2000, 1, 29);
    TimeCounts(WrittenFields(s), day);
  }

  lemma TwentyFive(s: string)
    requires s == "25"
    ensures Digits(s) && Milliseconds(s) == 250
  {
    FractionsAre(s);
    assert s[..1] == "2" && s[..1][..0] == "";
    assert Number(s[..1]) == 2;
  }
}
