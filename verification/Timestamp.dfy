/**
 * Strict UTC timestamps (section 5.6 of RFC 3339, `Z` only): checked by sending the fields through
 * ECMAScript's `Date.UTC` and back, and turned into nanoseconds since 1970.
 */
module Timestamp {
  import opened Basics
  import opened Decimals

  // ---------------------------------------------------------------- the text

  datatype Clock = Clock(hour: nat, minute: nat, second: nat)

  datatype Fields = Fields(year: nat, month: nat, day: nat, clock: Clock, nanos: nat)

  predicate DigitsAt(s: string, from: nat, to: nat)
    requires from <= to <= |s|
  {
    forall i :: from <= i < to ==> IsDigit(s[i])
  }

  function Field(s: string, from: nat, to: nat): nat
    requires from <= to <= |s| && DigitsAt(s, from, to)
  {
    Number(s[from..to])
  }

  /** The date and time of day: nineteen characters in fixed places. */
  predicate Shaped(s: string) {
    && |s| >= 20 && DigitsAt(s, 0, 4) && s[4] == '-' && DigitsAt(s, 5, 7) && s[7] == '-' && DigitsAt(s, 8, 10)
    && s[10] == 'T' && DigitsAt(s, 11, 13) && s[13] == ':' && DigitsAt(s, 14, 16) && s[16] == ':' && DigitsAt(s, 17, 19)
  }

  /** Nothing, or a point and one to nine digits; then `Z` and the end. */
  predicate Ended(s: string)
    requires |s| >= 20
  {
    && s[|s| - 1] == 'Z'
    && (|s| == 20 || (s[19] == '.' && 22 <= |s| <= 30 && DigitsAt(s, 20, |s| - 1)))
  }

  function PadZeros(s: string, n: nat): string
    requires |s| <= n
    decreases n - |s|
  {
    if |s| == n then s else PadZeros(s + "0", n)
  }

  lemma {:induction false} PadDigits(s: string, n: nat)
    requires |s| <= n && forall i :: 0 <= i < |s| ==> IsDigit(s[i])
    ensures |PadZeros(s, n)| == n && forall i :: 0 <= i < n ==> IsDigit(PadZeros(s, n)[i])
    decreases n - |s|
  {
    if |s| < n {
      PadDigits(s + "0", n);
    }
  }

  function Nanos(s: string): nat
    requires |s| >= 20 && Ended(s)
  {
    if |s| == 20 then 0
    else
      PadDigits(s[20..|s| - 1], 9);
      Number(PadZeros(s[20..|s| - 1], 9))
  }

  /** The regular expression, with its groups as numbers. */
  function ReadFields(s: string): Option<Fields> {
    if !Shaped(s) || !Ended(s) then None
    else Some(Fields(Field(s, 0, 4), Field(s, 5, 7), Field(s, 8, 10),
                     Clock(Field(s, 11, 13), Field(s, 14, 16), Field(s, 17, 19)), Nanos(s)))
  }

  // ---------------------------------------------------------------- ECMAScript days

  predicate Leap(y: int) {
    y % 4 == 0 && (y % 100 != 0 || y % 400 == 0)
  }

  /** `DayFromYear`: days from 1970 to the first of January. */
  function DayFromYear(y: int): int {
    365 * (y - 1970) + (y - 1969) / 4 - (y - 1901) / 100 + (y - 1601) / 400
  }

  lemma Step4(n: int)
    ensures (n + 1) / 4 == n / 4 + if (n + 1) % 4 == 0 then 1 else 0
  {
  }

  lemma Step100(n: int)
    ensures (n + 1) / 100 == n / 100 + if (n + 1) % 100 == 0 then 1 else 0
  {
  }

  lemma Step400(n: int)
    ensures (n + 1) / 400 == n / 400 + if (n + 1) % 400 == 0 then 1 else 0
  {
  }

  lemma Cycle4(y: int)
    ensures (y - 1968) % 4 == 0 <==> y % 4 == 0
  {
  }

  lemma Cycle100(y: int)
    ensures (y - 1900) % 100 == 0 <==> y % 100 == 0
  {
  }

  lemma Cycle400(y: int)
    ensures (y - 1600) % 400 == 0 <==> y % 400 == 0
  {
  }

  lemma Hundreds(q: int)
    ensures 100 * q % 100 == 0
  {
  }

  lemma Fours(q: int)
    ensures 4 * q % 4 == 0
  {
  }

  lemma Centuries(y: int)
    ensures (y % 400 == 0 ==> y % 100 == 0) && (y % 100 == 0 ==> y % 4 == 0)
  {
    if y % 400 == 0 {
      Hundreds(4 * (y / 400));
    }
    if y % 100 == 0 {
      Fours(25 * (y / 100));
    }
  }

  lemma YearLength(y: int)
    ensures DayFromYear(y + 1) - DayFromYear(y) == if Leap(y) then 366 else 365
  {
    Step4(y - 1969);
    Step100(y - 1901);
    Step400(y - 1601);
    Cycle4(y);
    Cycle100(y);
    Cycle400(y);
    Centuries(y);
    assert y + 1 - 1969 == y - 1968 && y + 1 - 1901 == y - 1900 && y + 1 - 1601 == y - 1600;
  }

  lemma {:induction false} YearsGrow(a: int, b: int)
    requires a <= b
    ensures DayFromYear(a) + 365 * (b - a) <= DayFromYear(b)
    decreases b - a
  {
    if a < b {
      YearsGrow(a, b - 1);
      YearLength(b - 1);
    }
  }

  /** `YearFromTime`: the year whose days include the given one. */
  function YearOf(day: int, guess: int): (y: int)
    ensures DayFromYear(y) <= day < DayFromYear(y + 1)
    decreases if day < DayFromYear(guess) then DayFromYear(guess) - day + 366 else day - DayFromYear(guess)
  {
    YearLength(guess);
    YearLength(guess - 1);
    if day < DayFromYear(guess) then YearOf(day, guess - 1)
    else if day >= DayFromYear(guess + 1) then YearOf(day, guess + 1)
    else guess
  }

  lemma YearsOrdered(a: int, b: int)
    ensures a <= b ==> DayFromYear(a) <= DayFromYear(b)
  {
    if a <= b {
      YearsGrow(a, b);
    }
  }

  lemma YearIsUnique(day: int, guess: int, y: int)
    requires DayFromYear(y) <= day < DayFromYear(y + 1)
    ensures YearOf(day, guess) == y
  {
    var found := YearOf(day, guess);
    YearsOrdered(found + 1, y);
    YearsOrdered(y + 1, found);
  }

  function LeapDay(leap: bool): nat {
    if leap then 1 else 0
  }

  /** Days of the year before the first of a month; month 13 stands for the next year. */
  function MonthStart(leap: bool, month: nat): nat
    requires 1 <= month <= 13
  {
    if month == 1 then 0
    else MonthStart(leap, month - 1) + DaysIn(leap, month - 1)
  }

  function DaysIn(leap: bool, month: nat): nat
    requires 1 <= month <= 12
  {
    if month == 2 then 28 + LeapDay(leap)
    else if month == 4 || month == 6 || month == 9 || month == 11 then 30
    else 31
  }

  /** `MonthFromTime` on the day within the year. */
  function MonthOf(leap: bool, d: nat, month: nat): (m: nat)
    requires 1 <= month <= 12 && MonthStart(leap, month) <= d < MonthStart(leap, 13)
    ensures month <= m <= 12 && MonthStart(leap, m) <= d < MonthStart(leap, m + 1)
    decreases 12 - month
  {
    if d < MonthStart(leap, month + 1) then month else MonthOf(leap, d, month + 1)
  }

  lemma MonthTable(leap: bool)
    ensures MonthStart(leap, 2) == 31 && MonthStart(leap, 3) == 59 + LeapDay(leap)
    ensures MonthStart(leap, 4) == 90 + LeapDay(leap)
    ensures MonthStart(leap, 5) == 120 + LeapDay(leap) && MonthStart(leap, 6) == 151 + LeapDay(leap)
    ensures MonthStart(leap, 7) == 181 + LeapDay(leap) && MonthStart(leap, 8) == 212 + LeapDay(leap)
    ensures MonthStart(leap, 9) == 243 + LeapDay(leap) && MonthStart(leap, 10) == 273 + LeapDay(leap)
    ensures MonthStart(leap, 11) == 304 + LeapDay(leap) && MonthStart(leap, 12) == 334 + LeapDay(leap)
    ensures MonthStart(leap, 13) == 365 + LeapDay(leap)
  {
  }

  /** `Date.UTC` reads the years 0 to 99 as 1900 to 1999. */
  function UtcYear(year: nat): nat {
    if year <= 99 then 1900 + year else year
  }

  /** `MakeDay`. */
  function MakeDay(year: nat, month: nat, day: nat): int
    requires 1 <= month <= 12
  {
    DayFromYear(year) + MonthStart(Leap(year), month) + day - 1
  }

  /** `getUTCFullYear`, `getUTCMonth` and `getUTCDate` of a day number. */
  function DateOf(n: int): (int, nat, nat) {
    var y := YearOf(n, 1970);
    YearLength(y);
    MonthTable(Leap(y));
    var d: nat := n - DayFromYear(y);
    var m := MonthOf(Leap(y), d, 1);
    (y, m, d - MonthStart(Leap(y), m) + 1)
  }

  function ClockSeconds(c: Clock): nat {
    c.hour * 3600 + c.minute * 60 + c.second
  }

  function EpochSeconds(f: Fields): int
    requires 1 <= f.month <= 12
  {
    MakeDay(UtcYear(f.year), f.month, f.day) * 86400 + ClockSeconds(f.clock)
  }

  function ClockOf(t: int): Clock {
    Clock(t / 3600 % 24, t / 60 % 60, t % 60)
  }

  predicate InRange(f: Fields) {
    1 <= f.month <= 12 && 1 <= f.day <= 31 && f.clock.hour <= 23 && f.clock.minute <= 59 && f.clock.second <= 59
  }

  /** `parseTimestamp` after the match: the fields must come back unchanged. */
  function ParseTimestamp(s: string): Option<(Fields, int)> {
    match ReadFields(s)
    case None => None
    case Some(f) =>
      if !InRange(f) then None
      else
        var t := EpochSeconds(f);
        if DateOf(t / 86400) == (f.year, f.month, f.day) && ClockOf(t) == f.clock
        then Some((f, t * 1_000_000_000 + f.nanos)) else None
  }

  // ---------------------------------------------------------------- exactly the real dates

  predicate Real(f: Fields) {
    && 1 <= f.month <= 12 && 1 <= f.day <= DaysIn(Leap(f.year), f.month)
    && f.clock.hour <= 23 && f.clock.minute <= 59 && f.clock.second <= 59
  }

  lemma ClockBack(n: int, c: Clock)
    requires c.hour <= 23 && c.minute <= 59 && c.second <= 59
    ensures var t := n * 86400 + ClockSeconds(c); t / 86400 == n && ClockOf(t) == c
  {
    var t, hours := n * 86400 + ClockSeconds(c), n * 24 + c.hour;
    var minutes := hours * 60 + c.minute;
    assert t == minutes * 60 + c.second;
    By60(minutes, c.second);
    assert t == hours * 3600 + (c.minute * 60 + c.second);
    By3600(hours, c.minute * 60 + c.second);
    By60(hours, c.minute);
    By24(n, c.hour);
    By86400(n, ClockSeconds(c));
  }

  lemma By60(q: int, r: nat)
    requires r < 60
    ensures (q * 60 + r) / 60 == q && (q * 60 + r) % 60 == r
  {
  }

  lemma By24(q: int, r: nat)
    requires r < 24
    ensures (q * 24 + r) % 24 == r
  {
  }

  lemma By3600(q: int, r: nat)
    requires r < 3600
    ensures (q * 3600 + r) / 3600 == q
  {
  }

  lemma By86400(q: int, r: nat)
    requires r < 86400
    ensures (q * 86400 + r) / 86400 == q
  {
  }

  lemma {:induction false} MonthsGrow(leap: bool, a: nat, b: nat)
    requires 1 <= a <= b <= 13
    ensures MonthStart(leap, a) <= MonthStart(leap, b)
    decreases b - a
  {
    if a < b {
      MonthsGrow(leap, a, b - 1);
    }
  }

  lemma MonthIsUnique(leap: bool, d: nat, m: nat, from: nat)
    requires 1 <= from <= 12 && MonthStart(leap, from) <= d < MonthStart(leap, 13)
    requires 1 <= m <= 12 && MonthStart(leap, m) <= d < MonthStart(leap, m + 1)
    ensures MonthOf(leap, d, from) == m
  {
    var found := MonthOf(leap, d, from);
    if found < m {
      MonthsGrow(leap, found + 1, m);
    } else if m < found {
      MonthsGrow(leap, m + 1, found);
    }
  }

  /** A real date comes back from its day number. */
  lemma DateBack(year: nat, month: nat, day: nat)
    requires 1 <= month <= 12 && 1 <= day <= DaysIn(Leap(year), month)
    ensures DateOf(MakeDay(year, month, day)) == (year, month, day)
  {
    var leap := Leap(year);
    var n := MakeDay(year, month, day);
    var d := MonthStart(leap, month) + day - 1;
    MonthsGrow(leap, month + 1, 13);
    MonthTable(leap);
    YearLength(year);
    YearIsUnique(n, 1970, year);
    MonthIsUnique(leap, d, month, 1);
  }

  /** Whatever a day number decodes to is real. */
  lemma DecodedIsReal(n: int)
    ensures var (y, m, d) := DateOf(n); 1 <= m <= 12 && 1 <= d <= DaysIn(Leap(y), m)
  {
  }

  lemma UtcYearMoves(year: nat, month: nat, day: nat)
    requires 1 <= month <= 12 && 1 <= day <= 31 && year <= 99
    ensures DateOf(MakeDay(UtcYear(year), month, day)).0 >= 1900
  {
    YearNotBefore(UtcYear(year), MakeDay(UtcYear(year), month, day));
  }

  /** A day from the start of a year on lies in that year or a later one. */
  lemma YearNotBefore(y: int, n: int)
    requires DayFromYear(y) <= n
    ensures DateOf(n).0 >= y
  {
    var found := YearOf(n, 1970);
    if found < y {
      YearsGrow(found + 1, y);
    }
  }

  /**
   * Accepted are exactly the texts of the profile that name a real Gregorian date, time of day
   * included, in a year from 100 on.
   */
  lemma AcceptedExactly(s: string)
    ensures ParseTimestamp(s).Some? <==>
              ReadFields(s).Some? && Real(ReadFields(s).value) && ReadFields(s).value.year >= 100
  {
    if ReadFields(s).Some? {
      var f := ReadFields(s).value;
      if InRange(f) {
        FieldsAccepted(f);
      } else {
        assert !Real(f);
      }
    }
  }

  /** The day and clock check on fields in range. */
  predicate ComesBack(f: Fields)
    requires 1 <= f.month <= 12
  {
    var t := EpochSeconds(f);
    DateOf(t / 86400) == (f.year, f.month, f.day) && ClockOf(t) == f.clock
  }

  lemma EpochParts(f: Fields)
    requires InRange(f)
    ensures EpochSeconds(f) / 86400 == MakeDay(UtcYear(f.year), f.month, f.day) && ClockOf(EpochSeconds(f)) == f.clock
  {
    ClockBack(MakeDay(UtcYear(f.year), f.month, f.day), f.clock);
  }

  lemma BackIsReal(n: int, year: nat, month: nat, day: nat)
    requires DateOf(n) == (year, month, day)
    ensures 1 <= month <= 12 && 1 <= day <= DaysIn(Leap(year), month)
  {
    DecodedIsReal(n);
  }

  lemma FieldsAccepted(f: Fields)
    requires InRange(f)
    ensures ComesBack(f) <==> Real(f) && f.year >= 100
  {
    EpochParts(f);
    var n := MakeDay(UtcYear(f.year), f.month, f.day);
    if DateOf(n) == (f.year, f.month, f.day) {
      BackIsReal(n, f.year, f.month, f.day);
    }
    if f.year <= 99 {
      UtcYearMoves(f.year, f.month, f.day);
    } else if Real(f) {
      DateBack(f.year, f.month, f.day);
    }
  }

  /** A real date that is refused: `Date.UTC` moves the years below 100. */
  lemma EarlyYearRefused(f: Fields)
    requires f.year <= 99 && Real(f)
    ensures !ComesBack(f)
  {
    FieldsAccepted(f);
  }

  // ---------------------------------------------------------------- order

  predicate EarlierClock(a: Clock, b: Clock) {
    a.hour < b.hour || (a.hour == b.hour && (a.minute < b.minute || (a.minute == b.minute && a.second < b.second)))
  }

  predicate EarlierDate(a: Fields, b: Fields) {
    a.year < b.year || (a.year == b.year && (a.month < b.month || (a.month == b.month && a.day < b.day)))
  }

  predicate SameDate(a: Fields, b: Fields) {
    a.year == b.year && a.month == b.month && a.day == b.day
  }

  /** Field by field, the year first and the fraction last. */
  predicate Earlier(a: Fields, b: Fields) {
    || EarlierDate(a, b)
    || (SameDate(a, b) && (EarlierClock(a.clock, b.clock) || (a.clock == b.clock && a.nanos < b.nanos)))
  }

  lemma WithinYear(f: Fields)
    requires Real(f)
    ensures MakeDay(f.year, f.month, f.day) < DayFromYear(f.year)
        + MonthStart(Leap(f.year), f.month + 1) <= DayFromYear(f.year + 1)
  {
    MonthsGrow(Leap(f.year), f.month + 1, 13);
    MonthTable(Leap(f.year));
    YearLength(f.year);
  }

  lemma DaysInOrder(a: Fields, b: Fields)
    requires Real(a) && Real(b) && EarlierDate(a, b)
    ensures MakeDay(a.year, a.month, a.day) < MakeDay(b.year, b.month, b.day)
  {
    WithinYear(a);
    if a.year < b.year {
      YearsGrow(a.year + 1, b.year);
    } else if a.month < b.month {
      MonthsGrow(Leap(a.year), a.month + 1, b.month);
    }
  }

  lemma ClockBound(c: Clock)
    requires c.hour <= 23 && c.minute <= 59 && c.second <= 59
    ensures ClockSeconds(c) < 86400
  {
  }

  lemma ClocksInOrder(a: Clock, b: Clock)
    requires a.minute <= 59 && a.second <= 59 && b.minute <= 59 && b.second <= 59 && EarlierClock(a, b)
    ensures ClockSeconds(a) < ClockSeconds(b)
  {
  }

  lemma SecondsInOrder(a: Fields, b: Fields)
    requires Real(a) && Real(b) && a.year >= 100 && b.year >= 100
    ensures EarlierDate(a, b) || (SameDate(a, b) && EarlierClock(a.clock, b.clock)) ==>
              EpochSeconds(a) < EpochSeconds(b)
  {
    ClockBound(a.clock);
    if EarlierDate(a, b) {
      DaysInOrder(a, b);
    } else if SameDate(a, b) && EarlierClock(a.clock, b.clock) {
      ClocksInOrder(a.clock, b.clock);
    }
  }

  lemma EarlierIsLess(a: Fields, b: Fields)
    requires Real(a) && Real(b) && a.year >= 100 && b.year >= 100 && a.nanos < 1_000_000_000 && b.nanos < 1_000_000_000
    requires Earlier(a, b)
    ensures EpochSeconds(a) * 1_000_000_000 + a.nanos < EpochSeconds(b) * 1_000_000_000 + b.nanos
  {
    SecondsInOrder(a, b);
  }

  lemma EarlierIsTotal(a: Fields, b: Fields)
    ensures Earlier(a, b) || a == b || Earlier(b, a)
  {
  }

  lemma {:induction false} NumberBound(s: string)
    requires forall i :: 0 <= i < |s| ==> IsDigit(s[i])
    ensures |s| <= 9 ==> Number(s) < 1_000_000_000
    ensures |s| == 8 ==> Number(s) < 100_000_000
  {
    NumberPower(s);
    assert Power(0) == 1 && Power(1) == 10 && Power(2) == 100 && Power(3) == 1000 && Power(4) == 10000;
    assert Power(5) == 100000;
    assert Power(6) == 1000000 && Power(7) == 10000000 && Power(8) == 100000000 && Power(9) == 1000000000;
  }

  function Power(n: nat): nat {
    if n == 0 then 1 else 10 * Power(n - 1)
  }

  lemma {:induction false} NumberPower(s: string)
    requires forall i :: 0 <= i < |s| ==> IsDigit(s[i])
    ensures Number(s) < Power(|s|)
  {
    if s != "" {
      NumberPower(s[..|s| - 1]);
    }
  }

  lemma NanosBound(s: string)
    requires |s| >= 20 && Ended(s)
    ensures Nanos(s) < 1_000_000_000
  {
    if |s| > 20 {
      PadDigits(s[20..|s| - 1], 9);
      NumberBound(PadZeros(s[20..|s| - 1], 9));
    }
  }

  /** The order of nanoseconds is the order of the fields, for any two accepted texts. */
  lemma NanosecondOrder(s: string, t: string)
    requires ParseTimestamp(s).Some? && ParseTimestamp(t).Some?
    ensures var (a, x) := ParseTimestamp(s).value; var (b, y) := ParseTimestamp(t).value;
            (x < y <==> Earlier(a, b)) && (x == y <==> a == b)
  {
    AcceptedExactly(s);
    AcceptedExactly(t);
    NanosBound(s);
    NanosBound(t);
    var a, b := ReadFields(s).value, ReadFields(t).value;
    EarlierIsTotal(a, b);
    if Earlier(a, b) {
      EarlierIsLess(a, b);
    } else if Earlier(b, a) {
      EarlierIsLess(b, a);
    }
  }

  // ---------------------------------------------------------------- database metadata

  datatype Inspection = Inspection(updated: int, next: int, downloaded: int, current: bool)

  /** Reading a text as fields and nanoseconds. */
  type Parser = string -> Option<(Fields, int)>

  /** The time checks of `inspectTrivyDatabaseMetadata`; instants of the caller are milliseconds. */
  function InspectWith(parse: Parser, updated: string, next: string, downloaded: string, evaluated: int,
                       minimum: Option<int>): Option<Inspection>
  {
    match (parse(updated), parse(next), parse(downloaded))
    case (Some((_, u)), Some((_, n)), Some((_, d))) =>
      if minimum.Some? && minimum.value < evaluated then None
      else
        var now := evaluated * 1_000_000;
        if u > now || n <= u || d < u || (minimum.Some? && n <= minimum.value * 1_000_000) then None
        else Some(Inspection(u, n, d, now < n))
    case _ => None
  }

  /** Texts are ordered by their fields as by their nanoseconds. */
  ghost predicate Orders(parse: Parser) {
    forall s, t :: parse(s).Some? && parse(t).Some? ==>
      (parse(s).value.1 < parse(t).value.1 <==> Earlier(parse(s).value.0, parse(t).value.0))
  }

  /** When a database is accepted, by what is written. */
  ghost predicate Acceptable(parse: Parser, updated: string, next: string, downloaded: string, evaluated: int,
                             minimum: Option<int>)
  {
    && parse(updated).Some? && parse(next).Some? && parse(downloaded).Some?
    && parse(updated).value.1 <= evaluated * 1_000_000
    && Earlier(parse(updated).value.0, parse(next).value.0)
    && !Earlier(parse(downloaded).value.0, parse(updated).value.0)
    && (minimum.Some? ==> evaluated <= minimum.value && minimum.value * 1_000_000 < parse(next).value.1)
  }

  lemma InspectionWith(parse: Parser, updated: string, next: string, downloaded: string, evaluated: int,
                       minimum: Option<int>)
    requires Orders(parse)
    ensures InspectWith(parse, updated, next, downloaded, evaluated, minimum).Some?
       <==> Acceptable(parse, updated, next, downloaded, evaluated, minimum)
    ensures InspectWith(parse, updated, next, downloaded, evaluated, minimum).Some? && minimum.Some? ==>
              InspectWith(parse, updated, next, downloaded, evaluated, minimum).value.current
  {
  }

  lemma ParseOrders()
    ensures Orders(ParseTimestamp)
  {
    forall s, t | ParseTimestamp(s).Some? && ParseTimestamp(t).Some?
      ensures ParseTimestamp(s).value.1 < ParseTimestamp(t).value.1 <==>
                Earlier(ParseTimestamp(s).value.0, ParseTimestamp(t).value.0)
    {
      NanosecondOrder(s, t);
    }
  }

  /**
   * A database is accepted exactly when its three times are accepted texts, it was updated not after
   * the evaluation, before it expires and not after its download, in the order of the written fields,
   * and it outlives a minimum validity time, which must not lie before the evaluation; with such a
   * time it is current.
   */
  lemma InspectionExact(updated: string, next: string, downloaded: string, evaluated: int, minimum: Option<int>)
    ensures InspectWith(ParseTimestamp, updated, next, downloaded, evaluated, minimum).Some?
       <==> Acceptable(ParseTimestamp, updated, next, downloaded, evaluated, minimum)
    ensures InspectWith(ParseTimestamp, updated, next, downloaded, evaluated, minimum).Some? && minimum.Some? ==>
              InspectWith(ParseTimestamp, updated, next, downloaded, evaluated, minimum).value.current
  {
    ParseOrders();
    InspectionWith(ParseTimestamp, updated, next, downloaded, evaluated, minimum);
  }
}
