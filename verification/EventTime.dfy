/** Points in time as text: `Date.prototype.toISOString` and `Date.parse` (ECMA-262, section 21.4.1),
    as event-facts.ts and webhook-service.ts use them. */
module EventTime {
  import opened Basics
  import opened Strings

  const MS_PER_MINUTE := 60_000
  const MS_PER_DAY := 86_400_000

  // The largest time value of a Date, in milliseconds either way.
  const MAX_TIME := 8_640_000_000_000_000

  // --- The calendar (ECMA-262, 21.4.1.3 and following) ----------------------------------------------

  predicate IsLeap(y: int) {
    y % 4 == 0 && (y % 100 != 0 || y % 400 == 0)
  }

  function DaysInYear(y: int): int {
    if IsLeap(y) then 366 else 365
  }

  function DayFromYear(y: int): int {
    365 * (y - 1970) + (y - 1969) / 4 - (y - 1901) / 100 + (y - 1601) / 400
  }

  lemma LeapsOfFour(y: int)
    ensures (y - 1968) / 4 == (y - 1969) / 4 + (if y % 4 == 0 then 1 else 0)
  {
  }

  lemma LeapsOfAHundred(y: int)
    ensures (y - 1900) / 100 == (y - 1901) / 100 + (if y % 100 == 0 then 1 else 0)
  {
  }

  lemma LeapsOfFourHundred(y: int)
    ensures (y - 1600) / 400 == (y - 1601) / 400 + (if y % 400 == 0 then 1 else 0)
  {
  }

  lemma CenturiesAreDivisible(y: int)
    ensures y % 400 == 0 ==> y % 100 == 0
    ensures y % 100 == 0 ==> y % 4 == 0
  {
  }

  lemma YearsFollow(y: int)
    ensures DayFromYear(y + 1) == DayFromYear(y) + DaysInYear(y)
  {
    LeapsOfFour(y);
    LeapsOfAHundred(y);
    LeapsOfFourHundred(y);
    CenturiesAreDivisible(y);
  }

  lemma {:induction false} YearsAfter(y: int)
    requires y >= 1970
    ensures 365 * (y - 1970) <= DayFromYear(y) <= 366 * (y - 1970)
    decreases y
  {
    if y > 1970 {
      YearsAfter(y - 1);
      YearsFollow(y - 1);
    }
  }

  lemma {:induction false} YearsBefore(y: int)
    requires y <= 1970
    ensures 366 * (y - 1970) <= DayFromYear(y) <= 365 * (y - 1970)
    decreases 1970 - y
  {
    if y < 1970 {
      YearsBefore(y + 1);
      YearsFollow(y);
    }
  }

  // The year that holds day `d`, looked for from a year that starts no later.
  function YearFrom(d: int, y: int): (year: int)
    requires DayFromYear(y) <= d
    ensures year >= y && DayFromYear(year) <= d < DayFromYear(year) + DaysInYear(year)
    decreases d - DayFromYear(y)
  {
    YearsFollow(y);
    if d < DayFromYear(y + 1) then y else YearFrom(d, y + 1)
  }

  function YearOf(d: int): (year: int)
    ensures DayFromYear(year) <= d < DayFromYear(year) + DaysInYear(year)
  {
    var guess := if d >= 0 then 1970 + d / 366 else 1970 + d / 365;
    assert DayFromYear(guess) <= d by {
      hide DayFromYear;
      if d >= 0 { YearsAfter(guess); } else { YearsBefore(guess); }
    }
    YearFrom(d, guess)
  }

  lemma {:induction false} YearsAreOrdered(y: int, z: int)
    requires y <= z
    ensures DayFromYear(y) + 365 * (z - y) <= DayFromYear(z)
    decreases z - y
  {
    if y < z {
      YearsAreOrdered(y, z - 1);
      YearsFollow(z - 1);
    }
  }

  lemma YearIsUnique(d: int, y: int)
    requires DayFromYear(y) <= d < DayFromYear(y) + DaysInYear(y)
    ensures YearOf(d) == y
  {
    hide *;
    var z := YearOf(d);
    YearsFollow(y);
    YearsFollow(z);
    if z < y { YearsAreOrdered(z + 1, y); }
    if y < z { YearsAreOrdered(y + 1, z); }
  }

  // The first day of a month, counted from the first day of its year.
  function MonthStart(month: int, leap: bool): int
    requires 1 <= month <= 13
  {
    var l := if leap then 1 else 0;
    match month
    case 1 => 0 case 2 => 31 case 3 => 59 + l case 4 => 90 + l case 5 => 120 + l case 6 => 151 + l
    case 7 => 181 + l case 8 => 212 + l case 9 => 243 + l case 10 => 273 + l case 11 => 304 + l
    case 12 => 334 + l case _ => 365 + l
  }

  function MonthFrom(day: int, leap: bool, month: int): (m: int)
    requires 1 <= month <= 12 && MonthStart(month, leap) <= day < MonthStart(13, leap)
    ensures 1 <= m <= 12 && MonthStart(m, leap) <= day < MonthStart(m + 1, leap)
    decreases 12 - month
  {
    if day < MonthStart(month + 1, leap) then month else MonthFrom(day, leap, month + 1)
  }

  datatype Civil = Civil(year: int, month: int, day: int)

  predicate IsDate(c: Civil) {
    1 <= c.month <= 12 && 1 <= c.day <= MonthStart(c.month + 1, IsLeap(c.year)) - MonthStart(c.month, IsLeap(c.year))
  }

  // MakeDay: a day of the month past the end of its month runs on into the next one.
  function DayOf(c: Civil): int
    requires 1 <= c.month <= 12
  {
    DayFromYear(c.year) + MonthStart(c.month, IsLeap(c.year)) + c.day - 1
  }

  lemma YearHasTwelveMonths(y: int)
    ensures MonthStart(1, IsLeap(y)) == 0 && MonthStart(13, IsLeap(y)) == DaysInYear(y)
  {
  }

  lemma MonthsAreShort(m: int, leap: bool)
    requires 1 <= m <= 12
    ensures MonthStart(m + 1, leap) - MonthStart(m, leap) <= 31
  {
  }

  function DateOf(d: int): (c: Civil)
    ensures IsDate(c) && DayOf(c) == d && c.day <= 31
  {
    var y := YearOf(d);
    var inYear := d - DayFromYear(y);
    YearHasTwelveMonths(y);
    var m := MonthFrom(inYear, IsLeap(y), 1);
    MonthsAreShort(m, IsLeap(y));
    Civil(y, m, inYear - MonthStart(m, IsLeap(y)) + 1)
  }

  lemma {:induction false} MonthsAscend(a: int, b: int, leap: bool)
    requires 1 <= a <= b <= 13
    ensures MonthStart(a, leap) <= MonthStart(b, leap)
    decreases b - a
  {
    if a < b {
      MonthsAscend(a + 1, b, leap);
    }
  }

  lemma {:induction false} MonthIsUnique(day: int, leap: bool, month: int, m: int)
    requires 1 <= month <= m <= 12 && MonthStart(m, leap) <= day < MonthStart(m + 1, leap)
    requires MonthStart(month, leap) <= day < MonthStart(13, leap)
    ensures MonthFrom(day, leap, month) == m
    decreases m - month
  {
    if month < m {
      MonthsAscend(month + 1, m, leap);
      MonthIsUnique(day, leap, month + 1, m);
    }
  }

  // Days and dates are the same thing twice: every date is the date of exactly its own day.
  lemma DateOfDay(c: Civil)
    requires IsDate(c)
    ensures DateOf(DayOf(c)) == c
  {
    hide DayFromYear, YearOf, IsLeap, MonthStart, MonthFrom, DayOf, IsDate, DaysInYear;
    DatesAreSmall(c);
    var leap, inYear := IsLeap(c.year), DayOf(c) - DayFromYear(c.year);
    DayInItsYear(c);
    YearIsUnique(DayOf(c), c.year);
    MonthIsUnique(inYear, leap, 1, c.month);
  }

  lemma DayInItsYear(c: Civil)
    requires IsDate(c)
    ensures var leap, inYear := IsLeap(c.year), DayOf(c) - DayFromYear(c.year);
      && 1 <= c.month <= 12 && inYear == MonthStart(c.month, leap) + c.day - 1
      && MonthStart(c.month, leap) <= inYear < MonthStart(c.month + 1, leap)
      && 0 <= inYear < DaysInYear(c.year) && MonthStart(1, leap) == 0 && MonthStart(13, leap) == DaysInYear(c.year)
  {
    assert 1 <= c.month <= 12;
    MonthsAscend(1, c.month, IsLeap(c.year));
    MonthsAscend(c.month + 1, 13, IsLeap(c.year));
    YearHasTwelveMonths(c.year);
    hide DayFromYear, MonthStart, IsLeap, DaysInYear;
  }

  // --- Text ----------------------------------------------------------------------------------------------

  function D2(n: nat): (s: string)
    requires n < 100
    ensures |s| == 2 && IsDigit(s[0]) && IsDigit(s[1]) && Value(s) == n
  {
    var s := [Digit(n / 10), Digit(n % 10)];
    ValueGrows(s[..1], s[1]);
    ValueGrows([], s[0]);
    assert s == s[..1] + [s[1]] && s[..1] == [] + [s[0]];
    s
  }

  function D3(n: nat): (s: string)
    requires n < 1000
    ensures |s| == 3 && IsDigit(s[0]) && IsDigit(s[1]) && IsDigit(s[2]) && Value(s) == n
  {
    ValueGrows(D2(n / 10), Digit(n % 10));
    D2(n / 10) + [Digit(n % 10)]
  }

  function D4(n: nat): (s: string)
    requires n < 10_000
    ensures |s| == 4 && (forall i :: 0 <= i < 4 ==> IsDigit(s[i])) && Value(s) == n
  {
    ValueGrows(D3(n / 10), Digit(n % 10));
    D3(n / 10) + [Digit(n % 10)]
  }

  // Four digits for the years 0 to 9999, a sign and six digits for the others.
  function YearText(y: int): (s: string)
    requires -999_999 <= y <= 999_999
    ensures 0 <= y <= 9999 ==> s == D4(y)
    ensures !(0 <= y <= 9999) ==> |s| == 7 && s[0] in "+-"
  {
    if 0 <= y <= 9999 then D4(y)
    else
      var n := if y < 0 then -y else y;
      [if y < 0 then '-' else '+'] + D2(n / 10_000) + D4(n % 10_000)
  }

  // The part after the year, without the zone: "-MM-DDTHH:mm:ss.sss".
  function RestText(c: Civil, ms: nat): (s: string)
    requires IsDate(c) && c.day <= 31 && ms < MS_PER_DAY
    ensures |s| == 19
  {
    "-" + D2(c.month) + "-" + D2(c.day) + "T"
    + D2(ms / 3_600_000) + ":" + D2(ms / 60_000 % 60) + ":" + D2(ms / 1000 % 60) + "." + D3(ms % 1000)
  }

  predicate IsTime(t: int) {
    -MAX_TIME <= t <= MAX_TIME
  }

  lemma YearsOfTimes(t: int)
    requires -MAX_TIME - MS_PER_DAY <= t <= MAX_TIME + MS_PER_DAY
    ensures -999_999 <= DateOf(t / MS_PER_DAY).year <= 999_999
  {
    var d := t / MS_PER_DAY;
    var y := YearOf(d);
    if y > 1970 { YearsAfter(y); }
    if y < 1970 { YearsBefore(y + 1); YearsFollow(y); }
  }

  function Printed(c: Civil, ms: nat, zone: string): string
    requires IsDate(c) && c.day <= 31 && -999_999 <= c.year <= 999_999 && ms < MS_PER_DAY
  {
    YearText(c.year) + RestText(c, ms) + zone
  }

  // A clock that shows `local` milliseconds since 1970, in the format of `toISOString`.
  function ClockText(local: int, zone: string): string
    requires -MAX_TIME - MS_PER_DAY <= local <= MAX_TIME + MS_PER_DAY
  {
    YearsOfTimes(local);
    Printed(DateOf(local / MS_PER_DAY), local % MS_PER_DAY, zone)
  }

  // `toISOString`.
  function ToIso(t: int): string
    requires IsTime(t)
  {
    ClockText(t, "Z")
  }

  predicate IsOffset(minutes: int) {
    -1440 < minutes < 1440
  }

  function ZoneText(minutes: int): string
    requires IsOffset(minutes)
  {
    var n := if minutes < 0 then -minutes else minutes;
    [if minutes < 0 then '-' else '+'] + D2(n / 60) + ":" + D2(n % 60)
  }

  // The same instant as a clock `minutes` ahead of UTC shows it.
  function ToIsoAt(t: int, minutes: int): string
    requires IsTime(t) && IsOffset(minutes)
  {
    ClockText(t + minutes * MS_PER_MINUTE, ZoneText(minutes))
  }

  // What such a text is made of.
  predicate IsClockChar(c: char) {
    IsDigit(c) || c in "+-:.TZ"
  }

  predicate IsClockText(s: string) {
    forall i :: 0 <= i < |s| ==> IsClockChar(s[i])
  }

  lemma RestIsPlain(c: Civil, ms: nat)
    requires IsDate(c) && c.day <= 31 && ms < MS_PER_DAY
    ensures IsClockText(RestText(c, ms))
  {
    hide Value, MonthStart, IsLeap, D2, D3;
    var mo, d, h, m, s, f := D2(c.month), D2(c.day), D2(ms / 3_600_000), D2(ms / 60_000 % 60), D2(ms / 1000 % 60),
      D3(ms % 1000);
    assert RestText(c, ms)
      == ['-', mo[0], mo[1], '-', d[0], d[1], 'T', h[0], h[1], ':', m[0], m[1], ':', s[0], s[1], '.', f[0], f[1], f[2]];
  }

  lemma DigitsArePlain(m: nat, n: nat)
    requires m < 100 && n < 10_000
    ensures IsClockText(D2(m)) && IsClockText(D4(n))
  {
    hide Value, D2, D4;
  }

  lemma SignsArePlain()
    ensures IsClockText("+") && IsClockText("-")
  {
  }

  lemma YearIsPlain(y: int)
    requires -999_999 <= y <= 999_999
    ensures IsClockText(YearText(y)) && |YearText(y)| <= 7
  {
    hide IsClockText, D2, D4, Value;
    if 0 <= y <= 9999 {
      DigitsArePlain(0, y);
    } else {
      var n := if y < 0 then -y else y;
      var sign := if y < 0 then "-" else "+";
      DigitsArePlain(n / 10_000, n % 10_000);
      SignsArePlain();
      PlainTextsJoin(sign, D2(n / 10_000));
      PlainTextsJoin(sign + D2(n / 10_000), D4(n % 10_000));
      assert YearText(y) == sign + D2(n / 10_000) + D4(n % 10_000);
    }
  }

  lemma IsoParts(t: int)
    requires IsTime(t)
    ensures var c, ms := DateOf(t / MS_PER_DAY), t % MS_PER_DAY;
      && -999_999 <= c.year <= 999_999 && ToIso(t) == YearText(c.year) + RestText(c, ms) + "Z"
  {
    hide YearText, RestText, DateOf, IsDate;
    YearsOfTimes(t);
  }

  lemma PlainTextsJoin(a: string, b: string)
    requires IsClockText(a) && IsClockText(b)
    ensures IsClockText(a + b)
  {
    hide IsClockChar;
  }

  lemma ZIsPlain()
    ensures IsClockText("Z")
  {
  }

  lemma IsoIsPlain(t: int)
    requires IsTime(t)
    ensures IsClockText(ToIso(t)) && |ToIso(t)| <= 27
  {
    hide IsClockText, YearText, RestText, DateOf, ToIso, IsDate, IsTime;
    var c, ms := DateOf(t / MS_PER_DAY), t % MS_PER_DAY;
    IsoParts(t);
    YearIsPlain(c.year);
    RestIsPlain(c, ms);
    ZIsPlain();
    PlainTextsJoin(YearText(c.year), RestText(c, ms));
    PlainTextsJoin(YearText(c.year) + RestText(c, ms), "Z");
  }

  // The instants whose UTC year has four digits: from 0000-01-01 up to, but not including, 10000-01-01.
  const YEAR_0 := -62_167_219_200_000
  const YEAR_10000 := 253_402_300_800_000

  // The same about days.
  lemma FourDigitYearDays(d: int)
    ensures 0 <= YearOf(d) <= 9999 <==> DayFromYear(0) <= d < DayFromYear(10_000)
  {
    hide DayFromYear, IsLeap;
    var y := YearOf(d);
    YearsFollow(y);
    if y < 0 { YearsAreOrdered(y + 1, 0); } else { YearsAreOrdered(0, y); }
    if y < 10_000 { YearsAreOrdered(y + 1, 10_000); } else { YearsAreOrdered(10_000, y); }
  }

  lemma TheFirstDays()
    ensures DayFromYear(0) == -719_528 && DayFromYear(10_000) == 2_932_897
  {
  }

  lemma YearOfDate(d: int)
    ensures DateOf(d).year == YearOf(d)
  {
    hide YearOf, MonthFrom, MonthStart, DayFromYear, IsLeap;
  }

  lemma FourDigitYears(ms: int)
    ensures 0 <= DateOf(ms / MS_PER_DAY).year <= 9999 <==> YEAR_0 <= ms < YEAR_10000
  {
    hide DateOf, YearOf, DayFromYear, IsDate, DayOf;
    var d := ms / MS_PER_DAY;
    YearOfDate(d);
    FourDigitYearDays(d);
    TheFirstDays();
    assert d * MS_PER_DAY <= ms < (d + 1) * MS_PER_DAY;
  }



  // --- parseOccurredAt -----------------------------------------------------------------------------------

  // "YYYY-MM-DDTHH:mm:ss"
  predicate IsClock(s: string) {
    |s| == 19 && s[4] == '-' && s[7] == '-' && s[10] == 'T' && s[13] == ':' && s[16] == ':'
    && AllDigits(s[..4]) && AllDigits(s[5..7]) && AllDigits(s[8..10])
    && AllDigits(s[11..13]) && AllDigits(s[14..16]) && AllDigits(s[17..])
  }

  predicate IsFraction(s: string) {
    s == "" || (|s| >= 2 && s[0] == '.' && AllDigits(s[1..]))
  }

  predicate IsZone(s: string) {
    s == "Z" || (|s| == 6 && s[0] in "+-" && AllDigits(s[1..3]) && s[3] == ':' && AllDigits(s[4..]))
  }

  // Where the zone of a text of the right shape begins.
  function ZoneStart(s: string): (k: nat)
    ensures k <= |s|
  {
    if |s| >= 1 && s[|s| - 1] == 'Z' then |s| - 1 else if |s| >= 6 then |s| - 6 else 0
  }

  // The regular expression OFFSET_DATE_TIME.
  predicate IsOffsetDateTime(s: string) {
    var k := ZoneStart(s);
    k >= 19 && IsClock(s[..19]) && IsFraction(s[19..k]) && IsZone(s[k..])
  }

  // The first three digits of a fraction; further ones are dropped.
  function Milliseconds(fraction: string): (ms: nat)
    ensures ms < 1000
  {
    if |fraction| < 2 then 0
    else if |fraction| == 2 then DigitValue(fraction[1]) * 100
    else if |fraction| == 3 then DigitValue(fraction[1]) * 100 + DigitValue(fraction[2]) * 10
    else DigitValue(fraction[1]) * 100 + DigitValue(fraction[2]) * 10 + DigitValue(fraction[3])
  }

  // The minutes a zone is ahead of UTC, when its hours and minutes are in range.
  function ZoneMinutes(zone: string): (r: Option<int>)
    requires IsZone(zone)
    ensures r.Some? ==> IsOffset(r.value)
  {
    if zone == "Z" then Some(0)
    else
      var h, m := Value(zone[1..3]), Value(zone[4..]);
      if h > 23 || m > 59 then None else Some(if zone[0] == '-' then -(h * 60 + m) else h * 60 + m)
  }

  // Hours, minutes, seconds and milliseconds as one number. 24:00 is the end of a day, and nothing follows it.
  function TimeInDay(h: nat, m: nat, s: nat, ms: nat): (r: Option<nat>)
    requires ms < 1000
    ensures r.Some? ==> r.value <= MS_PER_DAY
  {
    if m > 59 || s > 59 || h > 24 || (h == 24 && (m > 0 || s > 0 || ms > 0)) then None
    else Some(h * 3_600_000 + m * 60_000 + s * 1000 + ms)
  }

  lemma ValuesOfDigits(a: char, b: char, c: char)
    ensures Value([a]) == DigitValue(a) && Value([a, b]) == DigitValue(a) * 10 + DigitValue(b)
    ensures Value([a, b, c]) == DigitValue(a) * 100 + DigitValue(b) * 10 + DigitValue(c)
  {
    hide DigitValue;
    assert Value([]) == 0;
    hide Value;
    ValueGrows([], a);
    ValueGrows([a], b);
    ValueGrows([a, b], c);
    assert [] + [a] == [a] && [a] + [b] == [a, b] && [a, b] + [c] == [a, b, c];
  }

  // A fraction is read as thousandths, and what is finer is cut off.
  lemma FractionsAreThousandths(fraction: string)
    requires IsFraction(fraction)
    ensures fraction == "" ==> Milliseconds(fraction) == 0
    ensures |fraction| == 2 ==> Milliseconds(fraction) == Value(fraction[1..]) * 100
    ensures |fraction| == 3 ==> Milliseconds(fraction) == Value(fraction[1..]) * 10
    ensures |fraction| >= 4 ==> Milliseconds(fraction) == Value(fraction[1..4])
  {
    hide Value, DigitValue;
    if |fraction| == 2 {
      ValuesOfDigits(fraction[1], '0', '0');
      assert fraction[1..] == [fraction[1]];
    } else if |fraction| == 3 {
      ValuesOfDigits(fraction[1], fraction[2], '0');
      assert fraction[1..] == [fraction[1], fraction[2]];
    } else if |fraction| >= 4 {
      ValuesOfDigits(fraction[1], fraction[2], fraction[3]);
      assert fraction[1..4] == [fraction[1], fraction[2], fraction[3]];
    }
  }

  // Every time of a day is one number of milliseconds, and none but 24:00 is past the last of them.
  lemma TimesOfADay(h: nat, m: nat, s: nat, ms: nat)
    requires ms < 1000
    ensures TimeInDay(h, m, s, ms).Some? <==> (h < 24 && m < 60 && s < 60) || (h == 24 && m == 0 && s == 0 && ms == 0)
    ensures TimeInDay(h, m, s, ms).Some? ==>
      var t := TimeInDay(h, m, s, ms).value;
      && t % 1000 == ms && t / 1000 % 60 == s && t / 60_000 % 60 == m && t / 3_600_000 == h
  {
    if h <= 24 && m < 60 && s < 60 {
      var t := h * 3_600_000 + m * 60_000 + s * 1000 + ms;
      assert t / 1000 == h * 3600 + m * 60 + s;
      assert t / 60_000 == h * 60 + m;
    }
  }

  // `Date.parse` of a text that OFFSET_DATE_TIME lets through.
  function DateParse(s: string): (r: Option<int>)
    requires IsOffsetDateTime(s)
  {
    var k := ZoneStart(s);
    var date := Civil(Value(s[..4]), Value(s[5..7]), Value(s[8..10]));
    var time := TimeInDay(Value(s[11..13]), Value(s[14..16]), Value(s[17..19]), Milliseconds(s[19..k]));
    var zone := ZoneMinutes(s[k..]);
    if date.month < 1 || date.month > 12 || date.day < 1 || date.day > 31 || time.None? || zone.None? then None
    else Some(DayOf(date) * MS_PER_DAY + time.value - zone.value * MS_PER_MINUTE)
  }

  function ParseOccurredAt(text: string): Option<int> {
    var trimmed := Trim(text);
    if !IsOffsetDateTime(trimmed) then None else DateParse(trimmed)
  }

  // --- Printing and reading ------------------------------------------------------------------------------

  function Joined(mo: string, d: string, h: string, m: string, s: string, f: string): string {
    "-" + mo + "-" + d + "T" + h + ":" + m + ":" + s + "." + f
  }

  lemma JoinedParts(mo: string, d: string, h: string, m: string, s: string, f: string)
    requires |mo| == |d| == |h| == |m| == |s| == 2 && |f| == 3
    ensures var r := Joined(mo, d, h, m, s, f);
      && |r| == 19 && r[0] == '-' && r[3] == '-' && r[6] == 'T' && r[9] == ':' && r[12] == ':' && r[15] == '.'
      && r[1..3] == mo && r[4..6] == d && r[7..9] == h && r[10..12] == m && r[13..15] == s && r[16..] == f
  {
    var r := Joined(mo, d, h, m, s, f);
    assert r == ['-', mo[0], mo[1], '-', d[0], d[1], 'T', h[0], h[1], ':', m[0], m[1], ':', s[0], s[1], '.'] + f;
    hide Joined;
    assert r[1..3] == mo;
    assert r[4..6] == d;
    assert r[7..9] == h;
    assert r[10..12] == m;
    assert r[13..15] == s;
    assert r[16..] == f;
  }

  lemma DatesAreSmall(c: Civil)
    requires IsDate(c)
    ensures 1 <= c.month <= 12 && 1 <= c.day
  {
  }

  lemma ClocksAreSmall(ms: nat)
    requires ms < MS_PER_DAY
    ensures ms / 3_600_000 < 24 && ms / 60_000 % 60 < 60 && ms / 1000 % 60 < 60 && ms % 1000 < 1000
  {
  }

  // The digits of the clock stand where the reader looks for them.
  lemma RestReadsBack(c: Civil, ms: nat)
    requires IsDate(c) && c.day <= 31 && ms < MS_PER_DAY
    ensures var r := RestText(c, ms);
      && r[0] == '-' && r[3] == '-' && r[6] == 'T' && r[9] == ':' && r[12] == ':' && r[15] == '.'
      && r[1..3] == D2(c.month) && r[4..6] == D2(c.day) && r[7..9] == D2(ms / 3_600_000)
      && r[10..12] == D2(ms / 60_000 % 60) && r[13..15] == D2(ms / 1000 % 60) && r[16..] == D3(ms % 1000)
  {
    hide Value, IsDate, D2, D3, IsDigit;
    DatesAreSmall(c);
    ClocksAreSmall(ms);
    var mo, d, h, m, s, f := D2(c.month), D2(c.day), D2(ms / 3_600_000), D2(ms / 60_000 % 60), D2(ms / 1000 % 60),
      D3(ms % 1000);
    assert RestText(c, ms) == Joined(mo, d, h, m, s, f);
    hide RestText, Joined;
    JoinedParts(mo, d, h, m, s, f);
  }

  lemma PrintedInPieces(c: Civil, ms: nat, zone: string)
    requires IsDate(c) && c.day <= 31 && 0 <= c.year <= 9999 && ms < MS_PER_DAY
    ensures var s := Printed(c, ms, zone);
      && |s| == 23 + |zone| && s[23..] == zone && s[19..23] == "." + D3(ms % 1000)
      && s[4] == '-' && s[7] == '-' && s[10] == 'T' && s[13] == ':' && s[16] == ':'
      && s[..4] == D4(c.year) && s[5..7] == D2(c.month) && s[8..10] == D2(c.day) && s[11..13] == D2(ms / 3_600_000)
      && s[14..16] == D2(ms / 60_000 % 60) && s[17..19] == D2(ms / 1000 % 60)
  {
    hide Value, RestText, IsDate, D2, D3;
    RestReadsBack(c, ms);
    var s, r := Printed(c, ms, zone), RestText(c, ms);
    assert s[..4] == D4(c.year) && s[4..23] == r && s[23..] == zone;
    assert forall i :: 0 <= i < 19 ==> s[4 + i] == r[i];
    assert r[16..] == r[16..19];
    assert s[5..7] == r[1..3] && s[8..10] == r[4..6] && s[11..13] == r[7..9] && s[14..16] == r[10..12]
      && s[17..19] == r[13..15];
    assert s[19..23] == r[15..19] == ["."[0]] + r[16..19];
  }

  lemma ZoneBegins(s: string, zone: string)
    requires |zone| <= |s| && s[|s| - |zone|..] == zone && IsZone(zone)
    ensures ZoneStart(s) == |s| - |zone|
  {
    assert s[|s| - 1] == zone[|zone| - 1];
    assert |zone| == 6 ==> zone[5] == zone[4..][1];
  }

  lemma PiecesMakeTheShape(s: string, zone: string)
    requires |s| == 23 + |zone| && s[23..] == zone && IsZone(zone)
    requires s[4] == '-' && s[7] == '-' && s[10] == 'T' && s[13] == ':' && s[16] == ':' && s[19] == '.'
    requires AllDigits(s[..4]) && AllDigits(s[5..7]) && AllDigits(s[8..10]) && AllDigits(s[11..13])
    requires AllDigits(s[14..16]) && AllDigits(s[17..19]) && AllDigits(s[20..23])
    ensures IsOffsetDateTime(s) && ZoneStart(s) == 23
  {
    hide IsZone, AllDigits, ZoneStart;
    ZoneBegins(s, zone);
    var k, f := s[..19], s[19..23];
    assert k[..4] == s[..4] && k[5..7] == s[5..7] && k[8..10] == s[8..10] && k[11..13] == s[11..13]
      && k[14..16] == s[14..16] && k[17..] == s[17..19];
    assert f[1..] == s[20..23];
  }

  lemma DigitsOfPieces(c: Civil, ms: nat)
    requires IsDate(c) && c.day <= 31 && 0 <= c.year <= 9999 && ms < MS_PER_DAY
    ensures AllDigits(D4(c.year)) && AllDigits(D2(c.month)) && AllDigits(D2(c.day)) && AllDigits(D3(ms % 1000))
    ensures AllDigits(D2(ms / 3_600_000)) && AllDigits(D2(ms / 60_000 % 60)) && AllDigits(D2(ms / 1000 % 60))
  {
  }

  lemma PrintedHasTheShape(c: Civil, ms: nat, zone: string)
    requires IsDate(c) && c.day <= 31 && 0 <= c.year <= 9999 && ms < MS_PER_DAY && IsZone(zone)
    ensures var s := Printed(c, ms, zone);
      && IsOffsetDateTime(s) && ZoneStart(s) == 23 && s[23..] == zone && s[19..23] == "." + D3(ms % 1000)
      && s[..4] == D4(c.year) && s[5..7] == D2(c.month) && s[8..10] == D2(c.day) && s[11..13] == D2(ms / 3_600_000)
      && s[14..16] == D2(ms / 60_000 % 60) && s[17..19] == D2(ms / 1000 % 60)
  {
    hide *;
    var s := Printed(c, ms, zone);
    PrintedInPieces(c, ms, zone);
    DigitsOfPieces(c, ms);
    assert s[19] == s[19..23][0] && s[20..23] == s[19..23][1..] == D3(ms % 1000);
    PiecesMakeTheShape(s, zone);
  }

  lemma ClockAddsUp(ms: nat)
    requires ms < MS_PER_DAY
    ensures TimeInDay(ms / 3_600_000, ms / 60_000 % 60, ms / 1000 % 60, ms % 1000) == Some(ms)
  {
    assert ms / 60_000 == ms / 3_600_000 * 60 + ms / 60_000 % 60;
    assert ms / 1000 == ms / 60_000 * 60 + ms / 1000 % 60;
    assert ms == ms / 1000 * 1000 + ms % 1000;
  }

  lemma FractionReadsBack(f: nat)
    requires f < 1000
    ensures Milliseconds("." + D3(f)) == f
  {
    var s := "." + D3(f);
    assert s[1..3] == D2(f / 10) && s[1] == Digit(f / 10 / 10) && s[2] == Digit(f / 10 % 10) && s[3] == Digit(f % 10);
  }

  lemma PrintedReadsBack(c: Civil, ms: nat, zone: string)
    requires IsDate(c) && c.day <= 31 && 0 <= c.year <= 9999 && ms < MS_PER_DAY && IsZone(zone)
    requires ZoneMinutes(zone).Some?
    ensures var s := Printed(c, ms, zone);
      && IsOffsetDateTime(s)
      && DateParse(s) == Some(DayOf(c) * MS_PER_DAY + ms - ZoneMinutes(zone).value * MS_PER_MINUTE)
  {
    hide Value, RestText, YearText, IsZone, ZoneMinutes, DayOf, IsOffsetDateTime, Printed, TimeInDay, ZoneStart,
      IsDigit;
    hide IsDate, Milliseconds, D2, D3, D4;
    DatesAreSmall(c);
    ClocksAreSmall(ms);
    PrintedHasTheShape(c, ms, zone);
    var s := Printed(c, ms, zone);
    FractionReadsBack(ms % 1000);
    ClockAddsUp(ms);
    assert Civil(Value(s[..4]), Value(s[5..7]), Value(s[8..10])) == c;
  }

  lemma StartsWithADigit(s: string)
    ensures IsOffsetDateTime(s) ==> |s| >= 19 && IsDigit(s[0])
  {
    if IsOffsetDateTime(s) {
      assert s[..19][..4][0] == s[0];
    }
  }

  // --- The theorems --------------------------------------------------------------------------------------

  lemma ZoneReadsBack(minutes: int)
    requires IsOffset(minutes)
    ensures IsZone(ZoneText(minutes)) && ZoneMinutes(ZoneText(minutes)) == Some(minutes)
  {
    var n := if minutes < 0 then -minutes else minutes;
    var z := ZoneText(minutes);
    assert z[1..3] == D2(n / 60) && z[4..] == D2(n % 60);
  }

  lemma Unpadded(s: string)
    ensures "" + s + "" == s
  {
  }

  lemma IsoIsAClock(t: int)
    requires IsTime(t)
    ensures -MAX_TIME - MS_PER_DAY <= t <= MAX_TIME + MS_PER_DAY && ToIso(t) == ClockText(t, "Z")
  {
  }

  lemma ZIsUtc()
    ensures IsZone("Z") && ZoneMinutes("Z") == Some(0) && AllSpace("")
  {
  }

  // A clock text between white space reads as the instant it shows if its year has four digits, and otherwise
  // does not read at all.
  lemma ClockTextReads(local: int, zone: string, before: string, after: string)
    requires -MAX_TIME - MS_PER_DAY <= local <= MAX_TIME + MS_PER_DAY
    requires IsZone(zone) && ZoneMinutes(zone).Some?
    requires AllSpace(before) && AllSpace(after)
    ensures ParseOccurredAt(before + ClockText(local, zone) + after) ==
      if YEAR_0 <= local < YEAR_10000 then Some(local - ZoneMinutes(zone).value * MS_PER_MINUTE) else None
  {
    hide RestText, D2, D4, DateParse, ZoneMinutes, DateOf, DayOf, Trim;
    YearsOfTimes(local);
    var c, ms := DateOf(local / MS_PER_DAY), local % MS_PER_DAY;
    var s := Printed(c, ms, zone);
    assert s[0] == YearText(c.year)[0] && s[|s| - 1] == zone[|zone| - 1];
    assert IsDigit(zone[|zone| - 1]) || zone == "Z" by {
      if zone != "Z" { assert IsDigit(zone[4..][1]); }
    }
    TrimDrops(before, s, after);
    FourDigitYears(local);
    if 0 <= c.year <= 9999 {
      PrintedReadsBack(c, ms, zone);
      assert DayOf(c) == local / MS_PER_DAY;
    } else {
      StartsWithADigit(s);
    }
  }

  // The stored `at` of an instant reads back as the same instant, if and only if its UTC year is 0 to 9999.
  lemma StoredTimeReadsBack(t: int)
    requires IsTime(t)
    ensures ParseOccurredAt(ToIso(t)) == if YEAR_0 <= t < YEAR_10000 then Some(t) else None
  {
    hide *;
    IsoIsAClock(t);
    ZIsUtc();
    ClockTextReads(t, "Z", "", "");
    Unpadded(ClockText(t, "Z"));
  }

  // Every zone's way of writing an instant, with white space around it, reads as that instant, as long as the
  // year on that zone's calendar has four digits.
  lemma EveryOffsetReadsBack(t: int, minutes: int, before: string, after: string)
    requires IsTime(t) && IsOffset(minutes) && AllSpace(before) && AllSpace(after)
    ensures ParseOccurredAt(before + ToIsoAt(t, minutes) + after) ==
      if YEAR_0 <= t + minutes * MS_PER_MINUTE < YEAR_10000 then Some(t) else None
  {
    hide ZoneText, ZoneMinutes, IsZone, ClockText, ParseOccurredAt, AllSpace;
    ZoneReadsBack(minutes);
    ClockTextReads(t + minutes * MS_PER_MINUTE, ZoneText(minutes), before, after);
  }

  // Texts in different zones are in the order of their instants.
  lemma TextsKeepTheOrderOfInstants(t: int, m: int, u: int, n: int)
    requires IsTime(t) && IsOffset(m) && IsTime(u) && IsOffset(n)
    requires YEAR_0 <= t + m * MS_PER_MINUTE < YEAR_10000 && YEAR_0 <= u + n * MS_PER_MINUTE < YEAR_10000
    ensures var a, b := ParseOccurredAt(ToIsoAt(t, m)), ParseOccurredAt(ToIsoAt(u, n));
      a.Some? && b.Some? && (a.value < b.value <==> t < u) && (a == b <==> t == u)
  {
    hide ParseOccurredAt, ToIsoAt;
    EveryOffsetReadsBack(t, m, "", "");
    EveryOffsetReadsBack(u, n, "", "");
    Unpadded(ToIsoAt(t, m));
    Unpadded(ToIsoAt(u, n));
  }

  lemma FourDigits(a: char, b: char, c: char, d: char)
    ensures Value([a, b, c, d]) <= 9999
  {
    assert Value([]) == 0 && [a] == [] + [a] && [a, b] == [a] + [b] && [a, b, c] == [a, b] + [c]
      && [a, b, c, d] == [a, b, c] + [d];
    ValueGrows([], a);
    ValueGrows([a], b);
    ValueGrows([a, b], c);
    ValueGrows([a, b, c], d);
  }

  lemma DaysOfFourDigitYears(date: Civil)
    requires 0 <= date.year <= 9999 && 1 <= date.month <= 12 && 1 <= date.day <= 31
    ensures YEAR_0 <= DayOf(date) * MS_PER_DAY <= YEAR_10000 + 400 * MS_PER_DAY
  {
    YearsAreOrdered(0, date.year);
    YearsAreOrdered(date.year, 10_000);
    assert DayFromYear(0) * MS_PER_DAY == YEAR_0 && DayFromYear(10_000) * MS_PER_DAY == YEAR_10000;
    hide DayFromYear;
    assert 0 <= MonthStart(date.month, IsLeap(date.year)) <= 365;
  }

  lemma AcceptedTimesAreTimes(text: string)
    ensures ParseOccurredAt(text).Some? ==> IsTime(ParseOccurredAt(text).value)
  {
    var s := Trim(text);
    if IsOffsetDateTime(s) && DateParse(s).Some? {
      var year := s[..4];
      assert year == [year[0], year[1], year[2], year[3]];
      hide Value, IsOffsetDateTime, ZoneStart, DayOf, Trim, IsZone;
      FourDigits(year[0], year[1], year[2], year[3]);
      DaysOfFourDigitYears(Civil(Value(year), Value(s[5..7]), Value(s[8..10])));
    }
  }

  // What the webhook stores for an event it accepted reads back as the same instant, unless the zone of the text
  // moved the instant out of the years 0 to 9999 of UTC.
  lemma WhatIsStoredReadsBack(text: string)
    requires ParseOccurredAt(text).Some?
    ensures var ms := ParseOccurredAt(text).value;
      IsTime(ms) && (ParseOccurredAt(ToIso(ms)) == Some(ms) <==> YEAR_0 <= ms < YEAR_10000)
  {
    AcceptedTimesAreTimes(text);
    StoredTimeReadsBack(ParseOccurredAt(text).value);
  }

  // The last minute of the year 9999, as a clock one minute behind UTC shows the first instant of the year 10000.
  const LAST_MINUTE := "9999-12-31T23:59:00.000-00:01"

  lemma TheLastDay()
    ensures IsDate(Civil(9999, 12, 31)) && DayOf(Civil(9999, 12, 31)) == 2_932_896
  {
  }

  lemma SomeDigits()
    ensures D2(0) == "00" && D2(1) == "01" && D2(12) == "12" && D2(23) == "23" && D2(31) == "31" && D2(59) == "59"
    ensures D3(0) == "000" && D4(9999) == "9999"
  {
    hide Value;
  }

  lemma TheLastYearAndZone()
    ensures YearText(9999) == "9999" && ZoneText(-1) == "-00:01"
  {
    hide D2, D3, D4, Value;
    SomeDigits();
  }

  lemma TheLastClock(c: Civil)
    requires c == Civil(9999, 12, 31) && IsDate(c)
    ensures RestText(c, 86_340_000) == "-12-31T23:59:00.000"
  {
    hide D2, D3, D4, Value, IsDate;
    SomeDigits();
    assert 86_340_000 / 3_600_000 == 23 && 86_340_000 / 60_000 % 60 == 59 && 86_340_000 / 1000 % 60 == 0;
  }

  lemma TheLastInstant()
    ensures IsTime(YEAR_10000) && IsOffset(-1) && (YEAR_10000 - MS_PER_MINUTE) / MS_PER_DAY == 2_932_896
    ensures (YEAR_10000 - MS_PER_MINUTE) % MS_PER_DAY == 86_340_000
  {
  }

  lemma TheLastMinute()
    ensures ToIsoAt(YEAR_10000, -1) == LAST_MINUTE
  {
    hide YearText, RestText, ZoneText, DateOf, DayOf, IsDate, Value;
    var c := Civil(9999, 12, 31);
    TheLastInstant();
    TheLastDay();
    DateOfDay(c);
    TheLastClock(c);
    TheLastYearAndZone();
    assert ToIsoAt(YEAR_10000, -1) == "9999" + "-12-31T23:59:00.000" + "-00:01";
  }

  // Such an event exists: this text, which event.xsd lets through. It is stored with a sign and six digits for the
  // year, and that does not read back.
  lemma AStoredTimeMayNotReadBack()
    ensures ParseOccurredAt(LAST_MINUTE) == Some(YEAR_10000) && ParseOccurredAt(ToIso(YEAR_10000)) == None
  {
    hide *;
    InTheLastMinute();
    TheLastMinute();
    Unpadded(ToIsoAt(YEAR_10000, -1));
    StoredTimeReadsBack(YEAR_10000);
  }

  lemma InTheLastMinute()
    ensures IsTime(YEAR_10000) && IsOffset(-1)
    ensures ParseOccurredAt("" + ToIsoAt(YEAR_10000, -1) + "") == Some(YEAR_10000)
    ensures !(YEAR_0 <= YEAR_10000 < YEAR_10000)
  {
    ZIsUtc();
    hide ParseOccurredAt, ToIsoAt, AllSpace;
    EveryOffsetReadsBack(YEAR_10000, -1, "", "");
  }
}
