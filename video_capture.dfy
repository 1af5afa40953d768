// Clip capture of the worker (worker/src/video-capture.ts): pick the
// buffered segments, write the concat list, compute the seek into the
// stitched buffer, stitch, and generate a thumbnail.

module VideoCapture {
  import opened Common
  import opened SegmentBuffer

  /** Seconds of video kept before the event. */
  const PreEventSeconds: int := 10
  /** Seconds the capture waits for after the event (plus 2 s slack). */
  const PostEventSeconds: int := 5

  const ListFileName: string := "templist.txt"

  // ---------------------------------------------------------------------
  // `Date.prototype.toISOString`

  const MsPerDay: int := 86400000
  /** Largest magnitude of a valid time value (section 21.4.1.1 of
      ECMA-262). */
  const MaxTimeValue: int := 8640000000000000

  datatype CivilDate = CivilDate(year: int, month: int, day: int)

  // The proleptic Gregorian calendar, stated directly

  /** Every fourth year is a leap year, except a century year not
      divisible by 400. */
  predicate IsLeapYear(y: int)
  {
    y % 4 == 0 && (y % 100 != 0 || y % 400 == 0)
  }

  /** The number of leap years among 1..`y` (negative below year 1),
      counted from the multiples of 4, 100 and 400. */
  function LeapYearsThrough(y: int): int
  {
    y / 4 - y / 100 + y / 400
  }

  /** Days of a month in a common year. */
  function CommonMonthLength(month: int): int
    requires 1 <= month <= 12
  {
    match month
    case 2 => 28
    case 4 => 30 case 6 => 30 case 9 => 30 case 11 => 30
    case _ => 31
  }

  /** Days of the months before `month` in a common year. */
  function DaysBeforeMonth(month: int): int
    requires 1 <= month <= 12
  {
    match month
    case 1 => 0   case 2 => 31  case 3 => 59   case 4 => 90   case 5 => 120  case 6 => 151
    case 7 => 181 case 8 => 212 case 9 => 243  case 10 => 273 case 11 => 304 case _ => 334
  }

  function DaysInMonth(year: int, month: int): int
    requires 1 <= month <= 12
  {
    if month == 2 && IsLeapYear(year) then 29 else CommonMonthLength(month)
  }

  /** The day number of a date counted from 1970-01-01: 365 days per year,
      one more per leap year passed, and the days of its own year before
      it. */
  function DaysFromCivil(c: CivilDate): int
    requires 1 <= c.month <= 12
  {
    365 * (c.year - 1970) + LeapYearsThrough(c.year - 1) - LeapYearsThrough(1969)
      + DaysBeforeMonth(c.month) + (if c.month > 2 && IsLeapYear(c.year) then 1 else 0) + c.day - 1
  }

  // The day-to-date conversion of `toISOString`

  /** The proleptic Gregorian date of the day `days` after 1970-01-01.
      The day count is shifted to start on 0000-03-01 so that a leap day
      ends its year, then split into 400-year eras of 146097 days. */
  function CivilFromDays(days: int): (c: CivilDate)
    ensures 1 <= c.month <= 12 && 1 <= c.day <= 31
    ensures c.month == 2 ==> c.day <= 29
  {
    var z := days + 719468;
    var era := z / 146097;
    var yd := YearOfEra(z % 146097);
    var md := MonthDay(yd.1);
    CivilDate(era * 400 + yd.0 + (if md.0 <= 2 then 1 else 0), md.0, md.1)
  }

  /** The year of a 400-year era (counted from March 1 of a year divisible
      by 400) and the day of that March-based year, for the day `doe` of the
      era: centuries of 36524 days (the last one 36525), 4-year cycles of
      1461 days (the last of a short century 1460) and years of 365 days
      (the last of a cycle 366). */
  function YearOfEra(doe: int): (r: (int, int))
    requires 0 <= doe < 146097
    ensures 0 <= r.0 <= 399 && 0 <= r.1 <= 365
    ensures doe == 365 * r.0 + r.0 / 4 - r.0 / 100 + r.1
    ensures r.1 == 365 ==> IsLeapYear(r.0 + 1)
  {
    var century := if doe / 36524 < 3 then doe / 36524 else 3;
    var inCentury := doe - 36524 * century;
    assert 0 <= inCentury <= 36524;
    var cycle := inCentury / 1461;
    var inCycle := inCentury - 1461 * cycle;
    assert 0 <= cycle <= 24 && 0 <= inCycle <= 1460;
    assert century < 3 ==> inCentury <= 36523;
    var year := if inCycle / 365 < 3 then inCycle / 365 else 3;
    var dayOfYear := inCycle - 365 * year;
    var yoe := 100 * century + 4 * cycle + year;
    YearOfEraQuotients(century, cycle, year);
    assert dayOfYear == 365 ==> year == 3 && (century < 3 ==> cycle <= 23);
    if dayOfYear == 365 then LastDayOfCycle(century, cycle); (yoe, dayOfYear) else (yoe, dayOfYear)
  }

  /** The month and day of the day `dayOfYear` of a March-based year:
      the month lengths from March repeat 31, 30, 31, 30, 31 and
      February is what is left. */
  function MonthDay(dayOfYear: int): (r: (int, int))
    requires 0 <= dayOfYear <= 365
    ensures 1 <= r.0 <= 12 && 1 <= r.1
    ensures dayOfYear == DaysBeforeMonth(r.0) - 59 + (if r.0 <= 2 then 365 else 0) + r.1 - 1
    ensures r.1 <= CommonMonthLength(r.0) || (r.0 == 2 && r.1 == 29 && dayOfYear == 365)
  {
    var mp := (5 * dayOfYear + 2) / 153;
    assert 0 <= mp <= 11 && 5 * dayOfYear + 2 < 153 * (mp + 1);
    MonthStart(mp);
    var day := dayOfYear - (153 * mp + 2) / 5 + 1;
    var month := if mp < 10 then mp + 3 else mp - 9;
    (month, day)
  }

  /** Day 0 is the epoch, 1970-01-01. */
  lemma {:induction false} CivilFromDaysEpoch()
    ensures CivilFromDays(0) == CivilDate(1970, 1, 1)
  {
  }

  /** Day 11016 is the leap day 2000-02-29 (2000 is a leap year although
      it is a multiple of 100). */
  lemma {:induction false} CivilFromDaysLeapDay()
    ensures CivilFromDays(11016) == CivilDate(2000, 2, 29)
  {
  }

  /** Day -1 is 1969-12-31. */
  lemma {:induction false} CivilFromDaysBeforeEpoch()
    ensures CivilFromDays(-1) == CivilDate(1969, 12, 31)
  {
  }

  // Proof that `CivilFromDays` is the Gregorian calendar

  /** The leap-year quotients of a year of an era given in centuries,
      4-year cycles and years. */
  lemma {:induction false} YearOfEraQuotients(century: int, cycle: int, year: int)
    requires 0 <= century <= 3 && 0 <= cycle <= 24 && 0 <= year <= 3
    ensures (100 * century + 4 * cycle + year) / 4 == 25 * century + cycle
    ensures (100 * century + 4 * cycle + year) / 100 == century
  {
    assert 100 * century + 4 * cycle + year == 4 * (25 * century + cycle) + year;
    assert 100 * century + 4 * cycle + year == 100 * century + (4 * cycle + year);
  }

  /** The year that ends a 4-year cycle is a leap year unless it ends a
      short century. */
  lemma {:induction false} LastDayOfCycle(century: int, cycle: int)
    requires 0 <= century <= 3 && 0 <= cycle <= 24 && (century < 3 ==> cycle <= 23)
    ensures IsLeapYear(100 * century + 4 * cycle + 4)
  {
    var y := 100 * century + 4 * cycle + 4;
    assert y == 4 * (25 * century + cycle + 1);
    if cycle == 24 {
      assert y == 400;
    } else {
      assert y == 100 * century + 4 * (cycle + 1);
    }
  }

  /** The quotients by 4, 100 and 400 grow by one exactly at a multiple. */
  lemma {:induction false} DivStep4(y: int)
    ensures y / 4 == (y - 1) / 4 + (if y % 4 == 0 then 1 else 0)
  {
    var q := (y - 1) / 4;
    if (y - 1) % 4 == 3 {
      assert y == 4 * (q + 1);
    } else {
      assert y == 4 * q + (y - 1) % 4 + 1;
    }
  }

  lemma {:induction false} DivStep100(y: int)
    ensures y / 100 == (y - 1) / 100 + (if y % 100 == 0 then 1 else 0)
  {
    var q := (y - 1) / 100;
    if (y - 1) % 100 == 99 {
      assert y == 100 * (q + 1);
    } else {
      assert y == 100 * q + (y - 1) % 100 + 1;
    }
  }

  lemma {:induction false} DivStep400(y: int)
    ensures y / 400 == (y - 1) / 400 + (if y % 400 == 0 then 1 else 0)
  {
    var q := (y - 1) / 400;
    if (y - 1) % 400 == 399 {
      assert y == 400 * (q + 1);
    } else {
      assert y == 400 * q + (y - 1) % 400 + 1;
    }
  }

  /** The count of leap years grows by one exactly at a leap year. */
  lemma {:induction false} LeapYearsThroughStep(y: int)
    ensures LeapYearsThrough(y) == LeapYearsThrough(y - 1) + (if IsLeapYear(y) then 1 else 0)
  {
    DivStep4(y);
    DivStep100(y);
    DivStep400(y);
    assert y % 400 == 0 ==> y % 100 == 0 && y % 4 == 0;
    assert y % 100 == 0 ==> y % 4 == 0;
  }

  /** Whole eras of 400 years shift the quotients by 4, 100 and 400 and
      keep the remainders. */
  lemma {:induction false} EraShift4(era: int, y: int)
    ensures (era * 400 + y) / 4 == era * 100 + y / 4 && (era * 400 + y) % 4 == y % 4
  {
    assert era * 400 + y == 4 * (era * 100 + y / 4) + y % 4;
  }

  lemma {:induction false} EraShift100(era: int, y: int)
    ensures (era * 400 + y) / 100 == era * 4 + y / 100 && (era * 400 + y) % 100 == y % 100
  {
    assert era * 400 + y == 100 * (era * 4 + y / 100) + y % 100;
  }

  lemma {:induction false} EraShift400(era: int, y: int)
    ensures (era * 400 + y) / 400 == era + y / 400 && (era * 400 + y) % 400 == y % 400
  {
    assert era * 400 + y == 400 * (era + y / 400) + y % 400;
  }

  /** The leap years through a year given in eras and years of its era. */
  lemma {:induction false} LeapYearsThroughEra(era: int, yearOfEra: int)
    requires 0 <= yearOfEra <= 399
    ensures LeapYearsThrough(era * 400 + yearOfEra) == 97 * era + yearOfEra / 4 - yearOfEra / 100
  {
    EraShift4(era, yearOfEra);
    EraShift100(era, yearOfEra);
    EraShift400(era, yearOfEra);
  }

  /** The day of a March-based year at which a month starts. */
  lemma {:induction false} MonthStart(mp: int)
    requires 0 <= mp <= 11
    ensures var month := if mp < 10 then mp + 3 else mp - 9;
      (153 * mp + 2) / 5 == DaysBeforeMonth(month) - 59 + (if month <= 2 then 365 else 0)
  {
  }

  /** The day number of a date given by its March-based year, with the
      leap years through that year. */
  lemma {:induction false} DaysFromShiftedYear(shifted: int, month: int, day: int)
    requires 1 <= month <= 12
    ensures DaysFromCivil(CivilDate(shifted + (if month <= 2 then 1 else 0), month, day))
            == 365 * (shifted - 1970) + LeapYearsThrough(shifted) - 477 + DaysBeforeMonth(month) + day - 1
               + (if month <= 2 then 365 else 0)
  {
    assert LeapYearsThrough(1969) == 477;
    if month > 2 {
      LeapYearsThroughStep(shifted);
    }
  }

  /** `CivilFromDays` in terms of its two steps: the era, the year of
      the era and the March-based day of that year, then the month and
      day. */
  lemma {:induction false} CivilFromDaysParts(days: int)
    returns (era: int, yearOfEra: int, dayOfYear: int, month: int, day: int)
    ensures 0 <= yearOfEra <= 399 && 0 <= dayOfYear <= 365 && 1 <= month <= 12
    ensures days + 719468 == 146097 * era + 365 * yearOfEra + yearOfEra / 4 - yearOfEra / 100 + dayOfYear
    ensures dayOfYear == DaysBeforeMonth(month) - 59 + (if month <= 2 then 365 else 0) + day - 1
    ensures day <= CommonMonthLength(month) || (month == 2 && day == 29 && dayOfYear == 365)
    ensures dayOfYear == 365 ==> IsLeapYear(yearOfEra + 1)
    ensures CivilFromDays(days) == CivilDate(era * 400 + yearOfEra + (if month <= 2 then 1 else 0), month, day)
  {
    var z := days + 719468;
    era := z / 146097;
    var yd := YearOfEra(z % 146097);
    yearOfEra, dayOfYear := yd.0, yd.1;
    var md := MonthDay(dayOfYear);
    month, day := md.0, md.1;
    assert CivilFromDays(days) == CivilDate(era * 400 + yearOfEra + (if month <= 2 then 1 else 0), month, day);
    assert z == 146097 * era + z % 146097;
  }

  /** `CivilFromDays` is a calendar: counting the days of the date it
      gives by the Gregorian rules returns the day number. */
  lemma {:induction false} CivilFromDaysInverse(days: int)
    ensures DaysFromCivil(CivilFromDays(days)) == days
  {
    var era, yearOfEra, dayOfYear, month, day := CivilFromDaysParts(days);
    DaysFromEraParts(days, era, yearOfEra, dayOfYear, month, day, CivilFromDays(days));
  }

  /** A date given by its era, year of era, March-based day of year,
      month and day counts back to its day number. */
  lemma {:induction false} DaysFromEraParts(days: int, era: int, yearOfEra: int, dayOfYear: int,
                                            month: int, day: int, c: CivilDate)
    requires 0 <= yearOfEra <= 399 && 1 <= month <= 12
    requires c == CivilDate(era * 400 + yearOfEra + (if month <= 2 then 1 else 0), month, day)
    requires days + 719468 == 146097 * era + 365 * yearOfEra + yearOfEra / 4 - yearOfEra / 100 + dayOfYear
    requires dayOfYear == DaysBeforeMonth(month) - 59 + (if month <= 2 then 365 else 0) + day - 1
    ensures DaysFromCivil(c) == days
  {
    var shifted := era * 400 + yearOfEra;
    LeapYearsThroughEra(era, yearOfEra);
    DaysFromShiftedYear(shifted, month, day);
    DayCount(days, era, 365 * yearOfEra + yearOfEra / 4 - yearOfEra / 100 + dayOfYear, yearOfEra,
             yearOfEra / 4 - yearOfEra / 100, dayOfYear,
             DaysBeforeMonth(month) + day - 1 + (if month <= 2 then 365 else 0),
             DaysFromCivil(CivilDate(shifted + (if month <= 2 then 1 else 0), month, day)));
  }

  /** The sum behind `CivilFromDaysInverse`: an era is 146097 days, that is
      400 years of 365 days and 97 leap days. */
  lemma {:induction false} DayCount(days: int, era: int, dayOfEra: int, yearOfEra: int, leapsOfEra: int,
                                    dayOfYear: int, fromJanuary: int, total: int)
    requires days + 719468 == 146097 * era + dayOfEra
    requires dayOfEra == 365 * yearOfEra + leapsOfEra + dayOfYear
    requires dayOfYear == fromJanuary - 59
    requires total == 365 * (era * 400 + yearOfEra - 1970) + 97 * era + leapsOfEra - 477 + fromJanuary
    ensures total == days
  {
  }

  /** No date `CivilFromDays` gives is past the end of its month; in
      particular February 29 falls only in leap years. */
  lemma {:induction false} CivilFromDaysInMonth(days: int)
    ensures var c := CivilFromDays(days);
      c.day <= DaysInMonth(c.year, c.month)
  {
    var era, yearOfEra, dayOfYear, month, day := CivilFromDaysParts(days);
    if month == 2 && day == 29 {
      LeapYearOfEra(era, yearOfEra + 1);
    }
  }

  /** Whole eras do not change whether a year is a leap year. */
  lemma {:induction false} LeapYearOfEra(era: int, yearOfEra: int)
    ensures IsLeapYear(era * 400 + yearOfEra) == IsLeapYear(yearOfEra)
  {
    EraShift4(era, yearOfEra);
    EraShift100(era, yearOfEra);
    EraShift400(era, yearOfEra);
  }

  /** `n` in decimal, left-padded with '0' to `width` characters. */
  function ZeroPad(n: nat, width: nat): (r: string)
    ensures AllDigits(r) && DigitsValue(r) == n
    ensures width >= 1 && n < Pow10(width) ==> |r| == width
  {
    var s := NatToString(n);
    NatToStringValue(n);
    NatToStringLength(n, width);
    if |s| >= width then s
    else
      var zeros := seq(width - |s|, _ => '0');
      LeadingZeros(zeros, s);
      zeros + s
  }

  lemma {:induction false} NatToStringLength(n: nat, k: nat)
    ensures n < Pow10(k) ==> |NatToString(n)| <= k || (k == 0 && n == 0)
  {
    if n >= 10 && n < Pow10(k) {
      NatToStringLength(n / 10, k - 1);
    }
  }

  lemma {:induction false} LeadingZeros(zeros: string, s: string)
    requires forall i :: 0 <= i < |zeros| ==> zeros[i] == '0'
    requires AllDigits(s)
    ensures AllDigits(zeros + s) && DigitsValue(zeros + s) == DigitsValue(s)
    decreases |s|
  {
    if s == [] {
      assert zeros + s == zeros;
      AllZeros(zeros);
    } else {
      var t := zeros + s;
      assert t[..|t| - 1] == zeros + s[..|s| - 1];
      LeadingZeros(zeros, s[..|s| - 1]);
    }
  }

  lemma {:induction false} AllZeros(zeros: string)
    requires forall i :: 0 <= i < |zeros| ==> zeros[i] == '0'
    ensures AllDigits(zeros) && DigitsValue(zeros) == 0
  {
    if zeros != [] {
      AllZeros(zeros[..|zeros| - 1]);
    }
  }

  /** The year field: four digits for years 0..9999, otherwise a sign and
      six digits. */
  function YearText(y: int): (r: string)
    ensures r != []
    ensures 0 <= y <= 9999 ==> |r| == 4 && AllDigits(r) && DigitsValue(r) == y
    ensures y < 0 ==> r[0] == '-'
    ensures y > 9999 ==> r[0] == '+'
  {
    if 0 <= y <= 9999 then ZeroPad(y, 4)
    else if y < 0 then "-" + ZeroPad(-y, 6)
    else "+" + ZeroPad(y, 6)
  }

  /** `YYYY-MM-DD`, with the year widened for years outside 0..9999. */
  function DateText(date: CivilDate): (r: string)
    requires 1 <= date.month <= 12 && 1 <= date.day <= 31
    ensures 0 <= date.year <= 9999 ==>
      |r| == 10 && r[4] == '-' && r[7] == '-' && r[..4] == YearText(date.year)
      && r[5..7] == ZeroPad(date.month, 2) && r[8..10] == ZeroPad(date.day, 2)
  {
    YearText(date.year) + "-" + ZeroPad(date.month, 2) + "-" + ZeroPad(date.day, 2)
  }

  /** `HH:mm:ss.sss` of the millisecond `t` of a day. */
  function TimeText(t: nat): (r: string)
    requires t < MsPerDay
    ensures |r| == 12 && r[2] == ':' && r[5] == ':' && r[8] == '.'
    ensures r[..2] == ZeroPad(t / 3600000, 2) && r[3..5] == ZeroPad(t / 60000 % 60, 2)
    ensures r[6..8] == ZeroPad(t / 1000 % 60, 2) && r[9..] == ZeroPad(t % 1000, 3)
  {
    ZeroPad(t / 3600000, 2) + ":" + ZeroPad(t / 60000 % 60, 2) + ":" + ZeroPad(t / 1000 % 60, 2)
      + "." + ZeroPad(t % 1000, 3)
  }

  /** `YYYY-MM-DDTHH:mm:ss.sssZ` of a date and a millisecond of its day. */
  function IsoText(date: CivilDate, t: nat): string
    requires 1 <= date.month <= 12 && 1 <= date.day <= 31 && t < MsPerDay
  {
    DateText(date) + "T" + TimeText(t) + "Z"
  }

  /** `new Date(ms).toISOString()`; `None` where it throws a RangeError
      (an invalid time value). */
  function IsoString(ms: int): (r: Option<string>)
    ensures r.None? <==> ms < -MaxTimeValue || ms > MaxTimeValue
  {
    if ms < -MaxTimeValue || ms > MaxTimeValue then None
    else Some(IsoText(CivilFromDays(ms / MsPerDay), ms % MsPerDay))
  }

  /** The digit fields of a date's text spell its year, month and day. */
  lemma {:induction false} DateTextFields(date: CivilDate)
    requires 1 <= date.month <= 12 && 1 <= date.day <= 31 && 0 <= date.year <= 9999
    ensures var r := DateText(date);
      AllDigits(r[..4]) && AllDigits(r[5..7]) && AllDigits(r[8..10])
      && DigitsValue(r[..4]) == date.year && DigitsValue(r[5..7]) == date.month
      && DigitsValue(r[8..10]) == date.day
  {
  }

  /** The digit fields of a time's text spell its hours, minutes, seconds
      and milliseconds. */
  lemma {:induction false} TimeTextFields(t: nat)
    requires t < MsPerDay
    ensures var r := TimeText(t);
      AllDigits(r[..2]) && AllDigits(r[3..5]) && AllDigits(r[6..8]) && AllDigits(r[9..])
      && DigitsValue(r[..2]) == t / 3600000 && DigitsValue(r[3..5]) == t / 60000 % 60
      && DigitsValue(r[6..8]) == t / 1000 % 60 && DigitsValue(r[9..]) == t % 1000
  {
  }

  /** For a four-digit year the text is `YYYY-MM-DDTHH:mm:ss.sssZ`: 24
      characters, the date's text, 'T', the time's text and 'Z'. */
  lemma {:induction false} IsoTextShape(date: CivilDate, t: nat)
    requires 1 <= date.month <= 12 && 1 <= date.day <= 31 && 0 <= date.year <= 9999
    requires t < MsPerDay
    ensures var s := IsoText(date, t);
      |s| == 24 && s[..10] == DateText(date) && s[10] == 'T'
      && s[11..23] == TimeText(t) && s[23] == 'Z'
  {
    var s := DateText(date) + "T" + TimeText(t) + "Z";
    assert s[..10] == DateText(date) && s[11..23] == TimeText(t);
  }

  // ---------------------------------------------------------------------
  // Names and paths

  /** `path.join(dir, name)` for a directory without a trailing separator. */
  function PathJoin(dir: string, name: string): string
  {
    dir + "/" + name
  }

  /** `${plate}_${iso.replace(/:/g, '-')}.mp4`. */
  function StampedName(plate: string, iso: string): (r: string)
    ensures StartsWith(r, plate + "_") && EndsWith(r, ".mp4")
    ensures |r| == |plate| + |iso| + 5
    ensures Excludes(plate, ':') ==> Excludes(r, ':')
  {
    var stamp := ReplaceAllChar(iso, ':', '-');
    var r := plate + "_" + stamp + ".mp4";
    assert r[..|plate + "_"|] == plate + "_";
    assert r[|r| - 4..] == ".mp4";
    ExcludesConcat(plate, "_", ':');
    ExcludesConcat(plate + "_", stamp, ':');
    ExcludesConcat(plate + "_" + stamp, ".mp4", ':');
    r
  }

  /** The final file name of a capture; `None` where `toISOString` throws. */
  function FinalFilename(plate: string, eventMs: int): (r: Option<string>)
    ensures r.Some? <==> IsoString(eventMs).Some?
    ensures r.Some? ==> r.value == StampedName(plate, IsoString(eventMs).value)
  {
    match IsoString(eventMs)
    case None => None
    case Some(iso) => Some(StampedName(plate, iso))
  }

  /** The ISO time is recoverable from the file name of a four-digit-year
      capture: only the two ':' separators of the time were changed. */
  lemma {:induction false} StampedNameRestoresIso(plate: string, date: CivilDate, t: nat)
    requires 1 <= date.month <= 12 && 1 <= date.day <= 31 && 0 <= date.year <= 9999
    requires t < MsPerDay
    ensures var name := StampedName(plate, IsoText(date, t));
      |name| == |plate| + 29
      && IsoText(date, t) == name[|plate| + 1..|plate| + 25][13 := ':'][16 := ':']
  {
    var iso := IsoText(date, t);
    IsoTextColons(date, t);
    var stamp := ReplaceAllChar(iso, ':', '-');
    var name := plate + "_" + stamp + ".mp4";
    assert name[|plate| + 1..|plate| + 25] == stamp;
    var restored := stamp[13 := ':'][16 := ':'];
    forall i | 0 <= i < 24 ensures restored[i] == iso[i] {
    }
    assert restored == iso;
  }

  /** The only ':' of a four-digit-year ISO text are the two time
      separators. */
  lemma {:induction false} IsoTextColons(date: CivilDate, t: nat)
    requires 1 <= date.month <= 12 && 1 <= date.day <= 31 && 0 <= date.year <= 9999
    requires t < MsPerDay
    ensures var iso := IsoText(date, t);
      |iso| == 24 && iso[13] == ':' && iso[16] == ':'
      && forall i :: 0 <= i < 24 && i != 13 && i != 16 ==> iso[i] != ':'
  {
    var iso := IsoText(date, t);
    var head := DateText(date) + "T" + ZeroPad(t / 3600000, 2);
    var mi := ZeroPad(t / 60000 % 60, 2);
    var tail := ZeroPad(t / 1000 % 60, 2) + "." + ZeroPad(t % 1000, 3) + "Z";
    assert iso == head + ":" + mi + ":" + tail;
    assert |head| == 13 && |mi| == 2 && |tail| == 7 by {
      DateTextLength(date);
    }
    assert Excludes(head, ':') && Excludes(mi, ':') && Excludes(tail, ':') by {
      DateTextNoColon(date);
      DigitsNoColon(ZeroPad(t / 3600000, 2));
      DigitsNoColon(mi);
      DigitsNoColon(ZeroPad(t / 1000 % 60, 2));
      DigitsNoColon(ZeroPad(t % 1000, 3));
      ExcludesConcat(DateText(date), "T", ':');
      ExcludesConcat(DateText(date) + "T", ZeroPad(t / 3600000, 2), ':');
      ExcludesConcat(ZeroPad(t / 1000 % 60, 2), ".", ':');
      ExcludesConcat(ZeroPad(t / 1000 % 60, 2) + ".", ZeroPad(t % 1000, 3), ':');
      ExcludesConcat(ZeroPad(t / 1000 % 60, 2) + "." + ZeroPad(t % 1000, 3), "Z", ':');
    }
    forall i | 0 <= i < 24 && i != 13 && i != 16 ensures iso[i] != ':' {
      if i < 13 { assert iso[i] == head[i]; }
      else if i < 16 { assert iso[i] == mi[i - 14]; }
      else { assert iso[i] == tail[i - 17]; }
    }
  }

  lemma {:induction false} DateTextLength(date: CivilDate)
    requires 1 <= date.month <= 12 && 1 <= date.day <= 31 && 0 <= date.year <= 9999
    ensures |DateText(date)| == 10
  {
  }

  lemma {:induction false} DateTextNoColon(date: CivilDate)
    requires 1 <= date.month <= 12 && 1 <= date.day <= 31 && 0 <= date.year <= 9999
    ensures Excludes(DateText(date), ':')
  {
    var y := YearText(date.year);
    var m := ZeroPad(date.month, 2);
    var d := ZeroPad(date.day, 2);
    DigitsNoColon(y);
    DigitsNoColon(m);
    DigitsNoColon(d);
    ExcludesConcat(y, "-", ':');
    ExcludesConcat(y + "-", m, ':');
    ExcludesConcat(y + "-" + m, "-", ':');
    ExcludesConcat(y + "-" + m + "-", d, ':');
  }

  lemma {:induction false} DigitsNoColon(s: string)
    requires AllDigits(s)
    ensures Excludes(s, ':')
  {
  }

  // ---------------------------------------------------------------------
  // Segment selection

  /** The names the capture stitches: every `segment_*.mp4` of the
      listing, in ascending order. */
  function RelevantSegments(listing: seq<string>): (r: seq<string>)
    ensures SortedNames(r)
    ensures forall f :: f in r ==> IsSegmentFile(f)
    ensures multiset(r) == multiset(Segments(listing))
  {
    var r := SortNames(Segments(listing));
    assert forall f :: f in r ==> f in multiset(r);
    r
  }

  /** The `segment_*.mp4` entries of a listing, in listing order. */
  function Segments(listing: seq<string>): (r: seq<string>)
    ensures forall f :: f in r ==> IsSegmentFile(f)
    ensures forall f :: f in listing && IsSegmentFile(f) ==> f in r
    ensures |r| <= |listing|
  {
    if listing == [] then []
    else (if IsSegmentFile(listing[0]) then [listing[0]] else []) + Segments(listing[1..])
  }

  /** Every segment of the listing is stitched, and nothing else; the list
      file itself is never taken for a segment. */
  lemma {:induction false} RelevantSegmentsExact(listing: seq<string>, f: string)
    ensures f in RelevantSegments(listing) <==> f in listing && IsSegmentFile(f)
    ensures ListFileName !in RelevantSegments(listing)
  {
    var r := RelevantSegments(listing);
    assert f in r <==> f in multiset(r);
    SegmentsSubset(listing);
    assert ListFileName[0] != SegmentPrefix[0];
  }

  lemma {:induction false} SegmentsSubset(listing: seq<string>)
    ensures forall f :: f in Segments(listing) ==> f in listing
  {
    if listing != [] {
      SegmentsSubset(listing[1..]);
    }
  }

  /** Names of segments whose timestamps have the same number of digits
      sort like the timestamps. */
  lemma {:induction false} SegmentNameOrder(a: nat, b: nat)
    requires |IntToString(a)| == |IntToString(b)|
    ensures LexLess(SegmentName(a), SegmentName(b)) <==> a < b
  {
    var x := IntToString(a);
    var y := IntToString(b);
    assert SegmentName(a) == SegmentPrefix + (x + SegmentSuffix);
    assert SegmentName(b) == SegmentPrefix + (y + SegmentSuffix);
    LexLessCommonPrefix(SegmentPrefix, x + SegmentSuffix, y + SegmentSuffix);
    LexLessEqualLength(x, y, SegmentSuffix);
    DigitsOrder(x, y);
    NatToStringValue(a);
    NatToStringValue(b);
  }

  /** Equal-length heads decide the order before any common tail. */
  lemma {:induction false} LexLessEqualLength(x: string, y: string, q: string)
    requires |x| == |y|
    ensures LexLess(x + q, y + q) <==> LexLess(x, y)
  {
    if x == [] {
      assert x + q == q && y + q == q;
      LexLessIrreflexive(q);
    } else {
      assert (x + q)[1..] == x[1..] + q;
      assert (y + q)[1..] == y[1..] + q;
      LexLessEqualLength(x[1..], y[1..], q);
    }
  }

  /** Digit strings of equal length order like their values. */
  lemma {:induction false} DigitsOrder(x: string, y: string)
    requires AllDigits(x) && AllDigits(y) && |x| == |y|
    ensures LexLess(x, y) <==> DigitsValue(x) < DigitsValue(y)
  {
    if x != [] {
      var p := Pow10(|x| - 1);
      DigitsValueFront(x);
      DigitsValueFront(y);
      DigitsValueBound(x[1..]);
      DigitsValueBound(y[1..]);
      var dx := DigitValue(x[0]);
      var dy := DigitValue(y[0]);
      if x[0] < y[0] {
        LeadingDigitDecides(dx, dy, DigitsValue(x[1..]), DigitsValue(y[1..]), p);
      } else if y[0] < x[0] {
        LeadingDigitDecides(dy, dx, DigitsValue(y[1..]), DigitsValue(x[1..]), p);
      } else {
        DigitsOrder(x[1..], y[1..]);
      }
    }
  }

  lemma {:induction false} LeadingDigitDecides(a: nat, b: nat, ra: nat, rb: nat, p: nat)
    requires a < b && ra < p
    ensures a * p + ra < b * p + rb
  {
    var gap := b - a - 1;
    assert b * p == a * p + p + gap * p by {
      assert b == a + 1 + gap;
    }
    assert gap * p >= 0;
  }

  /** The leading digit weighs `10^(|s|-1)`. */
  lemma {:induction false} DigitsValueFront(s: string)
    requires AllDigits(s) && s != []
    ensures DigitsValue(s) == DigitValue(s[0]) * Pow10(|s| - 1) + DigitsValue(s[1..])
  {
    if |s| > 1 {
      var init := s[..|s| - 1];
      var tail := s[1..];
      var last := DigitValue(s[|s| - 1]);
      var d := DigitValue(s[0]);
      var p := Pow10(|s| - 2);
      var middle := DigitsValue(init[1..]);
      assert DigitsValue(init) == d * p + middle by {
        DigitsValueFront(init);
      }
      assert DigitsValue(tail) == 10 * middle + last by {
        assert init[1..] == tail[..|tail| - 1];
      }
      ShiftDigit(d, p, middle, last);
    }
  }

  lemma {:induction false} ShiftDigit(d: int, p: int, middle: int, last: int)
    ensures 10 * (d * p + middle) + last == d * (10 * p) + (10 * middle + last)
  {
  }

  // ---------------------------------------------------------------------
  // Concat list and seek

  /** The concat demuxer's list: one `file '<bufferPath>/<name>'` line per
      segment, joined by newlines. */
  function ConcatListLine(bufferPath: string, f: string): string
  {
    "file '" + PathJoin(bufferPath, f) + "'"
  }

  function ConcatList(bufferPath: string, segments: seq<string>): (r: string)
  {
    Join(seq(|segments|, i requires 0 <= i < |segments| => ConcatListLine(bufferPath, segments[i])), "\n")
  }

  /** Reading the list back line by line gives exactly one line per
      segment, in order, when no path contains a newline. */
  lemma {:induction false} ConcatListLines(bufferPath: string, segments: seq<string>)
    requires segments != []
    requires Excludes(bufferPath, '\n')
    requires forall i :: 0 <= i < |segments| ==> Excludes(segments[i], '\n')
    ensures var lines := Split(ConcatList(bufferPath, segments), '\n');
      |lines| == |segments|
      && forall i :: 0 <= i < |segments| ==> lines[i] == ConcatListLine(bufferPath, segments[i])
  {
    var lines := seq(|segments|, i requires 0 <= i < |segments| => ConcatListLine(bufferPath, segments[i]));
    forall k | 0 <= k < |lines| ensures Excludes(lines[k], '\n') {
      var l := lines[k];
      var f := segments[k];
      assert l == "file '" + bufferPath + "/" + f + "'";
      forall j | 0 <= j < |l| ensures l[j] != '\n' {
        if j < 6 { assert l[j] == "file '"[j]; }
        else if j < 6 + |bufferPath| { assert l[j] == bufferPath[j - 6]; }
        else if j == 6 + |bufferPath| { assert l[j] == '/'; }
        else if j < 7 + |bufferPath| + |f| { assert l[j] == f[j - 7 - |bufferPath|]; }
      }
    }
    SplitJoin(lines, '\n');
  }

  /** `firstSegmentName.replace('segment_', '').replace('.mp4', '')` read
      with `parseInt(…, 10)`. */
  function SegmentTime(name: string): (r: Option<int>)
  {
    ParseInt(ReplaceFirst(ReplaceFirst(name, SegmentPrefix, ""), SegmentSuffix, ""))
  }

  /** The timestamp read back from a segment's name is the one the buffer
      wrote into it. */
  lemma {:induction false} SegmentTimeOfName(ts: int)
    ensures SegmentTime(SegmentName(ts)) == Some(ts)
  {
    var digits := IntToString(ts);
    assert SegmentName(ts) == SegmentPrefix + (digits + SegmentSuffix);
    ReplaceFirstOfPrefix(SegmentPrefix, digits + SegmentSuffix);
    forall i | 0 <= i < |digits| ensures digits[i] != '.' {
      if ts < 0 && i > 0 {
        assert digits[i] == NatToString(-ts)[i - 1];
      }
    }
    NoSuffixInDigits(digits);
    ReplaceFirstOfSuffix(digits, SegmentSuffix);
    ParseIntOfIntToString(ts);
  }

  /** ".mp4" does not start inside the decimal text of a timestamp, since
      its '.' is neither a digit nor '-'. */
  lemma {:induction false} NoSuffixInDigits(digits: string)
    requires forall i :: 0 <= i < |digits| ==> digits[i] != '.'
    ensures forall j :: 0 <= j < |digits| ==> !StartsWith((digits + SegmentSuffix)[j..], SegmentSuffix)
  {
    forall j | 0 <= j < |digits| ensures !StartsWith((digits + SegmentSuffix)[j..], SegmentSuffix) {
      assert (digits + SegmentSuffix)[j..][0] == digits[j];
    }
  }

  /** Seek into the stitched buffer, in ms: from the oldest segment's start
      to 10 s before the event, never negative. `None` is NaN (an
      unreadable first timestamp), which `Math.max` passes on. */
  function SeekMs(eventMs: int, firstSegmentMs: Option<int>): (r: Option<int>)
    ensures r.None? <==> firstSegmentMs.None?
    ensures r.Some? ==> r.value >= 0
    ensures r.Some? ==> r.value >= eventMs - PreEventSeconds * 1000 - firstSegmentMs.value
    ensures r.Some? && r.value > 0 ==> r.value == eventMs - PreEventSeconds * 1000 - firstSegmentMs.value
  {
    match firstSegmentMs
    case None => None
    case Some(first) =>
      var seek := eventMs - PreEventSeconds * 1000 - first;
      Some(if seek < 0 then 0 else seek)
  }

  /** The pre-roll warning: the event is closer than 10 s to the start of
      the oldest buffered segment. */
  predicate ShortPreRoll(eventMs: int, firstSegmentMs: Option<int>)
  {
    firstSegmentMs.Some? && eventMs - PreEventSeconds * 1000 - firstSegmentMs.value < 0
  }

  lemma {:induction false} ShortPreRollSeeksFromStart(eventMs: int, first: int)
    ensures ShortPreRoll(eventMs, Some(first)) <==>
      (SeekMs(eventMs, Some(first)) == Some(0) && eventMs - PreEventSeconds * 1000 != first)
  {
  }

  // ---------------------------------------------------------------------
  // The capture procedure

  datatype CaptureError = InvalidTime | NotEnoughSegments | StitchFailed(code: Option<int>)

  datatype CaptureResult = Captured(filename: string) | Failed(error: CaptureError)

  datatype FileContent = TextFile(text: string) | VideoFile | ImageFile

  /** One ffmpeg concat run: list file, seek in ms, duration in s, output. */
  datatype StitchCommand = StitchCommand(listFile: string, seekMs: Option<int>,
                                         durationSeconds: Option<int>, output: string)

  /** The files the capture writes and the stitch runs it starts. */
  class CaptureHost {
    const bufferPath: string
    const finalCapturePath: string
    /** `VIDEO_CAPTURE_DURATION`, default 15 s. */
    const captureDuration: Option<int>
    var files: map<string, FileContent>
    var stitches: seq<StitchCommand>

    constructor (bufferPath: string, finalCapturePath: string, durationEnv: Option<string>)
      ensures this.bufferPath == bufferPath && this.finalCapturePath == finalCapturePath
      ensures captureDuration == EnvNumber(durationEnv, "15")
      ensures files == map[] && stitches == []
    {
      this.bufferPath := bufferPath;
      this.finalCapturePath := finalCapturePath;
      captureDuration := EnvNumber(durationEnv, "15");
      files := map[];
      stitches := [];
    }

    /** `captureVideo(plate, eventTime)`. `listing` is what `readdir` of
        the buffer returns after the post-event delay; `stitchExit` and
        `thumbnailExit` are the exit codes of the two ffmpeg runs, and
        `unlinkFails` says whether deleting the list file fails (the error
        is logged and swallowed). */
    method CaptureVideo(plate: string, eventMs: int, listing: seq<string>, stitchExit: Option<int>,
                        thumbnailExit: Option<int>, unlinkFails: bool) returns (r: CaptureResult)
      modifies this
      ensures IsoString(eventMs).None? ==>
        r == Failed(InvalidTime) && files == old(files) && stitches == old(stitches)
      ensures IsoString(eventMs).Some? && |RelevantSegments(listing)| < 2 ==>
        r == Failed(NotEnoughSegments) && files == old(files) && stitches == old(stitches)
      ensures IsoString(eventMs).Some? && |RelevantSegments(listing)| >= 2 ==>
        var segments := RelevantSegments(listing);
        var listPath := PathJoin(bufferPath, ListFileName);
        var output := PathJoin(finalCapturePath, FinalFilename(plate, eventMs).value);
        var withList := old(files)[listPath := TextFile(ConcatList(bufferPath, segments))];
        var afterClose := if unlinkFails then withList else withList - {listPath};
        stitches == old(stitches) + [StitchCommand(listPath, SeekMs(eventMs, SegmentTime(segments[0])),
                                                   captureDuration, output)]
        && (stitchExit == Some(0) ==>
              r == Captured(FinalFilename(plate, eventMs).value)
              && files == if thumbnailExit == Some(0)
                          then afterClose[output := VideoFile][output + ".jpg" := ImageFile]
                          else afterClose[output := VideoFile])
        && (stitchExit != Some(0) ==> r == Failed(StitchFailed(stitchExit)) && files == afterClose)
    {
      var finalFilename := FinalFilename(plate, eventMs);
      if finalFilename.None? {
        return Failed(InvalidTime);
      }
      var output := PathJoin(finalCapturePath, finalFilename.value);
      var segments := RelevantSegments(listing);
      if |segments| < 2 {
        return Failed(NotEnoughSegments);
      }
      var listPath := PathJoin(bufferPath, ListFileName);
      files := files[listPath := TextFile(ConcatList(bufferPath, segments))];
      var seek := SeekMs(eventMs, SegmentTime(segments[0]));
      stitches := stitches + [StitchCommand(listPath, seek, captureDuration, output)];
      if !unlinkFails {
        files := files - {listPath};
      }
      if stitchExit == Some(0) {
        files := files[output := VideoFile];
        GenerateThumbnail(output, thumbnailExit);
        r := Captured(finalFilename.value);
      } else {
        r := Failed(StitchFailed(stitchExit));
      }
    }

    /** `generateThumbnail`: the frame at 1 s is written next to the video
        as `<video>.jpg`; it resolves whatever the exit code. */
    method GenerateThumbnail(videoPath: string, exit: Option<int>)
      modifies this
      ensures stitches == old(stitches)
      ensures files == if exit == Some(0) then old(files)[videoPath + ".jpg" := ImageFile] else old(files)
    {
      if exit == Some(0) {
        files := files[videoPath + ".jpg" := ImageFile];
      }
    }
  }
}
