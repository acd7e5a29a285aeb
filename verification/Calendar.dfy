/** The civil calendar that decides to which UTC day a ledger charge belongs. */
module Calendar {
  import opened Prelude

  const DAY_MILLIS: int := 24 * 60 * 60 * 1_000

  datatype Date = Date(year: int, month: int, day: int)

  // ---- The Gregorian calendar of RFC 3339, section 5.7 and Appendix C ----

  predicate LeapYear(year: int) {
    year % 4 == 0 && (year % 100 != 0 || year % 400 == 0)
  }

  function MonthLength(year: int, month: int): int {
    if month == 2 then (if LeapYear(year) then 29 else 28)
    else if month == 4 || month == 6 || month == 9 || month == 11 then 30
    else 31
  }

  predicate ValidDate(d: Date) {
    1 <= d.month <= 12 && 1 <= d.day <= MonthLength(d.year, d.month)
  }

  function Successor(d: Date): Date {
    if d.day < MonthLength(d.year, d.month) then d.(day := d.day + 1)
    else if d.month < 12 then Date(d.year, d.month + 1, 1)
    else Date(d.year + 1, 1, 1)
  }

  /** Days of the proleptic calendar before the first of January of `year`, counted from year 1. */
  function DaysBeforeYear(year: int): int {
    365 * (year - 1) + (year - 1) / 4 - (year - 1) / 100 + (year - 1) / 400
  }

  function DaysBeforeMonth(year: int, month: int): int
    requires 1 <= month <= 12
    decreases month
  {
    if month == 1 then 0 else DaysBeforeMonth(year, month - 1) + MonthLength(year, month - 1)
  }

  /** The number of days from 1970-01-01 to a date. */
  function DayNumber(d: Date): int
    requires 1 <= d.month <= 12
  {
    DaysBeforeYear(d.year) + DaysBeforeMonth(d.year, d.month) + d.day - 1 - DaysBeforeYear(1970)
  }

  // ---- The conversion of the ledger ----

  /** Years of an era begin in March; `DaysBeforeEraYear` counts the days of the era before one. */
  function DaysBeforeEraYear(yearOfEra: int): int {
    365 * yearOfEra + yearOfEra / 4 - yearOfEra / 100
  }

  function YearOfEra(dayOfEra: int): int {
    (dayOfEra - dayOfEra / 1_460 + dayOfEra / 36_524 - dayOfEra / 146_096) / 365
  }

  /** Month and day of the `dayOfYear`-th day of the year that began in March of `year`. */
  function CivilFromMarchYear(year: int, dayOfYear: int): Date {
    var monthPrime := (5 * dayOfYear + 2) / 153;
    var day := dayOfYear - (153 * monthPrime + 2) / 5 + 1;
    var month := monthPrime + if monthPrime < 10 then 3 else -9;
    Date(year + if month <= 2 then 1 else 0, month, day)
  }

  function CivilFromEra(era: int, dayOfEra: int): Date {
    var yearOfEra := YearOfEra(dayOfEra);
    CivilFromMarchYear(yearOfEra + era * 400, dayOfEra - DaysBeforeEraYear(yearOfEra))
  }

  function CivilFromDays(days: int): Date {
    var z := days + 719_468;
    var era := (if z >= 0 then z else z - 146_096) / 146_097;
    CivilFromEra(era, z - era * 146_097)
  }

  function Digit(n: int): char
    requires 0 <= n < 10
  {
    "0123456789"[n]
  }

  function Digits2(n: int): string
    requires 0 <= n < 100
  {
    [Digit(n / 10), Digit(n % 10)]
  }

  function Digits4(n: int): string
    requires 0 <= n < 10_000
  {
    Digits2(n / 100) + Digits2(n % 100)
  }

  function IdOfDate(d: Date): string
    requires ValidDate(d) && 1970 <= d.year <= 9999
  {
    Digits4(d.year) + "-" + Digits2(d.month) + "-" + Digits2(d.day)
  }

  datatype DayError = NotPositive | OutsideCalendar

  function UtcDayId(timestampMs: int): Result<string, DayError> {
    if timestampMs <= 0 then Err(NotPositive)
    else
      DaysAreValid(timestampMs / DAY_MILLIS);
      var d := CivilFromDays(timestampMs / DAY_MILLIS);
      if !(1970 <= d.year <= 9999) then Err(OutsideCalendar)
      else Ok(IdOfDate(d))
  }

  // ---- Correctness ----

  /**
   * A day of an era lies in a century, in a four-year cycle of it and in a year of that cycle; the
   * closed formula names that year, whatever the parts are.
   */
  lemma YearOfEraFromParts(century: int, cycle: int, rest: int)
    requires 0 <= century < 4 && 0 <= cycle < 25 && 0 <= rest <= 1_460
    requires cycle == 24 ==> rest < 1_460
    ensures YearOfEra(36_524 * century + 1_461 * cycle + rest)
         == 100 * century + 4 * cycle + if rest == 1_460 then 3 else rest / 365
  {
    var d := 36_524 * century + 1_461 * cycle + rest;
    var excess := (24 * century + cycle + rest) / 1_460;
    assert d / 1_460 == 25 * century + cycle + excess;
    assert d / 36_524 == century;
    assert d / 146_096 == 0;
    assert d - d / 1_460 + d / 36_524 == 365 * (100 * century + 4 * cycle) + (rest - excess);
    assert YearOfEra(d) == 100 * century + 4 * cycle + (rest - excess) / 365;
  }

  /** The year named by the parts begins no later than the day and ends after it. */
  lemma PartsBracketDay(century: int, cycle: int, rest: int)
    requires 0 <= century < 4 && 0 <= cycle < 25 && 0 <= rest <= 1_460
    requires cycle == 24 ==> rest < 1_460
    ensures var d := 36_524 * century + 1_461 * cycle + rest;
            var y := 100 * century + 4 * cycle + if rest == 1_460 then 3 else rest / 365;
            && 0 <= y < 400
            && DaysBeforeEraYear(y) <= d
            && d < (if y == 399 then 146_097 else DaysBeforeEraYear(y + 1))
  {
    var r := if rest == 1_460 then 3 else rest / 365;
    var y := 100 * century + 4 * cycle + r;
    assert y / 4 == 25 * century + cycle && y / 100 == century;
    if r == 3 {
      assert (y + 1) / 4 == 25 * century + cycle + 1;
      assert (y + 1) / 100 == if cycle == 24 then century + 1 else century;
    } else {
      assert (y + 1) / 4 == y / 4 && (y + 1) / 100 == century;
    }
  }

  lemma PartsOfDay(dayOfEra: int) returns (century: int, cycle: int, rest: int)
    requires 0 <= dayOfEra < 146_096
    ensures 0 <= century < 4 && 0 <= cycle < 25 && 0 <= rest <= 1_460
    ensures cycle == 24 ==> rest < 1_460
    ensures dayOfEra == 36_524 * century + 1_461 * cycle + rest
  {
    century := dayOfEra / 36_524;
    cycle := dayOfEra % 36_524 / 1_461;
    rest := dayOfEra % 36_524 % 1_461;
  }

  /** The year of an era that the closed formula picks is the one whose days contain the day. */
  lemma YearOfEraBrackets(dayOfEra: int)
    requires 0 <= dayOfEra < 146_097
    ensures 0 <= YearOfEra(dayOfEra) < 400
    ensures DaysBeforeEraYear(YearOfEra(dayOfEra)) <= dayOfEra
    ensures dayOfEra < if YearOfEra(dayOfEra) == 399 then 146_097
                       else DaysBeforeEraYear(YearOfEra(dayOfEra) + 1)
  {
    if dayOfEra < 146_096 {
      var century, cycle, rest := PartsOfDay(dayOfEra);
      YearOfEraFromParts(century, cycle, rest);
      PartsBracketDay(century, cycle, rest);
    }
  }

  lemma MarchYearIsValid(year: int, dayOfYear: int)
    requires 0 <= dayOfYear <= 365 && (dayOfYear == 365 ==> LeapYear(year + 1))
    ensures ValidDate(CivilFromMarchYear(year, dayOfYear))
    ensures DayNumber(CivilFromMarchYear(year, dayOfYear))
         == DaysBeforeYear(year + 1) - 306 + dayOfYear - DaysBeforeYear(1970)
  {
    YearLength(year);
    assert 0 <= (5 * dayOfYear + 2) / 153 < 12;
    MonthTable(year);
    MonthTable(year + 1);
  }

  lemma YearLength(year: int)
    ensures DaysBeforeYear(year + 1) == DaysBeforeYear(year) + if LeapYear(year) then 366 else 365
  {
    assert year / 4 == (year - 1) / 4 + if year % 4 == 0 then 1 else 0;
    assert year / 100 == (year - 1) / 100 + if year % 100 == 0 then 1 else 0;
    assert year / 400 == (year - 1) / 400 + if year % 400 == 0 then 1 else 0;
    Divisibility(year);
  }

  lemma Divisibility(year: int)
    ensures year % 400 == 0 ==> year % 100 == 0
    ensures year % 100 == 0 ==> year % 4 == 0
  {
    if year % 400 == 0 {
      Multiple(year, year / 400 * 4);
    }
    if year % 100 == 0 {
      assert year == 4 * (25 * (year / 100));
    }
  }

  lemma Multiple(year: int, centuries: int)
    requires year == 100 * centuries
    ensures year % 100 == 0
  {
  }

  lemma MonthTable(year: int)
    ensures var leap := if LeapYear(year) then 1 else 0;
            && DaysBeforeMonth(year, 1) == 0 && DaysBeforeMonth(year, 2) == 31
            && DaysBeforeMonth(year, 3) == 59 + leap && DaysBeforeMonth(year, 4) == 90 + leap
            && DaysBeforeMonth(year, 5) == 120 + leap && DaysBeforeMonth(year, 6) == 151 + leap
            && DaysBeforeMonth(year, 7) == 181 + leap && DaysBeforeMonth(year, 8) == 212 + leap
            && DaysBeforeMonth(year, 9) == 243 + leap && DaysBeforeMonth(year, 10) == 273 + leap
            && DaysBeforeMonth(year, 11) == 304 + leap && DaysBeforeMonth(year, 12) == 334 + leap
  {
  }

  lemma EraYear(yearOfEra: int, era: int)
    requires 0 <= yearOfEra < 400
    ensures var year := yearOfEra + era * 400;
            DaysBeforeYear(year + 1) == DaysBeforeEraYear(yearOfEra) + era * 146_097
  {
    var year := yearOfEra + era * 400;
    assert year / 4 == yearOfEra / 4 + era * 100;
    assert year / 100 == yearOfEra / 100 + era * 4;
    assert year / 400 == era;
  }

  lemma DayOfEraYear(era: int, dayOfEra: int)
    requires 0 <= dayOfEra < 146_097
    ensures var yearOfEra := YearOfEra(dayOfEra);
            var dayOfYear := dayOfEra - DaysBeforeEraYear(yearOfEra);
            && 0 <= yearOfEra < 400 && 0 <= dayOfYear <= 365
            && (dayOfYear == 365 ==> LeapYear(yearOfEra + era * 400 + 1))
  {
    YearOfEraBrackets(dayOfEra);
    var yearOfEra := YearOfEra(dayOfEra);
    EraYear(yearOfEra, era);
    if yearOfEra < 399 {
      EraYear(yearOfEra + 1, era);
    } else {
      EraYear(0, era + 1);
    }
    YearLength(yearOfEra + era * 400 + 1);
  }

  lemma EraYearIsValid(era: int, yearOfEra: int, dayOfYear: int)
    requires 0 <= yearOfEra < 400 && 0 <= dayOfYear <= 365
    requires dayOfYear == 365 ==> LeapYear(yearOfEra + era * 400 + 1)
    ensures var d := CivilFromMarchYear(yearOfEra + era * 400, dayOfYear);
            && ValidDate(d)
            && DayNumber(d) == era * 146_097 + DaysBeforeEraYear(yearOfEra) + dayOfYear - 719_468
  {
    EraYear(yearOfEra, era);
    MarchYearIsValid(yearOfEra + era * 400, dayOfYear);
  }

  lemma EraIsValid(era: int, dayOfEra: int)
    requires 0 <= dayOfEra < 146_097
    ensures ValidDate(CivilFromEra(era, dayOfEra))
    ensures DayNumber(CivilFromEra(era, dayOfEra)) == era * 146_097 + dayOfEra - 719_468
  {
    DayOfEraYear(era, dayOfEra);
    var yearOfEra := YearOfEra(dayOfEra);
    EraYearIsValid(era, yearOfEra, dayOfEra - DaysBeforeEraYear(yearOfEra));
  }

  /** Every day from the epoch on gets a date of the calendar, and counting that date's days gives the day back. */
  lemma DaysAreValid(days: int)
    requires 0 <= days
    ensures ValidDate(CivilFromDays(days))
    ensures DayNumber(CivilFromDays(days)) == days
  {
    var z := days + 719_468;
    EraIsValid(z / 146_097, z % 146_097);
  }

  lemma {:induction false} LaterYear(before: int, after: int)
    requires before < after
    ensures DaysBeforeYear(before) + (if LeapYear(before) then 366 else 365) <= DaysBeforeYear(after)
    decreases after - before
  {
    YearLength(before);
    if before + 1 < after {
      LaterYear(before + 1, after);
    }
  }

  lemma DayOfYearInYear(d: Date)
    requires ValidDate(d)
    ensures 0 < DaysBeforeMonth(d.year, d.month) + d.day <= if LeapYear(d.year) then 366 else 365
  {
    MonthTable(d.year);
  }

  lemma DayOfYearIsInjective(a: Date, b: Date)
    requires ValidDate(a) && ValidDate(b) && a.year == b.year
    requires DaysBeforeMonth(a.year, a.month) + a.day == DaysBeforeMonth(b.year, b.month) + b.day
    ensures a == b
  {
    MonthTable(a.year);
    hide DaysBeforeYear;
  }

  /** No two dates of the calendar have the same day count. */
  lemma DayNumberIsInjective(a: Date, b: Date)
    requires ValidDate(a) && ValidDate(b) && DayNumber(a) == DayNumber(b)
    ensures a == b
  {
    hide ValidDate;
    hide DaysBeforeMonth;
    hide DaysBeforeYear;
    hide LeapYear;
    DayOfYearInYear(a);
    DayOfYearInYear(b);
    if a.year < b.year {
      LaterYear(a.year, b.year);
    } else if b.year < a.year {
      LaterYear(b.year, a.year);
    } else {
      DayOfYearIsInjective(a, b);
    }
  }

  lemma SuccessorCountsOne(d: Date)
    requires ValidDate(d)
    ensures ValidDate(Successor(d)) && DayNumber(Successor(d)) == DayNumber(d) + 1
  {
    MonthTable(d.year);
    YearLength(d.year);
  }

  /** Consecutive days get consecutive dates. */
  lemma ConsecutiveDays(days: int)
    requires 0 <= days
    ensures CivilFromDays(days + 1) == Successor(CivilFromDays(days))
  {
    DaysAreValid(days);
    DaysAreValid(days + 1);
    SuccessorCountsOne(CivilFromDays(days));
    DayNumberIsInjective(CivilFromDays(days + 1), Successor(CivilFromDays(days)));
  }

  /** Every date from the epoch on is the date of exactly the day it counts. */
  lemma DateRoundTrip(d: Date)
    requires ValidDate(d) && 1970 <= d.year
    ensures 0 <= DayNumber(d) && CivilFromDays(DayNumber(d)) == d
  {
    if 1970 < d.year {
      LaterYear(1970, d.year);
    }
    DayOfYearInYear(d);
    DaysAreValid(DayNumber(d));
    DayNumberIsInjective(CivilFromDays(DayNumber(d)), d);
  }

  // ---- Day identifiers ----

  /** The day count of 9999-12-31, the last date an identifier can name. */
  const LAST_DAY: int := 2_932_896

  function DigitValue(c: char): int {
    c as int - '0' as int
  }

  /** The date that a ten-character identifier spells. */
  function DateOfId(id: string): Date
    requires |id| == 10
  {
    Date(1000 * DigitValue(id[0]) + 100 * DigitValue(id[1]) + 10 * DigitValue(id[2]) + DigitValue(id[3]),
         10 * DigitValue(id[5]) + DigitValue(id[6]),
         10 * DigitValue(id[8]) + DigitValue(id[9]))
  }

  lemma DigitSpells(n: int)
    requires 0 <= n < 10
    ensures DigitValue(Digit(n)) == n && '0' <= Digit(n) <= '9'
  {
  }

  lemma Digits4Spell(n: int)
    requires 0 <= n < 10_000
    ensures var s := Digits4(n);
            |s| == 4 && n == 1000 * DigitValue(s[0]) + 100 * DigitValue(s[1]) + 10 * DigitValue(s[2]) + DigitValue(s[3])
  {
    DigitSpells(n / 100 / 10);
    DigitSpells(n / 100 % 10);
    DigitSpells(n % 100 / 10);
    DigitSpells(n % 100 % 10);
  }

  lemma Digits2Spell(n: int)
    requires 0 <= n < 100
    ensures |Digits2(n)| == 2 && n == 10 * DigitValue(Digits2(n)[0]) + DigitValue(Digits2(n)[1])
  {
    DigitSpells(n / 10);
    DigitSpells(n % 10);
  }

  lemma IdSpellsDate(d: Date)
    requires ValidDate(d) && 1970 <= d.year <= 9999
    ensures |IdOfDate(d)| == 10 && DateOfId(IdOfDate(d)) == d
  {
    Digits4Spell(d.year);
    Digits2Spell(d.month);
    Digits2Spell(d.day);
  }

  lemma YearBounds(d: Date, year: int)
    requires ValidDate(d)
    ensures d.year < year <==> DayNumber(d) < DaysBeforeYear(year) - DaysBeforeYear(1970)
  {
    DayOfYearInYear(d);
    if d.year < year {
      LaterYear(d.year, year);
    } else if year < d.year {
      LaterYear(year, d.year);
    }
  }

  lemma YearRange(days: int)
    requires 0 <= days
    ensures 1970 <= CivilFromDays(days).year <= 9999 <==> days <= LAST_DAY
  {
    hide CivilFromDays;
    DaysAreValid(days);
    YearBounds(CivilFromDays(days), 1970);
    YearBounds(CivilFromDays(days), 10_000);
  }

  /**
   * An identifier exists exactly for the positive timestamps through the year 9999, it spells a date of
   * the calendar, and the day count of that date is the day the timestamp lies in.
   */
  lemma DayIdNamesTheDay(timestampMs: int)
    ensures UtcDayId(timestampMs).Ok? <==> 0 < timestampMs < (LAST_DAY + 1) * DAY_MILLIS
    ensures UtcDayId(timestampMs).Ok? ==>
              var id := UtcDayId(timestampMs).value;
              && |id| == 10
              && ValidDate(DateOfId(id))
              && DayNumber(DateOfId(id)) == timestampMs / DAY_MILLIS
  {
    hide CivilFromDays;
    if 0 < timestampMs {
      var days := timestampMs / DAY_MILLIS;
      var d := CivilFromDays(days);
      DaysAreValid(days);
      YearRange(days);
      if 1970 <= d.year <= 9999 {
        IdSpellsDate(d);
      }
    }
  }

  /** Two timestamps share an identifier exactly when they lie in the same UTC day. */
  lemma SameDayId(a: int, b: int)
    requires UtcDayId(a).Ok? && UtcDayId(b).Ok?
    ensures UtcDayId(a) == UtcDayId(b) <==> a / DAY_MILLIS == b / DAY_MILLIS
  {
    DayIdNamesTheDay(a);
    DayIdNamesTheDay(b);
  }
}
