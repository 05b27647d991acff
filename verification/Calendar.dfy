/** Gregorian civil dates and whole days since 1970-01-01: the era decomposition and its inverse,
    over all integers.  The independent reference is the calendar itself: month lengths, leap
    years, and the day after a date. */
module Calendar {

  const DAYS_PER_ERA: int := 146_097
  const DAYS_TO_EPOCH: int := 719_468

  datatype Date = Date(year: int, month: int, day: int)

  // ---------------------------------------------------------------- the calendar

  /** Division that truncates toward zero, with a positive divisor. */
  function Truncated(a: int, b: int): int
    requires b > 0
  {
    if a >= 0 then a / b else -((-a) / b)
  }

  /** The remainder that goes with truncation: it takes the sign of the dividend. */
  function TruncatedRemainder(a: int, b: int): int
    requires b > 0
  {
    a - b * Truncated(a, b)
  }

  predicate LeapYear(year: int) {
    TruncatedRemainder(year, 4) == 0 && (TruncatedRemainder(year, 100) != 0 || TruncatedRemainder(year, 400) == 0)
  }

  function MonthLength(year: int, month: int): int {
    match month
    case 1 | 3 | 5 | 7 | 8 | 10 | 12 => 31
    case 4 | 6 | 9 | 11 => 30
    case 2 => if LeapYear(year) then 29 else 28
    case _ => 0
  }

  /** A date of the proleptic Gregorian calendar, in any year. */
  predicate IsDate(d: Date) {
    1 <= d.month <= 12 && 1 <= d.day <= MonthLength(d.year, d.month)
  }

  /** The dates the application accepts. */
  predicate ValidDate(year: int, month: int, day: int) {
    1970 <= year <= 2100 && IsDate(Date(year, month, day))
  }

  /** The calendar's next day. */
  function Tomorrow(d: Date): Date {
    if d.day < MonthLength(d.year, d.month) then Date(d.year, d.month, d.day + 1)
    else if d.month < 12 then Date(d.year, d.month + 1, 1)
    else Date(d.year + 1, 1, 1)
  }

  // ---------------------------------------------------------------- the era decomposition

  function EraOfDay(z: int): int {
    Truncated(if z >= 0 then z else z - 146_096, DAYS_PER_ERA)
  }

  function YearOfEra(dayOfEra: int): int {
    Truncated(dayOfEra - Truncated(dayOfEra, 1_460) + Truncated(dayOfEra, 36_524) - Truncated(dayOfEra, 146_096), 365)
  }

  function CivilFromDays(daysSinceEpoch: int): Date {
    var z := daysSinceEpoch + DAYS_TO_EPOCH;
    var era := EraOfDay(z);
    var dayOfEra := z - era * DAYS_PER_ERA;
    var yearOfEra := YearOfEra(dayOfEra);
    var dayOfYear := dayOfEra - (365 * yearOfEra + Truncated(yearOfEra, 4) - Truncated(yearOfEra, 100));
    var monthPrime := Truncated(5 * dayOfYear + 2, 153);
    var day := dayOfYear - Truncated(153 * monthPrime + 2, 5) + 1;
    var month := monthPrime + if monthPrime < 10 then 3 else -9;
    var year := yearOfEra + era * 400;
    Date(year + if month <= 2 then 1 else 0, month, day)
  }

  function DaysFromCivil(d: Date): int {
    var year := d.year - if d.month <= 2 then 1 else 0;
    var era := Truncated(if year >= 0 then year else year - 399, 400);
    var yearOfEra := year - era * 400;
    var monthPrime := d.month + if d.month > 2 then -3 else 9;
    var dayOfYear := Truncated(153 * monthPrime + 2, 5) + d.day - 1;
    var dayOfEra := yearOfEra * 365 + Truncated(yearOfEra, 4) - Truncated(yearOfEra, 100) + dayOfYear;
    era * DAYS_PER_ERA + dayOfEra - DAYS_TO_EPOCH
  }

  // ---------------------------------------------------------------- floors

  /** The correction term turns truncation into the floor, negative numbers included. */
  lemma CorrectedIsFloor(a: int, b: int)
    requires b > 0
    ensures Truncated(if a >= 0 then a else a - (b - 1), b) == a / b
  {
    if a < 0 {
      var q, r := a / b, a % b;
      assert -(a - (b - 1)) == b * (-q) + (b - 1 - r);
      QuotientIs(-(a - (b - 1)), b, -q, b - 1 - r);
    }
  }

  lemma QuotientIs(a: int, b: int, q: int, r: int)
    requires b > 0 && a == b * q + r && 0 <= r < b
    ensures a / b == q && a % b == r
  {
    var d := a / b - q;
    assert b * d == r - a % b;
    MultipleSign(b, d);
  }

  lemma MultipleSign(b: int, d: int)
    requires b > 0
    ensures d > 0 ==> b * d >= b
    ensures d < 0 ==> b * d <= -b
  {
  }

  // ---------------------------------------------------------------- years of an era

  /** Days before year `y` of an era that starts on March 1st of year 0. */
  function DaysBefore(y: int): int {
    365 * y + y / 4 - y / 100
  }

  /** Length of year `y` of an era: it ends with February of calendar year `y + 1`. */
  function YearLength(y: int): int {
    if (y + 1) % 4 == 0 && ((y + 1) % 100 != 0 || (y + 1) % 400 == 0) then 366 else 365
  }

  /** The three corrections in the year formula cancel the leap days of a day given by its
      century, four-year cycle, year of the cycle and day of the year. */
  lemma YearFromParts(dayOfEra: int, century: int, cycle: int, year: int, day: int)
    requires 0 <= century < 4 && 0 <= cycle < 25 && 0 <= year < 4
    requires 0 <= day < if year == 3 && (cycle < 24 || century == 3) then 366 else 365
    requires dayOfEra == 36_524 * century + 1_461 * cycle + 365 * year + day
    ensures YearOfEra(dayOfEra) == 100 * century + 4 * cycle + year
  {
    var rest := 24 * century + cycle + 365 * year + day;
    var extra := if rest < 1_460 then 0 else 1;
    QuotientIs(dayOfEra, 1_460, 25 * century + cycle + extra, rest - 1_460 * extra);
    var within := 1_461 * cycle + 365 * year + day;
    var last := if within < 36_524 then 0 else 1;
    QuotientIs(dayOfEra, 36_524, century + last, within - 36_524 * last);
    QuotientIs(dayOfEra, 146_096, last, dayOfEra - 146_096 * last);
    QuotientIs(36_500 * century + 1_460 * cycle + 365 * year + day - extra, 365, 100 * century + 4 * cycle + year,
               day - extra);
  }

  /** What the leap rule leaves of a year number given the same way. */
  lemma DaysFromParts(century: int, cycle: int, year: int)
    requires 0 <= century < 4 && 0 <= cycle < 25 && 0 <= year < 4
    ensures var y := 100 * century + 4 * cycle + year;
            && DaysBefore(y) == 36_524 * century + 1_461 * cycle + 365 * year
            && YearLength(y) == if year == 3 && (cycle < 24 || century == 3) then 366 else 365
  {
    var y := 100 * century + 4 * cycle + year;
    QuotientIs(y, 4, 25 * century + cycle, year);
    QuotientIs(y, 100, century, 4 * cycle + year);
    if year == 3 {
      QuotientIs(y + 1, 4, 25 * century + cycle + 1, 0);
      if cycle == 24 {
        QuotientIs(y + 1, 100, century + 1, 0);
        QuotientIs(y + 1, 400, if century == 3 then 1 else 0, if century == 3 then 0 else 100 * century + 100);
      } else {
        QuotientIs(y + 1, 100, century, 4 * cycle + 4);
      }
    } else {
      QuotientIs(y + 1, 4, 25 * century + cycle, year + 1);
    }
  }

  lemma Parts(dayOfEra: int) returns (century: int, cycle: int, year: int, day: int)
    requires 0 <= dayOfEra < DAYS_PER_ERA
    ensures 0 <= century < 4 && 0 <= cycle < 25 && 0 <= year < 4
    ensures 0 <= day < if year == 3 && (cycle < 24 || century == 3) then 366 else 365
    ensures dayOfEra == 36_524 * century + 1_461 * cycle + 365 * year + day
  {
    century := if dayOfEra / 36_524 < 4 then dayOfEra / 36_524 else 3;
    var dayOfCentury := dayOfEra - 36_524 * century;
    cycle := dayOfCentury / 1_461;
    var dayOfCycle := dayOfCentury - 1_461 * cycle;
    year := if dayOfCycle / 365 < 4 then dayOfCycle / 365 else 3;
    day := dayOfCycle - 365 * year;
  }

  lemma PartsOfYear(y: int) returns (century: int, cycle: int, year: int)
    requires 0 <= y < 400
    ensures 0 <= century < 4 && 0 <= cycle < 25 && 0 <= year < 4
    ensures y == 100 * century + 4 * cycle + year
  {
    century, cycle, year := y / 100, y % 100 / 4, y % 4;
  }

  lemma YearOfEraBrackets(dayOfEra: int)
    requires 0 <= dayOfEra < DAYS_PER_ERA
    ensures 0 <= YearOfEra(dayOfEra) < 400
    ensures DaysBefore(YearOfEra(dayOfEra)) <= dayOfEra < DaysBefore(YearOfEra(dayOfEra))
              + YearLength(YearOfEra(dayOfEra))
  {
    hide YearOfEra, DaysBefore, YearLength;
    var century, cycle, year, day := Parts(dayOfEra);
    YearFromParts(dayOfEra, century, cycle, year, day);
    DaysFromParts(century, cycle, year);
  }

  /** A year of the era and a day within it determine the day of the era, and back. */
  lemma YearOfEraInverse(y: int, dayOfYear: int)
    requires 0 <= y < 400 && 0 <= dayOfYear < YearLength(y)
    ensures 0 <= DaysBefore(y) + dayOfYear < DAYS_PER_ERA
    ensures YearOfEra(DaysBefore(y) + dayOfYear) == y
  {
    hide YearOfEra, DaysBefore, YearLength;
    var century, cycle, year := PartsOfYear(y);
    DaysFromParts(century, cycle, year);
    YearFromParts(DaysBefore(y) + dayOfYear, century, cycle, year, dayOfYear);
  }

  // ---------------------------------------------------------------- months of a year

  /** Days before month `mp` of a year that starts on March 1st. */
  function DaysBeforeMonth(mp: int): int {
    (153 * mp + 2) / 5
  }

  /** Length of that month in a year of `yearLength` days. */
  function LengthOfMonth(mp: int, yearLength: int): int {
    if mp == 11 then yearLength - 337 else DaysBeforeMonth(mp + 1) - DaysBeforeMonth(mp)
  }

  lemma MonthPrimeBrackets(dayOfYear: int)
    requires 0 <= dayOfYear < 366
    ensures var mp := (5 * dayOfYear + 2) / 153;
            0 <= mp < 12 && DaysBeforeMonth(mp) <= dayOfYear && (mp < 11 ==> dayOfYear < DaysBeforeMonth(mp + 1))
  {
  }

  lemma MonthPrimeInverse(mp: int, day: int, yearLength: int)
    requires 0 <= mp < 12 && 365 <= yearLength <= 366
    requires 1 <= day <= LengthOfMonth(mp, yearLength)
    ensures (5 * (DaysBeforeMonth(mp) + day - 1) + 2) / 153 == mp
    ensures 0 <= DaysBeforeMonth(mp) + day - 1 < yearLength
  {
  }

  function MonthOf(mp: int): int {
    mp + if mp < 10 then 3 else -9
  }

  /** Calendar year of a month of the year `y` of era `era` that starts in March. */
  function CalendarYear(era: int, y: int, mp: int): int {
    y + era * 400 + if MonthOf(mp) <= 2 then 1 else 0
  }

  lemma RemainderOfMultiple(q: int, b: int, n: int)
    requires b > 0
    ensures (n + b * q) % b == n % b
  {
    QuotientIs(n + b * q, b, n / b + q, n % b);
  }

  lemma LeapIsEuclidean(year: int)
    ensures LeapYear(year) <==> year % 4 == 0 && (year % 100 != 0 || year % 400 == 0)
  {
    RemainderZero(year, 4);
    RemainderZero(year, 100);
    RemainderZero(year, 400);
  }

  lemma RemainderZero(a: int, b: int)
    requires b > 0
    ensures TruncatedRemainder(a, b) == 0 <==> a % b == 0
  {
    if a < 0 {
      var q, r := (-a) / b, (-a) % b;
      assert -a == b * q + r && Truncated(a, b) == -q && TruncatedRemainder(a, b) == -r;
      if r == 0 {
        QuotientIs(a, b, -q, 0);
      } else {
        QuotientIs(a, b, -q - 1, b - r);
      }
    }
  }

  /** The leap rule does not see the era. */
  lemma LeapInEra(era: int, y: int)
    requires 0 <= y < 400
    ensures LeapYear(y + era * 400 + 1) <==> YearLength(y) == 366
  {
    LeapIsEuclidean(y + era * 400 + 1);
    RemainderOfMultiple(100 * era, 4, y + 1);
    RemainderOfMultiple(4 * era, 100, y + 1);
    RemainderOfMultiple(era, 400, y + 1);
  }

  /** The month lengths of a year that starts in March are those of the calendar. */
  lemma MonthLengths(era: int, y: int, mp: int)
    requires 0 <= y < 400 && 0 <= mp < 12
    ensures MonthLength(CalendarYear(era, y, mp), MonthOf(mp)) == LengthOfMonth(mp, YearLength(y))
  {
    LeapInEra(era, y);
  }

  // ---------------------------------------------------------------- shifted coordinates

  /** A day named by era, year of era (from March), month of that year and day of month. */
  datatype Coordinates = Coordinates(era: int, y: int, mp: int, day: int)

  predicate Proper(c: Coordinates) {
    0 <= c.y < 400 && 0 <= c.mp < 12 && 1 <= c.day <= LengthOfMonth(c.mp, YearLength(c.y))
  }

  function DateOf(c: Coordinates): Date {
    Date(CalendarYear(c.era, c.y, c.mp), MonthOf(c.mp), c.day)
  }

  function DayNumber(c: Coordinates): int {
    c.era * DAYS_PER_ERA + DaysBefore(c.y) + DaysBeforeMonth(c.mp) + c.day - 1 - DAYS_TO_EPOCH
  }

  lemma FloorOfEra(era: int, n: int, size: int)
    requires size > 0 && 0 <= n < size
    ensures Truncated(if n + era * size >= 0 then n + era * size else n + era * size - (size - 1), size) == era
  {
    CorrectedIsFloor(n + era * size, size);
    QuotientIs(n + era * size, size, era, n);
  }

  lemma CivilOfCoordinates(c: Coordinates)
    requires Proper(c)
    ensures CivilFromDays(DayNumber(c)) == DateOf(c)
  {
    hide YearOfEra, DaysBefore, YearLength, LengthOfMonth;
    var dayOfYear := DaysBeforeMonth(c.mp) + c.day - 1;
    var dayOfEra := DaysBefore(c.y) + dayOfYear;
    YearLengthIs(c.y);
    MonthPrimeInverse(c.mp, c.day, YearLength(c.y));
    YearOfEraInverse(c.y, dayOfYear);
    FloorOfEra(c.era, dayOfEra, DAYS_PER_ERA);
    DaysBeforeIs(c.y);
  }

  lemma YearLengthIs(y: int)
    ensures 365 <= YearLength(y) <= 366
  {
  }

  lemma DaysBeforeIs(y: int)
    requires 0 <= y
    ensures DaysBefore(y) == 365 * y + Truncated(y, 4) - Truncated(y, 100)
  {
  }

  lemma DaysOfCoordinates(c: Coordinates)
    requires Proper(c)
    ensures DaysFromCivil(DateOf(c)) == DayNumber(c)
  {
    hide DaysBefore, YearLength, LengthOfMonth;
    FloorOfEra(c.era, c.y, 400);
    DaysBeforeIs(c.y);
  }

  /** Every day number has coordinates. */
  lemma CoordinatesOfDay(n: int) returns (c: Coordinates)
    ensures Proper(c) && DayNumber(c) == n
  {
    var z := n + DAYS_TO_EPOCH;
    var dayOfEra := z % DAYS_PER_ERA;
    YearOfEraBrackets(dayOfEra);
    var y := YearOfEra(dayOfEra);
    YearLengthIs(y);
    hide YearOfEra, DaysBefore, YearLength;
    var dayOfYear := dayOfEra - DaysBefore(y);
    MonthPrimeBrackets(dayOfYear);
    var mp := (5 * dayOfYear + 2) / 153;
    c := Coordinates(z / DAYS_PER_ERA, y, mp, dayOfYear - DaysBeforeMonth(mp) + 1);
  }

  /** Every date of the calendar has coordinates. */
  lemma CoordinatesOfDate(d: Date) returns (c: Coordinates)
    requires IsDate(d)
    ensures Proper(c) && DateOf(c) == d
  {
    hide LengthOfMonth, YearLength, MonthLength;
    var year := d.year - if d.month <= 2 then 1 else 0;
    var mp := d.month + if d.month > 2 then -3 else 9;
    c := Coordinates(year / 400, year % 400, mp, d.day);
    MonthLengths(c.era, c.y, c.mp);
  }

  // ---------------------------------------------------------------- main results

  /** Every integer names a date, and `DaysFromCivil` finds the integer again. */
  lemma DaysRoundTrip(n: int)
    ensures IsDate(CivilFromDays(n))
    ensures DaysFromCivil(CivilFromDays(n)) == n
  {
    hide *;
    var c := CoordinatesOfDay(n);
    CivilOfCoordinates(c);
    DaysOfCoordinates(c);
    DateOfProper(c);
  }

  lemma DateOfProper(c: Coordinates)
    requires Proper(c)
    ensures IsDate(DateOf(c))
  {
    hide LengthOfMonth, YearLength, MonthLength;
    MonthLengths(c.era, c.y, c.mp);
  }

  /** Every date of the proleptic Gregorian calendar is the date of exactly its own day number. */
  lemma DateRoundTrip(d: Date)
    requires IsDate(d)
    ensures CivilFromDays(DaysFromCivil(d)) == d
  {
    hide *;
    var c := CoordinatesOfDate(d);
    CivilOfCoordinates(c);
    DaysOfCoordinates(c);
  }

  /** Day numbers follow the calendar: the next integer is the next day. */
  lemma NextDay(n: int)
    ensures CivilFromDays(n + 1) == Tomorrow(CivilFromDays(n))
  {
    hide *;
    var c := CoordinatesOfDay(n);
    var next := Following(c);
    CivilOfCoordinates(c);
    CivilOfCoordinates(next);
  }

  lemma EpochDay()
    ensures CivilFromDays(0) == Date(1970, 1, 1)
  {
    hide CivilFromDays;
    CivilOfCoordinates(Coordinates(4, 369, 10, 1));
  }

  /** The coordinates of the next day. */
  lemma Following(c: Coordinates) returns (next: Coordinates)
    requires Proper(c)
    ensures Proper(next) && DayNumber(next) == DayNumber(c) + 1 && DateOf(next) == Tomorrow(DateOf(c))
  {
    hide LengthOfMonth, YearLength, MonthLength, DaysBefore, DaysBeforeMonth;
    MonthLengths(c.era, c.y, c.mp);
    YearLengthIs(c.y);
    if c.day < LengthOfMonth(c.mp, YearLength(c.y)) {
      next := c.(day := c.day + 1);
    } else if c.mp < 11 {
      next := Coordinates(c.era, c.y, c.mp + 1, 1);
      MonthStep(c.mp, YearLength(c.y));
    } else {
      next := if c.y < 399 then Coordinates(c.era, c.y + 1, 0, 1) else Coordinates(c.era + 1, 0, 0, 1);
      YearStep(c.y);
      OuterMonths(YearLength(c.y));
      OuterMonths(YearLength(next.y));
    }
  }

  lemma MonthStep(mp: int, yearLength: int)
    requires 0 <= mp < 11 && 365 <= yearLength
    ensures DaysBeforeMonth(mp) + LengthOfMonth(mp, yearLength) == DaysBeforeMonth(mp + 1)
    ensures LengthOfMonth(mp + 1, yearLength) >= 1
  {
  }

  lemma YearStep(y: int)
    requires 0 <= y < 400
    ensures DaysBefore(y) + YearLength(y) == if y < 399 then DaysBefore(y + 1) else DAYS_PER_ERA
    ensures DaysBefore(0) == 0
  {
    hide DaysBefore, YearLength;
    var century, cycle, year := PartsOfYear(y);
    DaysFromParts(0, 0, 0);
    DaysFromParts(century, cycle, year);
    if year < 3 {
      DaysFromParts(century, cycle, year + 1);
    } else if cycle < 24 {
      DaysFromParts(century, cycle + 1, 0);
    } else if century < 3 {
      DaysFromParts(century + 1, 0, 0);
    }
  }

  lemma OuterMonths(yearLength: int)
    ensures DaysBeforeMonth(0) == 0 && LengthOfMonth(0, yearLength) == 31
    ensures DaysBeforeMonth(11) + LengthOfMonth(11, yearLength) == yearLength
  {
  }

  /** The days from the epoch on are those with years from 1970 on; the days before 2101-01-01, those with
      years up to 2100. */
  lemma YearWindow(n: int)
    ensures n >= 0 <==> CivilFromDays(n).year >= 1970
    ensures n < 47_847 <==> CivilFromDays(n).year <= 2100
  {
    hide *;
    var c := CoordinatesOfDay(n);
    CivilOfCoordinates(c);
    YearWindowOf(c);
  }

  lemma YearWindowOf(c: Coordinates)
    requires Proper(c)
    ensures DayNumber(c) >= 0 <==> DateOf(c).year >= 1970
    ensures DayNumber(c) < 47_847 <==> DateOf(c).year <= 2100
  {
    hide YearLength, LengthOfMonth, DaysBeforeMonth;
    YearLengthIs(c.y);
    DayOfYearBounds(c.mp, c.day, YearLength(c.y));
    Crossing(c.y);
  }

  lemma DayOfYearBounds(mp: int, day: int, yearLength: int)
    requires 0 <= mp < 12 && 365 <= yearLength <= 366 && 1 <= day <= LengthOfMonth(mp, yearLength)
    ensures 0 <= DaysBeforeMonth(mp) + day - 1 < 366
    ensures mp < 10 <==> DaysBeforeMonth(mp) + day - 1 < 306
  {
  }

  lemma Crossing(y: int)
    ensures y <= 368 ==> DaysBefore(y) <= 134_409
    ensures DaysBefore(369) == 134_774
    ensures y >= 370 ==> DaysBefore(y) >= 135_139
    ensures y <= 99 ==> DaysBefore(y) <= 36_159
    ensures DaysBefore(100) == 36_524
    ensures y >= 101 ==> DaysBefore(y) >= 36_889
  {
  }

  /** No cast in the application's use loses anything: the day of any unsigned 64-bit
      millisecond has a year that fits in 32 bits. */
  lemma YearFitsIn32Bits(epochMs: nat)
    requires epochMs < 0x1_0000_0000_0000_0000
    ensures 1970 <= CivilFromDays(epochMs / 86_400_000).year < 0x8000_0000
  {
    hide *;
    var n := epochMs / 86_400_000;
    var c := CoordinatesOfDay(n);
    CivilOfCoordinates(c);
    YearWindow(n);
    YearBound(c);
  }

  lemma YearBound(c: Coordinates)
    requires Proper(c) && 0 <= DayNumber(c) < 213_503_982_335
    ensures DateOf(c).year < 0x8000_0000
  {
    hide YearLength, LengthOfMonth, DaysBeforeMonth;
    YearLengthIs(c.y);
    DayOfYearBounds(c.mp, c.day, YearLength(c.y));
    assert DaysBefore(c.y) >= 0;
  }
}
