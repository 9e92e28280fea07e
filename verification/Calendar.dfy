/**
  Days since 1970-01-01 and Gregorian dates: the closed form the CLI prints from, the closed form
  the protocol reads back with, and a calendar that only knows how to turn to the next day.
  */
module Calendar {
  import opened Saturation

  datatype Date = Date(year: int, month: int, day: int)

  // ----- The Gregorian calendar -----

  predicate IsLeap(year: int) {
    year % 4 == 0 && (year % 100 != 0 || year % 400 == 0)
  }

  function DaysInMonth(year: int, month: int): (n: nat) {
    match month
    case 2 => if IsLeap(year) then 29 else 28
    case 4 => 30
    case 6 => 30
    case 9 => 30
    case 11 => 30
    case _ => 31
  }

  predicate ValidDate(d: Date) {
    1 <= d.month <= 12 && 1 <= d.day <= DaysInMonth(d.year, d.month)
  }

  function NextDay(d: Date): (r: Date) {
    if d.day < DaysInMonth(d.year, d.month) then Date(d.year, d.month, d.day + 1)
    else if d.month < 12 then Date(d.year, d.month + 1, 1)
    else Date(d.year + 1, 1, 1)
  }

  function PreviousDay(d: Date): (r: Date) {
    if d.day > 1 then Date(d.year, d.month, d.day - 1)
    else if d.month > 1 then Date(d.year, d.month - 1, DaysInMonth(d.year, d.month - 1))
    else Date(d.year - 1, 12, 31)
  }

  const EPOCH := Date(1970, 1, 1)

  /** The date a number of days away from the epoch, found by turning one page at a time. */
  function Stepped(days: int): (d: Date)
    decreases if days < 0 then -days else days
  {
    if days == 0 then EPOCH
    else if days > 0 then NextDay(Stepped(days - 1))
    else PreviousDay(Stepped(days + 1))
  }

  /** Chronological order of dates. */
  predicate Before(a: Date, b: Date) {
    a.year < b.year || (a.year == b.year && (a.month < b.month || (a.month == b.month && a.day < b.day)))
  }

  // ----- The closed forms -----

  /** Division of machine integers: the quotient is cut off toward zero. */
  function Truncated(a: int, b: nat): (q: int)
    requires b > 0
  {
    if a >= 0 then a / b else -((-a) / b)
  }

  const EPOCH_SHIFT := 719_468
  const DAYS_PER_ERA := 146_097

  function EraOf(shifted: int): (era: int) {
    Truncated(if shifted >= 0 then shifted else shifted - 146_096, DAYS_PER_ERA)
  }

  function YearOfEra(dayOfEra: int): (y: int) {
    (dayOfEra - dayOfEra / 1_460 + dayOfEra / 36_524 - dayOfEra / 146_096) / 365
  }

  function CivilDateFromUnixDays(days: int): (d: Date) {
    var shifted := days + EPOCH_SHIFT;
    var era := EraOf(shifted);
    var dayOfEra := shifted - era * DAYS_PER_ERA;
    var yearOfEra := YearOfEra(dayOfEra);
    var year := yearOfEra + era * 400;
    var dayOfYear := dayOfEra - (365 * yearOfEra + yearOfEra / 4 - yearOfEra / 100);
    var monthParameter := (5 * dayOfYear + 2) / 153;
    var day := dayOfYear - (153 * monthParameter + 2) / 5 + 1;
    var month := monthParameter + if monthParameter < 10 then 3 else -9;
    Date(year + (if month <= 2 then 1 else 0), month, day)
  }

  function DaysFromCivil(d: Date): (days: int) {
    var year := if d.month <= 2 then d.year - 1 else d.year;
    var era := year / 400;
    var yearOfEra := year - era * 400;
    var monthParameter := d.month + if d.month > 2 then -3 else 9;
    var dayOfYear := (153 * monthParameter + 2) / 5 + d.day - 1;
    var dayOfEra := yearOfEra * 365 + yearOfEra / 4 - yearOfEra / 100 + dayOfYear;
    era * DAYS_PER_ERA + dayOfEra - EPOCH_SHIFT
  }

  // ----- Eras -----

  /** The detour over negative numbers makes the truncating division round down. */
  lemma EraIsFloor(shifted: int)
    ensures EraOf(shifted) == shifted / DAYS_PER_ERA
    ensures 0 <= shifted - EraOf(shifted) * DAYS_PER_ERA < DAYS_PER_ERA
  {
  }

  // ----- Years of an era -----

  /**
    A day of an era by century, olympiad, year and day of a year that starts in March, so that a
    leap day is the last day of its year.
    */
  datatype Split = Split(century: int, olympiad: int, year: int, day: int) {
    function YearOfEra(): (y: int) {
      100 * century + 4 * olympiad + year
    }

    predicate LongYear() {
      year == 3 && (olympiad < 24 || century == 3)
    }

    predicate Valid() {
      && 0 <= century <= 3 && 0 <= olympiad <= 24 && 0 <= year <= 3
      && 0 <= day < (if LongYear() then 366 else 365)
    }

    function DayOfEra(): (n: int) {
      36_524 * century + 1_461 * olympiad + 365 * year + day
    }
  }

  function SplitOf(dayOfEra: int): (s: Split) {
    var century := if dayOfEra / 36_524 > 3 then 3 else dayOfEra / 36_524;
    var inCentury := dayOfEra - 36_524 * century;
    var olympiad := if inCentury / 1_461 > 24 then 24 else inCentury / 1_461;
    var inOlympiad := inCentury - 1_461 * olympiad;
    var year := if inOlympiad / 365 > 3 then 3 else inOlympiad / 365;
    Split(century, olympiad, year, inOlympiad - 365 * year)
  }

  lemma SplitIsExact(dayOfEra: int)
    requires 0 <= dayOfEra < DAYS_PER_ERA
    ensures SplitOf(dayOfEra).Valid() && SplitOf(dayOfEra).DayOfEra() == dayOfEra
  {
  }

  /** The era's closed form finds the year of every split. */
  lemma YearIsFound(s: Split)
    requires s.Valid()
    ensures YearOfEra(s.DayOfEra()) == s.YearOfEra()
    ensures 365 * s.YearOfEra() + s.YearOfEra() / 4 - s.YearOfEra() / 100 + s.day == s.DayOfEra()
    ensures 0 <= s.DayOfEra() < DAYS_PER_ERA
  {
    var d, y := s.DayOfEra(), s.YearOfEra();
    assert d / 36_524 - d / 146_096 == s.century;
    var past := 24 * s.century + s.olympiad + 365 * s.year + s.day;
    assert d == 1_460 * (25 * s.century + s.olympiad) + past;
    var extra := if past >= 1_460 then 1 else 0;
    assert d / 1_460 == 25 * s.century + s.olympiad + extra;
    assert d - d / 1_460 + s.century == 365 * y + (s.day - extra);
    assert y / 4 == 25 * s.century + s.olympiad;
    assert y / 100 == s.century;
  }

  lemma LongYearsEndInLeapDays(s: Split, era: int)
    requires s.Valid()
    ensures IsLeap(400 * era + s.YearOfEra() + 1) <==> s.LongYear()
  {
    var y := s.YearOfEra() + 1;
    WholeEras(era, y);
    LeapYearOfEra(s);
  }

  lemma WholeEras(era: int, y: int)
    ensures (400 * era + y) % 4 == y % 4 && (400 * era + y) % 100 == y % 100 && (400 * era + y) % 400 == y % 400
  {
    Olympiads(100 * era, y);
    Centuries(4 * era, y);
    Eras(era, y);
  }

  lemma Olympiads(n: int, y: int)
    ensures (4 * n + y) % 4 == y % 4
  {
    assert (4 * n + y) / 4 == n + y / 4;
  }

  lemma Centuries(n: int, y: int)
    ensures (100 * n + y) % 100 == y % 100
  {
    assert (100 * n + y) / 100 == n + y / 100;
  }

  lemma Eras(n: int, y: int)
    ensures (400 * n + y) % 400 == y % 400
  {
    assert (400 * n + y) / 400 == n + y / 400;
  }

  lemma LeapYearOfEra(s: Split)
    requires s.Valid()
    ensures IsLeap(s.YearOfEra() + 1) <==> s.LongYear()
  {
    var y := s.YearOfEra() + 1;
    assert y % 4 == 0 <==> s.year == 3;
    assert y % 100 == 0 <==> s.year == 3 && s.olympiad == 24;
    assert y % 400 == 0 <==> s.year == 3 && s.olympiad == 24 && s.century == 3;
  }

  // ----- Months, counted from March -----

  function MonthStart(m: int): (day: int) {
    (153 * m + 2) / 5
  }

  function MonthNumber(m: int): (month: int) {
    m + if m < 10 then 3 else -9
  }

  /** The month and day of a date in the year that starts in March of `year`. */
  function MarchDate(year: int, m: int, day: int): (d: Date) {
    Date(year + (if MonthNumber(m) <= 2 then 1 else 0), MonthNumber(m), day)
  }

  lemma MonthIsFound(year: int, m: int, day: int)
    requires 0 <= m <= 11 && ValidDate(MarchDate(year, m, day))
    ensures var n := MonthStart(m) + day - 1; (5 * n + 2) / 153 == m && 0 <= n < (if IsLeap(year + 1) then 366 else 365)
  {
  }

  lemma DayIsInMonth(year: int, n: int)
    requires 0 <= n < (if IsLeap(year + 1) then 366 else 365)
    ensures var m := (5 * n + 2) / 153; 0 <= m <= 11 && ValidDate(MarchDate(year, m, n - MonthStart(m) + 1))
  {
  }

  // ----- Both closed forms through the split -----

  /** A split day of an era as a date. */
  function SplitDate(era: int, s: Split): (d: Date) {
    var m := (5 * s.day + 2) / 153;
    MarchDate(400 * era + s.YearOfEra(), m, s.day - MonthStart(m) + 1)
  }

  lemma CivilIsSplitDate(days: int)
    ensures var era := EraOf(days + EPOCH_SHIFT);
            var s := SplitOf(days + EPOCH_SHIFT - era * DAYS_PER_ERA);
            && s.Valid() && CivilDateFromUnixDays(days) == SplitDate(era, s)
            && days == era * DAYS_PER_ERA + s.DayOfEra() - EPOCH_SHIFT
  {
    hide EraOf, YearOfEra, SplitOf;
    var shifted := days + EPOCH_SHIFT;
    EraIsFloor(shifted);
    var dayOfEra := shifted - EraOf(shifted) * DAYS_PER_ERA;
    SplitIsExact(dayOfEra);
    YearIsFound(SplitOf(dayOfEra));
  }

  lemma DaysOfSplitDate(era: int, s: Split)
    requires s.Valid()
    ensures ValidDate(SplitDate(era, s))
    ensures DaysFromCivil(SplitDate(era, s)) == era * DAYS_PER_ERA + s.DayOfEra() - EPOCH_SHIFT
  {
    hide IsLeap, DaysFromCivil, MonthStart, MarchDate, YearOfEra, ValidDate, Split.Valid, Split.YearOfEra,
         Split.DayOfEra;
    var y := s.YearOfEra();
    SplitWithin(s, era);
    YearIsFound(s);
    DayIsInMonth(400 * era + y, s.day);
    var m := (5 * s.day + 2) / 153;
    DaysOfMarchDate(era, y, m, s.day - MonthStart(m) + 1);
  }

  lemma SplitWithin(s: Split, era: int)
    requires s.Valid()
    ensures 0 <= s.YearOfEra() < 400
    ensures 0 <= s.day < (if IsLeap(400 * era + s.YearOfEra() + 1) then 366 else 365)
  {
    hide IsLeap;
    LongYearsEndInLeapDays(s, era);
  }

  lemma DaysOfMarchDate(era: int, y: int, m: int, day: int)
    requires 0 <= y < 400 && 0 <= m <= 11
    ensures DaysFromCivil(MarchDate(400 * era + y, m, day))
            == era * DAYS_PER_ERA + 365 * y + y / 4 - y / 100 + MonthStart(m) + day - 1 - EPOCH_SHIFT
  {
    assert (400 * era + y) / 400 == era;
  }

  /** Every date is the date of a split. */
  lemma DateIsSplit(d: Date) returns (era: int, s: Split)
    requires ValidDate(d)
    ensures s.Valid() && SplitDate(era, s) == d
    ensures DaysFromCivil(d) == era * DAYS_PER_ERA + s.DayOfEra() - EPOCH_SHIFT
  {
    var year := if d.month <= 2 then d.year - 1 else d.year;
    era := year / 400;
    var y := year - era * 400;
    var m := d.month + if d.month > 2 then -3 else 9;
    assert MarchDate(year, m, d.day) == d;
    MonthIsFound(year, m, d.day);
    s := Split(y / 100, y % 100 / 4, y % 4, MonthStart(m) + d.day - 1);
    assert s.YearOfEra() == y;
    LongDays(era, s);
    assert SplitDate(era, s) == d;
    DaysOfSplitDate(era, s);
  }

  lemma LongDays(era: int, s: Split)
    requires 0 <= s.century <= 3 && 0 <= s.olympiad <= 24 && 0 <= s.year <= 3
    requires 0 <= s.day < (if IsLeap(400 * era + s.YearOfEra() + 1) then 366 else 365)
    ensures s.Valid()
  {
    LongYearsEndInLeapDays(s.(day := 0), era);
  }

  // ----- The calendar theorems -----

  /** Every day number, before or after the epoch, gives a real date, and the date gives the number back. */
  lemma DateOfEveryDay(days: int)
    ensures ValidDate(CivilDateFromUnixDays(days))
    ensures DaysFromCivil(CivilDateFromUnixDays(days)) == days
  {
    hide CivilDateFromUnixDays, DaysFromCivil, ValidDate, SplitDate;
    CivilIsSplitDate(days);
    var era := EraOf(days + EPOCH_SHIFT);
    DaysOfSplitDate(era, SplitOf(days + EPOCH_SHIFT - era * DAYS_PER_ERA));
  }

  /** Every real date is the date of its day number. */
  lemma DayOfEveryDate(d: Date)
    requires ValidDate(d)
    ensures CivilDateFromUnixDays(DaysFromCivil(d)) == d
  {
    hide CivilDateFromUnixDays, DaysFromCivil, ValidDate, SplitDate;
    var era, s := DateIsSplit(d);
    var days := DaysFromCivil(d);
    CivilIsSplitDate(days);
    YearIsFound(s);
    assert s.DayOfEra() == days + EPOCH_SHIFT - era * DAYS_PER_ERA;
    SameSplit(era, s, EraOf(days + EPOCH_SHIFT),
              SplitOf(days + EPOCH_SHIFT - EraOf(days + EPOCH_SHIFT) * DAYS_PER_ERA));
  }

  /** Eras do not overlap, and a day of an era splits in one way only. */
  lemma SameSplit(era: int, s: Split, era': int, s': Split)
    requires s.Valid() && s'.Valid()
    requires era * DAYS_PER_ERA + s.DayOfEra() == era' * DAYS_PER_ERA + s'.DayOfEra()
    ensures era == era' && s == s'
  {
    hide YearOfEra;
    YearIsFound(s);
    YearIsFound(s');
    assert era == era';
    assert s.YearOfEra() == s'.YearOfEra();
    assert s.YearOfEra() / 100 == s.century && s'.YearOfEra() / 100 == s'.century;
  }

  lemma NextDayCounts(d: Date)
    requires ValidDate(d)
    ensures ValidDate(NextDay(d)) && DaysFromCivil(NextDay(d)) == DaysFromCivil(d) + 1
    ensures Before(d, NextDay(d)) && PreviousDay(NextDay(d)) == d
  {
    NextDayOrder(d);
    hide IsLeap, NextDay, PreviousDay, Before;
    DaysFromYearStart(d);
    DaysFromYearStart(NextDay(d));
    if d.day == DaysInMonth(d.year, d.month) && d.month == 2 {
      YearsFollow(d.year - 1);
    }
    NextDayShape(d);
  }

  lemma NextDayOrder(d: Date)
    requires ValidDate(d)
    ensures ValidDate(NextDay(d)) && Before(d, NextDay(d)) && PreviousDay(NextDay(d)) == d
  {
  }

  lemma NextDayShape(d: Date)
    requires ValidDate(d)
    ensures DayOfMarchYear(NextDay(d)) == (if d == Date(d.year, 2, DaysInMonth(d.year, 2)) then 0
                                           else DayOfMarchYear(d) + 1)
    ensures MarchYear(NextDay(d)) == MarchYear(d) + (if d == Date(d.year, 2, DaysInMonth(d.year, 2)) then 1 else 0)
    ensures d == Date(d.year, 2, DaysInMonth(d.year, 2)) ==> DayOfMarchYear(d) == if IsLeap(d.year) then 365 else 364
  {
  }

  function MarchYear(d: Date): (year: int) {
    if d.month <= 2 then d.year - 1 else d.year
  }

  function DayOfMarchYear(d: Date): (n: int) {
    MonthStart(d.month + if d.month > 2 then -3 else 9) + d.day - 1
  }

  lemma DaysFromYearStart(d: Date)
    ensures DaysFromCivil(d) == YearStart(MarchYear(d)) + DayOfMarchYear(d) - EPOCH_SHIFT
  {
  }

  /** Days before March of a year, from any start of the count. */
  function YearStart(year: int): (days: int) {
    var era := year / 400;
    var y := year - era * 400;
    era * DAYS_PER_ERA + y * 365 + y / 4 - y / 100
  }

  lemma YearsFollow(year: int)
    ensures YearStart(year + 1) == YearStart(year) + (if IsLeap(year + 1) then 366 else 365)
  {
    hide YearStart;
    YearStartIsLeapRule(year);
    YearStartIsLeapRule(year + 1);
    NextOlympiad(year);
    NextCentury(year);
    NextEra(year);
    LeapRules(year + 1);
  }

  lemma NextOlympiad(year: int)
    ensures (year + 1) / 4 == year / 4 + if (year + 1) % 4 == 0 then 1 else 0
  {
  }

  lemma NextCentury(year: int)
    ensures (year + 1) / 100 == year / 100 + if (year + 1) % 100 == 0 then 1 else 0
  {
  }

  lemma NextEra(year: int)
    ensures (year + 1) / 400 == year / 400 + if (year + 1) % 400 == 0 then 1 else 0
  {
  }

  /** Centuries are whole olympiads and eras are whole centuries. */
  lemma LeapRules(year: int)
    ensures year % 100 == 0 ==> year % 4 == 0
    ensures year % 400 == 0 ==> year % 100 == 0
  {
  }

  lemma YearStartIsLeapRule(year: int)
    ensures YearStart(year) == 365 * year + year / 4 - year / 100 + year / 400
  {
    var era := year / 400;
    var y := year - era * 400;
    assert year / 4 == 100 * era + y / 4;
    assert year / 100 == 4 * era + y / 100;
  }

  /** The date after a day's date is the next day's date. */
  lemma SuccessorDay(days: int)
    ensures CivilDateFromUnixDays(days + 1) == NextDay(CivilDateFromUnixDays(days))
    ensures CivilDateFromUnixDays(days) == PreviousDay(CivilDateFromUnixDays(days + 1))
    ensures Before(CivilDateFromUnixDays(days), CivilDateFromUnixDays(days + 1))
  {
    hide CivilDateFromUnixDays, DaysFromCivil, ValidDate, NextDay, PreviousDay, Before;
    var d := CivilDateFromUnixDays(days);
    DateOfEveryDay(days);
    NextDayCounts(d);
    DayOfEveryDate(NextDay(d));
  }

  /** The closed form is the calendar, for every day number. */
  lemma {:induction false} ClosedFormIsCalendar(days: int)
    ensures CivilDateFromUnixDays(days) == Stepped(days)
    decreases if days < 0 then -days else days
  {
    hide CivilDateFromUnixDays, NextDay, PreviousDay, Before;
    if days == 0 {
      EpochIsDayZero();
    } else if days > 0 {
      ClosedFormIsCalendar(days - 1);
      SuccessorDay(days - 1);
    } else {
      ClosedFormIsCalendar(days + 1);
      SuccessorDay(days);
    }
  }

  lemma EpochIsDayZero()
    ensures CivilDateFromUnixDays(0) == EPOCH
  {
  }

  /** Dates follow each other as their day numbers do. */
  lemma {:induction false} DatesKeepOrder(a: int, b: int)
    requires a < b
    ensures Before(CivilDateFromUnixDays(a), CivilDateFromUnixDays(b))
    decreases b - a
  {
    hide CivilDateFromUnixDays, NextDay, PreviousDay;
    SuccessorDay(b - 1);
    if a < b - 1 {
      DatesKeepOrder(a, b - 1);
    }
  }

  // ----- Machine integers -----

  predicate InI64(n: int) {
    I64_MIN <= n <= I64_MAX
  }

  /** No intermediate value of the closed form leaves the `i64` range. */
  predicate ArithmeticFits(days: int) {
    var shifted := days + EPOCH_SHIFT;
    var era := EraOf(shifted);
    var dayOfEra := shifted - era * DAYS_PER_ERA;
    var yearOfEra := YearOfEra(dayOfEra);
    var dayOfYear := dayOfEra - (365 * yearOfEra + yearOfEra / 4 - yearOfEra / 100);
    && InI64(shifted)
    && (shifted < 0 ==> InI64(shifted - 146_096))
    && InI64(era) && InI64(era * DAYS_PER_ERA) && InI64(dayOfEra)
    && YearFits(dayOfEra, yearOfEra)
    && InI64(era * 400) && InI64(yearOfEra + era * 400)
    && MonthFits(dayOfYear)
    && InI64(CivilDateFromUnixDays(days).year)
  }

  /** The values on the way to the year of an era and to the day of its year. */
  predicate YearFits(dayOfEra: int, yearOfEra: int) {
    && InI64(dayOfEra - dayOfEra / 1_460)
    && InI64(dayOfEra - dayOfEra / 1_460 + dayOfEra / 36_524)
    && InI64(dayOfEra - dayOfEra / 1_460 + dayOfEra / 36_524 - dayOfEra / 146_096)
    && InI64(yearOfEra) && InI64(365 * yearOfEra) && InI64(365 * yearOfEra + yearOfEra / 4)
    && InI64(365 * yearOfEra + yearOfEra / 4 - yearOfEra / 100)
  }

  /** The values on the way from the day of a year to its month and day. */
  predicate MonthFits(dayOfYear: int) {
    var monthParameter := (5 * dayOfYear + 2) / 153;
    && InI64(dayOfYear) && InI64(5 * dayOfYear) && InI64(5 * dayOfYear + 2)
    && InI64(153 * monthParameter) && InI64(153 * monthParameter + 2)
    && InI64(dayOfYear - (153 * monthParameter + 2) / 5) && InI64(dayOfYear - (153 * monthParameter + 2) / 5 + 1)
    && InI64(monthParameter + 3) && InI64(monthParameter - 9)
  }

  /** Of all `i64` day numbers, only the last 719,468 overflow, in the very first addition. */
  lemma OnlyTheShiftOverflows(days: int)
    requires InI64(days)
    ensures ArithmeticFits(days) <==> days <= I64_MAX - EPOCH_SHIFT
  {
    hide EraOf, YearOfEra, YearFits, MonthFits, CivilDateFromUnixDays;
    var shifted := days + EPOCH_SHIFT;
    EraIsFloor(shifted);
    var era := EraOf(shifted);
    var dayOfEra := shifted - era * DAYS_PER_ERA;
    YearWithinEra(dayOfEra);
    EraWithin(shifted, era);
    MonthsFit(dayOfEra - (365 * YearOfEra(dayOfEra) + YearOfEra(dayOfEra) / 4 - YearOfEra(dayOfEra) / 100));
    YearOfCivil(days);
  }

  lemma YearWithinEra(dayOfEra: int)
    requires 0 <= dayOfEra < DAYS_PER_ERA
    ensures var y := YearOfEra(dayOfEra);
            && 0 <= y < 400 && YearFits(dayOfEra, y)
            && 0 <= dayOfEra - (365 * y + y / 4 - y / 100) < 366
  {
    hide YearOfEra, SplitOf;
    SplitIsExact(dayOfEra);
    YearIsFound(SplitOf(dayOfEra));
    SmallYearFits(dayOfEra, YearOfEra(dayOfEra));
  }

  lemma SmallYearFits(dayOfEra: int, yearOfEra: int)
    requires 0 <= dayOfEra < DAYS_PER_ERA && 0 <= yearOfEra < 400
    ensures YearFits(dayOfEra, yearOfEra)
  {
    assert 0 <= dayOfEra / 1_460 <= dayOfEra && 0 <= dayOfEra / 36_524 <= dayOfEra
           && 0 <= dayOfEra / 146_096 <= dayOfEra;
    assert 0 <= yearOfEra / 4 <= yearOfEra && 0 <= yearOfEra / 100 <= yearOfEra;
  }

  lemma MonthsFit(dayOfYear: int)
    requires 0 <= dayOfYear < 366
    ensures MonthFits(dayOfYear)
  {
    var m := (5 * dayOfYear + 2) / 153;
    assert 0 <= m <= 11;
    assert 0 <= (153 * m + 2) / 5 <= 338;
  }

  lemma YearOfCivil(days: int)
    ensures var era := EraOf(days + EPOCH_SHIFT);
            var y := CivilDateFromUnixDays(days).year;
            400 * era <= y <= 400 * era + 400
  {
    hide EraOf, CivilDateFromUnixDays, SplitOf, MonthStart;
    CivilIsSplitDate(days);
  }

  lemma EraWithin(shifted: int, era: int)
    requires era * DAYS_PER_ERA <= shifted < (era + 1) * DAYS_PER_ERA
    ensures shifted >= 0 ==> 0 <= era <= shifted && 0 <= era * 401 <= shifted
    ensures shifted < 0 ==> shifted <= era < 0 && shifted - 400 <= era * 400 < 0
  {
  }

  /** The closed form overflows on the last day number there is, and not on the first. */
  lemma LastDayOverflows()
    ensures !ArithmeticFits(I64_MAX) && ArithmeticFits(I64_MIN)
  {
    hide ArithmeticFits;
    OnlyTheShiftOverflows(I64_MAX);
    OnlyTheShiftOverflows(I64_MIN);
  }
}
