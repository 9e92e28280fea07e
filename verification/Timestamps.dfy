/**
  RFC 3339 timestamps with milliseconds: how the CLI and the protocol print an instant, what the
  protocol accepts, how it reads an instant back, and that texts sort as instants do.
  */
module Timestamps {
  import opened Utf8
  import opened Decimal
  import opened Calendar
  import opened Saturation

  // ----- Fixed-width numbers -----

  /** `{:0width}`: zeros in front up to the width, never cut. */
  function Padded(n: nat, width: nat): (s: seq<Byte>) {
    var digits := Digits(n);
    seq(if |digits| < width then width - |digits| else 0, _ => ZERO) + digits
  }

  /** The last `width` decimal digits. */
  function Fixed(n: nat, width: nat): (s: seq<Byte>)
    ensures |s| == width && AllDigits(s)
  {
    if width == 0 then [] else Fixed(n / 10, width - 1) + [ZERO + n % 10]
  }

  lemma {:induction false} FixedZero(width: nat)
    ensures Fixed(0, width) == seq(width, _ => ZERO)
  {
    if width > 0 {
      FixedZero(width - 1);
    }
  }

  lemma {:induction false} PaddedIsFixed(n: nat, width: nat)
    requires width >= 1 && n < Power10(width)
    ensures Padded(n, width) == Fixed(n, width)
  {
    if n < 10 {
      FixedZero(width - 1);
      assert n / 10 == 0;
    } else {
      assert Power10(1) == 10;
      PaddedIsFixed(n / 10, width - 1);
      DigitsLength(n, width);
    }
  }

  lemma {:induction false} DigitsAtLeast(n: nat, width: nat)
    requires n >= Power10(width)
    ensures |Digits(n)| > width
  {
    if width > 0 {
      DigitsAtLeast(n / 10, width - 1);
    }
  }

  lemma {:induction false} FixedReads(n: nat, width: nat)
    requires n < Power10(width)
    ensures DigitsValue(Fixed(n, width)) == n
  {
    if width > 0 {
      FixedReads(n / 10, width - 1);
      assert Fixed(n, width)[..width - 1] == Fixed(n / 10, width - 1);
    }
  }

  lemma {:induction false} FixedIsUnique(s: seq<Byte>)
    requires AllDigits(s)
    ensures DigitsValue(s) < Power10(|s|) && Fixed(DigitsValue(s), |s|) == s
  {
    if s != [] {
      var front, last := s[..|s| - 1], s[|s| - 1] - ZERO;
      FixedIsUnique(front);
      var n := DigitsValue(s);
      assert n == DigitsValue(front) * 10 + last;
      assert n / 10 == DigitsValue(front) && n % 10 == last;
      assert s == front + [s[|s| - 1]];
    }
  }

  /** Of two fixed-width numbers the smaller sorts first, whatever follows. */
  lemma {:induction false} FixedOrder(a: nat, b: nat, width: nat, x: seq<Byte>, y: seq<Byte>)
    requires a < b < Power10(width)
    ensures BytesLess(Fixed(a, width) + x, Fixed(b, width) + y)
  {
    hide BytesLess;
    var da, db: Byte := ZERO + a % 10, ZERO + b % 10;
    assert Fixed(a, width) + x == Fixed(a / 10, width - 1) + ([da] + x);
    assert Fixed(b, width) + y == Fixed(b / 10, width - 1) + ([db] + y);
    if a / 10 < b / 10 {
      FixedOrder(a / 10, b / 10, width - 1, [da] + x, [db] + y);
    } else {
      assert da < db;
      FirstByteLess(da, db, x, y);
      CommonPrefixLess(Fixed(a / 10, width - 1), [da] + x, [db] + y);
    }
  }

  lemma FirstByteLess(a: Byte, b: Byte, x: seq<Byte>, y: seq<Byte>)
    requires a < b
    ensures BytesLess([a] + x, [b] + y)
  {
  }

  lemma Powers()
    ensures Power10(2) == 100 && Power10(3) == 1_000 && Power10(4) == 10_000
  {
    assert Power10(1) == 10;
  }

  // ----- Instants and their texts -----

  datatype Stamp = Stamp(date: Date, hour: nat, minute: nat, second: nat, millis: nat)

  /** The fields of an instant in milliseconds since the epoch. */
  function StampOf(ms: nat): (s: Stamp) {
    var seconds := ms / 1_000;
    var secondOfDay := seconds % 86_400;
    Stamp(CivilDateFromUnixDays(seconds / 86_400), secondOfDay / 3_600, secondOfDay % 3_600 / 60, secondOfDay % 60,
          ms % 1_000)
  }

  /** The protocol's own year of an era. */
  function ProtocolYearOfEra(doe: int): (yoe: int) {
    (doe - doe / 1_460 + doe / 36_524 - doe / 146_096) / 365
  }

  /** The protocol's own month and day of a year that starts in March; the year is raised at the end. */
  function ProtocolMonth(year: int, doy: int): (d: Date) {
    var mp := (5 * doy + 2) / 153;
    var day := doy - (153 * mp + 2) / 5 + 1;
    var month := if mp < 10 then mp + 3 else mp - 9;
    if month <= 2 then Date(year + 1, month, day) else Date(year, month, day)
  }

  /** The protocol's own date of a day from the epoch on: it has no case for negative days. */
  function ProtocolDate(days: nat): (d: Date) {
    var z := days + 719_468;
    var era := z / 146_097;
    var doe := z - era * 146_097;
    var yoe := ProtocolYearOfEra(doe);
    ProtocolMonth(yoe + era * 400, doe - (365 * yoe + yoe / 4 - yoe / 100))
  }

  function ProtocolStamp(ms: nat): (s: Stamp) {
    var seconds := ms / 1_000;
    var millis := ms % 1_000;
    var days := seconds / 86_400;
    var secondsOfDay := seconds % 86_400;
    Stamp(ProtocolDate(days), secondsOfDay / 3_600, secondsOfDay % 3_600 / 60, secondsOfDay % 60, millis)
  }

  lemma ProtocolYearAgrees(doe: int)
    ensures ProtocolYearOfEra(doe) == YearOfEra(doe)
  {
  }

  lemma ProtocolMonthAgrees(year: int, doy: int)
    ensures ProtocolMonth(year, doy) == MarchDate(year, (5 * doy + 2) / 153, doy - MonthStart((5 * doy + 2) / 153) + 1)
  {
  }

  /** The protocol's date of a day of an era, whose year and day of year are given. */
  lemma ProtocolDateOf(days: nat, era: int, doe: int, yoe: int, doy: int)
    requires days + 719_468 == era * 146_097 + doe && 0 <= doe < 146_097
    requires ProtocolYearOfEra(doe) == yoe && 365 * yoe + yoe / 4 - yoe / 100 + doy == doe
    ensures ProtocolDate(days) == ProtocolMonth(400 * era + yoe, doy)
  {
    hide ProtocolYearOfEra, ProtocolMonth;
    EraOfSplit(days + 719_468, era, doe);
  }

  lemma EraOfSplit(z: int, era: int, doe: int)
    requires z == era * 146_097 + doe && 0 <= doe < 146_097
    ensures z / 146_097 == era
  {
  }

  lemma ProtocolDateSplits(days: nat, era: int, s: Split)
    requires s.Valid() && days + 719_468 == era * 146_097 + s.DayOfEra()
    ensures ProtocolDate(days) == ProtocolMonth(400 * era + s.YearOfEra(), s.day)
  {
    hide ProtocolDate, ProtocolYearOfEra, ProtocolMonth, YearOfEra, Split.DayOfEra, Split.YearOfEra, Split.Valid;
    YearIsFound(s);
    ProtocolYearAgrees(s.DayOfEra());
    ProtocolDateOf(days, era, s.DayOfEra(), s.YearOfEra(), s.day);
  }

  /** From the epoch on, the protocol's date is the CLI's. */
  lemma ProtocolDateAgrees(days: nat)
    ensures ProtocolDate(days) == CivilDateFromUnixDays(days)
  {
    hide EraOf, YearOfEra, ProtocolYearOfEra, ProtocolDate, ProtocolMonth, MarchDate, MonthStart, SplitOf,
         CivilDateFromUnixDays;
    CivilIsSplitDate(days);
    var era := EraOf(days + EPOCH_SHIFT);
    var s := SplitOf(days + EPOCH_SHIFT - era * DAYS_PER_ERA);
    ProtocolDateSplits(days, era, s);
    ProtocolMonthAgrees(400 * era + s.YearOfEra(), s.day);
  }

  lemma ProtocolStampAgrees(ms: nat)
    ensures ProtocolStamp(ms) == StampOf(ms)
  {
    hide ProtocolDate, CivilDateFromUnixDays;
    ProtocolDateAgrees(ms / 1_000 / 86_400);
  }

  const DASH: Byte := 0x2D
  const LETTER_T: Byte := 0x54
  const COLON: Byte := 0x3A
  const DOT: Byte := 0x2E
  const LETTER_Z: Byte := 0x5A

  /** Date, time and zone around seven numbers. */
  function Assemble(y: seq<Byte>, mo: seq<Byte>, d: seq<Byte>, h: seq<Byte>, mi: seq<Byte>, s: seq<Byte>, ms: seq<Byte>)
    : (text: seq<Byte>)
  {
    y + ([DASH] + (mo + ([DASH] + (d + ([LETTER_T] + (
      h + ([COLON] + (mi + ([COLON] + (s + ([DOT] + (ms + [LETTER_Z]))))))))))))
  }

  function Format(s: Stamp): (text: seq<Byte>)
    requires s.date.year >= 0 && s.date.month >= 0 && s.date.day >= 0
  {
    Assemble(Padded(s.date.year, 4), Padded(s.date.month, 2), Padded(s.date.day, 2), Padded(s.hour, 2),
             Padded(s.minute, 2),
             Padded(s.second, 2), Padded(s.millis, 3))
  }

  // ----- What the protocol accepts -----

  /** The places of the digits. */
  predicate DigitPlaces(b: seq<Byte>)
    requires |b| == 24
  {
    && AllDigits(b[0..4]) && AllDigits(b[5..7]) && AllDigits(b[8..10]) && AllDigits(b[11..13]) && AllDigits(b[14..16])
    && AllDigits(b[17..19]) && AllDigits(b[20..23])
  }

  predicate Separators(b: seq<Byte>)
    requires |b| == 24
  {
    b[4] == DASH && b[7] == DASH && b[10] == LETTER_T && b[13] == COLON && b[16] == COLON && b[19] == DOT
        && b[23] == LETTER_Z
  }

  /** The numbers at their places. */
  function Fields(b: seq<Byte>): (s: Stamp)
    requires |b| == 24 && DigitPlaces(b)
  {
    Stamp(Date(DigitsValue(b[0..4]), DigitsValue(b[5..7]), DigitsValue(b[8..10])),
          DigitsValue(b[11..13]), DigitsValue(b[14..16]), DigitsValue(b[17..19]), DigitsValue(b[20..23]))
  }

  predicate ValidFields(s: Stamp) {
    ValidDate(s.date) && s.hour <= 23 && s.minute <= 59 && s.second <= 59
  }

  /** 24 bytes, digits and separators in place, and a date and time that exist. */
  predicate ValidTimestamp(b: seq<Byte>) {
    |b| == 24 && Separators(b) && DigitPlaces(b) && ValidFields(Fields(b))
  }

  // ----- The two printers and the reader -----

  datatype Generated = Text(text: seq<Byte>) | BeforeEpoch | OutOfRange | InvalidTimestamp

  function Checked(text: seq<Byte>): (r: Generated) {
    if ValidTimestamp(text) then Text(text) else InvalidTimestamp
  }

  /** The CLI's clock reading, in nanoseconds from the epoch. */
  function LocalGeneratedAt(nanoseconds: int): (r: Generated) {
    if nanoseconds < 0 then BeforeEpoch
    else
      var ms := nanoseconds / 1_000_000;
      if ms > U64_MAX then OutOfRange
      else
        DateOfEveryDay(ms / 1_000 / 86_400);
        var s := StampOf(ms);
        if !(0 <= s.date.year <= 9_999) then OutOfRange else Checked(Format(s))
  }

  /** The protocol's constructor has no year test of its own; the text's form decides. */
  function FromUnixMillis(ms: nat): (r: Generated) {
    YearsFromEpoch(ms);
    ProtocolStampAgrees(ms);
    Checked(Format(ProtocolStamp(ms)))
  }

  function ToUnixMillis(text: seq<Byte>): (ms: Option<nat>)
    requires ValidTimestamp(text)
  {
    var s := Fields(text);
    var seconds := DaysFromCivil(s.date) * 86_400 + s.hour * 3_600 + s.minute * 60 + s.second;
    var total := seconds * 1_000 + s.millis;
    if 0 <= total <= U64_MAX then Some(total) else None
  }

  /** From the epoch on, years are at least 1970. */
  lemma YearsFromEpoch(ms: nat)
    ensures var d := StampOf(ms).date; ValidDate(d) && d.year >= 1970
  {
    hide CivilDateFromUnixDays, DaysFromCivil, ValidDate;
    var days := ms / 1_000 / 86_400;
    DateOfEveryDay(days);
    EpochIsDayZero();
    if days > 0 { DatesKeepOrder(0, days); }
  }

  // ----- Instants -----

  /** Milliseconds since the epoch. */
  function Instant(s: Stamp): (ms: int) {
    (DaysFromCivil(s.date) * 86_400 + s.hour * 3_600 + s.minute * 60 + s.second) * 1_000 + s.millis
  }

  lemma StampOfIsValid(ms: nat)
    ensures ValidFields(StampOf(ms)) && StampOf(ms).millis < 1_000 && Instant(StampOf(ms)) == ms
  {
    hide CivilDateFromUnixDays, DaysFromCivil, ValidDate;
    DateOfEveryDay(ms / 1_000 / 86_400);
    var secondOfDay := ms / 1_000 % 86_400;
    assert secondOfDay == secondOfDay / 3_600 * 3_600 + secondOfDay % 3_600 / 60 * 60
           + secondOfDay % 60 by { TimeOfDay(secondOfDay); }
  }

  lemma TimeOfDay(n: nat)
    ensures n == n / 3_600 * 3_600 + n % 3_600 / 60 * 60 + n % 60
    ensures n < 86_400 ==> n / 3_600 <= 23
  {
    var m := n % 3_600;
    assert n == n / 3_600 * 3_600 + m;
    assert n == 60 * (n / 3_600 * 60) + m;
    assert n % 60 == m % 60;
  }

  lemma StampOfInstant(s: Stamp)
    requires ValidFields(s) && s.millis < 1_000 && Instant(s) >= 0
    ensures StampOf(Instant(s)) == s
  {
    hide CivilDateFromUnixDays, DaysFromCivil, ValidDate;
    DayOfEveryDate(s.date);
    var n := s.hour * 3_600 + s.minute * 60 + s.second;
    var days := DaysFromCivil(s.date);
    InstantParts(days, n, s.millis);
    assert n / 3_600 == s.hour && n % 3_600 == s.minute * 60 + s.second;
    assert (s.minute * 60 + s.second) / 60 == s.minute;
    assert n == 60 * (s.hour * 60 + s.minute) + s.second;
    assert n % 60 == s.second;
  }

  lemma InstantParts(days: int, n: nat, millis: nat)
    requires n < 86_400 && millis < 1_000
    ensures var ms := (days * 86_400 + n) * 1_000 + millis;
            ms / 1_000 / 86_400 == days && ms / 1_000 % 86_400 == n && ms % 1_000 == millis
    ensures (days * 86_400 + n) * 1_000 + millis >= 0 <==> days >= 0
  {
    var ms := (days * 86_400 + n) * 1_000 + millis;
    assert ms / 1_000 == days * 86_400 + n;
  }

  /** The first millisecond of the year 10000. */
  const END_OF_YEARS: nat := 253_402_300_800_000

  lemma YearTenThousand()
    ensures CivilDateFromUnixDays(2_932_897) == Date(10_000, 1, 1)
  {
    hide CivilDateFromUnixDays;
    assert DaysFromCivil(Date(10_000, 1, 1)) == 2_932_897;
    DayOfEveryDate(Date(10_000, 1, 1));
  }

  lemma FourDigitYears(ms: nat)
    ensures StampOf(ms).date.year <= 9_999 <==> ms < END_OF_YEARS
  {
    hide CivilDateFromUnixDays;
    YearTenThousand();
    var days := ms / 1_000 / 86_400;
    assert ms < END_OF_YEARS <==> days < 2_932_897;
    if days < 2_932_897 {
      FirstOfYear(days);
    } else if days > 2_932_897 {
      DatesKeepOrder(2_932_897, days);
    }
  }

  lemma FirstOfYear(days: int)
    requires days < 2_932_897
    ensures CivilDateFromUnixDays(days).year <= 9_999
  {
    hide CivilDateFromUnixDays, DaysFromCivil;
    YearTenThousand();
    DateOfEveryDay(days);
    DatesKeepOrder(days, 2_932_897);
  }

  // ----- Texts -----

  lemma AssembledSeparators(y: seq<Byte>, mo: seq<Byte>, d: seq<Byte>, h: seq<Byte>, mi: seq<Byte>, s: seq<Byte>,
                            ms: seq<Byte>)
    requires |y| == 4 && |mo| == 2 && |d| == 2 && |h| == 2 && |mi| == 2 && |s| == 2 && |ms| == 3
    ensures var t := Assemble(y, mo, d, h, mi, s, ms); |t| == 24 && Separators(t)
  {
  }

  lemma PartAndRest(part: seq<Byte>, separator: Byte, rest: seq<Byte>)
    ensures var t := part + ([separator] + rest); t[..|part|] == part && t[|part| + 1..] == rest
  {
  }

  lemma AssembledPlaces(y: seq<Byte>, mo: seq<Byte>, d: seq<Byte>, h: seq<Byte>, mi: seq<Byte>, s: seq<Byte>,
                        ms: seq<Byte>)
    requires |y| == 4 && |mo| == 2 && |d| == 2 && |h| == 2 && |mi| == 2 && |s| == 2 && |ms| == 3
    ensures var t := Assemble(y, mo, d, h, mi, s, ms);
            && |t| == 24 && t[0..4] == y && t[5..7] == mo && t[8..10] == d && t[11..13] == h && t[14..16] == mi
            && t[17..19] == s && t[20..23] == ms
  {
    AssembledSeparators(y, mo, d, h, mi, s, ms);
    var t6 := ms + [LETTER_Z];
    var t5 := s + ([DOT] + t6);
    var t4 := mi + ([COLON] + t5);
    var t3 := h + ([COLON] + t4);
    var t2 := d + ([LETTER_T] + t3);
    var t1 := mo + ([DASH] + t2);
    var t := Assemble(y, mo, d, h, mi, s, ms);
    assert t == y + ([DASH] + t1);
    PartAndRest(y, DASH, t1);
    PartAndRest(mo, DASH, t2);
    PartAndRest(d, LETTER_T, t3);
    PartAndRest(h, COLON, t4);
    PartAndRest(mi, COLON, t5);
    PartAndRest(s, DOT, t6);
    hide Assemble;
    assert t1 == t[5..];
    assert t2 == t[8..] by { assert t1[3..] == t[8..]; }
    assert t3 == t[11..] by { assert t2[3..] == t[11..]; }
    assert t4 == t[14..] by { assert t3[3..] == t[14..]; }
    assert t5 == t[17..] by { assert t4[3..] == t[17..]; }
    assert t6 == t[20..] by { assert t5[3..] == t[20..]; }
  }

  lemma FormatIsFixed(s: Stamp)
    requires ValidFields(s) && s.millis < 1_000 && 0 <= s.date.year <= 9_999
    ensures Format(s) == Assemble(Fixed(s.date.year, 4), Fixed(s.date.month, 2), Fixed(s.date.day, 2), Fixed(s.hour, 2),
                                  Fixed(s.minute, 2), Fixed(s.second, 2), Fixed(s.millis, 3))
  {
    hide Padded, Fixed, Assemble;
    Powers();
    PaddedIsFixed(s.date.year, 4);
    PaddedIsFixed(s.date.month, 2);
    PaddedIsFixed(s.date.day, 2);
    PaddedIsFixed(s.hour, 2);
    PaddedIsFixed(s.minute, 2);
    PaddedIsFixed(s.second, 2);
    PaddedIsFixed(s.millis, 3);
  }

  /** A stamp with a four-digit year prints as a valid timestamp whose fields are the stamp. */
  lemma FormatReads(s: Stamp)
    requires ValidFields(s) && s.millis < 1_000 && 0 <= s.date.year <= 9_999
    ensures ValidTimestamp(Format(s)) && Fields(Format(s)) == s
  {
    FormatIsFixed(s);
    hide Fixed, Assemble, Format, AllDigits, DigitsValue, Separators;
    var y, mo, d := Fixed(s.date.year, 4), Fixed(s.date.month, 2), Fixed(s.date.day, 2);
    var h, mi, se, ms := Fixed(s.hour, 2), Fixed(s.minute, 2), Fixed(s.second, 2), Fixed(s.millis, 3);
    AssembledSeparators(y, mo, d, h, mi, se, ms);
    AssembledPlaces(y, mo, d, h, mi, se, ms);
    FixedFields(s);
  }

  lemma FixedFields(s: Stamp)
    requires ValidFields(s) && s.millis < 1_000 && 0 <= s.date.year <= 9_999
    ensures DigitsValue(Fixed(s.date.year, 4)) == s.date.year && DigitsValue(Fixed(s.date.month, 2)) == s.date.month
    ensures DigitsValue(Fixed(s.date.day, 2)) == s.date.day && DigitsValue(Fixed(s.hour, 2)) == s.hour
    ensures DigitsValue(Fixed(s.minute, 2)) == s.minute && DigitsValue(Fixed(s.second, 2)) == s.second
    ensures DigitsValue(Fixed(s.millis, 3)) == s.millis
  {
    hide Fixed, DigitsValue;
    Powers();
    FixedReads(s.date.year, 4);
    FixedReads(s.date.month, 2);
    FixedReads(s.date.day, 2);
    FixedReads(s.hour, 2);
    FixedReads(s.minute, 2);
    FixedReads(s.second, 2);
    FixedReads(s.millis, 3);
  }

  /** A valid timestamp is the one text of its fields. */
  lemma FormatOfFields(b: seq<Byte>)
    requires ValidTimestamp(b)
    ensures var s := Fields(b); s.millis < 1_000 && 0 <= s.date.year <= 9_999 && Format(s) == b
  {
    var s := Fields(b);
    assert s.millis < 1_000 && 0 <= s.date.year <= 9_999 && PlacesAreFixed(b) by { FieldsAreFixed(b); }
    FormatIsFixed(s);
    hide Fixed, Format, Fields, AllDigits, DigitsValue;
    Reassemble(b);
  }

  ghost predicate PlacesAreFixed(b: seq<Byte>)
    requires |b| == 24 && DigitPlaces(b)
  {
    var s := Fields(b);
    && s.date.month >= 0 && s.date.day >= 0 && s.date.year >= 0
    && Fixed(s.date.year, 4) == b[0..4] && Fixed(s.date.month, 2) == b[5..7] && Fixed(s.date.day, 2) == b[8..10]
    && Fixed(s.hour, 2) == b[11..13] && Fixed(s.minute, 2) == b[14..16] && Fixed(s.second, 2) == b[17..19]
    && Fixed(s.millis, 3) == b[20..23]
  }

  lemma FieldsAreFixed(b: seq<Byte>)
    requires |b| == 24 && DigitPlaces(b)
    ensures PlacesAreFixed(b) && Fields(b).millis < 1_000 && Fields(b).date.year <= 9_999
  {
    hide Fixed, DigitsValue, AllDigits;
    Powers();
    FixedIsUnique(b[0..4]);
    FixedIsUnique(b[5..7]);
    FixedIsUnique(b[8..10]);
    FixedIsUnique(b[11..13]);
    FixedIsUnique(b[14..16]);
    FixedIsUnique(b[17..19]);
    FixedIsUnique(b[20..23]);
  }

  lemma Reassemble(b: seq<Byte>)
    requires |b| == 24 && Separators(b)
    ensures Assemble(b[0..4], b[5..7], b[8..10], b[11..13], b[14..16], b[17..19], b[20..23]) == b
  {
  }

  // ----- The timestamp theorems -----

  /**
    The CLI accepts exactly the clock values from the epoch to the end of the year 9999, and says
    what else is wrong.
    */
  lemma GeneratedAtDomain(nanoseconds: int)
    ensures LocalGeneratedAt(nanoseconds).BeforeEpoch? <==> nanoseconds < 0
    ensures LocalGeneratedAt(nanoseconds).Text? <==> 0 <= nanoseconds < END_OF_YEARS * 1_000_000
    ensures LocalGeneratedAt(nanoseconds).OutOfRange? <==> END_OF_YEARS * 1_000_000 <= nanoseconds
  {
    hide StampOf, Format, ValidTimestamp;
    if nanoseconds >= 0 {
      var ms := nanoseconds / 1_000_000;
      FourDigitYears(ms);
      YearsFromEpoch(ms);
      StampOfIsValid(ms);
      if ms < END_OF_YEARS {
        FormatReads(StampOf(ms));
      }
    }
  }

  /** The CLI's own printer and the protocol's constructor print the same text, and refuse the same instants. */
  lemma PrintersOfInstantsAgree(ms: nat)
    requires ms <= U64_MAX
    ensures FromUnixMillis(ms).Text? <==> ms < END_OF_YEARS
    ensures ms < END_OF_YEARS ==> LocalGeneratedAt(ms * 1_000_000) == FromUnixMillis(ms) == Text(Format(StampOf(ms)))
  {
    hide StampOf, Format, ValidTimestamp, FromUnixMillis;
    FourDigitYears(ms);
    YearsFromEpoch(ms);
    StampOfIsValid(ms);
    PrintedStamp(ms);
    assert ms * 1_000_000 / 1_000_000 == ms;
    if ms < END_OF_YEARS {
      FormatReads(StampOf(ms));
    } else {
      LongYearIsRefused(StampOf(ms));
    }
  }

  lemma LongYearIsRefused(s: Stamp)
    requires s.date.year >= 10_000 && s.date.month >= 0 && s.date.day >= 0
    ensures !ValidTimestamp(Format(s))
  {
    Powers();
    DigitsAtLeast(s.date.year, 4);
    PaddedAtLeast(s.date.month, 2);
    PaddedAtLeast(s.date.day, 2);
    PaddedAtLeast(s.hour, 2);
    PaddedAtLeast(s.minute, 2);
    PaddedAtLeast(s.second, 2);
    PaddedAtLeast(s.millis, 3);
    assert |Padded(s.date.year, 4)| >= 5;
    hide Padded, Separators, DigitPlaces, ValidFields;
    assert |Format(s)| >= 25;
  }

  lemma PaddedAtLeast(n: nat, width: nat)
    ensures |Padded(n, width)| >= width
  {
  }

  /** Reading back what was printed gives the instant. */
  lemma InstantRoundTrips(ms: nat)
    requires ms < END_OF_YEARS
    ensures FromUnixMillis(ms).Text? && ValidTimestamp(FromUnixMillis(ms).text)
    ensures ToUnixMillis(FromUnixMillis(ms).text) == Some(ms)
  {
    hide StampOf, Format, ValidTimestamp, Fields, FromUnixMillis, DaysFromCivil;
    FourDigitYears(ms);
    YearsFromEpoch(ms);
    StampOfIsValid(ms);
    PrintedStamp(ms);
    FormatReads(StampOf(ms));
    assert Instant(StampOf(ms)) == ms;
  }

  /** Every valid timestamp that reads as an instant is what that instant prints; the others are before the epoch. */
  lemma TextRoundTrips(b: seq<Byte>)
    requires ValidTimestamp(b)
    ensures ToUnixMillis(b).Some? <==> Fields(b).date.year >= 1970
    ensures ToUnixMillis(b).Some? ==>
              ToUnixMillis(b).value < END_OF_YEARS && FromUnixMillis(ToUnixMillis(b).value) == Text(b)
  {
    hide FromUnixMillis, StampOf, Format, ValidTimestamp, Fields, DaysFromCivil, ValidFields;
    ValidParts(b);
    var s := Fields(b);
    FormatOfFields(b);
    InstantWithin(s);
    if Instant(s) >= 0 {
      StampOfInstant(s);
      PrintedStamp(Instant(s));
    }
  }

  lemma ValidParts(b: seq<Byte>)
    requires ValidTimestamp(b)
    ensures |b| == 24 && DigitPlaces(b) && ValidFields(Fields(b))
  {
  }

  lemma PrintedStamp(ms: nat)
    ensures var s := StampOf(ms);
            && s.date.year >= 0 && s.date.month >= 0 && s.date.day >= 0
            && FromUnixMillis(ms) == Checked(Format(s))
  {
    hide StampOf, ProtocolStamp, Format, ValidTimestamp;
    YearsFromEpoch(ms);
    ProtocolStampAgrees(ms);
  }

  /** Four-digit years end before the limit; instants before the epoch are those of earlier years. */
  lemma InstantWithin(s: Stamp)
    requires ValidFields(s) && s.millis < 1_000 && 0 <= s.date.year <= 9_999
    ensures Instant(s) < END_OF_YEARS
    ensures Instant(s) >= 0 <==> s.date.year >= 1970
  {
    hide CivilDateFromUnixDays, DaysFromCivil;
    var days := DaysFromCivil(s.date);
    DayOfEveryDate(s.date);
    EpochIsDayZero();
    YearTenThousand();
    if days < 0 {
      DatesKeepOrder(days, 0);
    } else if days > 0 {
      DatesKeepOrder(0, days);
    }
    if days > 2_932_897 {
      DatesKeepOrder(2_932_897, days);
    }
  }

  // ----- Order of texts -----

  predicate TimeBefore(s: Stamp, t: Stamp) {
    s.hour < t.hour || (s.hour == t.hour && MinutesBefore(s, t))
  }

  predicate MinutesBefore(s: Stamp, t: Stamp) {
    s.minute < t.minute || (s.minute == t.minute && SecondsBefore(s, t))
  }

  predicate SecondsBefore(s: Stamp, t: Stamp) {
    s.second < t.second || (s.second == t.second && s.millis < t.millis)
  }

  predicate StampBefore(s: Stamp, t: Stamp) {
    Before(s.date, t.date) || (s.date == t.date && TimeBefore(s, t))
  }

  lemma StampsKeepOrder(a: nat, b: nat)
    requires a < b
    ensures StampBefore(StampOf(a), StampOf(b))
  {
    hide CivilDateFromUnixDays, Before;
    var x, y := a / 1_000, b / 1_000;
    assert x <= y;
    if x / 86_400 < y / 86_400 {
      DatesKeepOrder(x / 86_400, y / 86_400);
    } else {
      assert x / 86_400 == y / 86_400;
      var n, m := x % 86_400, y % 86_400;
      TimeOfDay(n);
      TimeOfDay(m);
    }
  }

  /** One number and its separator in front of texts that are already in order. */
  lemma NumberInFront(a: nat, b: nat, width: nat, separator: Byte, x: seq<Byte>, y: seq<Byte>)
    requires a < Power10(width) && b < Power10(width)
    requires a < b || (a == b && BytesLess(x, y))
    ensures BytesLess(Fixed(a, width) + ([separator] + x), Fixed(b, width) + ([separator] + y))
  {
    hide BytesLess, Fixed;
    if a < b {
      FixedOrder(a, b, width, [separator] + x, [separator] + y);
    } else {
      CommonPrefixLess([separator], x, y);
      CommonPrefixLess(Fixed(a, width), [separator] + x, [separator] + y);
    }
  }

  /** The text from the hour on. */
  function TimeText(s: Stamp): (text: seq<Byte>) {
    Fixed(s.hour, 2) + ([COLON] + (Fixed(s.minute, 2)
                                   + ([COLON] + (Fixed(s.second, 2) + ([DOT] + (Fixed(s.millis, 3) + [LETTER_Z]))))))
  }

  lemma TimeTextOrder(s: Stamp, t: Stamp)
    requires ValidFields(s) && ValidFields(t) && s.millis < 1_000 && t.millis < 1_000
    requires TimeBefore(s, t)
    ensures BytesLess(TimeText(s), TimeText(t))
  {
    hide BytesLess, Fixed, ValidDate;
    Powers();
    var x1, y1 := Fixed(s.millis, 3) + [LETTER_Z], Fixed(t.millis, 3) + [LETTER_Z];
    if s.millis < t.millis { FixedOrder(s.millis, t.millis, 3, [LETTER_Z], [LETTER_Z]); }
    var x2, y2 := Fixed(s.second, 2) + ([DOT] + x1), Fixed(t.second, 2) + ([DOT] + y1);
    if SecondsBefore(s, t) { NumberInFront(s.second, t.second, 2, DOT, x1, y1); }
    var x3, y3 := Fixed(s.minute, 2) + ([COLON] + x2), Fixed(t.minute, 2) + ([COLON] + y2);
    if MinutesBefore(s, t) { NumberInFront(s.minute, t.minute, 2, COLON, x2, y2); }
    NumberInFront(s.hour, t.hour, 2, COLON, x3, y3);
  }

  lemma FormatSplits(s: Stamp)
    requires ValidFields(s) && s.millis < 1_000 && 0 <= s.date.year <= 9_999
    ensures Format(s) == Fixed(s.date.year, 4)
            + ([DASH] + (Fixed(s.date.month, 2) + ([DASH] + (Fixed(s.date.day, 2) + ([LETTER_T] + TimeText(s))))))
  {
    hide Format, Fixed;
    FormatIsFixed(s);
  }

  lemma FormatOrder(s: Stamp, t: Stamp)
    requires ValidFields(s) && s.millis < 1_000 && 0 <= s.date.year <= 9_999
    requires ValidFields(t) && t.millis < 1_000 && 0 <= t.date.year <= 9_999
    requires StampBefore(s, t)
    ensures BytesLess(Format(s), Format(t))
  {
    hide BytesLess, Fixed, TimeText, Format, TimeBefore;
    Powers();
    FormatSplits(s);
    FormatSplits(t);
    var x1, y1 := TimeText(s), TimeText(t);
    if TimeBefore(s, t) { TimeTextOrder(s, t); }
    var x2, y2 := Fixed(s.date.day, 2) + ([LETTER_T] + x1), Fixed(t.date.day, 2) + ([LETTER_T] + y1);
    if s.date.day < t.date.day || (s.date.day == t.date.day && TimeBefore(s, t)) {
      NumberInFront(s.date.day, t.date.day, 2, LETTER_T, x1, y1);
    }
    var x3, y3 := Fixed(s.date.month, 2) + ([DASH] + x2), Fixed(t.date.month, 2) + ([DASH] + y2);
    if s.date.year == t.date.year {
      NumberInFront(s.date.month, t.date.month, 2, DASH, x2, y2);
    }
    NumberInFront(s.date.year, t.date.year, 4, DASH, x3, y3);
  }

  lemma FormatKeepsOrder(a: nat, b: nat)
    requires a < b < END_OF_YEARS
    ensures StampOf(a).date.year >= 0 && StampOf(a).date.month >= 0 && StampOf(a).date.day >= 0
    ensures StampOf(b).date.year >= 0 && StampOf(b).date.month >= 0 && StampOf(b).date.day >= 0
    ensures BytesLess(Format(StampOf(a)), Format(StampOf(b)))
  {
    hide StampOf, Format, BytesLess, StampBefore;
    FourDigitYears(a);
    FourDigitYears(b);
    YearsFromEpoch(a);
    YearsFromEpoch(b);
    StampOfIsValid(a);
    StampOfIsValid(b);
    StampsKeepOrder(a, b);
    FormatOrder(StampOf(a), StampOf(b));
  }

  /** What the CLI prints for a clock value is the text of its millisecond. */
  lemma GeneratedText(nanoseconds: int)
    requires 0 <= nanoseconds < END_OF_YEARS * 1_000_000
    ensures 0 <= nanoseconds / 1_000_000 < END_OF_YEARS
    ensures LocalGeneratedAt(nanoseconds).Text?
    ensures LocalGeneratedAt(nanoseconds) == FromUnixMillis(nanoseconds / 1_000_000)
  {
    hide StampOf, Format, ValidTimestamp, FromUnixMillis;
    GeneratedAtDomain(nanoseconds);
    PrintedStamp(nanoseconds / 1_000_000);
  }

  lemma EarlierSortsFirst(a: nat, b: nat)
    requires a < b < END_OF_YEARS
    ensures FromUnixMillis(a).Text? && FromUnixMillis(b).Text?
    ensures BytesLess(FromUnixMillis(a).text, FromUnixMillis(b).text)
  {
    hide BytesLess, Format, StampOf, ValidTimestamp, FromUnixMillis, LocalGeneratedAt;
    PrintersOfInstantsAgree(a);
    PrintersOfInstantsAgree(b);
    FormatKeepsOrder(a, b);
  }

  /** Texts the CLI prints sort as their milliseconds do, and only equal milliseconds share a text. */
  lemma TimestampsKeepOrder(p: int, q: int)
    requires 0 <= p < END_OF_YEARS * 1_000_000 && 0 <= q < END_OF_YEARS * 1_000_000
    ensures LocalGeneratedAt(p).Text? && LocalGeneratedAt(q).Text?
    ensures var x, y := LocalGeneratedAt(p).text, LocalGeneratedAt(q).text;
            && (BytesLess(x, y) <==> p / 1_000_000 < q / 1_000_000)
            && (x == y <==> p / 1_000_000 == q / 1_000_000)
  {
    hide BytesLess, FromUnixMillis, LocalGeneratedAt;
    GeneratedText(p);
    GeneratedText(q);
    var x, y := LocalGeneratedAt(p).text, LocalGeneratedAt(q).text;
    var a, b := p / 1_000_000, q / 1_000_000;
    if a < b {
      EarlierSortsFirst(a, b);
      if x == y { BytesLessAsymmetric(x, y); }
    } else if b < a {
      EarlierSortsFirst(b, a);
      BytesLessAsymmetric(y, x);
    } else if BytesLess(x, y) {
      BytesLessAsymmetric(x, y);
    }
  }
}
