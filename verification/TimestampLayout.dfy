/**
  Timestamps byte by byte: which 24 bytes the protocol accepts and which 24 bytes an instant prints,
  said with the bytes, the hours and the pages of the calendar, and without the printer's or the
  reader's own functions.
  */
module TimestampLayout {
  import opened Utf8
  import opened Decimal
  import opened Calendar
  import opened Timestamps

  // ----- The bytes -----

  /** A digit of ASCII. */
  predicate IsDigit(b: Byte) {
    0x30 <= b <= 0x39
  }

  /** `....-..-..T..:..:...Z`, with digits for the dots. */
  ghost predicate Dressed(b: seq<Byte>) {
    && |b| == 24
    && b[4] == 0x2D && b[7] == 0x2D && b[10] == 0x54 && b[13] == 0x3A && b[16] == 0x3A && b[19] == 0x2E && b[23] == 0x5A
    && (forall i :: 0 <= i < 24 && i !in {4, 7, 10, 13, 16, 19, 23} ==> IsDigit(b[i]))
  }

  /** The number a digit stands for. */
  function One(b: seq<Byte>, i: nat): (n: int)
    requires i < |b|
  {
    var code: int := b[i];
    code - 0x30
  }

  /** The number two digits spell. */
  function Two(b: seq<Byte>, i: nat): (n: int)
    requires i + 2 <= |b|
  {
    10 * One(b, i) + One(b, i + 1)
  }

  /** The year of a text, its month, day, hour, minute and second, and its milliseconds. */
  ghost predicate Spells(b: seq<Byte>, date: Date, hour: int, minute: int, second: int, millis: int)
    requires |b| == 24
  {
    && 100 * Two(b, 0) + Two(b, 2) == date.year && Two(b, 5) == date.month && Two(b, 8) == date.day
    && Two(b, 11) == hour && Two(b, 14) == minute && Two(b, 17) == second
    && 10 * Two(b, 20) + One(b, 22) == millis
  }

  // ----- What the fields are -----

  lemma ValueOfTwo(s: seq<Byte>)
    requires |s| == 2 && AllDigits(s)
    ensures DigitsValue(s) == Two(s, 0)
  {
    assert s[..1] == [s[0]];
    assert DigitsValue([s[0]]) == One(s, 0);
  }

  lemma ValueOfThree(s: seq<Byte>)
    requires |s| == 3 && AllDigits(s)
    ensures DigitsValue(s) == 10 * Two(s, 0) + One(s, 2)
  {
    ValueOfTwo(s[..2]);
  }

  lemma ValueOfFour(s: seq<Byte>)
    requires |s| == 4 && AllDigits(s)
    ensures DigitsValue(s) == 100 * Two(s, 0) + Two(s, 2)
  {
    ValueOfThree(s[..3]);
  }

  lemma FieldsSpell(b: seq<Byte>)
    requires |b| == 24 && DigitPlaces(b)
    ensures var s := Fields(b); Spells(b, s.date, s.hour, s.minute, s.second, s.millis)
  {
    hide DigitsValue, AllDigits;
    ValueOfFour(b[0..4]);
    ValueOfTwo(b[5..7]);
    ValueOfTwo(b[8..10]);
    ValueOfTwo(b[11..13]);
    ValueOfTwo(b[14..16]);
    ValueOfTwo(b[17..19]);
    ValueOfThree(b[20..23]);
  }

  lemma DigitsBetween(b: seq<Byte>, lo: nat, hi: nat)
    requires lo <= hi <= |b|
    ensures AllDigits(b[lo..hi]) <==> forall i :: lo <= i < hi ==> IsDigit(b[i])
  {
    if AllDigits(b[lo..hi]) {
      forall i | lo <= i < hi ensures IsDigit(b[i]) { assert b[i] == b[lo..hi][i - lo]; }
    }
  }

  lemma DressedIsInPlace(b: seq<Byte>)
    requires |b| == 24
    ensures Dressed(b) <==> Separators(b) && DigitPlaces(b)
  {
    hide AllDigits, IsDigit;
    DigitsBetween(b, 0, 4);
    DigitsBetween(b, 5, 7);
    DigitsBetween(b, 8, 10);
    DigitsBetween(b, 11, 13);
    DigitsBetween(b, 14, 16);
    DigitsBetween(b, 17, 19);
    DigitsBetween(b, 20, 23);
  }

  /**
    The protocol accepts a text exactly when it is dressed as a timestamp and the numbers in it are a
    month, a day that month has in that year, and a time of day.
    */
  lemma AcceptedTexts(b: seq<Byte>)
    ensures ValidTimestamp(b) <==>
            && Dressed(b)
            && 1 <= Two(b, 5) <= 12
            && 1 <= Two(b, 8) <= DaysInMonth(100 * Two(b, 0) + Two(b, 2), Two(b, 5))
            && Two(b, 11) < 24 && Two(b, 14) < 60 && Two(b, 17) < 60
  {
    hide AllDigits, Separators, DigitPlaces, Fields, Two, DaysInMonth;
    if |b| == 24 {
      DressedIsInPlace(b);
      hide Dressed;
      if DigitPlaces(b) { FieldsSpell(b); }
    }
  }

  // ----- What an instant prints -----

  /** A time of day in its parts. */
  lemma PartsOf(ms: nat, q: nat, h: nat, i: nat, s: nat, m: nat)
    requires ms == 86_400_000 * q + 3_600_000 * h + 60_000 * i + 1_000 * s + m
    requires h < 24 && i < 60 && s < 60 && m < 1_000
    ensures ms / 86_400_000 == q
    ensures ms / 3_600_000 == 24 * q + h && ms / 3_600_000 % 24 == h
    ensures ms / 60_000 == 60 * (24 * q + h) + i && ms / 60_000 % 60 == i
    ensures ms / 1_000 == 60 * (60 * (24 * q + h) + i) + s && ms / 1_000 % 60 == s
  {
  }

  lemma Parts(ms: nat)
    ensures ms / 1_000 / 86_400 == ms / 86_400_000
    ensures ms / 1_000 % 86_400 / 3_600 == ms / 3_600_000 % 24
    ensures ms / 1_000 % 86_400 % 3_600 / 60 == ms / 60_000 % 60
    ensures ms / 1_000 % 86_400 % 60 == ms / 1_000 % 60
  {
    var q, n, m := ms / 1_000 / 86_400, ms / 1_000 % 86_400, ms % 1_000;
    var h, i, s := n / 3_600, n % 3_600 / 60, n % 60;
    TimeOfDay(n);
    PartsOf(ms, q, h, i, s, m);
  }

  /**
    Every instant up to the end of the year 9999 prints as a text in timestamp dress: the day found by
    turning the calendar one page a day from 1970-01-01, then hour, minute, second and milliseconds.
    */
  lemma InstantPrints(ms: nat)
    requires ms < 253_402_300_800_000
    ensures FromUnixMillis(ms).Text? && Dressed(FromUnixMillis(ms).text)
    ensures Spells(FromUnixMillis(ms).text, Stepped(ms / 86_400_000),
                   ms / 3_600_000 % 24, ms / 60_000 % 60, ms / 1_000 % 60, ms % 1_000)
  {
    hide Format, ValidTimestamp, Fields, Stepped, Dressed, Spells, CivilDateFromUnixDays, FromUnixMillis, ValidFields;
    hide Separators, DigitPlaces;
    FourDigitYears(ms);
    YearsFromEpoch(ms);
    StampOfIsValid(ms);
    PrintedStamp(ms);
    var s := StampOf(ms);
    FormatReads(s);
    var b := Format(s);
    PlacesOf(b);
    FieldsSpell(b);
    DressedIsInPlace(b);
    Parts(ms);
    ClosedFormIsCalendar(ms / 86_400_000);
  }

  lemma PlacesOf(b: seq<Byte>)
    requires ValidTimestamp(b)
    ensures |b| == 24 && Separators(b) && DigitPlaces(b)
  {
  }

  /** The CLI prints a clock reading as the protocol prints its whole milliseconds. */
  lemma ClockPrints(nanoseconds: nat)
    requires nanoseconds < 253_402_300_800_000_000_000
    ensures LocalGeneratedAt(nanoseconds) == FromUnixMillis(nanoseconds / 1_000_000)
  {
    hide StampOf, Format, ValidTimestamp, FromUnixMillis;
    var ms := nanoseconds / 1_000_000;
    PrintersOfInstantsAgree(ms);
    YearsFromEpoch(ms);
    PrintedStamp(ms);
    FourDigitYears(ms);
  }
}
