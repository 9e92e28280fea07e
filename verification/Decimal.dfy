/**
  Decimal spellings of integers as ASCII bytes: what `i64::to_string`, `u64::to_string` and
  Python's `int.__repr__` write, and what `str::parse` reads back.
  */
module Decimal {
  import opened Utf8

  const MINUS: Byte := 45
  const ZERO: Byte := 48

  predicate IsDigit(b: Byte) {
    48 <= b <= 57
  }

  predicate AllDigits(s: seq<Byte>) {
    forall i :: 0 <= i < |s| ==> IsDigit(s[i])
  }

  function Digits(n: nat): (s: seq<Byte>)
    ensures s != []
  {
    if n < 10 then [ZERO + n] else Digits(n / 10) + [ZERO + n % 10]
  }

  /** The canonical spelling of an integer. */
  function Spell(n: int): (s: seq<Byte>)
    ensures s != []
  {
    if n < 0 then [MINUS] + Digits(-n) else Digits(n)
  }

  /** The number a digit string denotes. */
  function DigitsValue(s: seq<Byte>): (n: nat)
    requires AllDigits(s)
  {
    if s == [] then 0 else DigitsValue(s[..|s| - 1]) * 10 + (s[|s| - 1] - ZERO)
  }

  /** Digits without a superfluous leading zero: the `int` rule of section 6 of RFC 8259. */
  predicate PlainDigits(s: seq<Byte>) {
    s != [] && AllDigits(s) && (s[0] == ZERO ==> |s| == 1)
  }

  /** An optional minus sign followed by plain digits: a JSON number without fraction or exponent. */
  predicate IntegerText(s: seq<Byte>) {
    s != [] && (if s[0] == MINUS then PlainDigits(s[1..]) else PlainDigits(s))
  }

  function IntegerValue(s: seq<Byte>): (n: int)
    requires IntegerText(s)
  {
    if s[0] == MINUS then 0 - DigitsValue(s[1..]) else DigitsValue(s)
  }

  const NEGATIVE_ZERO: seq<Byte> := [MINUS, ZERO]

  lemma {:induction false} DigitsShape(n: nat)
    ensures PlainDigits(Digits(n))
    ensures DigitsValue(Digits(n)) == n
    ensures Digits(n)[0] == ZERO ==> n == 0
  {
    if n >= 10 {
      DigitsShape(n / 10);
      assert Digits(n)[..|Digits(n)| - 1] == Digits(n / 10);
    } else {
      assert Digits(n)[..0] == [];
    }
  }

  lemma {:induction false} DigitsOfValue(s: seq<Byte>)
    requires PlainDigits(s)
    ensures Digits(DigitsValue(s)) == s
    ensures s[0] != ZERO ==> DigitsValue(s) > 0
  {
    var front, last := s[..|s| - 1], s[|s| - 1] - ZERO;
    assert s == front + [ZERO + last];
    if front == [] {
      assert DigitsValue(s) == last;
    } else {
      assert PlainDigits(front);
      DigitsOfValue(front);
      DigitsSnoc(DigitsValue(front), last);
    }
  }

  lemma DigitsSnoc(n: nat, d: nat)
    requires 0 < n && d < 10
    ensures Digits(n * 10 + d) == Digits(n) + [ZERO + d]
  {
    var m := n * 10 + d;
    assert m / 10 == n && m % 10 == d;
  }

  /** Every integer reads back from its spelling. */
  lemma SpellReads(n: int)
    ensures IntegerText(Spell(n)) && IntegerValue(Spell(n)) == n && Spell(n) != NEGATIVE_ZERO
  {
    DigitsShape(if n < 0 then -n else n);
    if n < 0 {
      assert Spell(n)[1..] == Digits(-n);
    }
  }

  /** Apart from `-0`, an integer text is the one canonical spelling of what it denotes. */
  lemma SpellingIsUnique(s: seq<Byte>)
    requires IntegerText(s)
    ensures s != NEGATIVE_ZERO <==> s == Spell(IntegerValue(s))
  {
    if s[0] == MINUS {
      DigitsOfValue(s[1..]);
      assert s == [MINUS] + s[1..];
      if s[1] == ZERO {
        assert s[1..] == [ZERO] && DigitsValue([ZERO]) == 0;
        assert s == NEGATIVE_ZERO;
        SpellReads(0);
      }
    } else {
      DigitsOfValue(s);
    }
  }

  lemma SpellIsAscii(n: int)
    ensures forall i :: 0 <= i < |Spell(n)| ==> Spell(n)[i] < 0x80
  {
    DigitsShape(if n < 0 then -n else n);
  }

  // ----- Length -----

  function Power10(k: nat): (p: nat)
    ensures p >= 1
  {
    if k == 0 then 1 else 10 * Power10(k - 1)
  }

  lemma {:induction false} DigitsLength(n: nat, k: nat)
    requires k >= 1 && n < Power10(k)
    ensures |Digits(n)| <= k
  {
    if n >= 10 {
      assert Power10(1) == 10 * Power10(0);
      DigitsLength(n / 10, k - 1);
    }
  }
}
