/**
  The grammar of JSON texts, sections 2 to 7 of RFC 8259, as concrete syntax trees.

  A tree of type `Text` keeps everything the grammar leaves free: white space, escapes, the
  spelling of numbers and the order of members. `TextThen(t, rest)` is the text of `t` followed by
  `rest`; following the text by a continuation keeps every definition right-nested.
  */
module JsonGrammar {
  import opened Utf8
  import opened CanonicalJson
  import opened Decimal

  // ----- Section 2: white space -----

  predicate IsWhitespace(b: Byte) {
    b == 0x20 || b == 0x09 || b == 0x0A || b == 0x0D
  }

  type Whitespace = s: seq<Byte> | forall i :: 0 <= i < |s| ==> IsWhitespace(s[i])

  // ----- Section 6: numbers -----

  type IntegerDigits = s: seq<Byte> | PlainDigits(s) witness [ZERO]
  type SomeDigits = s: seq<Byte> | s != [] && AllDigits(s) witness [ZERO]
  type ExponentSign = s: seq<Byte> | s == [] || s == [43] || s == [MINUS]

  datatype Fraction = NoFraction | Fraction(digits: SomeDigits)
  datatype Exponent = NoExponent | Exponent(upper: bool, sign: ExponentSign, digits: SomeDigits)
  datatype Number = Number(negative: bool, digits: IntegerDigits, fraction: Fraction, exponent: Exponent)

  function IntegerPart(n: Number): (bytes: seq<Byte>)
    ensures IntegerText(bytes)
  {
    if n.negative then
      assert ([MINUS] + n.digits)[1..] == n.digits;
      [MINUS] + n.digits
    else
      n.digits
  }

  function NumberTail(n: Number): (bytes: seq<Byte>) {
    (match n.fraction case NoFraction => [] case Fraction(digits) => [46] + digits)
    + (match n.exponent case NoExponent => []
       case Exponent(upper, sign, digits) => [if upper then 69 else 101] + sign + digits)
  }

  // ----- Section 7: strings -----

  type UnescapedChar = c: char | c as int >= 0x20 && c != '\"' && c != '\\' witness 'a'

  function ShortEscape(letter: Byte): (r: Option<char>) {
    match letter
    case 34 => Some('\"')
    case 92 => Some('\\')
    case 47 => Some('/')
    case 98 => Some(8 as char)
    case 102 => Some(12 as char)
    case 110 => Some('\n')
    case 114 => Some('\r')
    case 116 => Some('\t')
    case _ => None
  }

  type ShortLetter = b: Byte | ShortEscape(b).Some? witness 34

  predicate IsHex(b: Byte) {
    IsDigit(b) || 97 <= b <= 102 || 65 <= b <= 70
  }

  function HexValue(b: Byte): (n: nat)
    requires IsHex(b)
    ensures n < 16
  {
    if IsDigit(b) then b - 48 else if b >= 97 then b - 87 else b - 55
  }

  predicate IsHexQuad(s: seq<Byte>) {
    |s| == 4 && IsHex(s[0]) && IsHex(s[1]) && IsHex(s[2]) && IsHex(s[3])
  }

  type HexQuad = s: seq<Byte> | IsHexQuad(s) witness [48, 48, 48, 48]

  function QuadValue(s: HexQuad): (n: nat)
    ensures n < 0x1_0000
  {
    ((HexValue(s[0]) * 16 + HexValue(s[1])) * 16 + HexValue(s[2])) * 16 + HexValue(s[3])
  }

  datatype StringChar = Unescaped(c: UnescapedChar) | Short(letter: ShortLetter) | Hex(digits: HexQuad)

  function CharBytes(c: StringChar): (bytes: seq<Byte>)
    ensures bytes != []
  {
    match c
    case Unescaped(c) => EncodeChar(c)
    case Short(letter) => [BACKSLASH, letter]
    case Hex(digits) => [BACKSLASH, 117] + digits
  }

  function StringBytes(chars: seq<StringChar>): (bytes: seq<Byte>) {
    if chars == [] then [] else CharBytes(chars[0]) + StringBytes(chars[1..])
  }

  predicate HighSurrogate(n: nat) { 0xD800 <= n < 0xDC00 }
  predicate LowSurrogate(n: nat) { 0xDC00 <= n < 0xE000 }

  function SurrogatePair(high: nat, low: nat): (c: char)
    requires HighSurrogate(high) && LowSurrogate(low)
  {
    (0x1_0000 + (high - 0xD800) * 0x400 + (low - 0xDC00)) as char
  }

  function Prepend(c: char, rest: Option<string>): (r: Option<string>) {
    if rest.None? then None else Some([c] + rest.value)
  }

  /** The text a string denotes; none for a surrogate escape outside a pair (section 8.2 of RFC 8259). */
  function StringMeaning(chars: seq<StringChar>): (r: Option<string>) {
    if chars == [] then
      Some("")
    else
      match chars[0]
      case Unescaped(c) => Prepend(c, StringMeaning(chars[1..]))
      case Short(letter) => Prepend(ShortEscape(letter).value, StringMeaning(chars[1..]))
      case Hex(digits) =>
        var n := QuadValue(digits);
        if HighSurrogate(n) then
          if |chars| > 1 && chars[1].Hex? && LowSurrogate(QuadValue(chars[1].digits)) then
            Prepend(SurrogatePair(n, QuadValue(chars[1].digits)), StringMeaning(chars[2..]))
          else
            None
        else if LowSurrogate(n) then
          None
        else
          Prepend(n as char, StringMeaning(chars[1..]))
  }

  // ----- Sections 3 to 5: values, objects, arrays -----

  datatype Text =
    | NullWord
    | TrueWord
    | FalseWord
    | NumberText(number: Number)
    | StringText(chars: seq<StringChar>)
    | EmptyArray(pad: Whitespace)
    | ArrayText(pad: Whitespace, elements: Elements)
    | EmptyObject(pad: Whitespace)
    | ObjectText(pad: Whitespace, members: Members)

  datatype Elements =
    | LastElement(value: Text, after: Whitespace)
    | MoreElements(value: Text, after: Whitespace, before: Whitespace, rest: Elements)

  datatype Members =
    | LastMember(member: Member)
    | MoreMembers(member: Member, before: Whitespace, rest: Members)

  datatype Member =
    Member(key: seq<StringChar>, beforeColon: Whitespace, afterColon: Whitespace, value: Text, after: Whitespace)

  function StringThen(chars: seq<StringChar>, rest: seq<Byte>): (bytes: seq<Byte>) {
    [QUOTE] + (StringBytes(chars) + ([QUOTE] + rest))
  }

  function TextThen(t: Text, rest: seq<Byte>): (bytes: seq<Byte>) {
    match t
    case NullWord => NULL_TEXT + rest
    case TrueWord => TRUE_TEXT + rest
    case FalseWord => FALSE_TEXT + rest
    case NumberText(n) => IntegerPart(n) + (NumberTail(n) + rest)
    case StringText(chars) => StringThen(chars, rest)
    case EmptyArray(pad) => [OPEN_ARRAY] + (pad + ([CLOSE_ARRAY] + rest))
    case ArrayText(pad, elements) => [OPEN_ARRAY] + (pad + ElementsThen(elements, rest))
    case EmptyObject(pad) => [OPEN_OBJECT] + (pad + ([CLOSE_OBJECT] + rest))
    case ObjectText(pad, members) => [OPEN_OBJECT] + (pad + MembersThen(members, rest))
  }

  /** The elements up to and with the closing bracket, then `rest`. */
  function ElementsThen(e: Elements, rest: seq<Byte>): (bytes: seq<Byte>) {
    match e
    case LastElement(value, after) => TextThen(value, after + ([CLOSE_ARRAY] + rest))
    case MoreElements(value, after, before, more) =>
      TextThen(value, after + ([COMMA] + (before + ElementsThen(more, rest))))
  }

  function MemberThen(m: Member, rest: seq<Byte>): (bytes: seq<Byte>) {
    StringThen(m.key, m.beforeColon + ([COLON] + (m.afterColon + TextThen(m.value, m.after + rest))))
  }

  /** The members up to and with the closing brace, then `rest`. */
  function MembersThen(m: Members, rest: seq<Byte>): (bytes: seq<Byte>) {
    match m
    case LastMember(member) => MemberThen(member, [CLOSE_OBJECT] + rest)
    case MoreMembers(member, before, more) => MemberThen(member, [COMMA] + (before + MembersThen(more, rest)))
  }
}
