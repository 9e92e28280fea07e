/**
  What the bounded JSON reader computes, as a function of the bytes that are left to read.

  `ReadDocument` is the specification of the `JsonParser` class in JsonParser.dfy. JsonReaderProofs
  and JsonReaderSoundness compare it with the grammar of RFC 8259.
  */
module JsonReader {
  import opened Utf8
  import opened CanonicalJson
  import opened Decimal
  import opened JsonGrammar
  import opened JsonStrings
  import opened DocumentWalk

  datatype Read<+T> = Done(value: T, rest: seq<Byte>, nodes: nat) | Fail(error: ConfigError)

  const UNDECODABLE := InvalidDocument("undecodable JSON string")
  const BAD_NUMBER := InvalidDocument("invalid JSON number")
  const BAD_LITERAL := InvalidDocument("invalid JSON literal")
  const BAD_SYNTAX := InvalidDocument("invalid JSON syntax")

  function SkipWhitespace(s: seq<Byte>): (rest: seq<Byte>)
    ensures |rest| <= |s|
    ensures rest != [] ==> !IsWhitespace(rest[0])
  {
    if s != [] && IsWhitespace(s[0]) then SkipWhitespace(s[1..]) else s
  }

  function SkipDigits(s: seq<Byte>): (rest: seq<Byte>)
    ensures |rest| <= |s|
    ensures rest == s[|s| - |rest|..]
    ensures AllDigits(s[..|s| - |rest|])
    ensures rest != [] ==> !IsDigit(rest[0])
  {
    if s != [] && IsDigit(s[0]) then SkipDigits(s[1..]) else s
  }

  lemma SkipDigitStep(bytes: seq<Byte>, index: nat)
    requires index < |bytes| && IsDigit(bytes[index])
    ensures SkipDigits(bytes[index..]) == SkipDigits(bytes[index + 1..])
  {
    assert bytes[index..][1..] == bytes[index + 1..];
  }

  lemma SkipDigitsEnd(s: seq<Byte>)
    requires s == [] || !IsDigit(s[0])
    ensures SkipDigits(s) == s
  {
  }

  predicate StartsWith(s: seq<Byte>, b: Byte) {
    s != [] && s[0] == b
  }

  predicate NumberDelimiter(b: Byte) {
    b == COMMA || b == CLOSE_ARRAY || b == CLOSE_OBJECT || IsWhitespace(b)
  }

  predicate WordByte(b: Byte) {
    IsDigit(b) || 65 <= b <= 90 || 97 <= b <= 122 || b == 95
  }

  // ----- Scalars -----

  function ReadLiteral(s: seq<Byte>, literal: seq<Byte>, value: Value, nodes: nat): (r: Read<Value>)
    requires literal != []
    ensures r.Done? ==> |r.rest| < |s|
  {
    if literal <= s then
      var rest := s[|literal|..];
      if rest != [] && WordByte(rest[0]) then Fail(BAD_LITERAL) else Done(value, rest, nodes)
    else
      Fail(BAD_LITERAL)
  }

  /** `s` starts with the opening quote. */
  function ReadString(s: seq<Byte>, nodes: nat): (r: Read<string>)
    requires StartsWith(s, QUOTE)
    ensures r.Done? ==> |r.rest| < |s| && r.nodes == nodes
  {
    match ScanString(s[1..], false)
    case Unterminated => Fail(InvalidDocument("unterminated JSON string"))
    case ControlCharacter => Fail(InvalidDocument("control character in JSON string"))
    case Closed(at) =>
      var text := DecodeBody(s[1..][..at]);
      if text.None? then Fail(UNDECODABLE) else Done(text.value, s[1..][at + 1..], nodes)
  }

  /** The bytes after the integer part, or the failure the integer part causes. */
  function SkipInteger(unsigned: seq<Byte>): (r: Read<()>)
    ensures r.Done? ==> |r.rest| < |unsigned| && r.rest == unsigned[|unsigned| - |r.rest|..]
    ensures r.Done? ==> PlainDigits(unsigned[..|unsigned| - |r.rest|])
  {
    if unsigned == [] then
      Fail(BAD_NUMBER)
    else if unsigned[0] == ZERO then
      if |unsigned| > 1 && IsDigit(unsigned[1]) then Fail(InvalidDocument("leading zero in JSON number"))
      else Done((), unsigned[1..], 0)
    else if IsDigit(unsigned[0]) then
      Done((), SkipDigits(unsigned[1..]), 0)
    else
      Fail(BAD_NUMBER)
  }

  predicate ParsesAsI64(n: int) { -0x8000_0000_0000_0000 <= n < 0x8000_0000_0000_0000 }
  predicate ParsesAsU64(n: int) { 0 <= n <= 0xFFFF_FFFF_FFFF_FFFF }

  /** A complete integer text: `-0` and what fits neither `i64` nor `u64` are refused. */
  function IntegerDoc(text: seq<Byte>): (d: Doc)
    requires IntegerText(text)
    ensures d.Scalar? || d == Refused(NonCanonicalNumber)
  {
    var n := IntegerValue(text);
    if text == NEGATIVE_ZERO then Refused(NonCanonicalNumber)
    else if ParsesAsI64(n) then Scalar(Int(n))
    else if text[0] != MINUS && ParsesAsU64(n) then Scalar(Int(n))
    else Refused(NonCanonicalNumber)
  }

  /** `s` starts with a minus sign or a digit. */
  function ReadNumber(s: seq<Byte>, nodes: nat): (r: Read<Value>)
    requires s != []
    ensures r.Done? ==> |r.rest| < |s|
  {
    var unsigned := if s[0] == MINUS then s[1..] else s;
    if unsigned == [] then
      Fail(InvalidDocument("incomplete JSON number"))
    else
      match SkipInteger(unsigned)
      case Fail(error) => Fail(error)
      case Done(_, rest, _) =>
        IntegerTextLeads(s, rest);
        FinishNumber(s[..|s| - |rest|], rest, nodes)
  }

  /** Decides on a complete integer part by what comes behind it. */
  function FinishNumber(integer: seq<Byte>, rest: seq<Byte>, nodes: nat): (r: Read<Value>)
    requires IntegerText(integer)
    ensures r.Done? ==> r.rest == rest
  {
    if rest != [] && rest[0] in [46, 101, 69] then Fail(NonCanonicalNumber)
    else if rest != [] && !NumberDelimiter(rest[0]) then Fail(BAD_NUMBER)
    else
      match IntegerDoc(integer)
      case Scalar(v) => Done(v, rest, nodes)
      case _ => Fail(NonCanonicalNumber)
  }

  lemma IntegerTextLeads(s: seq<Byte>, rest: seq<Byte>)
    requires s != []
    requires var unsigned := if s[0] == MINUS then s[1..] else s;
             |rest| < |unsigned| && PlainDigits(unsigned[..|unsigned| - |rest|])
    ensures IntegerText(s[..|s| - |rest|])
  {
    if s[0] == MINUS {
      assert s[..|s| - |rest|][1..] == s[1..][..|s| - 1 - |rest|];
    }
  }

  lemma ReadNumberFails(s: seq<Byte>, unsigned: seq<Byte>, nodes: nat)
    requires s != [] && unsigned == (if s[0] == MINUS then s[1..] else s)
    requires unsigned == [] || SkipInteger(unsigned).Fail?
    ensures ReadNumber(s, nodes)
            == Fail(if unsigned == [] then InvalidDocument("incomplete JSON number") else SkipInteger(unsigned).error)
  {
  }

  lemma ReadNumberFinishes(s: seq<Byte>, unsigned: seq<Byte>, rest: seq<Byte>, nodes: nat)
    requires s != [] && unsigned == (if s[0] == MINUS then s[1..] else s)
    requires unsigned != [] && SkipInteger(unsigned).Done? && SkipInteger(unsigned).rest == rest
    ensures IntegerText(s[..|s| - |rest|])
    ensures ReadNumber(s, nodes) == FinishNumber(s[..|s| - |rest|], rest, nodes)
  {
    hide SkipInteger, FinishNumber;
    IntegerTextLeads(s, rest);
  }

  // ----- Values -----

  function ReadValue(s: seq<Byte>, depth: nat, nodes: nat, limits: Limits): (r: Read<Value>)
    ensures r.Done? ==> |r.rest| < |s|
    decreases |s|, 1
  {
    if depth > limits.maxDepth then
      Fail(InputTooDeep(limits.maxDepth, depth))
    else if nodes + 1 > limits.maxNodes then
      Fail(InputTooComplex(limits.maxNodes, nodes + 1))
    else if s == [] then
      Fail(InvalidDocument("expected a JSON value"))
    else if s[0] == OPEN_OBJECT then
      ReadObject(s, depth, nodes + 1, limits)
    else if s[0] == OPEN_ARRAY then
      ReadArray(s, depth, nodes + 1, limits)
    else if s[0] == QUOTE then
      match ReadString(s, nodes + 1)
      case Fail(error) => Fail(error)
      case Done(text, rest, n) => Done(String(text), rest, n)
    else if s[0] == TRUE_TEXT[0] then
      ReadLiteral(s, TRUE_TEXT, Bool(true), nodes + 1)
    else if s[0] == FALSE_TEXT[0] then
      ReadLiteral(s, FALSE_TEXT, Bool(false), nodes + 1)
    else if s[0] == NULL_TEXT[0] then
      ReadLiteral(s, NULL_TEXT, Null, nodes + 1)
    else if s[0] == MINUS || IsDigit(s[0]) then
      ReadNumber(s, nodes + 1)
    else
      Fail(InvalidDocument("expected a JSON value"))
  }

  /** `s` starts with the opening bracket. */
  function ReadArray(s: seq<Byte>, depth: nat, nodes: nat, limits: Limits): (r: Read<Value>)
    requires s != []
    ensures r.Done? ==> |r.rest| < |s|
    decreases |s|, 0
  {
    var inner := SkipWhitespace(s[1..]);
    if StartsWith(inner, CLOSE_ARRAY) then Done(Array([]), inner[1..], nodes)
    else ReadElements(inner, depth, nodes, limits, [])
  }

  /** `s` starts with the opening brace. */
  function ReadObject(s: seq<Byte>, depth: nat, nodes: nat, limits: Limits): (r: Read<Value>)
    requires s != []
    ensures r.Done? ==> |r.rest| < |s|
    decreases |s|, 0
  {
    var inner := SkipWhitespace(s[1..]);
    if StartsWith(inner, CLOSE_OBJECT) then Done(Object(map[]), inner[1..], nodes)
    else ReadMembers(inner, depth, nodes, limits, map[])
  }

  /** From the first byte of an element to behind the closing bracket. */
  function ReadElements(s: seq<Byte>, depth: nat, nodes: nat, limits: Limits, done: seq<Value>): (r: Read<Value>)
    ensures r.Done? ==> |r.rest| <= |s|
    decreases |s|, 2
  {
    match ReadValue(s, depth + 1, nodes, limits)
    case Fail(error) => Fail(error)
    case Done(v, rest, n) =>
      var next := SkipWhitespace(rest);
      if StartsWith(next, CLOSE_ARRAY) then Done(Array(done + [v]), next[1..], n)
      else if !StartsWith(next, COMMA) then Fail(BAD_SYNTAX)
      else ReadElements(SkipWhitespace(next[1..]), depth, n, limits, done + [v])
  }

  /** A key that is not yet among `done`, its colon and the white space around it. */
  function ReadKey(s: seq<Byte>, nodes: nat, done: map<string, Value>): (r: Read<string>)
    ensures r.Done? ==> |r.rest| < |s| && r.nodes == nodes
  {
    if !StartsWith(s, QUOTE) then
      Fail(InvalidDocument("JSON object keys must be strings"))
    else
      match ReadString(s, nodes)
      case Fail(error) => Fail(error)
      case Done(key, afterKey, _) =>
        if key in done then
          Fail(DuplicateKey(key))
        else
          var colon := SkipWhitespace(afterKey);
          if StartsWith(colon, COLON) then Done(key, SkipWhitespace(colon[1..]), nodes) else Fail(BAD_SYNTAX)
  }

  /** From the first byte of a member to behind the closing brace. */
  function ReadMembers(s: seq<Byte>, depth: nat, nodes: nat, limits: Limits, done: map<string, Value>): (r: Read<Value>)
    ensures r.Done? ==> |r.rest| <= |s|
    decreases |s|, 2
  {
    match ReadKey(s, nodes, done)
    case Fail(error) => Fail(error)
    case Done(key, afterColon, _) =>
      match ReadValue(afterColon, depth + 1, nodes, limits)
      case Fail(error) => Fail(error)
      case Done(v, rest, n) =>
        var next := SkipWhitespace(rest);
        if StartsWith(next, CLOSE_OBJECT) then Done(Object(done[key := v]), next[1..], n)
        else if !StartsWith(next, COMMA) then Fail(BAD_SYNTAX)
        else ReadMembers(SkipWhitespace(next[1..]), depth, n, limits, done[key := v])
  }

  datatype Result<+T> = Ok(value: T) | Err(error: ConfigError)

  function ReadDocument(s: seq<Byte>, limits: Limits): (r: Result<Value>) {
    match ReadValue(SkipWhitespace(s), 1, 0, limits)
    case Fail(error) => Err(error)
    case Done(v, rest, _) =>
      if SkipWhitespace(rest) != [] then Err(InvalidDocument("trailing data after JSON document")) else Ok(v)
  }

  // ----- The counter -----

  /** Every counted node has taken at least one byte, so the counter stays below the length of the input. */
  lemma {:induction false} CountWithinInput(s: seq<Byte>, depth: nat, nodes: nat, limits: Limits)
    ensures var r := ReadValue(s, depth, nodes, limits); r.Done? ==> nodes < r.nodes <= nodes + |s| - |r.rest|
    decreases |s|, 1
  {
    hide SkipWhitespace, ReadElements, ReadMembers;
    if ReadValue(s, depth, nodes, limits).Done? && s != [] {
      var inner := SkipWhitespace(s[1..]);
      if s[0] == OPEN_ARRAY && !StartsWith(inner, CLOSE_ARRAY) {
        ElementCountWithinInput(inner, depth, nodes + 1, limits, []);
      } else if s[0] == OPEN_OBJECT && !StartsWith(inner, CLOSE_OBJECT) {
        MemberCountWithinInput(inner, depth, nodes + 1, limits, map[]);
      }
    }
  }

  lemma {:induction false} ElementCountWithinInput(s: seq<Byte>, depth: nat, nodes: nat, limits: Limits,
                                                   done: seq<Value>)
    ensures var r := ReadElements(s, depth, nodes, limits, done); r.Done? ==> nodes < r.nodes <= nodes + |s| - |r.rest|
    decreases |s|, 2
  {
    hide SkipWhitespace, ReadValue;
    CountWithinInput(s, depth + 1, nodes, limits);
    var first := ReadValue(s, depth + 1, nodes, limits);
    if first.Done? {
      var next := SkipWhitespace(first.rest);
      if StartsWith(next, COMMA) {
        ElementCountWithinInput(SkipWhitespace(next[1..]), depth, first.nodes, limits, done + [first.value]);
      }
    }
  }

  lemma {:induction false} MemberCountWithinInput(
    s: seq<Byte>, depth: nat, nodes: nat, limits: Limits, done: map<string, Value>)
    ensures var r := ReadMembers(s, depth, nodes, limits, done); r.Done? ==> nodes < r.nodes <= nodes + |s| - |r.rest|
    decreases |s|, 2
  {
    hide SkipWhitespace, ReadValue, ReadKey;
    var key := ReadKey(s, nodes, done);
    if key.Done? {
      CountWithinInput(key.rest, depth + 1, nodes, limits);
      var first := ReadValue(key.rest, depth + 1, nodes, limits);
      if first.Done? {
        var next := SkipWhitespace(first.rest);
        if StartsWith(next, COMMA) {
          MemberCountWithinInput(SkipWhitespace(next[1..]), depth, first.nodes, limits, done[key.value := first.value]);
        }
      }
    }
  }
}
