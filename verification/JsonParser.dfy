/**
  The bounded JSON reader in the form of the source: an object with a position and a node counter
  that its methods move forward. Each method is proved against the function of JsonReader.dfy that
  reads the bytes left at the old position.
  */
module JsonParser {
  import opened Utf8
  import opened CanonicalJson
  import opened Decimal
  import opened JsonGrammar
  import opened JsonStrings
  import opened DocumentWalk
  import opened JsonReader

  /** Counts the backslashes that end just before `index`, backwards, and tests the parity. */
  method JsonStringQuoteIsEscaped(bytes: seq<Byte>, index: nat) returns (escaped: bool)
    requires index <= |bytes|
    ensures escaped <==> BackslashesBefore(bytes, index) % 2 == 1
  {
    var count, cursor := 0, index;
    while cursor > 0 && bytes[cursor - 1] == BACKSLASH
      invariant 0 <= cursor <= index
      invariant count + BackslashesBefore(bytes, cursor) == BackslashesBefore(bytes, index)
    {
      count := count + 1;
      cursor := cursor - 1;
    }
    escaped := count % 2 == 1;
  }

  class JsonParser {
    const input: seq<Byte>
    const limits: Limits
    var position: nat
    var nodes: nat

    ghost predicate Valid()
      reads this
    {
      position <= |input|
    }

    /** The bytes that are left to read. */
    ghost function Left(): (s: seq<Byte>)
      requires Valid()
      reads this
    {
      input[position..]
    }

    /** A method's result and the new state are what the specification says of the bytes that were left. */
    ghost predicate Agrees<T>(spec: Read<T>, r: Result<T>)
      reads this
    {
      && Valid()
      && match spec
         case Done(value, rest, count) => r == Ok(value) && Left() == rest && nodes == count
         case Fail(error) => r == Err(error)
    }

    constructor (input: seq<Byte>, limits: Limits)
      ensures Valid() && this.input == input && this.limits == limits
      ensures position == 0 && nodes == 0
    {
      this.input := input;
      this.limits := limits;
      position := 0;
      nodes := 0;
    }

    function Peek(): (b: Option<Byte>)
      reads this
    {
      if position < |input| then Some(input[position]) else None
    }

    method SkipWhitespace()
      requires Valid()
      modifies this
      ensures Valid() && nodes == old(nodes)
      ensures Left() == JsonReader.SkipWhitespace(old(Left()))
    {
      while Peek().Some? && IsWhitespace(Peek().value)
        invariant Valid() && nodes == old(nodes)
        invariant JsonReader.SkipWhitespace(Left()) == JsonReader.SkipWhitespace(old(Left()))
        decreases |input| - position
      {
        assert Left()[1..] == input[position + 1..];
        position := position + 1;
      }
    }

    method Consume(expected: Byte) returns (found: bool)
      requires Valid()
      modifies this
      ensures Valid() && nodes == old(nodes)
      ensures found <==> StartsWith(old(Left()), expected)
      ensures Left() == if found then old(Left())[1..] else old(Left())
    {
      found := Peek() == Some(expected);
      if found {
        position := position + 1;
      }
    }

    method ExpectLiteral(literal: seq<Byte>, value: Value) returns (r: Result<Value>)
      requires Valid() && literal != []
      modifies this
      ensures Agrees(ReadLiteral(old(Left()), literal, value, old(nodes)), r)
    {
      if literal <= input[position..] {
        position := position + |literal|;
        if Peek().Some? && WordByte(Peek().value) {
          return Err(BAD_LITERAL);
        }
        assert Left() == old(Left())[|literal|..];
        r := Ok(value);
      } else {
        r := Err(BAD_LITERAL);
      }
    }

    method CountNode(depth: nat) returns (r: Result<()>)
      requires Valid()
      modifies this
      ensures Valid() && Left() == old(Left())
      ensures r == if depth > limits.maxDepth then Err(InputTooDeep(limits.maxDepth, depth))
                   else if old(nodes) + 1 > limits.maxNodes then Err(InputTooComplex(limits.maxNodes, old(nodes) + 1))
                   else Ok(())
      ensures nodes == if depth > limits.maxDepth then old(nodes) else old(nodes) + 1
    {
      if depth > limits.maxDepth {
        return Err(InputTooDeep(limits.maxDepth, depth));
      }
      nodes := nodes + 1;
      if nodes > limits.maxNodes {
        return Err(InputTooComplex(limits.maxNodes, nodes));
      }
      r := Ok(());
    }

    /** Moves from behind the opening quote to the closing one. */
    method FindClosingQuote() returns (scan: Scan)
      requires Valid() && position > 0 && input[position - 1] == QUOTE
      modifies this`position
      ensures Valid() && scan == ScanString(old(Left()), false)
      ensures scan.Closed? ==> position == old(position) + scan.at
    {
      hide ScanString, EscapedAt, BackslashesBefore;
      var start := position;
      ghost var spec := ScanString(input[start..], false);
      ScanStarts(input, start);
      while position < |input|
        invariant start <= position <= |input|
        invariant Shift(ScanString(input[position..], EscapedAt(input, start, position)), position - start) == spec
        decreases |input| - position
      {
        ParityIsAutomaton(input, start - 1, position);
        ScanStep(input, start, position);
        var escaped := JsonStringQuoteIsEscaped(input, position);
        if input[position] == QUOTE && !escaped {
          return Closed(position - start);
        } else if input[position] < 0x20 {
          return ControlCharacter;
        }
        position := position + 1;
      }
      ScanEnds(input, start);
      scan := Unterminated;
    }

    method ParseString() returns (r: Result<string>)
      requires Valid() && StartsWith(Left(), QUOTE)
      modifies this
      ensures Agrees(ReadString(old(Left()), old(nodes)), r)
    {
      hide ScanString, DecodeBody;
      position := position + 1;
      var start := position;
      assert old(Left())[1..] == Left();
      var scan := FindClosingQuote();
      match scan
      case Unterminated => r := Err(InvalidDocument("unterminated JSON string"));
      case ControlCharacter => r := Err(InvalidDocument("control character in JSON string"));
      case Closed(at) =>
        assert old(Left())[1..][..at] == input[start..position];
        assert old(Left())[1..][at + 1..] == input[position + 1..];
        var text := DecodeBody(input[start..position]);
        position := position + 1;
        r := if text.Some? then Ok(text.value) else Err(UNDECODABLE);
    }

    method ParseNumber() returns (r: Result<Value>)
      requires Valid() && position < |input|
      modifies this
      ensures Agrees(ReadNumber(old(Left()), old(nodes)), r)
    {
      hide ReadNumber, FinishNumber, SkipInteger;
      ghost var left := Left();
      var start := position;
      var negative := Consume(MINUS);
      ghost var unsigned := Left();
      if negative && Peek().None? {
        ReadNumberFails(left, unsigned, nodes);
        return Err(InvalidDocument("incomplete JSON number"));
      }
      var integer := SkipIntegerPart();
      if integer.Err? {
        ReadNumberFails(left, unsigned, nodes);
        return Err(integer.error);
      }
      ReadNumberFinishes(left, unsigned, Left(), nodes);
      assert left[..|left| - |Left()|] == input[start..position];
      r := DecideNumber(input[start..position]);
    }

    /** Decides on the integer part just read by the byte at the position. */
    method DecideNumber(integer: seq<Byte>) returns (r: Result<Value>)
      requires Valid() && IntegerText(integer)
      ensures Agrees(FinishNumber(integer, Left(), nodes), r)
    {
      hide IntegerDoc;
      if Peek().Some? && Peek().value in [46, 101, 69] {
        return Err(NonCanonicalNumber);
      }
      if Peek().Some? && !NumberDelimiter(Peek().value) {
        return Err(BAD_NUMBER);
      }
      var number := IntegerDoc(integer);
      r := if number.Scalar? then Ok(number.value) else Err(NonCanonicalNumber);
    }

    /** One zero, or a digit from one to nine and all digits behind it. */
    method SkipIntegerPart() returns (r: Result<()>)
      requires Valid()
      modifies this`position
      ensures Valid()
      ensures match SkipInteger(old(Left()))
              case Done(_, rest, _) => r == Ok(()) && Left() == rest
              case Fail(error) => r == Err(error)
    {
      hide SkipDigits;
      if Peek() == Some(ZERO) {
        position := position + 1;
        assert Left() == old(Left())[1..];
        if Peek().Some? && IsDigit(Peek().value) {
          return Err(InvalidDocument("leading zero in JSON number"));
        }
        r := Ok(());
      } else if Peek().Some? && IsDigit(Peek().value) {
        position := position + 1;
        assert Left() == old(Left())[1..];
        SkipAllDigits();
        r := Ok(());
      } else {
        r := Err(BAD_NUMBER);
      }
    }

    method SkipAllDigits()
      requires Valid()
      modifies this`position
      ensures Valid() && Left() == SkipDigits(old(Left()))
    {
      hide SkipDigits;
      ghost var left := input[position..];
      while Peek().Some? && IsDigit(Peek().value)
        invariant position <= |input|
        invariant SkipDigits(input[position..]) == SkipDigits(left)
        decreases |input| - position
      {
        SkipDigitStep(input, position);
        position := position + 1;
      }
      SkipDigitsEnd(input[position..]);
    }
  
    method ParseValue(depth: nat) returns (r: Result<Value>)
      requires Valid()
      modifies this
      ensures Agrees(ReadValue(old(Left()), depth, old(nodes), limits), r)
      decreases |input| - position, 1
    {
      hide ReadObject, ReadArray, ReadString, ReadNumber, ReadLiteral;
      var counted := CountNode(depth);
      if counted.Err? {
        return Err(counted.error);
      }
      match Peek()
      case None => r := Err(InvalidDocument("expected a JSON value"));
      case Some(b) =>
        if b == OPEN_OBJECT {
          r := ParseObject(depth);
        } else if b == OPEN_ARRAY {
          r := ParseArray(depth);
        } else if b == QUOTE {
          var text := ParseString();
          r := if text.Ok? then Ok(String(text.value)) else Err(text.error);
        } else if b == TRUE_TEXT[0] {
          r := ExpectLiteral(TRUE_TEXT, Bool(true));
        } else if b == FALSE_TEXT[0] {
          r := ExpectLiteral(FALSE_TEXT, Bool(false));
        } else if b == NULL_TEXT[0] {
          r := ExpectLiteral(NULL_TEXT, Null);
        } else if b == MINUS || IsDigit(b) {
          r := ParseNumber();
        } else {
          r := Err(InvalidDocument("expected a JSON value"));
        }
    }

    method ParseArray(depth: nat) returns (r: Result<Value>)
      requires Valid() && Left() != []
      modifies this
      ensures Agrees(ReadArray(old(Left()), depth, old(nodes), limits), r)
      decreases |input| - position, 0
    {
      hide ReadElements;
      position := position + 1;
      assert Left() == old(Left())[1..];
      SkipWhitespace();
      var closed := Consume(CLOSE_ARRAY);
      if closed {
        return Ok(Array([]));
      }
      r := ParseElements(depth);
    }

    method ParseElements(depth: nat) returns (r: Result<Value>)
      requires Valid()
      modifies this
      ensures Agrees(ReadElements(old(Left()), depth, old(nodes), limits, []), r)
      decreases |input| - position, 2
    {
      hide ReadValue, JsonReader.SkipWhitespace;
      var values := [];
      while true
        invariant Valid() && |Left()| <= |old(Left())|
        invariant ReadElements(Left(), depth, nodes, limits, values)
                  == ReadElements(old(Left()), depth, old(nodes), limits, [])
        decreases |input| - position
      {
        var value := ParseValue(depth + 1);
        if value.Err? {
          return value;
        }
        values := values + [value.value];
        SkipWhitespace();
        var closed := Consume(CLOSE_ARRAY);
        if closed {
          return Ok(Array(values));
        }
        var comma := Consume(COMMA);
        if !comma {
          return Err(BAD_SYNTAX);
        }
        SkipWhitespace();
      }
    }
  
    method ParseObject(depth: nat) returns (r: Result<Value>)
      requires Valid() && Left() != []
      modifies this
      ensures Agrees(ReadObject(old(Left()), depth, old(nodes), limits), r)
      decreases |input| - position, 0
    {
      hide ReadMembers;
      position := position + 1;
      assert Left() == old(Left())[1..];
      SkipWhitespace();
      var closed := Consume(CLOSE_OBJECT);
      if closed {
        return Ok(Object(map[]));
      }
      r := ParseMembers(depth);
    }

    /** A key that was not seen before, with its colon and the white space around it. */
    method ParseKey(values: map<string, Value>) returns (r: Result<string>)
      requires Valid()
      modifies this
      ensures Agrees(ReadKey(old(Left()), old(nodes), values), r)
    {
      hide ReadString, JsonReader.SkipWhitespace;
      if Peek() != Some(QUOTE) {
        return Err(InvalidDocument("JSON object keys must be strings"));
      }
      r := ParseString();
      if r.Err? {
        return;
      }
      if r.value in values {
        return Err(DuplicateKey(r.value));
      }
      SkipWhitespace();
      var colon := Consume(COLON);
      if !colon {
        return Err(BAD_SYNTAX);
      }
      SkipWhitespace();
    }

    method ParseMembers(depth: nat) returns (r: Result<Value>)
      requires Valid()
      modifies this
      ensures Agrees(ReadMembers(old(Left()), depth, old(nodes), limits, map[]), r)
      decreases |input| - position, 2
    {
      hide ReadValue, ReadKey, JsonReader.SkipWhitespace;
      var values: map<string, Value> := map[];
      while true
        invariant Valid() && |Left()| <= |old(Left())|
        invariant ReadMembers(Left(), depth, nodes, limits, values)
                  == ReadMembers(old(Left()), depth, old(nodes), limits, map[])
        decreases |input| - position
      {
        var key := ParseKey(values);
        if key.Err? {
          return Err(key.error);
        }
        var value := ParseValue(depth + 1);
        if value.Err? {
          return value;
        }
        values := values[key.value := value.value];
        SkipWhitespace();
        var closed := Consume(CLOSE_OBJECT);
        if closed {
          return Ok(Object(values));
        }
        var comma := Consume(COMMA);
        if !comma {
          return Err(BAD_SYNTAX);
        }
        SkipWhitespace();
      }
    }

    /** The whole document. */
    method Parse() returns (r: Result<Value>)
      requires position == 0 && nodes == 0
      modifies this
      ensures r == ReadDocument(input, limits)
    {
      hide ReadValue, JsonReader.SkipWhitespace;
      assert input[0..] == input;
      SkipWhitespace();
      r := ParseValue(1);
      if r.Err? {
        return;
      }
      SkipWhitespace();
      if position != |input| {
        return Err(InvalidDocument("trailing data after JSON document"));
      }
    }
  }
}
