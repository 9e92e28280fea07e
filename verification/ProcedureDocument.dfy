/**
  A Procedure document in JSON form, from bytes to value: the size limit, the encoding, the bounded
  reader and the refusal of nulls together.
  */
module ProcedureDocument {
  import opened Utf8
  import opened CanonicalJson
  import opened CanonicalRoundTrip
  import opened DocumentWalk
  import opened JsonDocument
  import opened JsonGrammar
  import opened JsonReader
  import JsonFaults
  import JsonParser
  import Utf8Table
  import YamlVisitor

  const NOT_UTF8 := InvalidDocument("input must be valid UTF-8")

  /** The stages in order, each with its own error. */
  function DecodedDocument(input: seq<Byte>, limits: Limits): (r: Result<Value>) {
    if |input| > limits.maxBytes then Err(InputTooLarge(limits.maxBytes, |input|))
    else if Decode(input).None? then Err(NOT_UTF8)
    else
      match ReadDocument(input, limits)
      case Err(error) => Err(error)
      case Ok(value) => if YamlVisitor.RejectNullsPasses(value) then Ok(value) else Err(YamlVisitor.NULL_REFUSED)
  }

  method DecodeProcedureDocument(input: seq<Byte>, limits: Limits) returns (r: Result<Value>)
    ensures r == DecodedDocument(input, limits)
  {
    if |input| > limits.maxBytes {
      return Err(InputTooLarge(limits.maxBytes, |input|));
    }
    if Decode(input).None? {
      return Err(NOT_UTF8);
    }
    var parser := new JsonParser.JsonParser(input, limits);
    r := parser.Parse();
    if r.Ok? && !YamlVisitor.RejectNullsPasses(r.value) {
      r := Err(YamlVisitor.NULL_REFUSED);
    }
  }

  // ----- Every JSON text is UTF-8 -----

  ghost predicate IsUtf8(b: seq<Byte>) {
    Decode(b).Some?
  }

  lemma JoinUtf8(a: seq<Byte>, b: seq<Byte>)
    requires IsUtf8(a) && IsUtf8(b)
    ensures IsUtf8(a + b)
  {
    hide Decode, Encode;
    EncodeDecoded(a);
    EncodeDecoded(b);
    var x, y := Decode(a).value, Decode(b).value;
    EncodeConcat(x, y);
    DecodeEncoded(x + y);
  }

  lemma AsciiIsUtf8(b: seq<Byte>)
    requires forall i :: 0 <= i < |b| ==> b[i] < 0x80
    ensures IsUtf8(b)
  {
    hide Decode, Encode;
    var text := seq(|b|, i requires 0 <= i < |b| => b[i] as char);
    EncodeAscii(text);
    assert Encode(text) == b;
    DecodeEncoded(text);
  }

  lemma CharIsUtf8(c: StringChar)
    ensures IsUtf8(CharBytes(c))
  {
    hide IsUtf8, Decode;
    match c
    case Unescaped(ch) => OneCharIsUtf8(ch);
    case Short(letter) => AsciiIsUtf8([BACKSLASH, letter]);
    case Hex(digits) => AsciiIsUtf8([BACKSLASH, 117] + digits);
  }

  lemma OneCharIsUtf8(c: char)
    ensures IsUtf8(EncodeChar(c))
  {
    hide Decode, EncodeChar;
    assert Encode([c]) == EncodeChar(c) + Encode("") == EncodeChar(c);
    DecodeEncoded([c]);
  }

  lemma {:induction false} StringIsUtf8(chars: seq<StringChar>)
    ensures IsUtf8(StringBytes(chars))
  {
    hide IsUtf8, CharBytes;
    if chars == [] {
      AsciiIsUtf8([]);
    } else {
      StringIsUtf8(chars[1..]);
      CharIsUtf8(chars[0]);
      JoinUtf8(CharBytes(chars[0]), StringBytes(chars[1..]));
    }
  }

  /** One ASCII byte, or white space, in front. */
  lemma ByteThenUtf8(b: Byte, rest: seq<Byte>)
    requires b < 0x80 && IsUtf8(rest)
    ensures IsUtf8([b] + rest)
  {
    hide IsUtf8;
    AsciiIsUtf8([b]);
    JoinUtf8([b], rest);
  }

  lemma PadThenUtf8(pad: Whitespace, rest: seq<Byte>)
    requires IsUtf8(rest)
    ensures IsUtf8(pad + rest)
  {
    hide IsUtf8;
    AsciiIsUtf8(pad);
    JoinUtf8(pad, rest);
  }

  lemma StringThenUtf8(chars: seq<StringChar>, rest: seq<Byte>)
    requires IsUtf8(rest)
    ensures IsUtf8(StringThen(chars, rest))
  {
    hide IsUtf8, StringBytes;
    ByteThenUtf8(QUOTE, rest);
    StringIsUtf8(chars);
    JoinUtf8(StringBytes(chars), [QUOTE] + rest);
    ByteThenUtf8(QUOTE, StringBytes(chars) + ([QUOTE] + rest));
  }

  lemma NumberThenUtf8(n: Number, rest: seq<Byte>)
    requires IsUtf8(rest)
    ensures IsUtf8(IntegerPart(n) + (NumberTail(n) + rest))
  {
    hide IsUtf8;
    AsciiIsUtf8(NumberTail(n));
    AsciiIsUtf8(IntegerPart(n));
    JoinUtf8(NumberTail(n), rest);
    JoinUtf8(IntegerPart(n), NumberTail(n) + rest);
  }

  lemma WordThenUtf8(word: seq<Byte>, rest: seq<Byte>)
    requires (word == NULL_TEXT || word == TRUE_TEXT || word == FALSE_TEXT) && IsUtf8(rest)
    ensures IsUtf8(word + rest)
  {
    hide IsUtf8;
    AsciiIsUtf8(word);
    JoinUtf8(word, rest);
  }

  /** Every text of the grammar is valid UTF-8, if what follows it is. */
  lemma {:induction false} TextThenUtf8(t: Text, rest: seq<Byte>)
    requires IsUtf8(rest)
    ensures IsUtf8(TextThen(t, rest))
    decreases t
  {
    hide IsUtf8, StringThen, NumberTail, IntegerPart;
    match t
    case NullWord => WordThenUtf8(NULL_TEXT, rest);
    case TrueWord => WordThenUtf8(TRUE_TEXT, rest);
    case FalseWord => WordThenUtf8(FALSE_TEXT, rest);
    case NumberText(n) => NumberThenUtf8(n, rest);
    case StringText(chars) => StringThenUtf8(chars, rest);
    case EmptyArray(pad) =>
      ByteThenUtf8(CLOSE_ARRAY, rest);
      PadThenUtf8(pad, [CLOSE_ARRAY] + rest);
      ByteThenUtf8(OPEN_ARRAY, pad + ([CLOSE_ARRAY] + rest));
    case ArrayText(pad, elements) =>
      ElementsThenUtf8(elements, rest);
      PadThenUtf8(pad, ElementsThen(elements, rest));
      ByteThenUtf8(OPEN_ARRAY, pad + ElementsThen(elements, rest));
    case EmptyObject(pad) =>
      ByteThenUtf8(CLOSE_OBJECT, rest);
      PadThenUtf8(pad, [CLOSE_OBJECT] + rest);
      ByteThenUtf8(OPEN_OBJECT, pad + ([CLOSE_OBJECT] + rest));
    case ObjectText(pad, members) =>
      MembersThenUtf8(members, rest);
      PadThenUtf8(pad, MembersThen(members, rest));
      ByteThenUtf8(OPEN_OBJECT, pad + MembersThen(members, rest));
  }

  lemma {:induction false} ElementsThenUtf8(e: Elements, rest: seq<Byte>)
    requires IsUtf8(rest)
    ensures IsUtf8(ElementsThen(e, rest))
    decreases e
  {
    hide IsUtf8, TextThen;
    match e
    case LastElement(value, after) =>
      ByteThenUtf8(CLOSE_ARRAY, rest);
      PadThenUtf8(after, [CLOSE_ARRAY] + rest);
      TextThenUtf8(value, after + ([CLOSE_ARRAY] + rest));
    case MoreElements(value, after, before, more) =>
      ElementsThenUtf8(more, rest);
      var tail := ElementsThen(more, rest);
      PadThenUtf8(before, tail);
      ByteThenUtf8(COMMA, before + tail);
      PadThenUtf8(after, [COMMA] + (before + tail));
      TextThenUtf8(value, after + ([COMMA] + (before + tail)));
  }

  lemma {:induction false} MemberThenUtf8(m: Member, rest: seq<Byte>)
    requires IsUtf8(rest)
    ensures IsUtf8(MemberThen(m, rest))
    decreases m
  {
    hide IsUtf8, TextThen, StringThen;
    PadThenUtf8(m.after, rest);
    TextThenUtf8(m.value, m.after + rest);
    var tail := TextThen(m.value, m.after + rest);
    PadThenUtf8(m.afterColon, tail);
    ByteThenUtf8(COLON, m.afterColon + tail);
    PadThenUtf8(m.beforeColon, [COLON] + (m.afterColon + tail));
    StringThenUtf8(m.key, m.beforeColon + ([COLON] + (m.afterColon + tail)));
  }

  lemma {:induction false} MembersThenUtf8(m: Members, rest: seq<Byte>)
    requires IsUtf8(rest)
    ensures IsUtf8(MembersThen(m, rest))
    decreases m
  {
    hide IsUtf8, MemberThen;
    match m
    case LastMember(member) =>
      ByteThenUtf8(CLOSE_OBJECT, rest);
      MemberThenUtf8(member, [CLOSE_OBJECT] + rest);
    case MoreMembers(member, before, more) =>
      MembersThenUtf8(more, rest);
      PadThenUtf8(before, MembersThen(more, rest));
      ByteThenUtf8(COMMA, before + MembersThen(more, rest));
      MemberThenUtf8(member, [COMMA] + (before + MembersThen(more, rest)));
  }

  // ----- What is admitted -----

  /**
    A document is admitted exactly when it is within the byte limit and is a JSON text that denotes
    a value without nulls within the depth and node limits. The encoding test refuses nothing that
    the reader would have taken.
    */
  lemma DecodeAccepts(input: seq<Byte>, limits: Limits, v: Value)
    ensures DecodedDocument(input, limits) == Ok(v)
            <==> |input| <= limits.maxBytes && Denotes(input, v, limits) && YamlVisitor.RejectNullsPasses(v)
  {
    hide ReadDocument, Denotes, Decode;
    DocumentAccepts(input, limits, v);
    if ReadDocument(input, limits).Ok? {
      AcceptedIsUtf8(input, limits);
    }
  }

  /** Why a document is refused: its size, its encoding, its text or a null in its value, in this order. */
  ghost predicate RefusedFor(input: seq<Byte>, limits: Limits, e: ConfigError) {
    if |input| > limits.maxBytes then e == InputTooLarge(limits.maxBytes, |input|)
    else if !exists text :: Utf8Table.Spells(input, text) then e == InvalidDocument("input must be valid UTF-8")
    else
      || JsonFaults.Refuses(input, limits, e)
      || (&& e == InvalidDocument("explicit null is not allowed by Procedure document")
          && exists v :: Denotes(input, v, limits) && !YamlVisitor.RejectNullsPasses(v))
  }

  /** For every input, decoding fails with this error exactly for this reason. */
  lemma DecodeFails(input: seq<Byte>, limits: Limits, e: ConfigError)
    ensures DecodedDocument(input, limits) == Err(e) <==> RefusedFor(input, limits, e)
  {
    hide ReadDocument, Denotes, Decode, Utf8Table.Spells, JsonFaults.Refuses, YamlVisitor.RejectNullsPasses;
    Utf8Table.DecodeIsTable(input, "");
    JsonFaults.DocumentFails(input, limits, e);
    var read := ReadDocument(input, limits);
    if read.Ok? {
      DocumentAccepts(input, limits, read.value);
    }
    forall v | Denotes(input, v, limits) ensures read == Ok(v) {
      DocumentAccepts(input, limits, v);
    }
  }

  lemma AcceptedIsUtf8(input: seq<Byte>, limits: Limits)
    requires ReadDocument(input, limits).Ok?
    ensures IsUtf8(input)
  {
    hide ReadDocument, IsUtf8, TextThen;
    var before, t, after := DocumentWasText(input, limits);
    AsciiIsUtf8(after);
    TextThenUtf8(t, after);
    PadThenUtf8(before, TextThen(t, after));
  }

  /** Canonical text of a value without nulls is admitted as that value exactly when all three limits allow it. */
  lemma CanonicalDecodes(v: Value, limits: Limits)
    requires IntegersOnly(v) && YamlVisitor.RejectNullsPasses(v)
    ensures DecodedDocument(Canonical(v), limits) == Ok(v)
            <==> |Canonical(v)| <= limits.maxBytes && ValueHeight(v) <= limits.maxDepth
                 && ValueSize(v) <= limits.maxNodes
  {
    hide ReadDocument, Canonical, Decode, ValueHeight, ValueSize;
    CanonicalRoundTrips(v, limits);
    if ReadDocument(Canonical(v), limits).Ok? {
      AcceptedIsUtf8(Canonical(v), limits);
    }
  }
}
