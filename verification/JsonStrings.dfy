/**
  How the reader finds the end of a string and what the string denotes.

  The forward automaton here is the obvious one. The Rust code instead looks backwards from each
  quote and counts backslashes; `ParityIsAutomaton` shows the two agree at every position after
  the opening quote.
  */
module JsonStrings {
  import opened Utf8
  import opened CanonicalJson
  import opened JsonGrammar

  datatype Scan = Closed(at: nat) | ControlCharacter | Unterminated

  function Shift(scan: Scan, offset: nat): (r: Scan) {
    if scan.Closed? then Closed(scan.at + offset) else scan
  }

  /** Scans `s`, which follows an opening quote; `escaped` says whether a backslash takes the first byte. */
  function ScanString(s: seq<Byte>, escaped: bool): (r: Scan)
    ensures r.Closed? ==> r.at < |s| && s[r.at] == QUOTE
  {
    if s == [] then Unterminated
    else if s[0] == QUOTE && !escaped then Closed(0)
    else if s[0] < 0x20 then ControlCharacter
    else Shift(ScanString(s[1..], s[0] == BACKSLASH && !escaped), 1)
  }

  // ----- Backward parity -----

  /** Consecutive backslashes that end just before `index`. */
  function BackslashesBefore(bytes: seq<Byte>, index: nat): (n: nat)
    requires index <= |bytes|
    ensures n <= index
  {
    if index > 0 && bytes[index - 1] == BACKSLASH then 1 + BackslashesBefore(bytes, index - 1) else 0
  }

  /** The automaton's state at `index` when it starts unescaped at `start`. */
  function EscapedAt(bytes: seq<Byte>, start: nat, index: nat): (r: bool)
    requires start <= index <= |bytes|
  {
    start < index && bytes[index - 1] == BACKSLASH && !EscapedAt(bytes, start, index - 1)
  }

  /** An odd run of backslashes before a position inside the string is the escaped state, and the run stays inside. */
  lemma {:induction false} ParityIsAutomaton(bytes: seq<Byte>, open: nat, index: nat)
    requires open < index <= |bytes|
    requires bytes[open] == QUOTE
    ensures EscapedAt(bytes, open + 1, index) <==> BackslashesBefore(bytes, index) % 2 == 1
    ensures BackslashesBefore(bytes, index) <= index - open - 1
  {
    if index > open + 1 {
      ParityIsAutomaton(bytes, open, index - 1);
    }
  }

  /** One step of the scan at a position of the input. */
  lemma ScanStep(bytes: seq<Byte>, start: nat, index: nat)
    requires start <= index < |bytes|
    ensures var escaped := EscapedAt(bytes, start, index);
            ScanString(bytes[index..], escaped)
            == if bytes[index] == QUOTE && !escaped then Closed(0)
               else if bytes[index] < 0x20 then ControlCharacter
               else Shift(ScanString(bytes[index + 1..], EscapedAt(bytes, start, index + 1)), 1)
  {
    assert bytes[index..][1..] == bytes[index + 1..];
  }

  lemma ScanStarts(bytes: seq<Byte>, start: nat)
    requires start <= |bytes|
    ensures EscapedAt(bytes, start, start) == false
    ensures Shift(ScanString(bytes[start..], false), 0) == ScanString(bytes[start..], false)
  {
  }

  lemma ScanEnds(bytes: seq<Byte>, start: nat)
    requires start <= |bytes|
    ensures ScanString(bytes[|bytes|..], EscapedAt(bytes, start, |bytes|)) == Unterminated
  {
  }

  // ----- Decoding -----

  /** What `serde_json::from_str` returns for a string token with this body: section 7 of RFC 8259. */
  function DecodeBody(body: seq<Byte>): (r: Option<string>)
    decreases |body|, 1
  {
    if body == [] then
      Some("")
    else if body[0] == BACKSLASH then
      if |body| < 2 then
        None
      else if body[1] == 117 then
        if StartsWithHex(body) then DecodeHex(body) else None
      else if ShortEscape(body[1]).Some? then
        Prepend(ShortEscape(body[1]).value, DecodeBody(body[2..]))
      else
        None
    else if body[0] < 0x20 || body[0] == QUOTE || DecodeFirst(body).None? then
      None
    else
      Prepend(DecodeFirst(body).value.0, DecodeBody(body[DecodeFirst(body).value.1..]))
  }

  predicate StartsWithHex(body: seq<Byte>) {
    |body| >= 6 && body[0] == BACKSLASH && body[1] == 117 && IsHexQuad(body[2..6])
  }

  function LeadingHex(body: seq<Byte>): (n: nat)
    requires StartsWithHex(body)
    ensures n < 0x1_0000
  {
    QuadValue(body[2..6])
  }

  function DecodeHex(body: seq<Byte>): (r: Option<string>)
    requires StartsWithHex(body)
    decreases |body|, 0
  {
    var n, rest := LeadingHex(body), body[6..];
    if HighSurrogate(n) then
      if StartsWithHex(rest) && LowSurrogate(LeadingHex(rest)) then
        Prepend(SurrogatePair(n, LeadingHex(rest)), DecodeBody(rest[6..]))
      else
        None
    else if LowSurrogate(n) then
      None
    else
      Prepend(n as char, DecodeBody(rest))
  }

  // ----- Every grammatical string is scanned to its closing quote and decoded to its meaning -----

  lemma {:induction false} ScanPastUnescaped(prefix: seq<Byte>, s: seq<Byte>)
    requires forall i :: 0 <= i < |prefix| ==> prefix[i] >= 0x20 && prefix[i] != QUOTE && prefix[i] != BACKSLASH
    ensures ScanString(prefix + s, false) == Shift(ScanString(s, false), |prefix|)
  {
    if prefix == [] {
      assert prefix + s == s;
    } else {
      ScanPastUnescaped(prefix[1..], s);
      assert (prefix + s)[1..] == prefix[1..] + s;
    }
  }

  lemma UnescapedBytes(c: UnescapedChar)
    ensures forall i :: 0 <= i < |EncodeChar(c)| ==>
              EncodeChar(c)[i] >= 0x20 && EncodeChar(c)[i] != QUOTE && EncodeChar(c)[i] != BACKSLASH
  {
  }

  lemma ScanPastEscape(b: Byte, s: seq<Byte>)
    requires b >= 0x20
    ensures ScanString([BACKSLASH, b] + s, false) == Shift(ScanString(s, false), 2)
  {
    assert ([BACKSLASH, b] + s)[1..] == [b] + s;
    assert ([b] + s)[1..] == s;
  }

  lemma ScanPastChar(c: StringChar, s: seq<Byte>)
    ensures ScanString(CharBytes(c) + s, false) == Shift(ScanString(s, false), |CharBytes(c)|)
  {
    hide ScanString, EncodeChar;
    match c
    case Unescaped(c) =>
      UnescapedBytes(c);
      ScanPastUnescaped(EncodeChar(c), s);
    case Short(letter) => ScanPastEscape(letter, s);
    case Hex(digits) =>
      assert CharBytes(c) + s == [BACKSLASH, 117] + (digits + s);
      ScanPastEscape(117, digits + s);
      ScanPastUnescaped(digits, s);
  }

  lemma {:induction false} ScanFindsClosingQuote(chars: seq<StringChar>, rest: seq<Byte>)
    ensures ScanString(StringBytes(chars) + ([QUOTE] + rest), false) == Closed(|StringBytes(chars)|)
  {
    if chars == [] {
      assert StringBytes(chars) + ([QUOTE] + rest) == [QUOTE] + rest;
    } else {
      var tail := StringBytes(chars[1..]);
      ScanFindsClosingQuote(chars[1..], rest);
      ScanPastChar(chars[0], tail + ([QUOTE] + rest));
      assert CharBytes(chars[0]) + (tail + ([QUOTE] + rest)) == StringBytes(chars) + ([QUOTE] + rest);
    }
  }

  /** A string begins with a hexadecimal escape exactly when its bytes do. */
  lemma HexLeads(chars: seq<StringChar>)
    ensures StartsWithHex(StringBytes(chars)) <==> chars != [] && chars[0].Hex?
    ensures chars != [] && chars[0].Hex? ==>
              LeadingHex(StringBytes(chars)) == QuadValue(chars[0].digits)
              && StringBytes(chars)[6..] == StringBytes(chars[1..])
  {
    if chars != [] {
      match chars[0]
      case Unescaped(c) =>
      case Short(letter) => assert StringBytes(chars)[1] == letter;
      case Hex(digits) =>
        assert StringBytes(chars)[2..6] == digits;
        assert StringBytes(chars)[6..] == StringBytes(chars[1..]);
    }
  }

  lemma {:induction false} DecodeIsMeaning(chars: seq<StringChar>)
    ensures DecodeBody(StringBytes(chars)) == StringMeaning(chars)
    decreases |chars|
  {
    hide EncodeChar, HexValue, QuadValue, SurrogatePair;
    if chars != [] {
      var body, rest := StringBytes(chars), StringBytes(chars[1..]);
      match chars[0]
      case Unescaped(c) =>
        DecodeFirstEncoded(c, rest);
        assert body[|EncodeChar(c)|..] == rest;
        DecodeIsMeaning(chars[1..]);
      case Short(letter) =>
        assert body[1] == letter && body[2..] == rest;
        DecodeIsMeaning(chars[1..]);
      case Hex(digits) =>
        HexLeads(chars);
        HexLeads(chars[1..]);
        DecodeIsMeaning(chars[1..]);
        if |chars| > 1 {
          assert chars[1..][1..] == chars[2..];
          DecodeIsMeaning(chars[2..]);
        }
    }
  }

  // ----- Every decodable body is a grammatical string -----

  lemma {:induction false} DecodedIsGrammatical(body: seq<Byte>) returns (chars: seq<StringChar>)
    requires DecodeBody(body).Some?
    ensures StringBytes(chars) == body
    decreases |body|
  {
    hide StringBytes, EncodeChar, QuadValue, StringMeaning;
    if body == [] {
      EmptyString();
      return [];
    }
    var first: StringChar;
    if body[0] != BACKSLASH {
      EncodeDecodedFirst(body);
      first := Unescaped(DecodeFirst(body).value.0);
    } else if body[1] == 117 {
      first := Hex(body[2..6]);
      if HighSurrogate(LeadingHex(body)) {
        var second := Hex(body[6..][2..6]);
        var tail := DecodedIsGrammatical(body[6..][6..]);
        StringCons(second, tail, body[6..]);
        StringCons(first, [second] + tail, body);
        return [first] + ([second] + tail);
      }
    } else {
      first := Short(body[1]);
    }
    var tail := DecodedIsGrammatical(body[|CharBytes(first)|..]);
    StringCons(first, tail, body);
    chars := [first] + tail;
  }

  lemma EmptyString()
    ensures StringBytes([]) == []
  {
  }

  lemma StringCons(first: StringChar, tail: seq<StringChar>, body: seq<Byte>)
    requires CharBytes(first) <= body && StringBytes(tail) == body[|CharBytes(first)|..]
    ensures StringBytes([first] + tail) == body
  {
    assert ([first] + tail)[1..] == tail;
  }
}
