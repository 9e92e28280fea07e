/**
  What a JSON string says, byte by byte: the octets between the quotes fall into pieces, and each
  piece stands for one character. The reader accepts exactly the bodies that fall into such pieces.
  */
module JsonStringShape {
  import opened Utf8
  import opened JsonGrammar
  import opened JsonStrings
  import Utf8Table

  // ----- Pieces -----

  /** A hexadecimal digit in either case. */
  predicate Nibble(b: Byte, n: nat) {
    (n < 10 && b == 0x30 + n) || (10 <= n < 16 && (b == 0x41 + (n - 10) || b == 0x61 + (n - 10)))
  }

  /** `\u` and four digits. */
  predicate Escapes(piece: seq<Byte>, n: nat) {
    && |piece| == 6 && piece[0] == 0x5C && piece[1] == 0x75
    && Nibble(piece[2], n / 4_096) && Nibble(piece[3], n / 256 % 16) && Nibble(piece[4], n / 16 % 16)
    && Nibble(piece[5], n % 16)
  }

  /** A backslash and one of eight letters. */
  predicate Abbreviates(piece: seq<Byte>, n: nat) {
    && |piece| == 2 && piece[0] == 0x5C
    && (piece[1], n) in {(0x22, 0x22), (0x5C, 0x5C), (0x2F, 0x2F), (0x62, 0x08), (0x66, 0x0C), (0x6E, 0x0A),
                         (0x72, 0x0D), (0x74, 0x09)}
  }

  /** Two escapes that make up one character of a higher plane. */
  ghost predicate Pairs(piece: seq<Byte>, n: nat) {
    && |piece| == 12 && n >= 0x1_0000
    && Escapes(piece[..6], 0xD800 + (n - 0x1_0000) / 1_024) && Escapes(piece[6..], 0xDC00 + (n - 0x1_0000) % 1_024)
  }

  ghost predicate Plain(piece: seq<Byte>, n: nat) {
    n >= 0x20 && n != 0x22 && n != 0x5C && Utf8Table.IsGroup(piece) && Utf8Table.Payload(piece) == n
  }

  ghost predicate StandsFor(piece: seq<Byte>, c: char) {
    var n := c as int;
    Plain(piece, n) || Abbreviates(piece, n) || Escapes(piece, n) || Pairs(piece, n)
  }

  ghost predicate Spells(pieces: seq<seq<Byte>>, text: string) {
    |pieces| == |text| && forall i :: 0 <= i < |text| ==> StandsFor(pieces[i], text[i])
  }

  ghost predicate Says(body: seq<Byte>, text: string) {
    exists pieces :: Spells(pieces, text) && Utf8Table.Joined(pieces) == body
  }

  // ----- Four digits -----

  lemma NibbleIsHex(b: Byte, n: nat)
    ensures Nibble(b, n) <==> IsHex(b) && HexValue(b) == n
  {
  }

  lemma Weighted(a: nat, b: nat, c: nat, d: nat, n: nat)
    requires a < 16 && b < 16 && c < 16 && d < 16
    ensures n == ((a * 16 + b) * 16 + c) * 16 + d <==>
            a == n / 4_096 && b == n / 256 % 16 && c == n / 16 % 16 && d == n % 16
  {
  }

  lemma EscapeIsHex(body: seq<Byte>, n: nat)
    requires |body| >= 6
    ensures Escapes(body[..6], n) <==> StartsWithHex(body) && LeadingHex(body) == n
  {
    hide IsHex, HexValue, Nibble;
    var q := body[2..6];
    assert forall i :: 0 <= i < 6 ==> body[..6][i] == body[i];
    NibbleIsHex(q[0], n / 4_096);
    NibbleIsHex(q[1], n / 256 % 16);
    NibbleIsHex(q[2], n / 16 % 16);
    NibbleIsHex(q[3], n % 16);
    if IsHexQuad(q) {
      Weighted(HexValue(q[0]), HexValue(q[1]), HexValue(q[2]), HexValue(q[3]), n);
    }
  }

  lemma LetterIsShort(piece: seq<Byte>, c: char)
    ensures Abbreviates(piece, c as int) <==> |piece| == 2 && piece[0] == 0x5C && ShortEscape(piece[1]) == Some(c)
  {
  }

  // ----- A piece at the front is what is decoded first -----

  lemma PlainDecodes(piece: seq<Byte>, c: char, rest: seq<Byte>)
    requires Plain(piece, c as int)
    ensures piece != [] && DecodeBody(piece + rest) == Prepend(c, DecodeBody(rest))
  {
    hide DecodeFirst, ShortEscape, DecodeHex, StartsWithHex;
    var body := piece + rest;
    Utf8Table.GroupDecodes(piece, rest);
    assert body[0] == piece[0];
    assert body[|piece|..] == rest;
  }

  lemma LetterDecodes(piece: seq<Byte>, c: char, rest: seq<Byte>)
    requires Abbreviates(piece, c as int)
    ensures DecodeBody(piece + rest) == Prepend(c, DecodeBody(rest))
  {
    LetterIsShort(piece, c);
    hide DecodeFirst, DecodeHex, StartsWithHex, Abbreviates;
    var body := piece + rest;
    assert body[0] == piece[0] && body[1] == piece[1] && body[2..] == rest;
  }

  lemma EscapeDecodes(piece: seq<Byte>, c: char, rest: seq<Byte>)
    requires Escapes(piece, c as int)
    ensures DecodeBody(piece + rest) == Prepend(c, DecodeBody(rest))
  {
    var body := piece + rest;
    assert body[..6] == piece && body[6..] == rest;
    EscapeIsHex(body, c as int);
    hide Escapes, LeadingHex, DecodeFirst, ShortEscape;
    assert DecodeBody(body) == DecodeHex(body);
  }

  lemma SurrogatesOf(n: nat)
    requires 0x1_0000 <= n < 0x11_0000
    ensures var high, low := 0xD800 + (n - 0x1_0000) / 1_024, 0xDC00 + (n - 0x1_0000) % 1_024;
            HighSurrogate(high) && LowSurrogate(low) && SurrogatePair(high, low) as int == n
  {
  }

  lemma PairDecodes(piece: seq<Byte>, c: char, rest: seq<Byte>)
    requires Pairs(piece, c as int)
    ensures DecodeBody(piece + rest) == Prepend(c, DecodeBody(rest))
  {
    var body, n := piece + rest, c as int;
    assert body[..6] == piece[..6] && body[6..][..6] == piece[6..] && body[6..][6..] == rest;
    var high, low := 0xD800 + (n - 0x1_0000) / 1_024, 0xDC00 + (n - 0x1_0000) % 1_024;
    EscapeIsHex(body, high);
    EscapeIsHex(body[6..], low);
    SurrogatesOf(n);
    hide Escapes, LeadingHex, DecodeFirst, ShortEscape, SurrogatePair, HighSurrogate, LowSurrogate;
    assert DecodeBody(body) == DecodeHex(body);
  }

  lemma PieceDecodes(piece: seq<Byte>, c: char, rest: seq<Byte>)
    requires StandsFor(piece, c)
    ensures piece != [] && DecodeBody(piece + rest) == Prepend(c, DecodeBody(rest))
  {
    hide DecodeBody, Plain;
    var n := c as int;
    if Plain(piece, n) {
      PlainDecodes(piece, c, rest);
    } else if Abbreviates(piece, n) {
      LetterDecodes(piece, c, rest);
    } else if Escapes(piece, n) {
      EscapeDecodes(piece, c, rest);
    } else {
      PairDecodes(piece, c, rest);
    }
  }

  // ----- What is decoded first is a piece -----

  /** The first piece of a body that can be decoded, and its character. */
  ghost predicate Leads(body: seq<Byte>, k: nat, c: char) {
    0 < k <= |body| && StandsFor(body[..k], c) && DecodeBody(body) == Prepend(c, DecodeBody(body[k..]))
  }

  lemma PlainLeads(body: seq<Byte>) returns (k: nat, c: char)
    requires body != [] && body[0] != 0x5C && DecodeBody(body).Some?
    ensures Leads(body, k, c)
  {
    hide ShortEscape, DecodeHex, StartsWithHex, DecodeFirst;
    c, k := DecodeFirst(body).value.0, DecodeFirst(body).value.1;
    Utf8Table.DecodedIsGroup(body);
    var piece := body[..k];
    assert piece[0] == body[0];
    if |piece| > 1 {
      HighPayload(piece);
    }
  }

  lemma HighPayload(piece: seq<Byte>)
    requires Utf8Table.IsGroup(piece) && |piece| > 1
    ensures Utf8Table.Payload(piece) >= 0x80
  {
    forall i | 0 <= i < |piece| { Utf8Table.Lead(piece[i]); }
  }

  lemma EscapeLeads(body: seq<Byte>) returns (k: nat, c: char)
    requires StartsWithHex(body) && DecodeHex(body).Some?
    ensures Leads(body, k, c)
  {
    var n := LeadingHex(body);
    EscapeIsHex(body, n);
    hide Escapes, LeadingHex, DecodeFirst, ShortEscape;
    assert DecodeBody(body) == DecodeHex(body);
    if HighSurrogate(n) {
      var rest := body[6..];
      var low := LeadingHex(rest);
      EscapeIsHex(rest, low);
      k, c := 12, SurrogatePair(n, low);
      assert body[..12][..6] == body[..6] && body[..12][6..] == rest[..6] && rest[6..] == body[12..];
      PairOf(n, low);
    } else {
      k, c := 6, n as char;
    }
  }

  lemma PairOf(high: nat, low: nat)
    requires HighSurrogate(high) && LowSurrogate(low)
    ensures var n := SurrogatePair(high, low) as int;
            n >= 0x1_0000 && high == 0xD800 + (n - 0x1_0000) / 1_024 && low == 0xDC00 + (n - 0x1_0000) % 1_024
  {
  }

  lemma LetterLeads(body: seq<Byte>) returns (k: nat, c: char)
    requires |body| >= 2 && body[0] == 0x5C && body[1] != 0x75 && DecodeBody(body).Some?
    ensures Leads(body, k, c)
  {
    hide DecodeHex, StartsWithHex, DecodeFirst;
    k, c := 2, ShortEscape(body[1]).value;
    assert body[..2][0] == body[0] && body[..2][1] == body[1];
    LetterIsShort(body[..2], c);
  }

  lemma PieceLeads(body: seq<Byte>) returns (k: nat, c: char)
    requires body != [] && DecodeBody(body).Some?
    ensures Leads(body, k, c)
  {
    hide Leads, DecodeHex, ShortEscape, DecodeFirst;
    if body[0] != 0x5C {
      k, c := PlainLeads(body);
    } else if body[1] == 0x75 {
      k, c := EscapeLeads(body);
    } else {
      k, c := LetterLeads(body);
    }
  }

  // ----- Whole bodies -----

  lemma {:induction false} PiecesDecode(pieces: seq<seq<Byte>>, text: string)
    requires Spells(pieces, text)
    ensures DecodeBody(Utf8Table.Joined(pieces)) == Some(text)
  {
    hide StandsFor, DecodeBody;
    if pieces == [] {
      NothingDecodes();
    } else {
      PiecesDecode(pieces[1..], text[1..]);
      PieceDecodes(pieces[0], text[0], Utf8Table.Joined(pieces[1..]));
      assert text == [text[0]] + text[1..];
    }
  }

  lemma NothingDecodes()
    ensures DecodeBody([]) == Some("")
  {
  }

  lemma {:induction false} DecodedFallsIntoPieces(body: seq<Byte>) returns (pieces: seq<seq<Byte>>)
    requires DecodeBody(body).Some?
    ensures Spells(pieces, DecodeBody(body).value) && Utf8Table.Joined(pieces) == body
    decreases |body|
  {
    hide StandsFor, DecodeBody;
    pieces := [];
    if body == [] {
      NothingDecodes();
    } else {
      var k, c := PieceLeads(body);
      var rest := DecodedFallsIntoPieces(body[k..]);
      pieces := [body[..k]] + rest;
      assert pieces[1..] == rest;
      assert body == body[..k] + body[k..];
    }
  }

  /** A body is decoded to a text exactly when it falls into pieces that stand for the text's characters. */
  lemma BodySays(body: seq<Byte>, text: string)
    ensures DecodeBody(body) == Some(text) <==> Says(body, text)
    ensures DecodeBody(body).Some? <==> exists t :: Says(body, t)
  {
    hide DecodeBody, Spells, Utf8Table.Joined;
    if DecodeBody(body).Some? {
      var pieces := DecodedFallsIntoPieces(body);
      assert Says(body, DecodeBody(body).value);
    }
    forall t | Says(body, t) ensures DecodeBody(body) == Some(t) {
      var pieces :| Spells(pieces, t) && Utf8Table.Joined(pieces) == body;
      PiecesDecode(pieces, t);
    }
  }
}
