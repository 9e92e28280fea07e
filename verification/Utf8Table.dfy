/**
  Well-formed UTF-8 as the table of section 4 of RFC 3629 lists it, with the scalar value of each
  octet group read off its payload bits. Encoding and decoding follow exactly this table.
  */
module Utf8Table {
  import opened Utf8

  predicate Tail(b: Byte) {
    0x80 <= b <= 0xBF
  }

  /** UTF8-1 to UTF8-4. */
  predicate IsGroup(g: seq<Byte>) {
    || (|g| == 1 && g[0] <= 0x7F)
    || (|g| == 2 && 0xC2 <= g[0] <= 0xDF && Tail(g[1]))
    || (|g| == 3 && Tail(g[2])
        && (|| (g[0] == 0xE0 && 0xA0 <= g[1] <= 0xBF)
            || (0xE1 <= g[0] <= 0xEC && Tail(g[1]))
            || (g[0] == 0xED && 0x80 <= g[1] <= 0x9F)
            || (0xEE <= g[0] <= 0xEF && Tail(g[1]))))
    || (|g| == 4 && Tail(g[2]) && Tail(g[3])
        && (|| (g[0] == 0xF0 && 0x90 <= g[1] <= 0xBF)
            || (0xF1 <= g[0] <= 0xF3 && Tail(g[1]))
            || (g[0] == 0xF4 && 0x80 <= g[1] <= 0x8F)))
  }

  /** What is left of an octet when its marker bits are taken away. */
  function Bits(octet: int, values: nat): (n: nat)
    requires values > 0
  {
    octet % values
  }

  /** The payload bits: seven; five and six; four, six and six; three, six, six and six. */
  function Payload(g: seq<Byte>): (n: nat)
    requires IsGroup(g)
  {
    if |g| == 1 then g[0]
    else if |g| == 2 then Bits(g[0], 32) * 64 + Bits(g[1], 64)
    else if |g| == 3 then Bits(g[0], 16) * 4_096 + Bits(g[1], 64) * 64 + Bits(g[2], 64)
    else Bits(g[0], 8) * 262_144 + Bits(g[1], 64) * 4_096 + Bits(g[2], 64) * 64 + Bits(g[3], 64)
  }

  function Joined(groups: seq<seq<Byte>>): (bytes: seq<Byte>) {
    if groups == [] then [] else groups[0] + Joined(groups[1..])
  }

  /** Group by group, these are the octets of the text. */
  ghost predicate Lists(groups: seq<seq<Byte>>, text: string) {
    && |groups| == |text|
    && forall i :: 0 <= i < |groups| ==> IsGroup(groups[i]) && Payload(groups[i]) == text[i] as int
  }

  ghost predicate Spells(bytes: seq<Byte>, text: string) {
    exists groups :: Lists(groups, text) && Joined(groups) == bytes
  }

  // ----- One group -----

  lemma Lead(b: Byte)
    ensures 0xC0 <= b <= 0xDF ==> Bits(b, 32) == b - 0xC0
    ensures 0xE0 <= b <= 0xEF ==> Bits(b, 16) == b - 0xE0
    ensures 0xF0 <= b <= 0xF7 ==> Bits(b, 8) == b - 0xF0
    ensures 0x80 <= b <= 0xBF ==> Bits(b, 64) == b - 0x80
  {
  }

  /** A group that starts the bytes is what is decoded first. */
  lemma GroupDecodes(g: seq<Byte>, rest: seq<Byte>)
    requires IsGroup(g)
    ensures var r := DecodeFirst(g + rest); r.Some? && r.value.1 == |g| && r.value.0 as int == Payload(g)
  {
    forall i | 0 <= i < |g| { Lead(g[i]); }
    assert forall i :: 0 <= i < |g| ==> (g + rest)[i] == g[i];
  }

  /** What is decoded first is a group. */
  lemma DecodedIsGroup(bytes: seq<Byte>)
    requires bytes != [] && DecodeFirst(bytes).Some?
    ensures var (c, k) := DecodeFirst(bytes).value; IsGroup(bytes[..k]) && Payload(bytes[..k]) == c as int
  {
    var k := DecodeFirst(bytes).value.1;
    forall i | 0 <= i < k { Lead(bytes[i]); }
    assert forall i :: 0 <= i < k ==> bytes[..k][i] == bytes[i];
  }

  // ----- Whole texts -----

  lemma {:induction false} DecodedIsListed(bytes: seq<Byte>) returns (groups: seq<seq<Byte>>)
    requires Decode(bytes).Some?
    ensures Lists(groups, Decode(bytes).value) && Joined(groups) == bytes
    decreases |bytes|
  {
    hide DecodeFirst, IsGroup, Payload;
    groups := [];
    if bytes != [] {
      var (c, k) := DecodeFirst(bytes).value;
      DecodedIsGroup(bytes);
      var rest := DecodedIsListed(bytes[k..]);
      groups := [bytes[..k]] + rest;
      assert groups[1..] == rest;
      assert bytes == bytes[..k] + bytes[k..];
    }
  }

  lemma {:induction false} ListedDecodes(groups: seq<seq<Byte>>, text: string)
    requires Lists(groups, text)
    ensures Decode(Joined(groups)) == Some(text)
  {
    hide DecodeFirst, IsGroup, Payload;
    if groups == [] {
      assert text == "";
    } else {
      var first, rest := groups[0], Joined(groups[1..]);
      ListedDecodes(groups[1..], text[1..]);
      GroupDecodes(first, rest);
      GroupIsNotEmpty(first);
      assert (first + rest)[|first|..] == rest;
      assert text == [text[0]] + text[1..];
    }
  }

  lemma GroupIsNotEmpty(g: seq<Byte>)
    requires IsGroup(g)
    ensures g != []
  {
  }

  /** Decoding succeeds exactly on sequences of listed groups, and gives their payloads. */
  lemma DecodeIsTable(bytes: seq<Byte>, text: string)
    ensures Decode(bytes) == Some(text) <==> Spells(bytes, text)
    ensures Decode(bytes).Some? <==> exists t :: Spells(bytes, t)
  {
    hide Decode, Lists, Joined;
    if Decode(bytes).Some? {
      var groups := DecodedIsListed(bytes);
      assert Spells(bytes, Decode(bytes).value);
    }
    forall t | Spells(bytes, t) ensures Decode(bytes) == Some(t) {
      var groups :| Lists(groups, t) && Joined(groups) == bytes;
      ListedDecodes(groups, t);
    }
  }

  /** Encoding lists the groups of the text and nothing else. */
  lemma EncodeIsTable(text: string, bytes: seq<Byte>)
    ensures Encode(text) == bytes <==> Spells(bytes, text)
  {
    hide Decode, Encode, Spells;
    DecodeIsTable(bytes, text);
    DecodeEncoded(text);
    if Decode(bytes) == Some(text) {
      EncodeDecoded(bytes);
    }
  }
}
