/**
  UTF-8 as section 3 of RFC 3629 defines it, over Unicode scalar values.

  A Dafny `char` is a Unicode scalar value, so a `string` is exactly the content of a Rust `str`
  and of a Python `str` without lone surrogates. Everything that leaves or enters the program as
  bytes goes through this module.
  */
module Utf8 {
  type Byte = b: int | 0 <= b < 256

  datatype Option<+T> = None | Some(value: T)

  // ----- Encoding -----

  function EncodeChar(c: char): (bytes: seq<Byte>)
    ensures 1 <= |bytes| <= 4
  {
    var n := c as int;
    var n1, n2, n3 := n / 64, n / 64 / 64, n / 64 / 64 / 64;
    if n < 0x80 then
      [n]
    else if n < 0x800 then
      [0xC0 + n1, 0x80 + n % 64]
    else if n < 0x1_0000 then
      [0xE0 + n2, 0x80 + n1 % 64, 0x80 + n % 64]
    else
      [0xF0 + n3, 0x80 + n2 % 64, 0x80 + n1 % 64, 0x80 + n % 64]
  }

  function Encode(text: string): (bytes: seq<Byte>) {
    if text == "" then [] else EncodeChar(text[0]) + Encode(text[1..])
  }

  /** Encoding is a homomorphism from concatenation to concatenation. */
  lemma {:induction false} EncodeConcat(a: string, b: string)
    ensures Encode(a + b) == Encode(a) + Encode(b)
  {
    if a == "" {
      assert a + b == b;
    } else {
      calc {
        Encode(a + b);
        { assert (a + b)[0] == a[0] && (a + b)[1..] == a[1..] + b; }
        EncodeChar(a[0]) + Encode(a[1..] + b);
        { EncodeConcat(a[1..], b); }
        EncodeChar(a[0]) + (Encode(a[1..]) + Encode(b));
        Encode(a) + Encode(b);
      }
    }
  }

  /** A text of seven-bit characters keeps its length. */
  lemma {:induction false} EncodeAscii(text: string)
    requires forall i :: 0 <= i < |text| ==> text[i] as int < 0x80
    ensures |Encode(text)| == |text|
    ensures forall i :: 0 <= i < |text| ==> Encode(text)[i] == text[i] as int
  {
    if text != "" {
      EncodeAscii(text[1..]);
    }
  }

  // ----- Decoding: `std::str::from_utf8` -----

  predicate Continuation(b: Byte) {
    0x80 <= b < 0xC0
  }

  predicate ScalarValue(n: int) {
    0 <= n < 0xD800 || 0xE000 <= n < 0x11_0000
  }

  /** The scalar value that starts at the first byte, with the number of bytes it occupies. */
  function DecodeFirst(bytes: seq<Byte>): (r: Option<(char, nat)>)
    requires bytes != []
    ensures r.Some? ==> 1 <= r.value.1 <= |bytes|
  {
    var lead: int := bytes[0];
    if lead < 0x80 then
      Some((lead as char, 1))
    else if 0xC2 <= lead < 0xE0 && |bytes| >= 2 && Continuation(bytes[1]) then
      Some((Join(lead - 0xC0, bytes[1]) as char, 2))
    else if 0xE0 <= lead < 0xF0 && |bytes| >= 3 && Continuation(bytes[1]) && Continuation(bytes[2]) then
      var n := Join(Join(lead - 0xE0, bytes[1]), bytes[2]);
      if n >= 0x800 && ScalarValue(n) then Some((n as char, 3)) else None
    else if 0xF0 <= lead < 0xF5 && |bytes| >= 4 && Continuation(bytes[1]) && Continuation(bytes[2])
            && Continuation(bytes[3]) then
      var n := Join(Join(Join(lead - 0xF0, bytes[1]), bytes[2]), bytes[3]);
      if n >= 0x1_0000 && ScalarValue(n) then Some((n as char, 4)) else None
    else
      None
  }

  /** Appends the six payload bits of a continuation byte. */
  function Join(high: int, continuation: int): int {
    high * 64 + (continuation - 0x80)
  }

  lemma DecodeFirstEncoded(c: char, rest: seq<Byte>)
    ensures DecodeFirst(EncodeChar(c) + rest) == Some((c, |EncodeChar(c)|))
  {
    var n := c as int;
    assert ScalarValue(n);
  }

  /** Only the shortest form is accepted, so the bytes read are the encoding of what was read. */
  lemma EncodeDecodedFirst(bytes: seq<Byte>)
    requires bytes != []
    requires DecodeFirst(bytes).Some?
    ensures var (c, k) := DecodeFirst(bytes).value; bytes[..k] == EncodeChar(c)
  {
    var (c, k) := DecodeFirst(bytes).value;
    var n := c as int;
    if k == 2 {
      assert n / 64 == bytes[0] - 0xC0 && n % 64 == bytes[1] - 0x80;
    } else if k == 3 {
      var n1 := Join(bytes[0] - 0xE0, bytes[1]);
      assert n / 64 == n1 && n % 64 == bytes[2] - 0x80;
      assert n1 / 64 == bytes[0] - 0xE0 && n1 % 64 == bytes[1] - 0x80;
    } else if k == 4 {
      var n2 := Join(bytes[0] - 0xF0, bytes[1]);
      var n1 := Join(n2, bytes[2]);
      assert n / 64 == n1 && n % 64 == bytes[3] - 0x80;
      assert n1 / 64 == n2 && n1 % 64 == bytes[2] - 0x80;
      assert n2 / 64 == bytes[0] - 0xF0 && n2 % 64 == bytes[1] - 0x80;
    }
  }

  function Decode(bytes: seq<Byte>): (r: Option<string>) {
    if bytes == [] then
      Some("")
    else
      var first := DecodeFirst(bytes);
      if first.None? then
        None
      else
        var (c, k) := first.value;
        var rest := Decode(bytes[k..]);
        if rest.None? then None else Some([c] + rest.value)
  }

  lemma {:induction false} DecodeEncoded(text: string)
    ensures Decode(Encode(text)) == Some(text)
  {
    if text != "" {
      DecodeEncoded(text[1..]);
      DecodeFirstEncoded(text[0], Encode(text[1..]));
      assert Encode(text)[|EncodeChar(text[0])|..] == Encode(text[1..]);
      assert text == [text[0]] + text[1..];
    }
  }

  lemma {:induction false} EncodeDecoded(bytes: seq<Byte>)
    requires Decode(bytes).Some?
    ensures Encode(Decode(bytes).value) == bytes
    decreases |bytes|
  {
    if bytes != [] {
      var (c, k) := DecodeFirst(bytes).value;
      var rest := Decode(bytes[k..]).value;
      calc {
        Encode([c] + rest);
        { assert ([c] + rest)[1..] == rest; }
        EncodeChar(c) + Encode(rest);
        { EncodeDecodedFirst(bytes); EncodeDecoded(bytes[k..]); }
        bytes[..k] + bytes[k..];
        bytes;
      }
    }
  }

  // ----- Order: bytes against code points -----

  /** Lexicographic order of byte sequences: Rust's order on `[u8]`. */
  predicate BytesLess(a: seq<Byte>, b: seq<Byte>) {
    b != [] && (a == [] || a[0] < b[0] || (a[0] == b[0] && BytesLess(a[1..], b[1..])))
  }

  /** Lexicographic order of scalar values: Python's order on `str`. */
  predicate TextLess(a: string, b: string) {
    b != "" && (a == "" || a[0] < b[0] || (a[0] == b[0] && TextLess(a[1..], b[1..])))
  }

  lemma {:induction false} TextLessTotal(a: string, b: string)
    ensures a == b || TextLess(a, b) || TextLess(b, a)
  {
    if a != "" && b != "" && a[0] == b[0] {
      TextLessTotal(a[1..], b[1..]);
      assert a == [a[0]] + a[1..] && b == [b[0]] + b[1..];
    }
  }

  lemma {:induction false} TextLessTransitive(a: string, b: string, c: string)
    requires TextLess(a, b) && TextLess(b, c)
    ensures TextLess(a, c)
  {
    if a != "" && a[0] == b[0] && b[0] == c[0] {
      TextLessTransitive(a[1..], b[1..], c[1..]);
    }
  }

  lemma {:induction false} TextLessIrreflexive(a: string)
    ensures !TextLess(a, a)
  {
    if a != "" { TextLessIrreflexive(a[1..]); }
  }

  lemma {:induction false} BytesLessAsymmetric(a: seq<Byte>, b: seq<Byte>)
    requires BytesLess(a, b)
    ensures !BytesLess(b, a)
  {
    if a != [] && a[0] == b[0] { BytesLessAsymmetric(a[1..], b[1..]); }
  }

  lemma {:induction false} CommonPrefixLess(prefix: seq<Byte>, a: seq<Byte>, b: seq<Byte>)
    ensures BytesLess(prefix + a, prefix + b) == BytesLess(a, b)
  {
    if prefix == [] {
      assert prefix + a == a && prefix + b == b;
    } else {
      CommonPrefixLess(prefix[1..], a, b);
      assert (prefix + a)[1..] == prefix[1..] + a;
      assert (prefix + b)[1..] == prefix[1..] + b;
    }
  }

  lemma FirstDifference(a: seq<Byte>, b: seq<Byte>, k: nat)
    requires k < |a| && k < |b|
    requires forall i :: 0 <= i < k ==> a[i] == b[i]
    requires a[k] < b[k]
    ensures BytesLess(a, b)
  {
    CommonPrefixLess(a[..k], a[k..], b[k..]);
    assert a[..k] == b[..k];
    assert a == a[..k] + a[k..] && b == b[..k] + b[k..];
  }

  /** Where the encodings of two characters first differ, the smaller character has the smaller byte. */
  lemma CharDifference(c: char, d: char) returns (k: nat)
    requires c < d
    ensures k < |EncodeChar(c)| && k < |EncodeChar(d)|
    ensures forall i :: 0 <= i < k ==> EncodeChar(c)[i] == EncodeChar(d)[i]
    ensures EncodeChar(c)[k] < EncodeChar(d)[k]
  {
    var m, n := c as int, d as int;
    var m1, n1, m2, n2 := m / 64, n / 64, m / 64 / 64, n / 64 / 64;
    if |EncodeChar(c)| < |EncodeChar(d)| || n < 0x80 {
      k := 0;
    } else if n < 0x800 {
      k := if m1 < n1 then 0 else 1;
    } else if n < 0x1_0000 {
      k := if m2 < n2 then 0 else if m1 < n1 then 1 else 2;
    } else {
      k := if m2 / 64 < n2 / 64 then 0 else if m2 < n2 then 1 else if m1 < n1 then 2 else 3;
    }
  }

  lemma CharOrder(c: char, d: char, x: seq<Byte>, y: seq<Byte>)
    requires c < d
    ensures BytesLess(EncodeChar(c) + x, EncodeChar(d) + y)
  {
    var k := CharDifference(c, d);
    FirstDifference(EncodeChar(c) + x, EncodeChar(d) + y, k);
  }

  lemma {:induction false} TextLessEncodes(a: string, b: string)
    requires TextLess(a, b)
    ensures BytesLess(Encode(a), Encode(b))
  {
    if a != "" {
      if a[0] < b[0] {
        CharOrder(a[0], b[0], Encode(a[1..]), Encode(b[1..]));
      } else {
        TextLessEncodes(a[1..], b[1..]);
        CommonPrefixLess(EncodeChar(a[0]), Encode(a[1..]), Encode(b[1..]));
      }
    }
  }

  /**
    Sorting by scalar value and sorting by UTF-8 bytes are the same order, as section 1 of
    RFC 3629 states: Python's `sort_keys` and Rust's `as_bytes().cmp` put keys alike.
    */
  lemma OrderAgreement(a: string, b: string)
    ensures TextLess(a, b) <==> BytesLess(Encode(a), Encode(b))
  {
    if TextLess(a, b) {
      TextLessEncodes(a, b);
    } else if a == b {
      BytesLessIrreflexive(Encode(a));
    } else {
      TextLessTotal(a, b);
      TextLessEncodes(b, a);
      BytesLessAsymmetric(Encode(b), Encode(a));
    }
  }

  lemma {:induction false} BytesLessIrreflexive(a: seq<Byte>)
    ensures !BytesLess(a, a)
  {
    if a != [] { BytesLessIrreflexive(a[1..]); }
  }
}
