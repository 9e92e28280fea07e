/**
  The shape of canonical JSON said with its bytes: which octets stand for a character, a number, a
  list and an object. A text has this shape exactly when it is the canonical text, so what every
  printer writes is fixed down to the byte.
  */
module CanonicalShape {
  import opened Utf8
  import opened CanonicalJson
  import Utf8Table
  import Decimal

  // ----- Characters -----

  function LowerHex(n: nat): (b: Byte)
    requires n < 16
  {
    [0x30, 0x31, 0x32, 0x33, 0x34, 0x35, 0x36, 0x37, 0x38, 0x39, 0x61, 0x62, 0x63, 0x64, 0x65, 0x66][n]
  }

  /** Seven characters have a short escape, the other controls `\u00xx`, and the rest their UTF-8 octets. */
  ghost predicate StandsFor(g: seq<Byte>, c: char) {
    var n := c as int;
    if n == 0x22 then g == [0x5C, 0x22]
    else if n == 0x5C then g == [0x5C, 0x5C]
    else if n == 0x08 then g == [0x5C, 0x62]
    else if n == 0x0C then g == [0x5C, 0x66]
    else if n == 0x0A then g == [0x5C, 0x6E]
    else if n == 0x0D then g == [0x5C, 0x72]
    else if n == 0x09 then g == [0x5C, 0x74]
    else if n < 0x20 then g == [0x5C, 0x75, 0x30, 0x30, LowerHex(n / 16), LowerHex(n % 16)]
    else Utf8Table.IsGroup(g) && Utf8Table.Payload(g) == n
  }

  ghost predicate StandFor(groups: seq<seq<Byte>>, text: string) {
    |groups| == |text| && forall i :: 0 <= i < |text| ==> StandsFor(groups[i], text[i])
  }

  /** The characters between quotes. */
  ghost predicate IsString(bytes: seq<Byte>, text: string) {
    exists groups :: StandFor(groups, text) && bytes == [0x22] + Utf8Table.Joined(groups) + [0x22]
  }

  // ----- Numbers -----

  /** Decimal digits without leading zeros. */
  predicate IsNumeral(bytes: seq<Byte>, n: nat) {
    if n < 10 then bytes == [0x30 + n]
    else |bytes| > 1 && bytes[|bytes| - 1] == 0x30 + n % 10 && IsNumeral(bytes[..|bytes| - 1], n / 10)
  }

  predicate IsNumber(bytes: seq<Byte>, n: int) {
    if n >= 0 then IsNumeral(bytes, n) else bytes != [] && bytes[0] == 0x2D && IsNumeral(bytes[1..], -n)
  }

  // ----- Structure -----

  /** Parts with a comma between them. */
  function Listed(parts: seq<seq<Byte>>): (bytes: seq<Byte>) {
    if parts == [] then []
    else if |parts| == 1 then parts[0]
    else parts[0] + [0x2C] + Listed(parts[1..])
  }

  /** The first difference decides; a prefix comes first. */
  predicate Precedes(a: string, b: string) {
    exists k: nat :: k <= |a| && k < |b| && a[..k] == b[..k] && (k == |a| || a[k] < b[k])
  }

  /** The names of an object, each once, in order. */
  ghost predicate Ordered(keys: seq<string>, members: map<string, Value>) {
    && (forall i, j :: 0 <= i < j < |keys| ==> Precedes(keys[i], keys[j]))
    && (forall k :: k in keys <==> k in members)
  }

  /** A name, a colon and the text of what it names. */
  ghost predicate IsMember(bytes: seq<Byte>, key: string, text: seq<Byte>) {
    exists name :: IsString(name, key) && bytes == name + [0x3A] + text
  }

  ghost predicate AreMembers(pairs: seq<seq<Byte>>, keys: seq<string>, texts: seq<seq<Byte>>) {
    && |pairs| == |texts| == |keys|
    && forall i :: 0 <= i < |keys| ==> IsMember(pairs[i], keys[i], texts[i])
  }

  /** Names in order, each with a text, between braces. */
  ghost predicate IsObject(bytes: seq<Byte>, members: map<string, Value>, keys: seq<string>, pairs: seq<seq<Byte>>,
                           texts: seq<seq<Byte>>)
    ensures IsObject(bytes, members, keys, pairs, texts) ==>
              |texts| == |keys| && forall i :: 0 <= i < |keys| ==> keys[i] in members
  {
    Ordered(keys, members) && AreMembers(pairs, keys, texts) && bytes == [0x7B] + Listed(pairs) + [0x7D]
  }

  /** The canonical shape of a value; a number that is no integer has none. */
  ghost predicate IsText(bytes: seq<Byte>, v: Value)
    decreases v
  {
    match v
    case Null => bytes == [0x6E, 0x75, 0x6C, 0x6C]
    case Bool(b) => bytes == if b then [0x74, 0x72, 0x75, 0x65] else [0x66, 0x61, 0x6C, 0x73, 0x65]
    case Int(n) => IsNumber(bytes, n)
    case Float => false
    case String(s) => IsString(bytes, s)
    case Array(items) =>
      exists parts: seq<seq<Byte>> ::
        && |parts| == |items| && (forall i :: 0 <= i < |items| ==> IsText(parts[i], items[i]))
        && bytes == [0x5B] + Listed(parts) + [0x5D]
    case Object(members) =>
      exists keys: seq<string>, pairs: seq<seq<Byte>>, texts: seq<seq<Byte>> ::
        && IsObject(bytes, members, keys, pairs, texts)
        && (forall i :: 0 <= i < |texts| ==> IsText(texts[i], members[keys[i]]))
  }

  // ----- Characters are escaped so -----

  lemma OneGroup(g: seq<Byte>, c: char)
    ensures Utf8Table.IsGroup(g) && Utf8Table.Payload(g) == c as int <==> g == EncodeChar(c)
  {
    hide Utf8Table.IsGroup, Utf8Table.Payload, EncodeChar;
    EncodeOne(c);
    Utf8Table.EncodeIsTable([c], g);
    assert Utf8Table.Joined([g]) == g by {
      assert [g][1..] == [];
      assert g + [] == g;
    }
    if Utf8Table.IsGroup(g) && Utf8Table.Payload(g) == c as int {
      assert Utf8Table.Lists([g], [c]);
    }
    if Utf8Table.Spells(g, [c]) {
      var groups :| Utf8Table.Lists(groups, [c]) && Utf8Table.Joined(groups) == g;
      assert groups[1..] == [] && groups[0] + [] == groups[0];
      assert Utf8Table.Joined(groups) == groups[0];
    }
  }

  lemma EncodeOne(c: char)
    ensures Encode([c]) == EncodeChar(c)
  {
    assert [c][1..] == "";
    assert EncodeChar(c) + [] == EncodeChar(c);
  }

  lemma HexIsLower(n: nat)
    requires n < 16
    ensures HexDigit(n) == LowerHex(n)
  {
  }

  lemma CharacterShape(g: seq<Byte>, c: char)
    ensures StandsFor(g, c) <==> g == EscapeChar(c)
  {
    hide Utf8Table.IsGroup, Utf8Table.Payload, EncodeChar, HexDigit, LowerHex;
    OneGroup(g, c);
    var n := c as int;
    if n < 0x20 {
      HexIsLower(n / 16);
      HexIsLower(n % 16);
    }
  }

  lemma {:induction false} TextShape(groups: seq<seq<Byte>>, text: string)
    requires StandFor(groups, text)
    ensures Utf8Table.Joined(groups) == EscapeText(text)
  {
    hide StandsFor, EscapeChar;
    if text != "" {
      CharacterShape(groups[0], text[0]);
      TextShape(groups[1..], text[1..]);
    }
  }

  lemma StringShape(bytes: seq<Byte>, text: string)
    ensures IsString(bytes, text) <==> bytes == Quoted(text)
  {
    hide StandsFor, EscapeChar, EscapeText, Utf8Table.Joined;
    forall groups | StandFor(groups, text) ensures Utf8Table.Joined(groups) == EscapeText(text) {
      TextShape(groups, text);
    }
    var groups := seq(|text|, i requires 0 <= i < |text| => EscapeChar(text[i]));
    forall i | 0 <= i < |text| ensures StandsFor(groups[i], text[i]) {
      CharacterShape(groups[i], text[i]);
    }
    assert StandFor(groups, text);
  }

  // ----- Numbers are spelled so -----

  lemma {:induction false} NumeralShape(bytes: seq<Byte>, n: nat)
    ensures IsNumeral(bytes, n) <==> bytes == Decimal.Digits(n)
    decreases n
  {
    if n >= 10 {
      var digits := Decimal.Digits(n);
      assert digits[..|digits| - 1] == Decimal.Digits(n / 10);
      if bytes != [] {
        var front := bytes[..|bytes| - 1];
        NumeralShape(front, n / 10);
        assert bytes == front + [bytes[|bytes| - 1]];
      }
    }
  }

  lemma NumberShape(bytes: seq<Byte>, n: int)
    ensures IsNumber(bytes, n) <==> bytes == Decimal.Spell(n)
  {
    hide IsNumeral, Decimal.Digits;
    if n >= 0 {
      NumeralShape(bytes, n);
    } else if bytes != [] {
      NumeralShape(bytes[1..], -n);
      assert bytes == [bytes[0]] + bytes[1..];
      assert Decimal.Spell(n)[1..] == Decimal.Digits(-n);
    }
  }

  // ----- Names are sorted so -----

  lemma {:induction false} OrderShape(a: string, b: string)
    ensures Precedes(a, b) <==> TextLess(a, b)
  {
    if b != "" && a != "" && a[0] == b[0] {
      OrderShape(a[1..], b[1..]);
      if Precedes(a[1..], b[1..]) {
        var k: nat :| k <= |a[1..]| && k < |b[1..]| && a[1..][..k] == b[1..][..k]
                      && (k == |a[1..]| || a[1..][k] < b[1..][k]);
        assert a[..k + 1] == [a[0]] + a[1..][..k] && b[..k + 1] == [b[0]] + b[1..][..k];
      }
      if Precedes(a, b) {
        var k: nat :| k <= |a| && k < |b| && a[..k] == b[..k] && (k == |a| || a[k] < b[k]);
        assert k > 0;
        assert a[1..][..k - 1] == a[..k][1..] && b[1..][..k - 1] == b[..k][1..];
      }
    } else {
      assert a[..0] == b[..0];
    }
  }

  lemma OrderedIsSorted(keys: seq<string>, members: map<string, Value>)
    ensures Ordered(keys, members) <==> keys == SortedKeys(members.Keys)
  {
    hide Precedes, TextLess, SortedKeys;
    SortedKeysAscend(members.Keys);
    forall a, b ensures Precedes(a, b) <==> TextLess(a, b) { OrderShape(a, b); }
    if Ordered(keys, members) {
      AscendingIsSortedKeys(keys, members.Keys);
    }
  }

  // ----- Values are printed so -----

  lemma {:induction false} ItemsShape(parts: seq<seq<Byte>>, items: seq<Value>)
    requires |parts| == |items| && forall i :: 0 <= i < |items| ==> parts[i] == Canonical(items[i])
    ensures Listed(parts) == CanonicalItems(items, true)
    ensures items != [] ==> CanonicalItems(items, false) == [0x2C] + Listed(parts)
    decreases |items|
  {
    hide Canonical;
    if items != [] {
      ItemsShape(parts[1..], items[1..]);
      var first, rest := parts[0], CanonicalItems(items[1..], false);
      assert [] + first + rest == first + rest && [0x2C] + first + rest == [0x2C] + (first + rest);
      if |items| == 1 {
        assert first + [] == first;
      } else {
        assert first + [0x2C] + Listed(parts[1..]) == first + ([0x2C] + Listed(parts[1..]));
      }
    }
  }

  lemma MemberShape(bytes: seq<Byte>, key: string, text: seq<Byte>)
    ensures IsMember(bytes, key, text) <==> bytes == Quoted(key) + [0x3A] + text
  {
    hide IsString, Quoted;
    forall name ensures IsString(name, key) <==> name == Quoted(key) { StringShape(name, key); }
  }

  /** Pair by pair, the members of an object. */
  ghost predicate PairsOf(pairs: seq<seq<Byte>>, v: Value, keys: seq<string>)
    requires v.Object? && forall k :: k in keys ==> k in v.members
  {
    && |pairs| == |keys|
    && forall i :: 0 <= i < |keys| ==> pairs[i] == Quoted(keys[i]) + [0x3A] + Canonical(v.members[keys[i]])
  }

  lemma {:induction false} MembersShape(pairs: seq<seq<Byte>>, v: Value, keys: seq<string>)
    requires v.Object? && (forall k :: k in keys ==> k in v.members) && PairsOf(pairs, v, keys)
    ensures Listed(pairs) == CanonicalMembers(v, keys, true)
    ensures keys != [] ==> CanonicalMembers(v, keys, false) == [0x2C] + Listed(pairs)
    decreases |keys|
  {
    hide Canonical, Quoted;
    if keys != [] {
      assert PairsOf(pairs[1..], v, keys[1..]);
      MembersShape(pairs[1..], v, keys[1..]);
      var first, rest := pairs[0], CanonicalMembers(v, keys[1..], false);
      MemberStep(v, keys);
      assert [] + first + rest == first + rest && [0x2C] + first + rest == [0x2C] + (first + rest);
      if |keys| == 1 {
        assert first + [] == first;
      } else {
        assert first + [0x2C] + Listed(pairs[1..]) == first + ([0x2C] + Listed(pairs[1..]));
      }
    }
  }

  lemma MemberStep(v: Value, keys: seq<string>)
    requires v.Object? && (forall k :: k in keys ==> k in v.members) && keys != []
    ensures var pair, rest := Quoted(keys[0]) + [0x3A] + Canonical(v.members[keys[0]]),
            CanonicalMembers(v, keys[1..], false);
            && CanonicalMembers(v, keys, true) == [] + pair + rest
            && CanonicalMembers(v, keys, false) == [0x2C] + pair + rest
  {
    hide Canonical, Quoted;
    var name, text, rest := Quoted(keys[0]), Canonical(v.members[keys[0]]), CanonicalMembers(v, keys[1..], false);
    assert [] + name + [0x3A] + text + rest == [] + (name + [0x3A] + text) + rest;
    assert [0x2C] + name + [0x3A] + text + rest == [0x2C] + (name + [0x3A] + text) + rest;
  }

  /** The canonical text of an integers-only value, and no other, has the canonical shape. */
  lemma {:induction false} ShapeIsCanonical(bytes: seq<Byte>, v: Value)
    requires IntegersOnly(v)
    ensures IsText(bytes, v) <==> bytes == Canonical(v)
    decreases v, 2
  {
    match v
    case Null =>
    case Bool(_) =>
    case Int(n) => NumberShape(bytes, n);
    case Float =>
    case String(s) => StringShape(bytes, s);
    case Array(_) => ArrayShape(bytes, v);
    case Object(_) => ObjectShape(bytes, v);
  }

  lemma {:induction false} ArrayShape(bytes: seq<Byte>, v: Value)
    requires v.Array? && IntegersOnly(v)
    ensures IsText(bytes, v) <==> bytes == Canonical(v)
    decreases v, 0
  {
    var items := v.items;
    forall part, i | 0 <= i < |items| ensures IsText(part, items[i]) <==> part == Canonical(items[i]) {
      ShapeIsCanonical(part, items[i]);
    }
    var written := seq(|items|, i requires 0 <= i < |items| => Canonical(items[i]));
    ItemsShape(written, items);
    hide Canonical, CanonicalItems, Listed;
    CanonicalArray(v);
    if IsText(bytes, v) {
      var parts: seq<seq<Byte>> :|
        && |parts| == |items| && (forall i :: 0 <= i < |items| ==> IsText(parts[i], items[i]))
        && bytes == [0x5B] + Listed(parts) + [0x5D];
      assert parts == written;
    }
    assert forall i :: 0 <= i < |items| ==> IsText(written[i], items[i]);
  }

  lemma CanonicalArray(v: Value)
    requires v.Array?
    ensures Canonical(v) == [0x5B] + CanonicalItems(v.items, true) + [0x5D]
  {
  }

  lemma CanonicalObject(v: Value)
    requires v.Object?
    ensures Canonical(v) == [0x7B] + CanonicalMembers(v, SortedKeys(v.members.Keys), true) + [0x7D]
  {
  }

  /** Each name's text is the canonical one. */
  ghost predicate TextsOf(texts: seq<seq<Byte>>, members: map<string, Value>, keys: seq<string>) {
    && |texts| == |keys|
    && forall i :: 0 <= i < |keys| ==> keys[i] in members && texts[i] == Canonical(members[keys[i]])
  }

  lemma ObjectOfTexts(bytes: seq<Byte>, v: Value, keys: seq<string>, pairs: seq<seq<Byte>>, texts: seq<seq<Byte>>)
    requires v.Object? && IsObject(bytes, v.members, keys, pairs, texts) && TextsOf(texts, v.members, keys)
    ensures bytes == Canonical(v)
  {
    hide Canonical, CanonicalMembers, Listed, SortedKeys, IsMember, Ordered, Quoted;
    OrderedIsSorted(keys, v.members);
    forall i | 0 <= i < |keys| ensures pairs[i] == Quoted(keys[i]) + [0x3A] + Canonical(v.members[keys[i]]) {
      MemberShape(pairs[i], keys[i], texts[i]);
    }
    MembersShape(pairs, v, keys);
    CanonicalObject(v);
  }

  ghost function Texts(v: Value, keys: seq<string>): (texts: seq<seq<Byte>>)
    requires v.Object? && forall k :: k in keys ==> k in v.members
    ensures TextsOf(texts, v.members, keys)
  {
    seq(|keys|, i requires 0 <= i < |keys| => Canonical(v.members[keys[i]]))
  }

  ghost function Pairs(v: Value, keys: seq<string>): (pairs: seq<seq<Byte>>)
    requires v.Object? && forall k :: k in keys ==> k in v.members
    ensures PairsOf(pairs, v, keys)
  {
    seq(|keys|, i requires 0 <= i < |keys| => Quoted(keys[i]) + [0x3A] + Canonical(v.members[keys[i]]))
  }

  lemma PairsAreMembers(v: Value, keys: seq<string>)
    requires v.Object? && forall k :: k in keys ==> k in v.members
    ensures AreMembers(Pairs(v, keys), keys, Texts(v, keys))
  {
    hide Canonical, Quoted, IsMember, Pairs, Texts;
    forall i | 0 <= i < |keys| ensures IsMember(Pairs(v, keys)[i], keys[i], Texts(v, keys)[i]) {
      MemberShape(Pairs(v, keys)[i], keys[i], Texts(v, keys)[i]);
    }
  }

  lemma TextsOfObject(v: Value) returns (keys: seq<string>, pairs: seq<seq<Byte>>, texts: seq<seq<Byte>>)
    requires v.Object?
    ensures IsObject(Canonical(v), v.members, keys, pairs, texts) && TextsOf(texts, v.members, keys)
  {
    keys := SortedKeys(v.members.Keys);
    hide *;
    pairs, texts := Pairs(v, keys), Texts(v, keys);
    OrderedIsSorted(keys, v.members);
    PairsAreMembers(v, keys);
    MembersShape(pairs, v, keys);
    CanonicalObject(v);
    ObjectIsFramed(v, keys, pairs, texts);
  }

  lemma ObjectIsFramed(v: Value, keys: seq<string>, pairs: seq<seq<Byte>>, texts: seq<seq<Byte>>)
    requires v.Object? && Ordered(keys, v.members) && AreMembers(pairs, keys, texts)
    requires Canonical(v) == [0x7B] + Listed(pairs) + [0x7D]
    ensures IsObject(Canonical(v), v.members, keys, pairs, texts)
  {
    hide Canonical, Listed, Ordered, AreMembers;
  }

  lemma {:induction false} MembersAlike(v: Value)
    requires v.Object? && IntegersOnly(v)
    ensures forall text, k :: k in v.members ==> (IsText(text, v.members[k]) <==> text == Canonical(v.members[k]))
    decreases v, 0
  {
    hide IsText, Canonical;
    forall text, k | k in v.members ensures IsText(text, v.members[k]) <==> text == Canonical(v.members[k]) {
      ShapeIsCanonical(text, v.members[k]);
    }
  }

  lemma {:induction false} ObjectShape(bytes: seq<Byte>, v: Value)
    requires v.Object? && IntegersOnly(v)
    ensures IsText(bytes, v) <==> bytes == Canonical(v)
    decreases v, 1
  {
    hide Canonical, IsObject, IntegersOnly;
    var members := v.members;
    MembersAlike(v);
    if IsText(bytes, v) {
      var keys: seq<string>, pairs: seq<seq<Byte>>, texts: seq<seq<Byte>> :|
        && IsObject(bytes, members, keys, pairs, texts)
        && (forall i :: 0 <= i < |texts| ==> IsText(texts[i], members[keys[i]]));
      ObjectOfTexts(bytes, v, keys, pairs, texts);
    }
    if bytes == Canonical(v) {
      var keys, pairs, texts := TextsOfObject(v);
      assert forall i :: 0 <= i < |texts| ==> IsText(texts[i], members[keys[i]]);
    }
  }
}
