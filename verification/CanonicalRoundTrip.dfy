/**
  Canonical text is read back: the bounded reader returns the very value that was printed, so
  canonical bytes determine the value, whatever order its members were authored in.
  */
module CanonicalRoundTrip {
  import opened Utf8
  import opened CanonicalJson
  import opened Decimal
  import opened JsonGrammar
  import opened DocumentWalk
  import opened JsonReader
  import opened JsonReaderProofs
  import opened JsonDocument

  // ----- Size and height of a value -----

  ghost function ValueSize(v: Value): (n: nat)
    decreases v, 1, 0
  {
    match v
    case Array(items) => 1 + ItemsSize(items)
    case Object(members) => 1 + MembersSize(v, SortedKeys(members.Keys))
    case _ => 1
  }

  ghost function ItemsSize(items: seq<Value>): (n: nat)
    decreases items, 0, 0
  {
    if items == [] then 0 else ValueSize(items[0]) + ItemsSize(items[1..])
  }

  ghost function MembersSize(v: Value, keys: seq<string>): (n: nat)
    requires v.Object? && forall k :: k in keys ==> k in v.members
    decreases v, 0, |keys|
  {
    if keys == [] then 0 else ValueSize(v.members[keys[0]]) + MembersSize(v, keys[1..])
  }

  ghost function ValueHeight(v: Value): (n: nat)
    decreases v, 1, 0
  {
    match v
    case Array(items) => 1 + ItemsHeight(items)
    case Object(members) => 1 + MembersHeight(v, SortedKeys(members.Keys))
    case _ => 1
  }

  ghost function ItemsHeight(items: seq<Value>): (n: nat)
    decreases items, 0, 0
  {
    if items == [] then 0 else Max(ValueHeight(items[0]), ItemsHeight(items[1..]))
  }

  ghost function MembersHeight(v: Value, keys: seq<string>): (n: nat)
    requires v.Object? && forall k :: k in keys ==> k in v.members
    decreases v, 0, |keys|
  {
    if keys == [] then 0 else Max(ValueHeight(v.members[keys[0]]), MembersHeight(v, keys[1..]))
  }

  // ----- The tree of a canonical text -----

  function CharOf(c: char): (r: StringChar) {
    if c == '\"' then Short(QUOTE)
    else if c == '\\' then Short(BACKSLASH)
    else if c as int == 8 then Short(98)
    else if c as int == 12 then Short(102)
    else if c == '\n' then Short(110)
    else if c == '\r' then Short(114)
    else if c == '\t' then Short(116)
    else if c as int < 0x20 then Hex([48, 48, HexDigit(c as int / 16), HexDigit(c as int % 16)])
    else Unescaped(c)
  }

  function CharsOf(text: string): (r: seq<StringChar>)
    ensures |r| == |text|
  {
    if text == "" then [] else [CharOf(text[0])] + CharsOf(text[1..])
  }

  lemma CharOfIsEscape(c: char)
    ensures CharBytes(CharOf(c)) == EscapeChar(c)
  {
  }

  lemma {:induction false} CharsAreEscapes(text: string)
    ensures StringBytes(CharsOf(text)) == EscapeText(text)
  {
    hide CharOf, CharBytes, EscapeChar;
    if text != "" {
      CharOfIsEscape(text[0]);
      CharsAreEscapes(text[1..]);
      assert CharsOf(text)[1..] == CharsOf(text[1..]);
    }
  }

  lemma CharMeaning(c: char, rest: seq<StringChar>)
    ensures StringMeaning([CharOf(c)] + rest) == Prepend(c, StringMeaning(rest))
  {
    assert ([CharOf(c)] + rest)[1..] == rest;
    if c as int < 0x20 {
      var n := c as int;
      assert HexValue(HexDigit(n / 16)) == n / 16 && HexValue(HexDigit(n % 16)) == n % 16;
    }
  }

  lemma {:induction false} CharsMeanText(text: string)
    ensures StringMeaning(CharsOf(text)) == Some(text)
  {
    hide CharOf;
    if text != "" {
      CharMeaning(text[0], CharsOf(text[1..]));
      CharsMeanText(text[1..]);
      assert text == [text[0]] + text[1..];
    }
  }

  function NumberOf(n: int): (r: Number)
    ensures PlainInteger(r) && IntegerPart(r) == Spell(n)
  {
    DigitsShape(if n < 0 then -n else n);
    Number(n < 0, Digits(if n < 0 then -n else n), NoFraction, NoExponent)
  }

  ghost function TreeOf(v: Value): (t: Text)
    requires IntegersOnly(v)
    decreases v, 1, 0
  {
    match v
    case Null => NullWord
    case Bool(b) => if b then TrueWord else FalseWord
    case Int(n) => NumberText(NumberOf(n))
    case String(s) => StringText(CharsOf(s))
    case Array(items) => if items == [] then EmptyArray([]) else ArrayText([], ElementsFor(items))
    case Object(members) =>
      var keys := SortedKeys(members.Keys);
      if keys == [] then EmptyObject([]) else ObjectText([], MembersFor(v, keys))
  }

  ghost function ElementsFor(items: seq<Value>): (e: Elements)
    requires items != [] && forall i :: 0 <= i < |items| ==> IntegersOnly(items[i])
    decreases items, 0, 0
  {
    if |items| == 1 then LastElement(TreeOf(items[0]), [])
    else MoreElements(TreeOf(items[0]), [], [], ElementsFor(items[1..]))
  }

  ghost function MemberFor(v: Value, key: string): (m: Member)
    requires v.Object? && key in v.members && IntegersOnly(v)
    decreases v, 0, 0
  {
    Member(CharsOf(key), [], [], TreeOf(v.members[key]), [])
  }

  ghost function MembersFor(v: Value, keys: seq<string>): (m: Members)
    requires v.Object? && IntegersOnly(v)
    requires keys != [] && forall k :: k in keys ==> k in v.members
    decreases v, 0, |keys|
  {
    if |keys| == 1 then LastMember(MemberFor(v, keys[0]))
    else MoreMembers(MemberFor(v, keys[0]), [], MembersFor(v, keys[1..]))
  }

  // ----- Its text is the canonical text -----

  lemma LaterItems(items: seq<Value>)
    requires items != []
    ensures CanonicalItems(items, false) == [COMMA] + CanonicalItems(items, true)
  {
    hide Canonical;
    assert Separator(true) + Canonical(items[0]) == Canonical(items[0]);
    assert Separator(false) + Canonical(items[0]) + CanonicalItems(items[1..], false)
        == [COMMA] + (Canonical(items[0]) + CanonicalItems(items[1..], false));
  }

  lemma LaterMembers(v: Value, keys: seq<string>)
    requires v.Object? && keys != [] && forall k :: k in keys ==> k in v.members
    ensures CanonicalMembers(v, keys, false) == [COMMA] + CanonicalMembers(v, keys, true)
  {
    hide Canonical, Quoted;
    var key, text, rest := Quoted(keys[0]), Canonical(v.members[keys[0]]), CanonicalMembers(v, keys[1..], false);
    assert [] + key + [COLON] + text + rest == key + [COLON] + text + rest;
    assert [COMMA] + key + [COLON] + text + rest == [COMMA] + (key + [COLON] + text + rest);
  }

  lemma {:induction false} TreePrints(v: Value, rest: seq<Byte>)
    requires IntegersOnly(v)
    ensures TextThen(TreeOf(v), rest) == Canonical(v) + rest
    decreases v, 1, 0
  {
    hide ElementsThen, MembersThen, CanonicalItems, CanonicalMembers, Spell, StringBytes, EscapeText;
    match v
    case Null =>
    case Bool(_) =>
    case Int(n) => TailLeads(NumberOf(n), rest);
    case String(s) =>
      CharsAreEscapes(s);
      assert [QUOTE] + (EscapeText(s) + ([QUOTE] + rest)) == Quoted(s) + rest;
    case Array(items) => ArrayPrints(v, rest);
    case Object(members) => ObjectPrints(v, rest);
  }

  lemma {:induction false} ArrayPrints(v: Value, rest: seq<Byte>)
    requires v.Array? && IntegersOnly(v)
    ensures TextThen(TreeOf(v), rest) == Canonical(v) + rest
    decreases v, 0, 1
  {
    hide ElementsThen;
    var items := v.items;
    if items == [] {
      assert [OPEN_ARRAY] + ([] + ([CLOSE_ARRAY] + rest)) == [OPEN_ARRAY] + [] + [CLOSE_ARRAY] + rest;
    } else {
      ElementsPrint(items, rest);
      var inner := CanonicalItems(items, true);
      assert [OPEN_ARRAY] + ([] + (inner + ([CLOSE_ARRAY] + rest))) == [OPEN_ARRAY] + inner + [CLOSE_ARRAY] + rest;
    }
  }

  lemma {:induction false} ObjectPrints(v: Value, rest: seq<Byte>)
    requires v.Object? && IntegersOnly(v)
    ensures TextThen(TreeOf(v), rest) == Canonical(v) + rest
    decreases v, 0, |v.members| + 1
  {
    hide MembersThen, SortedKeys;
    var keys := SortedKeys(v.members.Keys);
    SortedKeysLength(v.members.Keys);
    if keys == [] {
      assert [OPEN_OBJECT] + ([] + ([CLOSE_OBJECT] + rest)) == [OPEN_OBJECT] + [] + [CLOSE_OBJECT] + rest;
    } else {
      MembersPrint(v, keys, rest);
      var inner := CanonicalMembers(v, keys, true);
      assert [OPEN_OBJECT] + ([] + (inner + ([CLOSE_OBJECT] + rest))) == [OPEN_OBJECT] + inner + [CLOSE_OBJECT] + rest;
    }
  }

  lemma {:induction false} ElementsPrint(items: seq<Value>, rest: seq<Byte>)
    requires items != [] && forall i :: 0 <= i < |items| ==> IntegersOnly(items[i])
    ensures ElementsThen(ElementsFor(items), rest) == CanonicalItems(items, true) + ([CLOSE_ARRAY] + rest)
    decreases items, 0, 0
  {
    hide TextThen, Canonical, TreeOf, IntegersOnly;
    var head, close := Canonical(items[0]), [CLOSE_ARRAY] + rest;
    assert [] + close == close;
    if |items| == 1 {
      TreePrints(items[0], close);
      assert CanonicalItems(items[1..], false) == [];
      assert [] + head + [] == head;
    } else {
      var tail := items[1..];
      ElementsPrint(tail, rest);
      LaterItems(tail);
      var more := CanonicalItems(tail, true);
      var after := [COMMA] + ([] + (more + close));
      assert [] + after == after;
      TreePrints(items[0], after);
      assert head + after == ([] + head + ([COMMA] + more)) + close;
    }
  }

  lemma {:induction false} MemberPrints(v: Value, key: string, rest: seq<Byte>)
    requires v.Object? && key in v.members && IntegersOnly(v)
    ensures MemberThen(MemberFor(v, key), rest) == Quoted(key) + [COLON] + Canonical(v.members[key]) + rest
    decreases v, 0, 0
  {
    hide TextThen, Canonical, TreeOf, StringBytes, EscapeText;
    var text := Canonical(v.members[key]);
    assert [] + rest == rest;
    TreePrints(v.members[key], rest);
    CharsAreEscapes(key);
    assert [QUOTE] + (EscapeText(key) + ([QUOTE] + ([] + ([COLON] + ([] + (text + rest))))))
        == Quoted(key) + [COLON] + text + rest;
  }

  lemma {:induction false} MembersPrint(v: Value, keys: seq<string>, rest: seq<Byte>)
    requires v.Object? && IntegersOnly(v)
    requires keys != [] && forall k :: k in keys ==> k in v.members
    ensures MembersThen(MembersFor(v, keys), rest) == CanonicalMembers(v, keys, true) + ([CLOSE_OBJECT] + rest)
    decreases v, 0, |keys|
  {
    hide MemberThen, Canonical, Quoted, MemberFor;
    var head, text, close := Quoted(keys[0]), Canonical(v.members[keys[0]]), [CLOSE_OBJECT] + rest;
    if |keys| == 1 {
      MemberPrints(v, keys[0], close);
      assert CanonicalMembers(v, keys[1..], false) == [];
      assert [] + head + [COLON] + text + [] == head + [COLON] + text;
    } else {
      var tail := keys[1..];
      MembersPrint(v, tail, rest);
      LaterMembers(v, tail);
      var more := CanonicalMembers(v, tail, true);
      var after := [COMMA] + ([] + (more + close));
      MemberPrints(v, keys[0], after);
      assert head + [COLON] + text + after == ([] + head + [COLON] + text + ([COMMA] + more)) + close;
    }
  }

  // ----- Its meaning is the value -----

  ghost predicate Represents(d: Doc, v: Value) {
    WellFormed(d) && Meaning(d) == v && Size(d) == ValueSize(v) && Height(d) == ValueHeight(v)
  }

  lemma {:induction false} TreeMeans(v: Value)
    requires IntegersOnly(v)
    ensures Represents(DocOf(TreeOf(v)), v)
    decreases v, 1, 0
  {
    match v
    case Null =>
    case Bool(_) =>
    case Int(n) =>
      SpellReads(n);
      IntegerSpellings(Spell(n), n);
    case String(s) => CharsMeanText(s);
    case Array(items) =>
      if items != [] {
        ElementsMean(items, []);
        assert [] + items == items;
      }
    case Object(members) => ObjectMeans(v);
  }

  lemma {:induction false} ElementsMean(items: seq<Value>, done: seq<Value>)
    requires items != [] && forall i :: 0 <= i < |items| ==> IntegersOnly(items[i])
    ensures var d := DocsOf(ElementsFor(items));
            && WellFormedItems(d) && ItemsMeaning(d, done) == done + items
            && DocumentWalk.ItemsSize(d) == ItemsSize(items) && DocumentWalk.ItemsHeight(d) == ItemsHeight(items)
    decreases items, 0, 0
  {
    hide DocOf, TreeOf, WellFormed, Meaning, Size, Height, ValueSize, ValueHeight;
    Represented(items[0]);
    if |items| == 1 {
      assert done + items == done + [items[0]];
    } else {
      ElementsMean(items[1..], done + [items[0]]);
      assert done + items == done + [items[0]] + items[1..];
    }
  }

  lemma {:induction false} Represented(v: Value)
    requires IntegersOnly(v)
    ensures var d := DocOf(TreeOf(v));
            WellFormed(d) && Meaning(d) == v && Size(d) == ValueSize(v) && Height(d) == ValueHeight(v)
    decreases v, 1, 1
  {
    TreeMeans(v);
  }

  lemma EmptyObjectMeans(v: Value)
    requires v.Object? && v.members == map[]
    ensures Represents(Mapping(NoEntries), v)
  {
    assert v.members.Keys == {};
    assert SortedKeys(v.members.Keys) == [];
  }

  lemma MappingRepresents(d: Entries, v: Value, none: map<string, Value>)
    requires v.Object? && none == map[]
    requires WellFormedEntries(d, none.Keys) && EntriesMeaning(d, none) == v.members
    requires EntriesSize(d) == MembersSize(v, SortedKeys(v.members.Keys))
    requires EntriesHeight(d) == MembersHeight(v, SortedKeys(v.members.Keys))
    ensures Represents(Mapping(d), v)
  {
    hide EntriesMeaning, WellFormedEntries, SortedKeys, EntriesSize, EntriesHeight, MembersSize, MembersHeight;
    assert none.Keys == {};
  }

  lemma {:induction false} ObjectMeans(v: Value)
    requires v.Object? && IntegersOnly(v)
    ensures Represents(DocOf(TreeOf(v)), v)
    decreases v, 0, |v.members| + 1
  {
    hide SortedKeys, IntegersOnly, MembersFor, EntriesOf, WellFormedEntries, EntriesMeaning, EntriesSize,
         EntriesHeight, Represents;
    var keys := SortedKeys(v.members.Keys);
    SortedKeysLength(v.members.Keys);
    if keys == [] {
      assert v.members == map[];
      EmptyObjectMeans(v);
    } else {
      var none: map<string, Value> := map[];
      assert none.Keys == {};
      SortedKeysAscend(v.members.Keys);
      forall i, j | 0 <= i < j < |keys| ensures keys[i] != keys[j] {
        TextLessIrreflexive(keys[i]);
      }
      MembersMean(v, keys, none);
      assert none + Chosen(v, keys) == v.members;
      MappingRepresents(EntriesOf(MembersFor(v, keys)), v, none);
      assert TreeOf(v) == ObjectText([], MembersFor(v, keys));
    }
  }

  ghost function Chosen(v: Value, keys: seq<string>): (m: map<string, Value>)
    requires v.Object? && forall k :: k in keys ==> k in v.members
  {
    map k | k in keys :: v.members[k]
  }

  lemma ChosenCons(v: Value, keys: seq<string>, done: map<string, Value>)
    requires v.Object? && keys != [] && forall k :: k in keys ==> k in v.members
    requires forall i, j :: 0 <= i < j < |keys| ==> keys[i] != keys[j]
    ensures done + Chosen(v, keys) == done[keys[0] := v.members[keys[0]]] + Chosen(v, keys[1..])
  {
    assert keys == [keys[0]] + keys[1..];
    assert keys[0] !in keys[1..];
  }

  lemma {:induction false} MembersMean(v: Value, keys: seq<string>, done: map<string, Value>)
    requires v.Object? && IntegersOnly(v)
    requires keys != [] && forall k :: k in keys ==> k in v.members && k !in done
    requires forall i, j :: 0 <= i < j < |keys| ==> keys[i] != keys[j]
    ensures var d := EntriesOf(MembersFor(v, keys));
            && WellFormedEntries(d, done.Keys) && EntriesMeaning(d, done) == done + Chosen(v, keys)
            && EntriesSize(d) == MembersSize(v, keys) && EntriesHeight(d) == MembersHeight(v, keys)
    decreases v, 0, |keys|
  {
    hide DocOf, TreeOf, WellFormed, Meaning, Size, Height, ValueSize, ValueHeight, CharsOf, StringMeaning;
    var key, rest := keys[0], keys[1..];
    Represented(v.members[key]);
    CharsMeanText(key);
    var more := done[key := v.members[key]];
    assert more.Keys == done.Keys + {key};
    ChosenCons(v, keys, done);
    if |keys| == 1 {
      assert more + Chosen(v, rest) == more;
    } else {
      forall k | k in rest ensures k in v.members && k !in more {
        assert k in keys;
      }
      MembersMean(v, rest, more);
    }
  }

  // ----- The round trip -----

  /**
    For every value whose numbers are 64-bit integers and whose height and node count are within
    the limits, reading its canonical text returns that value; beyond the limits the text is refused.
    */
  lemma CanonicalRoundTrips(v: Value, limits: Limits)
    requires IntegersOnly(v)
    ensures ReadDocument(Canonical(v), limits) == Ok(v)
            <==> ValueHeight(v) <= limits.maxDepth && ValueSize(v) <= limits.maxNodes
    ensures ReadDocument(Canonical(v), limits).Ok? ==> ReadDocument(Canonical(v), limits) == Ok(v)
  {
    hide Canonical, TextThen, DocOf, TreeOf, WellFormed, Meaning, Size, Height, ValueSize, ValueHeight, ReadDocument,
         Walk;
    Represented(v);
    TreePrints(v, []);
    assert Canonical(v) == [] + TextThen(TreeOf(v), []);
    DocumentVerdict([], TreeOf(v), [], limits);
    WalkAccepts(DocOf(TreeOf(v)), 1, 0, limits);
  }

  /** Canonical bytes determine the value. */
  lemma CanonicalInjective(v: Value, w: Value)
    requires IntegersOnly(v) && IntegersOnly(w)
    requires Canonical(v) == Canonical(w)
    ensures v == w
  {
    hide Canonical, ReadDocument, ValueHeight, ValueSize;
    var limits := Limits(0, Max(ValueHeight(v), ValueHeight(w)), Max(ValueSize(v), ValueSize(w)));
    CanonicalRoundTrips(v, limits);
    CanonicalRoundTrips(w, limits);
  }
}
