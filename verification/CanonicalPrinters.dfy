/**
  The four printers of canonical JSON: the build script's, the fuzz oracle's and the core crate's in
  Rust, and the contract manifest's in Python. The core crate's has the oracle's form and shares its
  model. The build recomputes a digest that Python wrote, so all of them have to produce the same
  bytes and refuse the same values. Each is shown equal to `Canonical`.
  */
module CanonicalPrinters {
  import opened Utf8
  import opened CanonicalJson
  import Decimal

  datatype Outcome = Ok | Err(reason: string)

  /** A growable byte vector, as the Rust printers receive it. */
  class Buffer {
    var bytes: seq<Byte>

    constructor ()
      ensures bytes == []
    {
      bytes := [];
    }

    method Push(more: seq<Byte>)
      modifies this
      ensures bytes == old(bytes) + more
    {
      bytes := bytes + more;
    }
  }

  // ----- What the Rust printers call -----

  /** The escape table of `serde_json`, indexed by byte. */
  function SerdeEscapeByte(b: Byte): (bytes: seq<Byte>) {
    match b
    case 8 => [BACKSLASH, 98]
    case 9 => [BACKSLASH, 116]
    case 10 => [BACKSLASH, 110]
    case 12 => [BACKSLASH, 102]
    case 13 => [BACKSLASH, 114]
    case 34 => [BACKSLASH, QUOTE]
    case 92 => [BACKSLASH, BACKSLASH]
    case _ => if b < 0x20 then [BACKSLASH, 117, 48, 48, HexDigit(b / 16), HexDigit(b % 16)] else [b]
  }

  function FlatMap<S, T>(f: S -> seq<T>, source: seq<S>): (r: seq<T>) {
    if source == [] then [] else f(source[0]) + FlatMap(f, source[1..])
  }

  lemma {:induction false} FlatMapConcat<S, T>(f: S -> seq<T>, a: seq<S>, b: seq<S>)
    ensures FlatMap(f, a + b) == FlatMap(f, a) + FlatMap(f, b)
  {
    if a == [] {
      assert a + b == b;
    } else {
      FlatMapConcat(f, a[1..], b);
      assert (a + b)[1..] == a[1..] + b;
    }
  }

  function SerdeEscape(raw: seq<Byte>): (bytes: seq<Byte>) {
    FlatMap(SerdeEscapeByte, raw)
  }

  /** `serde_json::to_writer` on a string works on its UTF-8 bytes. */
  function SerdeString(text: string): (bytes: seq<Byte>) {
    [QUOTE] + SerdeEscape(Encode(text)) + [QUOTE]
  }

  /** No byte of a multi-byte sequence is in the escape table. */
  lemma {:induction false} SerdeEscapePlain(raw: seq<Byte>)
    requires forall i :: 0 <= i < |raw| ==> raw[i] >= 0x80
    ensures SerdeEscape(raw) == raw
  {
    if raw != [] {
      SerdeEscapePlain(raw[1..]);
      assert raw == [raw[0]] + raw[1..];
    }
  }

  lemma SerdeEscapeChar(c: char)
    ensures SerdeEscape(EncodeChar(c)) == EscapeChar(c)
  {
    if c as int < 0x80 {
      var b: Byte := c as int;
      assert EncodeChar(c) == [b];
      assert [b][1..] == [];
      assert FlatMap(SerdeEscapeByte, [b]) == SerdeEscapeByte(b) + FlatMap(SerdeEscapeByte, []);
    } else {
      SerdeEscapePlain(EncodeChar(c));
    }
  }

  lemma {:induction false} SerdeEscapeText(text: string)
    ensures SerdeEscape(Encode(text)) == EscapeText(text)
  {
    if text != "" {
      FlatMapConcat(SerdeEscapeByte, EncodeChar(text[0]), Encode(text[1..]));
      SerdeEscapeChar(text[0]);
      SerdeEscapeText(text[1..]);
    }
  }

  /** Escaping the bytes of a text is escaping its characters. */
  lemma SerdeStringIsQuoted(text: string)
    ensures SerdeString(text) == Quoted(text)
  {
    SerdeEscapeText(text);
  }

  /** `left.as_bytes().cmp(right.as_bytes())` is less. */
  predicate BytewiseLess(left: string, right: string) {
    BytesLess(Encode(left), Encode(right))
  }

  ghost predicate AscendingBy<T>(key: T -> string, entries: seq<T>) {
    forall i, j :: 0 <= i < j < |entries| ==> TextLess(key(entries[i]), key(entries[j]))
  }

  function InsertBytewise<T(!new)>(key: T -> string, entry: T, sorted: seq<T>): (r: seq<T>)
    requires AscendingBy(key, sorted)
    requires forall e :: e in sorted ==> key(e) != key(entry)
    ensures AscendingBy(key, r)
    ensures forall e :: e in r <==> e == entry || e in sorted
  {
    if sorted == [] then [entry]
    else
      assert sorted == [sorted[0]] + sorted[1..];
      OrderAgreement(key(entry), key(sorted[0]));
      TextLessTotal(key(entry), key(sorted[0]));
      if BytewiseLess(key(entry), key(sorted[0])) then
        InsertFrontAscends(key, entry, sorted);
        [entry] + sorted
      else
        var rest := InsertBytewise(key, entry, sorted[1..]);
        assert forall e :: e in rest ==> TextLess(key(sorted[0]), key(e));
        [sorted[0]] + rest
  }

  lemma InsertFrontAscends<T>(key: T -> string, entry: T, sorted: seq<T>)
    requires AscendingBy(key, sorted) && sorted != []
    requires TextLess(key(entry), key(sorted[0]))
    ensures AscendingBy(key, [entry] + sorted)
  {
    forall j | 0 < j < |sorted| ensures TextLess(key(entry), key(sorted[j])) {
      TextLessTransitive(key(entry), key(sorted[0]), key(sorted[j]));
    }
  }

  /** `sort_unstable_by` with the byte comparison, on entries whose keys are distinct. */
  function SortBytewise<T(!new)>(key: T -> string, entries: seq<T>): (sorted: seq<T>)
    requires forall i, j :: 0 <= i < j < |entries| ==> key(entries[i]) != key(entries[j])
    ensures AscendingBy(key, sorted)
    ensures forall e :: e in sorted <==> e in entries
  {
    if entries == [] then []
    else
      var rest := SortBytewise(key, entries[1..]);
      assert entries == [entries[0]] + entries[1..];
      InsertBytewise(key, entries[0], rest)
  }

  /** The keys of a map in whatever order its iterator yields them. */
  method CollectKeys(members: map<string, Value>) returns (keys: seq<string>)
    ensures forall k :: k in keys <==> k in members
    ensures forall i, j :: 0 <= i < j < |keys| ==> keys[i] != keys[j]
  {
    keys := [];
    var left := members.Keys;
    while left != {}
      invariant left <= members.Keys
      invariant forall k :: k in keys <==> k in members.Keys - left
      invariant forall i, j :: 0 <= i < j < |keys| ==> keys[i] != keys[j]
      decreases |left|
    {
      var k :| k in left;
      keys := keys + [k];
      left := left - {k};
    }
  }

  // ----- Accumulating form of the canonical text -----

  ghost function AppendItems(output: seq<Byte>, items: seq<Value>, first: bool): (r: seq<Byte>)
    decreases |items|
  {
    if items == [] then output
    else AppendItems(output + Separator(first) + Canonical(items[0]), items[1..], false)
  }

  ghost function AppendMembers(output: seq<Byte>, v: Value, keys: seq<string>, first: bool): (r: seq<Byte>)
    requires v.Object? && forall k :: k in keys ==> k in v.members
    decreases |keys|
  {
    if keys == [] then output
    else
      AppendMembers(output + Separator(first) + Quoted(keys[0]) + [COLON] + Canonical(v.members[keys[0]]),
                    v, keys[1..], false)
  }

  lemma AppendItemsStep(output: seq<Byte>, items: seq<Value>, i: nat)
    requires i < |items|
    ensures AppendItems(output, items[i..], i == 0)
            == AppendItems(output + Separator(i == 0) + Canonical(items[i]), items[i + 1..], false)
  {
    assert items[i..][1..] == items[i + 1..];
  }

  lemma AppendMembersStep(output: seq<Byte>, v: Value, keys: seq<string>, i: nat)
    requires v.Object? && forall k :: k in keys ==> k in v.members
    requires i < |keys|
    ensures AppendMembers(output, v, keys[i..], i == 0)
            == AppendMembers(output + Separator(i == 0) + Quoted(keys[i]) + [COLON] + Canonical(v.members[keys[i]]),
                             v, keys[i + 1..], false)
  {
    assert keys[i..][1..] == keys[i + 1..];
  }

  lemma AppendNothing(output: seq<Byte>, v: Value, first: bool)
    requires v.Object?
    ensures AppendMembers(output, v, [], first) == output
  {
  }

  lemma Bracketed(output: seq<Byte>, open: seq<Byte>, inner: seq<Byte>, close: seq<Byte>)
    ensures output + open + inner + close == output + (open + inner + close)
  {
  }

  lemma Reassociate(a: seq<Byte>, b: seq<Byte>, c: seq<Byte>, d: seq<Byte>, e: seq<Byte>, f: seq<Byte>)
    ensures a + b + c + d + e + f == a + (b + c + d + e + f)
  {
  }

  lemma {:induction false} AppendItemsIsConcat(output: seq<Byte>, items: seq<Value>, first: bool)
    ensures AppendItems(output, items, first) == output + CanonicalItems(items, first)
    decreases |items|
  {
    hide Canonical;
    if items != [] {
      var text, rest := Canonical(items[0]), CanonicalItems(items[1..], false);
      AppendItemsIsConcat(output + Separator(first) + text, items[1..], false);
      assert output + Separator(first) + text + rest == output + (Separator(first) + text + rest);
    }
  }

  lemma {:induction false} AppendMembersIsConcat(output: seq<Byte>, v: Value, keys: seq<string>, first: bool)
    requires v.Object? && forall k :: k in keys ==> k in v.members
    ensures AppendMembers(output, v, keys, first) == output + CanonicalMembers(v, keys, first)
    decreases |keys|
  {
    if keys != [] {
      var key, text, rest := Quoted(keys[0]), Canonical(v.members[keys[0]]), CanonicalMembers(v, keys[1..], false);
      AppendMembersIsConcat(output + Separator(first) + key + [COLON] + text, v, keys[1..], false);
      Reassociate(output, Separator(first), key, [COLON], text, rest);
    }
  }

  // ----- The build script's printer -----

  method CanonicalJsonBytes(v: Value) returns (outcome: Outcome, bytes: seq<Byte>)
    ensures outcome.Ok? <==> IntegersOnly(v)
    ensures outcome.Ok? ==> bytes == Canonical(v)
  {
    var output := new Buffer();
    outcome := AppendCanonicalJson(v, output);
    bytes := output.bytes;
  }

  method AppendCanonicalJson(v: Value, output: Buffer) returns (outcome: Outcome)
    modifies output
    ensures outcome.Ok? <==> IntegersOnly(v)
    ensures outcome.Ok? ==> output.bytes == old(output.bytes) + Canonical(v)
    decreases v, 1
  {
    outcome := Ok;
    match v
    case Null => output.Push(NULL_TEXT);
    case Bool(b) => output.Push(if b then TRUE_TEXT else FALSE_TEXT);
    case Int(n) =>
      if CanonicalInteger(n) {
        output.Push(Decimal.Spell(n));
      } else {
        outcome := Err("canonical JSON numbers must be integers");
      }
    case Float => outcome := Err("canonical JSON numbers must be integers");
    case String(s) =>
      SerdeStringIsQuoted(s);
      output.Push(SerdeString(s));
    case Array(_) => outcome := AppendCanonicalArray(v, output);
    case Object(_) => outcome := AppendCanonicalObject(v, output);
  }

  method AppendCanonicalArray(v: Value, output: Buffer) returns (outcome: Outcome)
    requires v.Array?
    modifies output
    ensures outcome.Ok? <==> IntegersOnly(v)
    ensures outcome.Ok? ==> output.bytes == old(output.bytes) + Canonical(v)
    decreases v, 0, 1
  {
    output.Push([OPEN_ARRAY]);
    ghost var start := output.bytes;
    outcome := AppendCanonicalItems(v, output);
    if outcome.Ok? {
      AppendItemsIsConcat(start, v.items, true);
      Bracketed(old(output.bytes), [OPEN_ARRAY], CanonicalItems(v.items, true), [CLOSE_ARRAY]);
      output.Push([CLOSE_ARRAY]);
    }
  }

  method AppendCanonicalItems(v: Value, output: Buffer) returns (outcome: Outcome)
    requires v.Array?
    modifies output
    ensures outcome.Ok? <==> forall j :: 0 <= j < |v.items| ==> IntegersOnly(v.items[j])
    ensures outcome.Ok? ==> output.bytes == AppendItems(old(output.bytes), v.items, true)
    decreases v, 0, 0
  {
    var items := v.items;
    ghost var start := output.bytes;
    assert items[0..] == items;
    for i := 0 to |items|
      invariant AppendItems(output.bytes, items[i..], i == 0) == AppendItems(start, items, true)
      invariant forall j :: 0 <= j < i ==> IntegersOnly(items[j])
    {
      AppendItemsStep(output.bytes, items, i);
      output.Push(Separator(i == 0));
      outcome := AppendCanonicalJson(items[i], output);
      if outcome.Err? {
        return;
      }
    }
    outcome := Ok;
  }

  method AppendCanonicalObject(v: Value, output: Buffer) returns (outcome: Outcome)
    requires v.Object?
    modifies output
    ensures outcome.Ok? <==> IntegersOnly(v)
    ensures outcome.Ok? ==> output.bytes == old(output.bytes) + Canonical(v)
    decreases v, 0, 1
  {
    var unsorted := CollectKeys(v.members);
    var keys := SortBytewise(k => k, unsorted);
    AscendingIsSortedKeys(keys, v.members.Keys);
    output.Push([OPEN_OBJECT]);
    ghost var start := output.bytes;
    outcome := AppendCanonicalMembers(v, keys, output);
    if outcome.Ok? {
      AppendMembersIsConcat(start, v, keys, true);
      Bracketed(old(output.bytes), [OPEN_OBJECT], CanonicalMembers(v, keys, true), [CLOSE_OBJECT]);
      output.Push([CLOSE_OBJECT]);
    }
  }

  method AppendCanonicalMembers(v: Value, keys: seq<string>, output: Buffer) returns (outcome: Outcome)
    requires v.Object? && forall k :: k in keys <==> k in v.members
    modifies output
    ensures outcome.Ok? <==> forall k :: k in v.members ==> IntegersOnly(v.members[k])
    ensures outcome.Ok? ==> output.bytes == AppendMembers(old(output.bytes), v, keys, true)
    decreases v, 0, 0
  {
    hide Canonical, SerdeString, Quoted, SortedKeys, AppendMembers;
    ghost var start := output.bytes;
    assert keys[0..] == keys;
    for i := 0 to |keys|
      invariant AppendMembers(output.bytes, v, keys[i..], i == 0) == AppendMembers(start, v, keys, true)
      invariant forall j :: 0 <= j < i ==> IntegersOnly(v.members[keys[j]])
    {
      AppendMembersStep(output.bytes, v, keys, i);
      output.Push(Separator(i == 0));
      SerdeStringIsQuoted(keys[i]);
      output.Push(SerdeString(keys[i]));
      output.Push([COLON]);
      outcome := AppendCanonicalJson(v.members[keys[i]], output);
      if outcome.Err? {
        return;
      }
    }
    assert keys[|keys|..] == [];
    AppendNothing(output.bytes, v, |keys| == 0);
    outcome := Ok;
  }

  // ----- The fuzz oracle, and `write_canonical_json` of the core crate: entries are sorted, not keys -----

  method ExpectedCanonical(v: Value, output: Buffer) returns (outcome: Outcome)
    modifies output
    ensures outcome.Ok? <==> IntegersOnly(v)
    ensures outcome.Ok? ==> output.bytes == old(output.bytes) + Canonical(v)
    decreases v, 1
  {
    outcome := Ok;
    match v
    case Null => output.Push(NULL_TEXT);
    case Bool(b) => output.Push(if b then TRUE_TEXT else FALSE_TEXT);
    case Int(n) =>
      if CanonicalInteger(n) {
        output.Push(Decimal.Spell(n));
      } else {
        outcome := Err("floating point number");
      }
    case Float => outcome := Err("floating point number");
    case String(s) =>
      SerdeStringIsQuoted(s);
      output.Push(SerdeString(s));
    case Array(items) =>
      output.Push([OPEN_ARRAY]);
      ghost var start := output.bytes;
      outcome := ExpectedItems(v, output);
      if outcome.Ok? {
        AppendItemsIsConcat(start, items, true);
        Bracketed(old(output.bytes), [OPEN_ARRAY], CanonicalItems(items, true), [CLOSE_ARRAY]);
        output.Push([CLOSE_ARRAY]);
      }
    case Object(members) =>
      output.Push([OPEN_OBJECT]);
      ghost var start := output.bytes;
      ghost var keys := SortedKeys(members.Keys);
      outcome := ExpectedMembers(v, output);
      if outcome.Ok? {
        AppendMembersIsConcat(start, v, keys, true);
        Bracketed(old(output.bytes), [OPEN_OBJECT], CanonicalMembers(v, keys, true), [CLOSE_OBJECT]);
        output.Push([CLOSE_OBJECT]);
      }
  }

  method ExpectedItems(v: Value, output: Buffer) returns (outcome: Outcome)
    requires v.Array?
    modifies output
    ensures outcome.Ok? <==> forall j :: 0 <= j < |v.items| ==> IntegersOnly(v.items[j])
    ensures outcome.Ok? ==> output.bytes == AppendItems(old(output.bytes), v.items, true)
    decreases v, 0
  {
    var items := v.items;
    ghost var start := output.bytes;
    assert items[0..] == items;
    for i := 0 to |items|
      invariant AppendItems(output.bytes, items[i..], i == 0) == AppendItems(start, items, true)
      invariant forall j :: 0 <= j < i ==> IntegersOnly(items[j])
    {
      AppendItemsStep(output.bytes, items, i);
      output.Push(Separator(i == 0));
      outcome := ExpectedCanonical(items[i], output);
      if outcome.Err? {
        return;
      }
    }
    outcome := Ok;
  }

  /** The entries of a map in whatever order its iterator yields them, then sorted by key bytes. */
  method SortedEntries(members: map<string, Value>) returns (entries: seq<(string, Value)>)
    ensures forall i :: 0 <= i < |entries| ==> entries[i].0 in members && entries[i].1 == members[entries[i].0]
    ensures seq(|entries|, i requires 0 <= i < |entries| => entries[i].0) == SortedKeys(members.Keys)
  {
    var keys := CollectKeys(members);
    var unsorted := seq(|keys|, i requires 0 <= i < |keys| => (keys[i], members[keys[i]]));
    entries := SortBytewise((e: (string, Value)) => e.0, unsorted);
    forall i | 0 <= i < |entries| ensures entries[i].0 in members && entries[i].1 == members[entries[i].0] {
      assert entries[i] in unsorted;
    }
    ghost var sorted := seq(|entries|, i requires 0 <= i < |entries| => entries[i].0);
    forall k ensures k in sorted <==> k in members.Keys {
      if k in members {
        assert k in keys;
        var j :| 0 <= j < |keys| && keys[j] == k;
        assert unsorted[j] in entries;
        var i :| 0 <= i < |entries| && entries[i] == unsorted[j];
        assert sorted[i] == k;
      }
    }
    AscendingIsSortedKeys(sorted, members.Keys);
  }

  method ExpectedMembers(v: Value, output: Buffer) returns (outcome: Outcome)
    requires v.Object?
    modifies output
    ensures outcome.Ok? <==> forall k :: k in v.members ==> IntegersOnly(v.members[k])
    ensures outcome.Ok? ==> output.bytes == AppendMembers(old(output.bytes), v, SortedKeys(v.members.Keys), true)
    decreases v, 0
  {
    hide Canonical, SerdeString, Quoted, SortedKeys, AppendMembers;
    var entries := SortedEntries(v.members);
    ghost var keys := SortedKeys(v.members.Keys);
    ghost var start := output.bytes;
    assert keys[0..] == keys;
    for i := 0 to |entries|
      invariant AppendMembers(output.bytes, v, keys[i..], i == 0) == AppendMembers(start, v, keys, true)
      invariant forall j :: 0 <= j < i ==> IntegersOnly(v.members[keys[j]])
    {
      var (key, value) := entries[i];
      assert keys[i] == key;
      AppendMembersStep(output.bytes, v, keys, i);
      output.Push(Separator(i == 0));
      SerdeStringIsQuoted(key);
      output.Push(SerdeString(key));
      output.Push([COLON]);
      outcome := ExpectedCanonical(value, output);
      if outcome.Err? {
        return;
      }
    }
    assert keys[|entries|..] == [];
    AppendNothing(output.bytes, v, |entries| == 0);
    outcome := Ok;
  }

  // ----- The contract manifest's printer in Python -----

  /** `json.encoder` with `ensure_ascii=False` works on characters; the text is encoded afterwards. */
  function PythonEscapeChar(c: char): (text: string) {
    if c == '\"' then "\\\""
    else if c == '\\' then "\\\\"
    else if c == '\n' then "\\n"
    else if c == '\r' then "\\r"
    else if c == '\t' then "\\t"
    else if c as int == 12 then "\\f"
    else if c as int == 8 then "\\b"
    else if c as int < 0x20 then "\\u00" + [HexDigit(c as int / 16) as char, HexDigit(c as int % 16) as char]
    else [c]
  }

  function PythonEscape(s: string): (text: string) {
    if s == "" then "" else PythonEscapeChar(s[0]) + PythonEscape(s[1..])
  }

  function PythonString(s: string): (text: string) {
    "\"" + PythonEscape(s) + "\""
  }

  function AsciiText(bytes: seq<Byte>): (text: string)
    requires forall i :: 0 <= i < |bytes| ==> bytes[i] < 0x80
    ensures Encode(text) == bytes
  {
    var text := seq(|bytes|, i requires 0 <= i < |bytes| => bytes[i] as char);
    EncodeAscii(text);
    text
  }

  /** `int.__repr__` */
  function PythonInt(n: int): (text: string)
    ensures Encode(text) == Decimal.Spell(n)
  {
    Decimal.SpellIsAscii(n);
    AsciiText(Decimal.Spell(n))
  }

  /** `json.dumps` with `sort_keys=True` and compact separators. Dictionary keys sort by code point. */
  ghost function PythonDumps(v: Value): (text: string)
    decreases v, 1, 0
  {
    match v
    case Null => "null"
    case Bool(b) => if b then "true" else "false"
    case Int(n) => PythonInt(n)
    case Float => ""
    case String(s) => PythonString(s)
    case Array(items) => "[" + PythonItems(items, true) + "]"
    case Object(members) => "{" + PythonMembers(v, SortedKeys(members.Keys), true) + "}"
  }

  ghost function PythonItems(items: seq<Value>, first: bool): (text: string)
    decreases items, 0, 0
  {
    if items == [] then ""
    else (if first then "" else ",") + PythonDumps(items[0]) + PythonItems(items[1..], false)
  }

  ghost function PythonMembers(v: Value, keys: seq<string>, first: bool): (text: string)
    requires v.Object? && forall k :: k in keys ==> k in v.members
    decreases v, 0, |keys|
  {
    if keys == [] then ""
    else
      (if first then "" else ",") + PythonString(keys[0]) + ":" + PythonDumps(v.members[keys[0]])
      + PythonMembers(v, keys[1..], false)
  }

  const MIN_CANONICAL_INTEGER: int := -0x8000_0000_0000_0000
  const MAX_CANONICAL_INTEGER: int := 0x1_0000_0000_0000_0000 - 1

  /** `reject_noncanonical_numbers`: Python's own walk; a `bool` is an `int` there and has to be let through first. */
  predicate NumbersPass(v: Value) {
    if v.Bool? then true
    else if v.Float? then false
    else if v.Int? && (v.number < MIN_CANONICAL_INTEGER || v.number > MAX_CANONICAL_INTEGER) then false
    else if v.Object? then forall k :: k in v.members ==> NumbersPass(v.members[k])
    else if v.Array? then forall i :: 0 <= i < |v.items| ==> NumbersPass(v.items[i])
    else true
  }

  /** Python's walk refuses what the Rust printers refuse. */
  lemma {:induction false} NumbersPassAlike(v: Value)
    ensures NumbersPass(v) <==> IntegersOnly(v)
  {
    match v
    case Array(items) =>
      forall i | 0 <= i < |items| ensures NumbersPass(items[i]) <==> IntegersOnly(items[i]) {
        NumbersPassAlike(items[i]);
      }
    case Object(members) =>
      forall k | k in members ensures NumbersPass(members[k]) <==> IntegersOnly(members[k]) {
        NumbersPassAlike(members[k]);
      }
    case _ =>
  }

  /** `canonical_bytes`: the walk, then the printer, then the encoding. */
  ghost function PythonCanonicalBytes(v: Value): (r: Option<seq<Byte>>) {
    if NumbersPass(v) then Some(Encode(PythonDumps(v))) else None
  }

  lemma PythonEscapeCharEncodes(c: char)
    ensures Encode(PythonEscapeChar(c)) == EscapeChar(c)
  {
    if c as int < 0x80 {
      EncodeAscii(PythonEscapeChar(c));
    } else {
      assert [c][1..] == "";
    }
  }

  lemma {:induction false} PythonEscapeEncodes(s: string)
    ensures Encode(PythonEscape(s)) == EscapeText(s)
  {
    if s != "" {
      PythonEscapeCharEncodes(s[0]);
      PythonEscapeEncodes(s[1..]);
      EncodeConcat(PythonEscapeChar(s[0]), PythonEscape(s[1..]));
    }
  }

  lemma PythonStringEncodes(s: string)
    ensures Encode(PythonString(s)) == Quoted(s)
  {
    PythonEscapeEncodes(s);
    PunctuationEncodes();
    EncodeBetween("\"", PythonEscape(s), "\"");
  }

  lemma WordsEncode()
    ensures Encode("null") == NULL_TEXT && Encode("true") == TRUE_TEXT && Encode("false") == FALSE_TEXT
  {
    EncodeAscii("null");
    EncodeAscii("true");
    EncodeAscii("false");
  }

  lemma PunctuationEncodes()
    ensures Encode("\"") == [QUOTE] && Encode(":") == [COLON]
    ensures Encode("[") == [OPEN_ARRAY] && Encode("]") == [CLOSE_ARRAY]
    ensures Encode("{") == [OPEN_OBJECT] && Encode("}") == [CLOSE_OBJECT]
  {
    EncodeAscii("\"");
    EncodeAscii(":");
    EncodeAscii("[");
    EncodeAscii("]");
    EncodeAscii("{");
    EncodeAscii("}");
  }

  lemma EncodeSeparator(first: bool)
    ensures Encode(if first then "" else ",") == Separator(first)
  {
    EncodeAscii(",");
  }

  lemma EncodeBetween(open: string, inner: string, close: string)
    ensures Encode(open + inner + close) == Encode(open) + Encode(inner) + Encode(close)
  {
    EncodeConcat(open + inner, close);
    EncodeConcat(open, inner);
  }

  lemma EncodeMember(separator: string, key: string, colon: string, text: string, rest: string)
    ensures Encode(separator + key + colon + text + rest)
            == Encode(separator) + Encode(key) + Encode(colon) + Encode(text) + Encode(rest)
  {
    EncodeBetween(separator + key + colon, text, rest);
    EncodeBetween(separator, key, colon);
  }

  /** The Python printer's bytes are the canonical text. */
  lemma {:induction false} PythonDumpsEncodes(v: Value)
    ensures Encode(PythonDumps(v)) == Canonical(v)
    decreases v, 1, 0
  {
    match v
    case Null => WordsEncode();
    case Bool(b) => WordsEncode();
    case Int(n) =>
    case Float =>
    case String(s) => PythonStringEncodes(s);
    case Array(items) => PythonArrayEncodes(v);
    case Object(members) => PythonObjectEncodes(v);
  }

  lemma {:induction false} PythonArrayEncodes(v: Value)
    requires v.Array?
    ensures Encode(PythonDumps(v)) == Canonical(v)
    decreases v, 0, 0
  {
    PythonItemsEncode(v.items, true);
    PunctuationEncodes();
    EncodeBetween("[", PythonItems(v.items, true), "]");
  }

  lemma {:induction false} PythonObjectEncodes(v: Value)
    requires v.Object?
    ensures Encode(PythonDumps(v)) == Canonical(v)
    decreases v, 0, |v.members| + 1
  {
    var keys := SortedKeys(v.members.Keys);
    SortedKeysLength(v.members.Keys);
    PythonMembersEncode(v, keys, true);
    PunctuationEncodes();
    EncodeBetween("{", PythonMembers(v, keys, true), "}");
  }

  lemma {:induction false} PythonItemsEncode(items: seq<Value>, first: bool)
    ensures Encode(PythonItems(items, first)) == CanonicalItems(items, first)
    decreases items, 0, 0
  {
    if items != [] {
      PythonDumpsEncodes(items[0]);
      PythonItemsEncode(items[1..], false);
      EncodeSeparator(first);
      EncodeBetween(if first then "" else ",", PythonDumps(items[0]), PythonItems(items[1..], false));
    }
  }

  lemma {:induction false} PythonMembersEncode(v: Value, keys: seq<string>, first: bool)
    requires v.Object? && forall k :: k in keys ==> k in v.members
    ensures Encode(PythonMembers(v, keys, first)) == CanonicalMembers(v, keys, first)
    decreases v, 0, |keys|
  {
    if keys != [] {
      PythonStringEncodes(keys[0]);
      PythonDumpsEncodes(v.members[keys[0]]);
      PythonMembersEncode(v, keys[1..], false);
      EncodeSeparator(first);
      PunctuationEncodes();
      EncodeMember(if first then "" else ",", PythonString(keys[0]), ":", PythonDumps(v.members[keys[0]]),
                   PythonMembers(v, keys[1..], false));
    }
  }

  /**
    Python and Rust canonicalize alike: the same values are refused, and the bytes Python hashes
    into the manifest digest are the bytes the build recomputes (see `CanonicalJsonBytes`).
    */
  lemma PrintersAgree(v: Value)
    ensures PythonCanonicalBytes(v) == if IntegersOnly(v) then Some(Canonical(v)) else None
  {
    hide NumbersPass, IntegersOnly;
    NumbersPassAlike(v);
    PythonDumpsEncodes(v);
  }
}
