/**
  JSON values and Podway Canonical JSON v1: compact text, object keys in order, integers only.

  `Canonical` is the reference text every printer of the repository is measured against. An object
  is a finite map, so equality of values does not see the order in which members were authored.
  */
module CanonicalJson {
  import opened Utf8
  import Decimal

  /** `Float` stands for every number that is neither an `i64` nor a `u64`; its digits are not modelled. */
  datatype Value =
    | Null
    | Bool(flag: bool)
    | Int(number: int)
    | Float
    | String(text: string)
    | Array(items: seq<Value>)
    | Object(members: map<string, Value>)

  const MIN_INTEGER: int := -0x8000_0000_0000_0000
  const MAX_INTEGER: int := 0xFFFF_FFFF_FFFF_FFFF

  predicate CanonicalInteger(n: int) {
    MIN_INTEGER <= n <= MAX_INTEGER
  }

  /** Every number in the value is a signed or unsigned 64-bit integer. */
  predicate IntegersOnly(v: Value) {
    match v
    case Int(n) => CanonicalInteger(n)
    case Float => false
    case Array(items) => forall i :: 0 <= i < |items| ==> IntegersOnly(items[i])
    case Object(members) => forall k :: k in members ==> IntegersOnly(members[k])
    case _ => true
  }

  // ----- Key order -----

  ghost predicate IsLeast(k: string, keys: set<string>) {
    k in keys && forall j :: j in keys && j != k ==> TextLess(k, j)
  }

  lemma {:induction false} LeastExists(keys: set<string>)
    requires keys != {}
    ensures exists k :: IsLeast(k, keys)
  {
    var j :| j in keys;
    var rest := keys - {j};
    if rest == {} {
      assert keys == {j};
      assert IsLeast(j, keys);
    } else {
      LeastExists(rest);
      var k :| IsLeast(k, rest);
      TextLessTotal(j, k);
      if TextLess(j, k) {
        forall i | i in keys && i != j ensures TextLess(j, i) {
          if i != k { TextLessTransitive(j, k, i); }
        }
        assert IsLeast(j, keys);
      } else {
        assert IsLeast(k, keys);
      }
    }
  }

  ghost function Least(keys: set<string>): (k: string)
    requires keys != {}
    ensures IsLeast(k, keys)
  {
    LeastExists(keys);
    var k :| IsLeast(k, keys);
    k
  }

  /** The keys in ascending order of scalar values, each once. */
  ghost function SortedKeys(keys: set<string>): (sorted: seq<string>)
    ensures forall k :: k in sorted <==> k in keys
    decreases |keys|
  {
    if keys == {} then [] else [Least(keys)] + SortedKeys(keys - {Least(keys)})
  }

  lemma {:induction false} SortedKeysLength(keys: set<string>)
    ensures |SortedKeys(keys)| == |keys|
    decreases |keys|
  {
    if keys != {} {
      SortedKeysLength(keys - {Least(keys)});
    }
  }

  /** Strictly ascending by scalar values. */
  ghost predicate Ascending(sorted: seq<string>) {
    forall i, j :: 0 <= i < j < |sorted| ==> TextLess(sorted[i], sorted[j])
  }

  lemma {:induction false} SortedKeysAscend(keys: set<string>)
    ensures Ascending(SortedKeys(keys))
    decreases |keys|
  {
    if keys != {} {
      var k := Least(keys);
      SortedKeysAscend(keys - {k});
      var rest := SortedKeys(keys - {k});
      forall j | 0 <= j < |rest| ensures TextLess(k, rest[j]) {
        assert rest[j] in rest;
      }
    }
  }

  lemma LeastIsUnique(k: string, keys: set<string>)
    requires IsLeast(k, keys)
    ensures k == Least(keys)
  {
    var l := Least(keys);
    if k != l {
      TextLessTransitive(k, l, k);
      TextLessIrreflexive(k);
    }
  }

  /** There is one ascending listing of a set of keys, so a sort of any listing of it finds `SortedKeys`. */
  lemma {:induction false} AscendingIsSortedKeys(sorted: seq<string>, keys: set<string>)
    requires Ascending(sorted)
    requires forall k :: k in sorted <==> k in keys
    ensures sorted == SortedKeys(keys)
    decreases |sorted|
  {
    if sorted == [] {
      assert keys == {};
    } else {
      var k, rest := sorted[0], sorted[1..];
      forall j | j in keys && j != k ensures TextLess(k, j) {
        assert j in sorted;
      }
      LeastIsUnique(k, keys);
      forall j ensures j in rest <==> j in keys - {k} {
        TextLessIrreflexive(k);
        assert j in sorted <==> j == k || j in rest;
      }
      AscendingIsSortedKeys(rest, keys - {k});
    }
  }

  // ----- Strings -----

  const QUOTE: Byte := 34
  const BACKSLASH: Byte := 92

  /** Lower-case hexadecimal digit. */
  function HexDigit(n: nat): (b: Byte)
    requires n < 16
  {
    if n < 10 then 48 + n else 87 + n
  }

  /** The short forms, then `\u00xx` for the other control characters, then the character itself. */
  function EscapeChar(c: char): (bytes: seq<Byte>) {
    if c == '\"' then [BACKSLASH, QUOTE]
    else if c == '\\' then [BACKSLASH, BACKSLASH]
    else if c as int == 8 then [BACKSLASH, 98]
    else if c as int == 12 then [BACKSLASH, 102]
    else if c == '\n' then [BACKSLASH, 110]
    else if c == '\r' then [BACKSLASH, 114]
    else if c == '\t' then [BACKSLASH, 116]
    else if c as int < 0x20 then [BACKSLASH, 117, 48, 48, HexDigit(c as int / 16), HexDigit(c as int % 16)]
    else EncodeChar(c)
  }

  function EscapeText(text: string): (bytes: seq<Byte>) {
    if text == "" then [] else EscapeChar(text[0]) + EscapeText(text[1..])
  }

  function Quoted(text: string): (bytes: seq<Byte>) {
    [QUOTE] + EscapeText(text) + [QUOTE]
  }

  // ----- Canonical text -----

  const COMMA: Byte := 44
  const COLON: Byte := 58
  const OPEN_ARRAY: Byte := 91
  const CLOSE_ARRAY: Byte := 93
  const OPEN_OBJECT: Byte := 123
  const CLOSE_OBJECT: Byte := 125
  const NULL_TEXT: seq<Byte> := [110, 117, 108, 108]
  const TRUE_TEXT: seq<Byte> := [116, 114, 117, 101]
  const FALSE_TEXT: seq<Byte> := [102, 97, 108, 115, 101]

  function Separator(first: bool): (bytes: seq<Byte>) {
    if first then [] else [COMMA]
  }

  ghost function Canonical(v: Value): (bytes: seq<Byte>)
    decreases v, 1, 0
  {
    match v
    case Null => NULL_TEXT
    case Bool(b) => if b then TRUE_TEXT else FALSE_TEXT
    case Int(n) => Decimal.Spell(n)
    case Float => []
    case String(s) => Quoted(s)
    case Array(items) => [OPEN_ARRAY] + CanonicalItems(items, true) + [CLOSE_ARRAY]
    case Object(members) => [OPEN_OBJECT] + CanonicalMembers(v, SortedKeys(members.Keys), true) + [CLOSE_OBJECT]
  }

  ghost function CanonicalItems(items: seq<Value>, first: bool): (bytes: seq<Byte>)
    decreases items, 0, 0
  {
    if items == [] then [] else Separator(first) + Canonical(items[0]) + CanonicalItems(items[1..], false)
  }

  ghost function CanonicalMembers(v: Value, keys: seq<string>, first: bool): (bytes: seq<Byte>)
    requires v.Object? && forall k :: k in keys ==> k in v.members
    decreases v, 0, |keys|
  {
    if keys == [] then []
    else
      Separator(first) + Quoted(keys[0]) + [COLON] + Canonical(v.members[keys[0]])
      + CanonicalMembers(v, keys[1..], false)
  }
}
