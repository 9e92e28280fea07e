/**
  How long canonical text is: lengths of strings, integers and arrays, and the length of an object
  as members are added and removed. The order of the keys does not matter to the length.
  */
module CanonicalLength {
  import opened Utf8
  import opened CanonicalJson
  import Decimal

  ghost function Len(v: Value): (n: nat) {
    |Canonical(v)|
  }

  // ----- Strings -----

  lemma {:induction false} EscapeAtMostSix(text: string)
    ensures |EscapeText(text)| <= 6 * |text|
  {
    if text != "" { EscapeAtMostSix(text[1..]); }
  }

  /** Two quotes and at most six bytes a character: `\u001f` is the longest escape, four bytes the longest encoding. */
  lemma StringAtMostSix(text: string)
    ensures |Quoted(text)| <= 6 * |text| + 2
  {
    EscapeAtMostSix(text);
  }

  /** A printable ASCII character that needs no escape. */
  predicate PlainChar(c: char) {
    0x20 <= c as int < 0x7F && c != '\"' && c != '\\'
  }

  predicate PlainText(text: string) {
    forall i :: 0 <= i < |text| ==> PlainChar(text[i])
  }

  lemma {:induction false} PlainLength(text: string)
    requires PlainText(text)
    ensures |Quoted(text)| == |text| + 2
  {
    PlainEscape(text);
  }

  lemma {:induction false} PlainEscape(text: string)
    requires PlainText(text)
    ensures |EscapeText(text)| == |text|
  {
    if text != "" { PlainEscape(text[1..]); }
  }

  /** Without control characters an escape at most doubles the encoded text. */
  lemma {:induction false} EscapeAtMostDoubles(text: string)
    requires forall i :: 0 <= i < |text| ==> text[i] as int >= 0x20
    ensures |EscapeText(text)| <= 2 * |Encode(text)|
  {
    if text != "" { EscapeAtMostDoubles(text[1..]); }
  }

  // ----- Integers -----

  lemma IntegerLength(n: int)
    requires CanonicalInteger(n)
    ensures |Decimal.Spell(n)| <= 20
  {
    var p := Decimal.Power10(20);
    assert p == 100_000_000_000_000_000_000 by { PowerOfTwenty(); }
    if n >= 0 {
      Decimal.DigitsLength(n, 20);
    } else {
      assert Decimal.Power10(19) == 10_000_000_000_000_000_000 by { PowerOfTwenty(); }
      Decimal.DigitsLength(-n, 19);
    }
  }

  lemma PowerOfTwenty()
    ensures Decimal.Power10(19) == 10_000_000_000_000_000_000
    ensures Decimal.Power10(20) == 100_000_000_000_000_000_000
  {
    assert Decimal.Power10(4) == 10_000;
    assert Decimal.Power10(8) == 100_000_000;
    assert Decimal.Power10(12) == 1_000_000_000_000;
    assert Decimal.Power10(16) == 10_000_000_000_000_000;
  }

  // ----- Arrays -----

  /** Each item brings its text and at most one separator. */
  ghost function ItemsLength(items: seq<Value>): (n: nat) {
    if items == [] then 0 else Len(items[0]) + 1 + ItemsLength(items[1..])
  }

  lemma {:induction false} CanonicalItemsLength(items: seq<Value>, first: bool)
    ensures |CanonicalItems(items, first)| == ItemsLength(items) - (if first && items != [] then 1 else 0)
    decreases |items|
  {
    hide Canonical;
    if items != [] { CanonicalItemsLength(items[1..], false); }
  }

  lemma ArrayLength(items: seq<Value>)
    ensures Len(Array(items)) == 2 + ItemsLength(items) - (if items != [] then 1 else 0)
  {
    CanonicalItemsLength(items, true);
  }

  /** An array of items of bounded length. */
  lemma {:induction false} ItemsLengthBound(items: seq<Value>, each: nat)
    requires forall i :: 0 <= i < |items| ==> Len(items[i]) <= each
    ensures ItemsLength(items) <= |items| * (each + 1)
  {
    hide Len;
    if items != [] {
      ItemsLengthBound(items[1..], each);
      assert |items| * (each + 1) == (each + 1) + (|items| - 1) * (each + 1);
    }
  }

  // ----- Sums over keys -----

  /** The sum of all weights; keys are taken in order, but any order gives the same sum. */
  ghost function Total(weights: map<string, nat>): (n: nat)
    decreases |weights|
  {
    if weights == map[] then 0
    else
      assert weights.Keys != {};
      var k := Least(weights.Keys);
      assert (weights - {k}).Keys == weights.Keys - {k};
      assert |weights| == |weights.Keys|;
      assert |weights - {k}| == |(weights - {k}).Keys|;
      weights[k] + Total(weights - {k})
  }

  lemma {:induction false} TotalWithout(weights: map<string, nat>, k: string)
    requires k in weights
    ensures Total(weights) == weights[k] + Total(weights - {k})
    decreases |weights.Keys|
  {
    var l := Least(weights.Keys);
    if k != l {
      assert (weights - {l}).Keys == weights.Keys - {l};
      TotalWithout(weights - {l}, k);
      assert (weights - {k}).Keys == weights.Keys - {k};
      LeastIsUnique(l, weights.Keys - {k});
      assert weights - {l} - {k} == weights - {k} - {l};
    }
  }

  lemma TotalSetting(weights: map<string, nat>, k: string, w: nat)
    ensures Total(weights[k := w]) == w + Total(weights - {k})
    ensures Total(weights - {k}) <= Total(weights)
    ensures k !in weights ==> weights - {k} == weights
  {
    hide Total;
    TotalWithout(weights[k := w], k);
    assert weights[k := w] - {k} == weights - {k};
    if k in weights {
      TotalWithout(weights, k);
    } else {
      assert weights - {k} == weights;
    }
  }

  // ----- Objects -----

  ghost function FieldLength(key: string, v: Value): (n: nat) {
    |Quoted(key)| + 1 + Len(v)
  }

  /** Each member brings its key, its colon, its value and at most one separator. */
  ghost function FieldWeights(members: map<string, Value>): (w: map<string, nat>)
    ensures w.Keys == members.Keys
  {
    map k | k in members :: FieldLength(k, members[k]) + 1
  }

  lemma WeightsWithout(members: map<string, Value>, k: string)
    ensures FieldWeights(members - {k}) == FieldWeights(members) - {k}
  {
    hide FieldLength;
  }

  lemma MembersStep(v: Value, keys: seq<string>, first: bool)
    requires v.Object? && keys != [] && forall k :: k in keys ==> k in v.members
    ensures |CanonicalMembers(v, keys, first)|
            == FieldLength(keys[0], v.members[keys[0]]) + (if first then 0 else 1)
                + |CanonicalMembers(v, keys[1..], false)|
  {
    hide Canonical, Quoted;
  }

  lemma {:induction false} CanonicalMembersLength(v: Value, part: map<string, Value>, first: bool)
    requires v.Object? && forall k :: k in part ==> k in v.members && v.members[k] == part[k]
    ensures |CanonicalMembers(v, SortedKeys(part.Keys), first)|
            == Total(FieldWeights(part)) - (if first && part != map[] then 1 else 0)
    decreases |part.Keys|
  {
    hide FieldLength, Total;
    var keys := part.Keys;
    if part == map[] {
      assert keys == {};
      EmptyTotal(FieldWeights(part));
    } else {
      hide CanonicalMembers;
      assert keys != {};
      var k, rest := Least(keys), part - {Least(keys)};
      assert rest.Keys == keys - {k};
      CanonicalMembersLength(v, rest, false);
      assert SortedKeys(keys)[1..] == SortedKeys(rest.Keys);
      MembersStep(v, SortedKeys(keys), first);
      WeightsWithout(part, k);
      TotalWithout(FieldWeights(part), k);
    }
  }

  lemma ObjectLength(members: map<string, Value>)
    ensures Len(Object(members)) == 2 + Total(FieldWeights(members)) - (if members != map[] then 1 else 0)
  {
    hide Total, FieldWeights;
    CanonicalMembersLength(Object(members), members, true);
  }

  /** Setting a member adds at most the member and a separator; setting a new one adds exactly that. */
  lemma AddFieldLength(members: map<string, Value>, k: string, v: Value)
    ensures Len(Object(members[k := v])) <= Len(Object(members)) + FieldLength(k, v) + 1
    ensures k !in members ==>
              Len(Object(members[k := v]))
                  == Len(Object(members)) + FieldLength(k, v) + (if members == map[] then 0 else 1)
  {
    hide Len, FieldLength, Total;
    ObjectLength(members);
    ObjectLength(members[k := v]);
    assert FieldWeights(members[k := v]) == FieldWeights(members)[k := FieldLength(k, v) + 1];
    TotalSetting(FieldWeights(members), k, FieldLength(k, v) + 1);
    if members == map[] {
      EmptyTotal(FieldWeights(members));
    }
  }

  lemma EmptyTotal(weights: map<string, nat>)
    requires weights.Keys == {}
    ensures Total(weights) == 0
  {
    assert weights == map[];
  }

  /** Removing a member makes the text no longer. */
  lemma RemoveFieldLength(members: map<string, Value>, k: string)
    ensures Len(Object(members - {k})) <= Len(Object(members))
  {
    hide Len, FieldLength, Total;
    ObjectLength(members);
    ObjectLength(members - {k});
    WeightsWithout(members, k);
    if k in members {
      TotalWithout(FieldWeights(members), k);
      assert FieldWeights(members)[k] >= 1;
    } else {
      assert members - {k} == members;
    }
  }
}
