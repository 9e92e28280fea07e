/**
  The tariff against the text it prices: six bytes a character, 64 a field and eight an array
  element never come to less than the compact JSON they stand for.
  */
module TariffCoverage {
  import opened CanonicalJson
  import opened CanonicalLength
  import opened NextBudget
  import Decimal
  import DelegationAdmission

  // ----- Any tree -----

  /** What the tariff charges for the content of a value; its own quotes or brackets belong to the field or element. */
  ghost function Price(v: Value): (n: nat)
    decreases v, 1
  {
    match v
    case Null => 4
    case Bool(b) => if b then 4 else MAX_BOOL_BYTES
    case Int(n) => |Decimal.Spell(n)|
    case Float => 0
    case String(s) => STRING_BYTE_FACTOR * |s|
    case Array(items) => ItemsPrice(items)
    case Object(_) => Total(FieldPrices(v))
  }

  ghost function ItemsPrice(items: seq<Value>): (n: nat)
    decreases items, 0
  {
    if items == [] then 0 else ARRAY_ELEMENT_OVERHEAD + Price(items[0]) + ItemsPrice(items[1..])
  }

  ghost function FieldPrices(v: Value): (w: map<string, nat>)
    requires v.Object?
    ensures w.Keys == v.members.Keys
    decreases v, 0
  {
    map k | k in v.members :: FIELD_OVERHEAD + Price(v.members[k])
  }

  /** The longest escaped field name a price of 64 still covers. */
  const MAX_NAME_BYTES: nat := 58

  /** Every number in the tree is a 64-bit integer and every field name is short enough. */
  ghost predicate Printable(v: Value) {
    match v
    case Int(n) => CanonicalInteger(n)
    case Float => false
    case Array(items) => forall i :: 0 <= i < |items| ==> Printable(items[i])
    case Object(members) => forall k :: k in members ==> |Quoted(k)| <= MAX_NAME_BYTES + 2 && Printable(members[k])
    case _ => true
  }

  lemma {:induction false} TotalDominates(a: map<string, nat>, b: map<string, nat>)
    requires a.Keys == b.Keys && forall k :: k in a ==> a[k] <= b[k]
    ensures Total(a) <= Total(b)
    decreases |a.Keys|
  {
    if a == map[] {
      assert b.Keys == {};
      EmptyTotal(b);
    } else {
      assert a.Keys != {};
      var k :| k in a;
      TotalWithout(a, k);
      TotalWithout(b, k);
      assert (a - {k}).Keys == a.Keys - {k};
      TotalDominates(a - {k}, b - {k});
    }
  }

  /**
    For every JSON tree that can be printed and has short field names, the compact text is no longer
    than its price and the two bytes of its own quotes or brackets.
    */
  lemma {:induction false} TariffCovers(v: Value)
    requires Printable(v)
    ensures Len(v) <= Price(v) + 2
    decreases v, 1
  {
    match v
    case String(s) => StringAtMostSix(s);
    case Array(items) =>
      ItemsCovered(items);
      ArrayLength(items);
    case Object(members) =>
      forall k | k in members ensures FieldWeights(members)[k] <= FieldPrices(v)[k] {
        TariffCovers(members[k]);
      }
      TotalDominates(FieldWeights(members), FieldPrices(v));
      ObjectLength(members);
    case _ =>
  }

  lemma {:induction false} ItemsCovered(items: seq<Value>)
    requires forall i :: 0 <= i < |items| ==> Printable(items[i])
    ensures ItemsLength(items) <= ItemsPrice(items)
    decreases items, 0
  {
    hide Len, Price;
    if items != [] {
      TariffCovers(items[0]);
      ItemsCovered(items[1..]);
    }
  }

  // ----- Objects put together from parts -----

  /** A new field costs its price; a repeated one never costs more. */
  lemma PriceSetting(m: map<string, Value>, k: string, v: Value)
    ensures Price(Object(m[k := v])) <= Price(Object(m)) + FIELD_OVERHEAD + Price(v)
    ensures k !in m ==> Price(Object(m[k := v])) == Price(Object(m)) + FIELD_OVERHEAD + Price(v)
  {
    hide Total;
    var prices := FieldPrices(Object(m));
    assert FieldPrices(Object(m[k := v])) == prices[k := FIELD_OVERHEAD + Price(v)];
    TotalSetting(prices, k, FIELD_OVERHEAD + Price(v));
  }

  lemma NoFieldsPrice()
    ensures Price(Object(map[])) == 0 && Printable(Object(map[]))
  {
    EmptyTotal(FieldPrices(Object(map[])));
  }

  /** Merging two objects costs at most both. */
  lemma {:induction false} MergePrice(a: map<string, Value>, b: map<string, Value>)
    ensures Price(Object(a + b)) <= Price(Object(a)) + Price(Object(b))
    decreases |b.Keys|
  {
    hide Price;
    if b == map[] {
      assert a + b == a;
    } else {
      assert b.Keys != {};
      var k :| k in b;
      var rest := b - {k};
      assert rest.Keys == b.Keys - {k};
      MergePrice(a, rest);
      assert a + b == (a + rest)[k := b[k]];
      assert b == rest[k := b[k]];
      PriceSetting(a + rest, k, b[k]);
      PriceSetting(rest, k, b[k]);
    }
  }

  /** One field more, its name plain and its value priced. */
  lemma PutField(m: map<string, Value>, k: string, v: Value, soFar: nat, price: nat)
    requires Printable(Object(m)) && Price(Object(m)) <= soFar
    requires |Quoted(k)| <= MAX_NAME_BYTES + 2 && Printable(v) && Price(v) <= price
    ensures Printable(Object(m[k := v])) && Price(Object(m[k := v])) <= soFar + FIELD_OVERHEAD + price
  {
    hide Price, Quoted;
    PriceSetting(m, k, v);
  }

  lemma FirstField(k: string, v: Value, price: nat)
    requires |Quoted(k)| <= MAX_NAME_BYTES + 2 && Printable(v) && Price(v) <= price
    ensures Printable(Object(map[k := v])) && Price(Object(map[k := v])) <= FIELD_OVERHEAD + price
  {
    hide Price, Quoted;
    var none: map<string, Value> := map[];
    NoFieldsPrice();
    PutField(none, k, v, 0, price);
    assert none[k := v] == map[k := v];
  }

  lemma {:induction false} ItemsPriceBound(items: seq<Value>, each: nat)
    requires forall i :: 0 <= i < |items| ==> Price(items[i]) <= each
    ensures ItemsPrice(items) <= |items| * (ARRAY_ELEMENT_OVERHEAD + each)
  {
    hide Price;
    if items != [] {
      ItemsPriceBound(items[1..], each);
      assert |items| * (8 + each) == (8 + each) + (|items| - 1) * (8 + each);
    }
  }

  /** 58 is exact: two fields with names of 59 plain characters already outgrow their price. */
  lemma LongerNamesAreNotCovered(a: string, b: string)
    requires PlainText(a) && PlainText(b) && |a| == |b| == MAX_NAME_BYTES + 1 && a != b
    ensures var v := Object(map[a := String(""), b := String("")]); Len(v) == Price(v) + 3
  {
    hide Len, Price, Quoted;
    var empty, one := String(""), map[a := String("")];
    assert Len(empty) == 2 && Price(empty) == 0 by { EmptyString(); }
    var none: map<string, Value> := map[];
    assert none[a := empty] == one;
    assert one[b := empty] == map[a := empty, b := empty];
    NoFieldsPrice();
    PriceSetting(none, a, empty);
    PriceSetting(one, b, empty);
    PlainLength(a);
    PlainLength(b);
    DelegationAdmission.EmptyObject();
    AddFieldLength(none, a, empty);
    AddFieldLength(one, b, empty);
  }

  lemma EmptyString()
    ensures Len(String("")) == 2 && Price(String("")) == 0
  {
  }
}
