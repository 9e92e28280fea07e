/**
  The static members of a `session.next` response as the daemon prints them, against the static
  charge. What a session decides (which items are missing, which options and targets are open, how
  guards evaluate) only selects among what was charged.
  */
module StaticPrint {
  import opened Utf8
  import opened CanonicalJson
  import opened CanonicalLength
  import opened Procedure
  import opened NextBudget
  import opened TariffCoverage
  import opened TariffInstances
  import opened DecisionRecordSize
  import opened StaticGuidance
  import Decimal

  // ----- Fields at their prices -----

  lemma PutWord(m: map<string, Value>, soFar: nat, k: string, s: string)
    requires Costs(m, soFar) && PlainName(k)
    ensures Costs(m[k := String(s)], soFar + TextPrice(s))
  {
    PutText(m, soFar, k, s, |s|);
  }

  lemma PutArray(m: map<string, Value>, soFar: nat, k: string, items: seq<Value>, price: nat)
    requires Costs(m, soFar) && PlainName(k) && ItemsCost(items, price)
    ensures Costs(m[k := Array(items)], soFar + FIELD_OVERHEAD + price)
  {
    hide Price;
    ArrayPrice(items);
    Put(m, soFar, k, Array(items), price);
  }

  lemma PutObject(m: map<string, Value>, soFar: nat, k: string, fields: map<string, Value>, price: nat)
    requires Costs(m, soFar) && PlainName(k) && Costs(fields, price)
    ensures Costs(m[k := Object(fields)], soFar + FIELD_OVERHEAD + price)
  {
    Put(m, soFar, k, Object(fields), price);
  }

  lemma PutFlag(m: map<string, Value>, soFar: nat, k: string, b: bool, price: nat)
    requires Costs(m, soFar) && PlainName(k) && (if b then 4 else 5) <= price
    ensures Costs(m[k := Bool(b)], soFar + FIELD_OVERHEAD + price)
  {
    Put(m, soFar, k, Bool(b), price);
  }

  /** Array elements that cost at most `price` together. */
  ghost predicate ItemsCost(items: seq<Value>, price: nat) {
    (forall i :: 0 <= i < |items| ==> Printable(items[i])) && ItemsPrice(items) <= price
  }

  lemma NoItems()
    ensures ItemsCost([], 0)
  {
  }

  lemma FirstItem(first: map<string, Value>, rest: seq<Value>, price: nat, later: nat)
    requires Costs(first, price) && ItemsCost(rest, later)
    ensures ItemsCost([Object(first)] + rest, ARRAY_ELEMENT_OVERHEAD + price + later)
  {
    hide Price;
    assert ([Object(first)] + rest)[1..] == rest;
  }

  lemma ItemsCostMore(items: seq<Value>, price: nat, more: nat)
    requires ItemsCost(items, price) && price <= more
    ensures ItemsCost(items, more)
  {
  }

  lemma {:induction false} TextsCost(texts: seq<string>)
    ensures ItemsCost(Texts(texts), ArgumentsPrice(texts))
  {
    TextsPrice(texts);
  }

  // ----- What is kept -----

  function Kept<T>(all: seq<T>, keep: T -> bool): (r: seq<T>) {
    if all == [] then [] else (if keep(all[0]) then [all[0]] else []) + Kept(all[1..], keep)
  }

  lemma {:induction false} KeptCosts(all: seq<string>, keep: string -> bool)
    ensures ArgumentsPrice(Kept(all, keep)) <= ArgumentsPrice(all)
  {
    if all != [] {
      KeptCosts(all[1..], keep);
      if keep(all[0]) {
        assert ([all[0]] + Kept(all[1..], keep))[1..] == Kept(all[1..], keep);
      } else {
        assert [] + Kept(all[1..], keep) == Kept(all[1..], keep);
      }
    }
  }

  // ----- Guards -----

  function ScalarValueOf(s: Scalar): (v: Value) {
    match s
    case Flag(b) => Bool(b)
    case Whole(n) => Int(n)
    case Words(text) => String(text)
  }

  lemma ScalarCosts(s: Scalar)
    ensures Printable(ScalarValueOf(s)) && Price(ScalarValueOf(s)) == ScalarPrice(s)
  {
  }

  /** The operator's name and operand as one field of an authored guard. */
  function OperatorFields(o: Operator): (m: map<string, Value>) {
    match o
    case Equals(expected) => map["equals" := ScalarValueOf(expected)]
    case NotEquals(expected) => map["not_equals" := ScalarValueOf(expected)]
    case IsEmpty => map["empty" := Bool(true)]
    case NonEmpty => map["non_empty" := Bool(true)]
    case AtLeast(bound) => map["at_least" := Int(bound)]
    case AtMost(bound) => map["at_most" := Int(bound)]
  }

  function OutcomeFields(p: Predicate): (m: map<string, Value>) {
    if p.outcome then map["field" := String("outcome")] else map[]
  }

  function GuardFields(p: Predicate): (m: map<string, Value>) {
    map["evidence" := Object(map["node" := String(p.node), "item" := String(p.item)])] + OutcomeFields(p)
    + OperatorFields(p.operator)
  }

  function GuardValues(ps: seq<Predicate>): (r: seq<Value>) {
    if ps == [] then [] else [Object(GuardFields(ps[0]))] + GuardValues(ps[1..])
  }

  lemma One(k: string, v: Value, price: nat)
    requires PlainName(k) && Printable(v) && Price(v) <= price
    ensures Costs(map[k := v], FIELD_OVERHEAD + price)
  {
    hide Price;
    Nothing();
    var none: map<string, Value> := map[];
    Put(none, 0, k, v, price);
    assert none[k := v] == map[k := v];
  }

  lemma OperatorCosts(o: Operator)
    ensures Costs(OperatorFields(o), OperatorPrice(o))
  {
    hide Costs, Price;
    match o
    case Equals(expected) =>
      ScalarCosts(expected);
      One("equals", ScalarValueOf(expected), ScalarPrice(expected));
    case NotEquals(expected) =>
      ScalarCosts(expected);
      One("not_equals", ScalarValueOf(expected), ScalarPrice(expected));
    case IsEmpty => TruePrice(); One("empty", Bool(true), 4);
    case NonEmpty => TruePrice(); One("non_empty", Bool(true), 4);
    case AtLeast(bound) =>
      ScalarCosts(Whole(bound));
      One("at_least", Int(bound), |Decimal.Spell(bound)|);
    case AtMost(bound) =>
      ScalarCosts(Whole(bound));
      One("at_most", Int(bound), |Decimal.Spell(bound)|);
  }

  lemma TruePrice()
    ensures Printable(Bool(true)) && Price(Bool(true)) == 4
  {
  }

  lemma OutcomeCosts(p: Predicate)
    ensures Costs(OutcomeFields(p), OutcomePrice(p))
  {
    hide Costs;
    Nothing();
    if p.outcome {
      var none: map<string, Value> := map[];
      PutWord(none, 0, "field", "outcome");
      assert none["field" := String("outcome")] == OutcomeFields(p);
    }
  }

  lemma GuardCosts(p: Predicate)
    ensures Costs(GuardFields(p), GuardPrice(p) - ARRAY_ELEMENT_OVERHEAD)
  {
    hide Costs, TextPrice, OutcomePrice, OperatorPrice, OutcomeFields, OperatorFields, IsIdentifier;
    Nothing();
    var none: map<string, Value> := map[];
    PutWord(none, 0, "node", p.node);
    var m1 := none["node" := String(p.node)];
    PutWord(m1, TextPrice(p.node), "item", p.item);
    var source := m1["item" := String(p.item)];
    assert source == map["node" := String(p.node), "item" := String(p.item)];
    PutObject(none, 0, "evidence", source, TextPrice(p.node) + TextPrice(p.item));
    var head := none["evidence" := Object(source)];
    OutcomeCosts(p);
    OperatorCosts(p.operator);
    var soFar := FIELD_OVERHEAD + TextPrice(p.node) + TextPrice(p.item);
    Merge(head, OutcomeFields(p), soFar, OutcomePrice(p));
    Merge(head + OutcomeFields(p), OperatorFields(p.operator), soFar + OutcomePrice(p), OperatorPrice(p.operator));
    assert head == map["evidence" := Object(map["node" := String(p.node), "item" := String(p.item)])];
  }

  lemma {:induction false} GuardsCost(ps: seq<Predicate>)
    ensures ItemsCost(GuardValues(ps), GuardsPrice(ps))
  {
    hide Costs, ItemsCost, GuardPrice, GuardFields;
    NoItems();
    if ps != [] {
      GuardCosts(ps[0]);
      GuardsCost(ps[1..]);
      LeastGuard(ps[0]);
      FirstItem(GuardFields(ps[0]), GuardValues(ps[1..]), GuardPrice(ps[0]) - ARRAY_ELEMENT_OVERHEAD,
                GuardsPrice(ps[1..]));
    }
  }

  lemma LeastGuard(p: Predicate)
    ensures GuardPrice(p) >= ARRAY_ELEMENT_OVERHEAD
  {
  }

  // ----- Options -----

  function OptionalFields(k: string, s: Option<string>): (m: map<string, Value>) {
    if s.Some? then map[k := String(s.value)] else map[]
  }

  lemma OptionalCosts(k: string, s: Option<string>)
    requires PlainName(k)
    ensures Costs(OptionalFields(k, s), OptionalPrice(s))
  {
    hide Costs, TextPrice;
    Nothing();
    if s.Some? {
      var none: map<string, Value> := map[];
      PutWord(none, 0, k, s.value);
      assert none[k := String(s.value)] == OptionalFields(k, s);
    }
  }

  function GuardsFields(o: OptionSpec): (m: map<string, Value>) {
    if o.guards.Some? then map["guards" := Array(GuardValues(o.guards.value))] else map[]
  }

  function OptionFields(o: OptionSpec): (m: map<string, Value>) {
    map["option_id" := String(o.id), "label" := String(o.caption)] + OptionalFields("criteria", o.criteria)
        + GuardsFields(o)
  }

  function OptionValues(os: seq<OptionSpec>): (r: seq<Value>) {
    if os == [] then [] else [Object(OptionFields(os[0]))] + OptionValues(os[1..])
  }

  lemma GuardsFieldsCost(o: OptionSpec)
    ensures Costs(GuardsFields(o), if o.guards.Some? then FIELD_OVERHEAD + GuardsPrice(o.guards.value) else 0)
  {
    hide Costs, ItemsCost, GuardsPrice;
    Nothing();
    if o.guards.Some? {
      GuardsCost(o.guards.value);
      var none: map<string, Value> := map[];
      PutArray(none, 0, "guards", GuardValues(o.guards.value), GuardsPrice(o.guards.value));
      assert none["guards" := Array(GuardValues(o.guards.value))] == GuardsFields(o);
    }
  }

  lemma OptionCosts(o: OptionSpec)
    ensures Costs(OptionFields(o), OptionPrice(o) - ARRAY_ELEMENT_OVERHEAD)
  {
    hide Costs, TextPrice, OptionalPrice, GuardsPrice, OptionalFields, GuardsFields, IsIdentifier;
    Nothing();
    var none: map<string, Value> := map[];
    PutWord(none, 0, "option_id", o.id);
    var m1 := none["option_id" := String(o.id)];
    PutWord(m1, TextPrice(o.id), "label", o.caption);
    var m2 := m1["label" := String(o.caption)];
    assert m2 == map["option_id" := String(o.id), "label" := String(o.caption)];
    var soFar := TextPrice(o.id) + TextPrice(o.caption);
    OptionalCosts("criteria", o.criteria);
    Merge(m2, OptionalFields("criteria", o.criteria), soFar, OptionalPrice(o.criteria));
    GuardsFieldsCost(o);
    Merge(m2 + OptionalFields("criteria", o.criteria), GuardsFields(o), soFar + OptionalPrice(o.criteria),
          if o.guards.Some? then FIELD_OVERHEAD + GuardsPrice(o.guards.value) else 0);
  }

  lemma {:induction false} OptionsCost(os: seq<OptionSpec>)
    ensures ItemsCost(OptionValues(os), OptionsPrice(os))
  {
    hide Costs, ItemsCost, OptionPrice, OptionFields;
    NoItems();
    if os != [] {
      OptionCosts(os[0]);
      OptionsCost(os[1..]);
      LeastOption(os[0]);
      FirstItem(OptionFields(os[0]), OptionValues(os[1..]), OptionPrice(os[0]) - ARRAY_ELEMENT_OVERHEAD,
                OptionsPrice(os[1..]));
    }
  }

  lemma LeastOption(o: OptionSpec)
    ensures OptionPrice(o) >= ARRAY_ELEMENT_OVERHEAD
  {
  }

  // ----- Guard statuses -----

  datatype Condition = Met | Unmet | Unevaluable

  function ConditionName(c: Condition): (s: string) {
    match c
    case Met => "met"
    case Unmet => "unmet"
    case Unevaluable => "unevaluable"
  }

  /** What a guard found: a scalar, a count, or nothing yet. */
  datatype Actual = Found(scalar: Scalar) | Counted(count: nat) | Unavailable

  /** A guard compares a value with one of its own kind, and counts what it tests for emptiness. */
  ghost predicate Comparable(o: Operator, a: Actual) {
    match a
    case Unavailable => true
    case Counted(n) => (o.IsEmpty? || o.NonEmpty?) && n < 100_000
    case Found(s) =>
      match o
      case Equals(e) => SameKind(e, s)
      case NotEquals(e) => SameKind(e, s)
      case AtLeast(_) => s.Whole?
      case AtMost(_) => s.Whole?
      case _ => false
  }

  ghost predicate SameKind(e: Scalar, s: Scalar) {
    match s
    case Flag(_) => e.Flag?
    case Whole(_) => e.Whole?
    case Words(text) => e.Words? && |text| <= MAX_PREDICATE_TEXT_CHARS
  }

  function ExpectedFields(o: Operator): (m: map<string, Value>) {
    match o
    case Equals(e) => map["expected" := ScalarValueOf(e)]
    case NotEquals(e) => map["expected" := ScalarValueOf(e)]
    case AtLeast(bound) => map["expected" := Int(bound)]
    case AtMost(bound) => map["expected" := Int(bound)]
    case _ => map[]
  }

  function ActualFields(a: Actual): (m: map<string, Value>) {
    match a
    case Found(s) => map["actual" := ScalarValueOf(s)]
    case Counted(n) => map["actual_count" := Int(n)]
    case Unavailable => map[]
  }

  function SourceFields(p: Predicate): (m: map<string, Value>) {
    map["kind" := String("evidence"), "graph_node_id" := String(p.node), "item_id" := String(p.item)] + OutcomeFields(p)
  }

  function StatusFields(p: Predicate, a: Actual, c: Condition): (m: map<string, Value>) {
    map["source" := Object(SourceFields(p)), "operator" := String(OperatorName(p.operator)),
        "state" := String(ConditionName(c))]
    + ExpectedFields(p.operator) + ActualFields(a)
  }

  lemma SourceCosts(p: Predicate)
    ensures Costs(SourceFields(p), TextPrice("evidence") + TextPrice(p.node) + TextPrice(p.item) + OutcomePrice(p))
  {
    hide Costs, TextPrice, OutcomePrice, OutcomeFields, IsIdentifier;
    Nothing();
    var none: map<string, Value> := map[];
    PutWord(none, 0, "kind", "evidence");
    var m1 := none["kind" := String("evidence")];
    PutWord(m1, TextPrice("evidence"), "graph_node_id", p.node);
    var m2 := m1["graph_node_id" := String(p.node)];
    PutWord(m2, TextPrice("evidence") + TextPrice(p.node), "item_id", p.item);
    var m3 := m2["item_id" := String(p.item)];
    assert m3 == map["kind" := String("evidence"), "graph_node_id" := String(p.node), "item_id" := String(p.item)];
    OutcomeCosts(p);
    Merge(m3, OutcomeFields(p), TextPrice("evidence") + TextPrice(p.node) + TextPrice(p.item), OutcomePrice(p));
  }

  lemma ExpectedCosts(o: Operator)
    ensures Costs(ExpectedFields(o), ExpectedPrice(o))
  {
    hide Costs, Price;
    Nothing();
    match o
    case Equals(e) => ScalarCosts(e); One("expected", ScalarValueOf(e), ScalarPrice(e));
    case NotEquals(e) => ScalarCosts(e); One("expected", ScalarValueOf(e), ScalarPrice(e));
    case AtLeast(bound) => ScalarCosts(Whole(bound)); One("expected", Int(bound), |Decimal.Spell(bound)|);
    case AtMost(bound) => ScalarCosts(Whole(bound)); One("expected", Int(bound), |Decimal.Spell(bound)|);
    case _ =>
  }

  lemma FoundPrice(o: Operator, s: Scalar)
    requires Comparable(o, Found(s))
    ensures ScalarPrice(s) <= ActualBytes(o)
  {
    if s.Whole? { IntegerLength(s.number); }
  }

  lemma CountPrice(n: nat)
    requires n < 100_000
    ensures Printable(Int(n)) && Price(Int(n)) <= 5
  {
    assert Decimal.Power10(4) == 10_000;
    Decimal.DigitsLength(n, 5);
  }

  lemma ActualCosts(o: Operator, a: Actual)
    requires Comparable(o, a)
    ensures Costs(ActualFields(a), FIELD_OVERHEAD + ActualBytes(o))
  {
    hide Costs, Price, ActualBytes;
    Nothing();
    match a
    case Found(s) =>
      ScalarCosts(s);
      FoundPrice(o, s);
      One("actual", ScalarValueOf(s), ActualBytes(o));
    case Counted(n) =>
      CountPrice(n);
      CountBytes(o);
      One("actual_count", Int(n), ActualBytes(o));
    case Unavailable => CostsMore(map[], 0, FIELD_OVERHEAD + ActualBytes(o));
  }

  lemma CountBytes(o: Operator)
    requires o.IsEmpty? || o.NonEmpty?
    ensures ActualBytes(o) == 5
  {
  }

  lemma StatusCosts(p: Predicate, a: Actual, c: Condition)
    requires Comparable(p.operator, a)
    ensures Costs(StatusFields(p, a, c), StatusPrice(p) - ARRAY_ELEMENT_OVERHEAD)
  {
    hide Costs, TextPrice, OutcomePrice, ExpectedPrice, ActualBytes, SourceFields, ExpectedFields, ActualFields,
         OperatorName, Comparable, IsIdentifier;
    var source := TextPrice("evidence") + TextPrice(p.node) + TextPrice(p.item) + OutcomePrice(p);
    var name := TextPrice(OperatorName(p.operator));
    Nothing();
    SourceCosts(p);
    var none: map<string, Value> := map[];
    PutObject(none, 0, "source", SourceFields(p), source);
    var m1 := none["source" := Object(SourceFields(p))];
    PutWord(m1, FIELD_OVERHEAD + source, "operator", OperatorName(p.operator));
    var m2 := m1["operator" := String(OperatorName(p.operator))];
    PutText(m2, FIELD_OVERHEAD + source + name, "state", ConditionName(c), MAX_CONDITION_STATE_CHARS);
    var m3 := m2["state" := String(ConditionName(c))];
    var soFar := FIELD_OVERHEAD + source + name + STATE_PRICE;
    ExpectedCosts(p.operator);
    Merge(m3, ExpectedFields(p.operator), soFar, ExpectedPrice(p.operator));
    ActualCosts(p.operator, a);
    Merge(m3 + ExpectedFields(p.operator), ActualFields(a), soFar + ExpectedPrice(p.operator),
          FIELD_OVERHEAD + ActualBytes(p.operator));
    assert m3 == map["source" := Object(SourceFields(p)), "operator" := String(OperatorName(p.operator)),
                     "state" := String(ConditionName(c))];
  }
}
