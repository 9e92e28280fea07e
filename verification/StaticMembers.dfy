/**
  All static members of one `session.next` response together: the content of the definition, the
  allowed commands and the suggested ones, against the static charge of the placement.
  */
module StaticMembers {
  import opened Utf8
  import opened CanonicalJson
  import opened Procedure
  import opened NextBudget
  import opened TariffCoverage
  import opened TariffInstances
  import opened DecisionRecordSize
  import opened StaticGuidance
  import opened StaticPrint
  import Decimal

  // ----- What a session contributes -----

  datatype Evaluation = Evaluation(actual: Actual, condition: Condition)

  /** Which part of the static content a session shows, and the commands it suggests. */
  datatype View = View(
    goalTracking: bool, missing: ItemGuide -> bool, open: string -> bool, reachable: string -> bool,
    evaluate: Predicate -> Evaluation, optionState: OptionSpec -> Condition, actions: seq<string>,
        check: Option<Identifier>,
    completes: bool, skips: bool, define: bool, assess: seq<Identifier>)

  const MAX_ITEMS_PER_DEFINITION: nat := 128
  const RECORD_MANY := "item.record_many"
  const MAX_MISSING_ITEM_WINDOW: nat := 64
  const MAX_SUGGESTION_WINDOW: nat := 128

  predicate IsAction(action: string) {
    action in ALL_ALLOWED_ACTIONS || action == RECORD_MANY
  }

  ghost predicate Distinct<T>(xs: seq<T>) {
    forall i, j :: 0 <= i < j < |xs| ==> xs[i] != xs[j]
  }

  /**
    Guards compare like with like, every allowed command is known and listed once, and at most
    sixteen criteria are left to assess.
    */
  ghost predicate ValidView(v: View) {
    && (forall p: Predicate :: Comparable(p.operator, v.evaluate(p).actual))
    && Distinct(v.actions)
    && (forall i :: 0 <= i < |v.actions| ==> IsAction(v.actions[i]))
    && |v.assess| <= MAX_GOAL_CRITERIA
  }

  // ----- Guard statuses -----

  function StatusValues(ps: seq<Predicate>, v: View): (r: seq<Value>) {
    if ps == [] then []
    else
      var e := v.evaluate(ps[0]);
      [Object(StatusFields(ps[0], e.actual, e.condition))] + StatusValues(ps[1..], v)
  }

  function OptionStatusFields(o: OptionSpec, v: View): (m: map<string, Value>) {
    map["option_id" := String(o.id), "state" := String(ConditionName(v.optionState(o))),
        "predicates" := Array(StatusValues(Guards(o), v))]
  }

  function OptionStatusValues(os: seq<OptionSpec>, v: View): (r: seq<Value>) {
    if os == [] then [] else [Object(OptionStatusFields(os[0], v))] + OptionStatusValues(os[1..], v)
  }

  lemma {:induction false} StatusesCost(ps: seq<Predicate>, v: View)
    requires ValidView(v)
    ensures ItemsCost(StatusValues(ps, v), StatusesPrice(ps))
  {
    hide Costs, ItemsCost, StatusPrice, StatusFields, Comparable;
    NoItems();
    if ps != [] {
      var p, e := ps[0], v.evaluate(ps[0]);
      assert Comparable(p.operator, e.actual);
      StatusCosts(p, e.actual, e.condition);
      StatusesCost(ps[1..], v);
      LeastStatus(p);
      FirstItem(StatusFields(p, e.actual, e.condition), StatusValues(ps[1..], v),
                StatusPrice(p) - ARRAY_ELEMENT_OVERHEAD,
                StatusesPrice(ps[1..]));
    }
  }

  lemma LeastStatus(p: Predicate)
    ensures StatusPrice(p) >= ARRAY_ELEMENT_OVERHEAD
  {
  }

  lemma OptionStatusCosts(o: OptionSpec, v: View)
    requires ValidView(v)
    ensures Costs(OptionStatusFields(o, v), OptionStatusPrice(o) - ARRAY_ELEMENT_OVERHEAD)
  {
    hide Costs, ItemsCost, TextPrice, StatusesPrice, ConditionName, ValidView, IsIdentifier;
    Nothing();
    var none: map<string, Value> := map[];
    PutWord(none, 0, "option_id", o.id);
    var m1 := none["option_id" := String(o.id)];
    var state := ConditionName(v.optionState(o));
    StateSize(v.optionState(o));
    PutText(m1, TextPrice(o.id), "state", state, MAX_CONDITION_STATE_CHARS);
    var m2 := m1["state" := String(state)];
    StatusesCost(Guards(o), v);
    PutArray(m2, TextPrice(o.id) + STATE_PRICE, "predicates", StatusValues(Guards(o), v), StatusesPrice(Guards(o)));
    assert OptionStatusFields(o, v) == m2["predicates" := Array(StatusValues(Guards(o), v))];
  }

  lemma StateSize(c: Condition)
    ensures |ConditionName(c)| <= MAX_CONDITION_STATE_CHARS
  {
  }

  lemma {:induction false} OptionStatusesCost(os: seq<OptionSpec>, v: View)
    requires ValidView(v)
    ensures ItemsCost(OptionStatusValues(os, v), OptionStatusesPrice(os))
  {
    hide Costs, ItemsCost, OptionStatusPrice, OptionStatusFields, ValidView;
    NoItems();
    if os != [] {
      OptionStatusCosts(os[0], v);
      OptionStatusesCost(os[1..], v);
      LeastOptionStatus(os[0]);
      FirstItem(OptionStatusFields(os[0], v), OptionStatusValues(os[1..], v),
                OptionStatusPrice(os[0]) - ARRAY_ELEMENT_OVERHEAD,
                OptionStatusesPrice(os[1..]));
    }
  }

  lemma LeastOptionStatus(o: OptionSpec)
    ensures OptionStatusPrice(o) >= ARRAY_ELEMENT_OVERHEAD
  {
  }

  // ----- The definition -----

  function TextsFields(k: string, texts: seq<string>): (m: map<string, Value>) {
    if texts == [] then map[] else map[k := Array(Texts(texts))]
  }

  function StatusesFields(os: seq<OptionSpec>, v: View): (m: map<string, Value>) {
    if AnyGuarded(os) then map["option_guard_statuses" := Array(OptionStatusValues(os, v))] else map[]
  }

  function PolicyFields(reasonPrompt: Option<string>): (m: map<string, Value>) {
    map["required" := Bool(true)] + OptionalFields("prompt", reasonPrompt)
  }

  function GuideFields(g: Guide, v: View): (m: map<string, Value>) {
    match g
    case ActionGuide(title, intent, description, instructions, _, _) =>
      map["title" := String(title), "intent" := String(intent), "instructions" := Array(Texts(instructions))]
      + OptionalFields("description", description)
    case DecisionGuide(title, description, objective, prompt, reasonPrompt, options, guidance) =>
      map["title" := String(title), "objective" := String(objective), "prompt" := String(prompt),
          "reason_policy" := Object(PolicyFields(reasonPrompt)), "options" := Array(OptionValues(options)),
          "allowed_option_ids" := Array(Texts(Kept(OptionIds(options), v.open)))]
      + OptionalFields("description", description) + StatusesFields(options, v)
          + TextsFields("evidence_guidance", guidance)
  }

  lemma PutTexts(m: map<string, Value>, soFar: nat, k: string, texts: seq<string>, price: nat)
    requires Costs(m, soFar) && PlainName(k) && ArgumentsPrice(texts) <= price
    ensures Costs(m[k := Array(Texts(texts))], soFar + FIELD_OVERHEAD + price)
  {
    hide Costs, ItemsCost;
    TextsCost(texts);
    ItemsCostMore(Texts(texts), ArgumentsPrice(texts), price);
    PutArray(m, soFar, k, Texts(texts), price);
  }

  lemma ActionCosts(g: Guide, v: View)
    requires g.ActionGuide?
    ensures Costs(GuideFields(g, v), GuidePrice(g))
  {
    hide Costs, TextPrice, OptionalPrice, OptionalFields, ArgumentsPrice;
    Nothing();
    var none: map<string, Value> := map[];
    PutWord(none, 0, "title", g.title);
    var m1 := none["title" := String(g.title)];
    PutWord(m1, TextPrice(g.title), "intent", g.intent);
    var m2 := m1["intent" := String(g.intent)];
    PutTexts(m2, TextPrice(g.title) + TextPrice(g.intent), "instructions", g.instructions,
             ArgumentsPrice(g.instructions));
    var m3 := m2["instructions" := Array(Texts(g.instructions))];
    assert m3 == map["title" := String(g.title), "intent" := String(g.intent),
                     "instructions" := Array(Texts(g.instructions))];
    OptionalCosts("description", g.description);
    Merge(m3, OptionalFields("description", g.description),
          TextPrice(g.title) + TextPrice(g.intent) + FIELD_OVERHEAD + ArgumentsPrice(g.instructions),
              OptionalPrice(g.description));
  }

  lemma PolicyCosts(reasonPrompt: Option<string>)
    ensures Costs(PolicyFields(reasonPrompt), FIELD_OVERHEAD + 4 + OptionalPrice(reasonPrompt))
  {
    hide Costs, OptionalPrice, OptionalFields;
    Nothing();
    var none: map<string, Value> := map[];
    PutFlag(none, 0, "required", true, 4);
    assert none["required" := Bool(true)] == map["required" := Bool(true)];
    OptionalCosts("prompt", reasonPrompt);
    Merge(map["required" := Bool(true)], OptionalFields("prompt", reasonPrompt), FIELD_OVERHEAD + 4,
          OptionalPrice(reasonPrompt));
  }

  lemma TextsFieldsCost(k: string, texts: seq<string>)
    requires PlainName(k)
    ensures Costs(TextsFields(k, texts), GuidancePrice(texts))
  {
    hide Costs, ArgumentsPrice;
    Nothing();
    if texts != [] {
      var none: map<string, Value> := map[];
      PutTexts(none, 0, k, texts, ArgumentsPrice(texts));
      assert none[k := Array(Texts(texts))] == TextsFields(k, texts);
    }
  }

  lemma StatusesFieldsCost(os: seq<OptionSpec>, v: View)
    requires ValidView(v)
    ensures Costs(StatusesFields(os, v), if AnyGuarded(os) then FIELD_OVERHEAD + OptionStatusesPrice(os) else 0)
  {
    hide Costs, ItemsCost, OptionStatusesPrice, ValidView, AnyGuarded;
    Nothing();
    if AnyGuarded(os) {
      OptionStatusesCost(os, v);
      var none: map<string, Value> := map[];
      PutArray(none, 0, "option_guard_statuses", OptionStatusValues(os, v), OptionStatusesPrice(os));
      assert none["option_guard_statuses" := Array(OptionStatusValues(os, v))] == StatusesFields(os, v);
    }
  }

  /** The fields every decision has. */
  function DecisionHead(g: Guide, v: View): (m: map<string, Value>)
    requires g.DecisionGuide?
  {
    map["title" := String(g.title), "objective" := String(g.objective), "prompt" := String(g.prompt),
        "reason_policy" := Object(PolicyFields(g.reasonPrompt)), "options" := Array(OptionValues(g.options)),
        "allowed_option_ids" := Array(Texts(Kept(OptionIds(g.options), v.open)))]
  }

  ghost function HeadPrice(g: Guide): (n: nat)
    requires g.DecisionGuide?
  {
    TextPrice(g.title) + TextPrice(g.objective) + TextPrice(g.prompt) + FIELD_OVERHEAD + (FIELD_OVERHEAD + 4)
    + OptionalPrice(g.reasonPrompt) + FIELD_OVERHEAD + OptionsPrice(g.options) + FIELD_OVERHEAD
        + ArgumentsPrice(OptionIds(g.options))
  }

  lemma HeadCosts(g: Guide, v: View)
    requires g.DecisionGuide?
    ensures Costs(DecisionHead(g, v), HeadPrice(g))
  {
    hide Costs, ItemsCost, TextPrice, OptionalPrice, OptionsPrice, ArgumentsPrice, OptionIds, PolicyFields,
         OptionValues, Kept;
    Nothing();
    var none: map<string, Value> := map[];
    var m1 := none["title" := String(g.title)];
    PutWord(none, 0, "title", g.title);
    var n1 := TextPrice(g.title);
    var m2 := m1["objective" := String(g.objective)];
    PutWord(m1, n1, "objective", g.objective);
    var n2 := n1 + TextPrice(g.objective);
    var m3 := m2["prompt" := String(g.prompt)];
    PutWord(m2, n2, "prompt", g.prompt);
    var n3 := n2 + TextPrice(g.prompt);
    PolicyCosts(g.reasonPrompt);
    var m4 := m3["reason_policy" := Object(PolicyFields(g.reasonPrompt))];
    PutObject(m3, n3, "reason_policy", PolicyFields(g.reasonPrompt),
              FIELD_OVERHEAD + 4 + OptionalPrice(g.reasonPrompt));
    var n4 := n3 + FIELD_OVERHEAD + (FIELD_OVERHEAD + 4 + OptionalPrice(g.reasonPrompt));
    OptionsCost(g.options);
    var m5 := m4["options" := Array(OptionValues(g.options))];
    PutArray(m4, n4, "options", OptionValues(g.options), OptionsPrice(g.options));
    KeptCosts(OptionIds(g.options), v.open);
    var open := Kept(OptionIds(g.options), v.open);
    PutTexts(m5, n4 + FIELD_OVERHEAD + OptionsPrice(g.options), "allowed_option_ids", open,
             ArgumentsPrice(OptionIds(g.options)));
    assert DecisionHead(g, v) == m5["allowed_option_ids" := Array(Texts(open))];
  }

  lemma DecisionCosts(g: Guide, v: View)
    requires g.DecisionGuide? && ValidView(v)
    ensures Costs(GuideFields(g, v), GuidePrice(g))
  {
    hide Costs, TextPrice, OptionalPrice, OptionsPrice, ArgumentsPrice, OptionIds, OptionStatusesPrice, GuidancePrice,
         AnyGuarded, OptionalFields, StatusesFields, TextsFields, ValidView;
    HeadCosts(g, v);
    var m0, n0 := DecisionHead(g, v), HeadPrice(g);
    OptionalCosts("description", g.description);
    var m1, n1 := m0 + OptionalFields("description", g.description), n0 + OptionalPrice(g.description);
    Merge(m0, OptionalFields("description", g.description), n0, OptionalPrice(g.description));
    StatusesFieldsCost(g.options, v);
    var statuses := if AnyGuarded(g.options) then FIELD_OVERHEAD + OptionStatusesPrice(g.options) else 0;
    Merge(m1, StatusesFields(g.options, v), n1, statuses);
    TextsFieldsCost("evidence_guidance", g.guidance);
    Merge(m1 + StatusesFields(g.options, v), TextsFields("evidence_guidance", g.guidance), n1 + statuses,
          GuidancePrice(g.guidance));
  }

  // ----- Missing items, disposition and the rest -----

  function MissingValues(items: seq<ItemGuide>, v: View): (r: seq<Value>) {
    if items == [] then []
    else
      (if items[0].required && v.missing(items[0])
       then [Object(map["item_id" := String(items[0].id), "prompt" := String(items[0].prompt)])] else [])
      + MissingValues(items[1..], v)
  }

  /** The window stops at 64 entries. */
  function Window(values: seq<Value>, size: nat): (r: seq<Value>) {
    if |values| <= size then values else values[..size]
  }

  lemma MissingItemCosts(item: ItemGuide)
    ensures Costs(map["item_id" := String(item.id), "prompt" := String(item.prompt)],
                  TextPrice(item.id) + TextPrice(item.prompt))
  {
    hide Costs, TextPrice, IsIdentifier;
    Nothing();
    var none: map<string, Value> := map[];
    PutWord(none, 0, "item_id", item.id);
    var m1 := none["item_id" := String(item.id)];
    PutWord(m1, TextPrice(item.id), "prompt", item.prompt);
    assert m1["prompt" := String(item.prompt)] == map["item_id" := String(item.id), "prompt" := String(item.prompt)];
  }

  lemma {:induction false} MissingCost(items: seq<ItemGuide>, v: View)
    ensures ItemsCost(MissingValues(items, v), MissingPrice(items))
  {
    hide Costs, ItemsCost, TextPrice;
    NoItems();
    if items != [] {
      var item, rest := items[0], MissingValues(items[1..], v);
      MissingCost(items[1..], v);
      if item.required && v.missing(item) {
        MissingItemCosts(item);
        FirstItem(map["item_id" := String(item.id), "prompt" := String(item.prompt)], rest,
                  TextPrice(item.id) + TextPrice(item.prompt), MissingPrice(items[1..]));
      } else {
        assert [] + rest == rest;
        ItemsCostMore(rest, MissingPrice(items[1..]), MissingPrice(items));
      }
    }
  }

  lemma {:induction false} PrefixPrice(values: seq<Value>, n: nat)
    requires n <= |values|
    ensures ItemsPrice(values[..n]) <= ItemsPrice(values)
  {
    hide Price;
    if n > 0 {
      PrefixPrice(values[1..], n - 1);
      assert values[..n][1..] == values[1..][..n - 1];
    }
  }

  lemma WindowCost(values: seq<Value>, size: nat, price: nat)
    requires ItemsCost(values, price)
    ensures ItemsCost(Window(values, size), price)
  {
    hide Price, Printable;
    if |values| > size { PrefixPrice(values, size); }
  }

  function SkipFields(g: Guide): (m: map<string, Value>)
    requires g.ActionGuide?
  {
    if g.skip.Some?
    then map["skip" := Object(map["allowed" := Bool(true), "reason_required" := Bool(g.skip.value)])]
    else map[]
  }

  function DispositionFields(g: Guide): (m: map<string, Value>) {
    if g.DecisionGuide? then map[]
    else
      (if g.target.Some? then map["next_graph_node_id" := String(g.target.value)] else map["terminal" := Bool(true)])
      + SkipFields(g)
  }

  lemma SkipCosts(g: Guide)
    requires g.ActionGuide?
    ensures Costs(SkipFields(g),
                  if g.skip.Some? then FIELD_OVERHEAD + (FIELD_OVERHEAD + 4) + (FIELD_OVERHEAD + 5) else 0)
  {
    hide Costs;
    Nothing();
    if g.skip.Some? {
      var none: map<string, Value> := map[];
      PutFlag(none, 0, "allowed", true, 4);
      var m1 := none["allowed" := Bool(true)];
      PutFlag(m1, FIELD_OVERHEAD + 4, "reason_required", g.skip.value, 5);
      var fields := m1["reason_required" := Bool(g.skip.value)];
      PutObject(none, 0, "skip", fields, FIELD_OVERHEAD + 4 + FIELD_OVERHEAD + 5);
      assert fields == map["allowed" := Bool(true), "reason_required" := Bool(g.skip.value)];
      assert none["skip" := Object(fields)] == SkipFields(g);
    }
  }

  lemma DispositionCosts(g: Guide)
    ensures Costs(DispositionFields(g), DispositionPrice(g))
  {
    hide Costs, TextPrice, SkipFields;
    Nothing();
    if g.ActionGuide? {
      var none: map<string, Value> := map[];
      SkipCosts(g);
      var skip := if g.skip.Some? then FIELD_OVERHEAD + (FIELD_OVERHEAD + 4) + (FIELD_OVERHEAD + 5) else 0;
      if g.target.Some? {
        PutWord(none, 0, "next_graph_node_id", g.target.value);
        var m := none["next_graph_node_id" := String(g.target.value)];
        assert m == map["next_graph_node_id" := String(g.target.value)];
        Merge(m, SkipFields(g), TextPrice(g.target.value), skip);
      } else {
        PutFlag(none, 0, "terminal", true, 4);
        var m := none["terminal" := Bool(true)];
        assert m == map["terminal" := Bool(true)];
        Merge(m, SkipFields(g), FIELD_OVERHEAD + 4, skip);
      }
    }
  }

  function CommonFields(s: Static, v: View): (m: map<string, Value>) {
    map["goal_tracking" := Bool(v.goalTracking), "missing_required_item_count" := Int(|MissingValues(s.items, v)|),
        "missing_required_items" := Array(Window(MissingValues(s.items, v), MAX_MISSING_ITEM_WINDOW)),
        "allowed_manual_rework_targets" := Array(Texts(Kept<string>(s.rework, v.reachable)))]
  }

  /** Everything the content price covers. */
  function ContentFields(s: Static, v: View): (m: map<string, Value>) {
    CommonFields(s, v) + GuideFields(s.guide, v) + DispositionFields(s.guide)
  }

  lemma SmallNumberPrice(n: nat)
    requires n <= 128
    ensures Printable(Int(n)) && Price(Int(n)) <= 3
  {
    assert Decimal.Power10(2) == 100;
    Decimal.DigitsLength(n, 3);
  }

  lemma {:induction false} MissingWithin(items: seq<ItemGuide>, v: View)
    ensures |MissingValues(items, v)| <= |items|
  {
    if items != [] { MissingWithin(items[1..], v); }
  }

  lemma CountCosts(goalTracking: bool, missing: nat)
    requires missing <= MAX_ITEMS_PER_DEFINITION
    ensures Costs(map["goal_tracking" := Bool(goalTracking), "missing_required_item_count" := Int(missing)], 136)
  {
    hide Costs, Price;
    Nothing();
    var none: map<string, Value> := map[];
    PutFlag(none, 0, "goal_tracking", goalTracking, 5);
    var m1 := none["goal_tracking" := Bool(goalTracking)];
    SmallNumberPrice(missing);
    Put(m1, 69, "missing_required_item_count", Int(missing), 3);
    assert m1["missing_required_item_count" := Int(missing)]
        == map["goal_tracking" := Bool(goalTracking), "missing_required_item_count" := Int(missing)];
  }

  lemma CommonCosts(s: Static, v: View)
    requires |s.items| <= MAX_ITEMS_PER_DEFINITION
    ensures Costs(CommonFields(s, v), 200 + MissingPrice(s.items) + FIELD_OVERHEAD + ArgumentsPrice(s.rework))
  {
    hide Costs, ItemsCost, Price, MissingPrice, ArgumentsPrice, MissingValues, Kept, Window, Texts;
    MissingWithin(s.items, v);
    var missing := |MissingValues(s.items, v)|;
    CountCosts(v.goalTracking, missing);
    var m2 := map["goal_tracking" := Bool(v.goalTracking), "missing_required_item_count" := Int(missing)];
    MissingCost(s.items, v);
    var window := Window(MissingValues(s.items, v), MAX_MISSING_ITEM_WINDOW);
    WindowCost(MissingValues(s.items, v), MAX_MISSING_ITEM_WINDOW, MissingPrice(s.items));
    PutArray(m2, 136, "missing_required_items", window, MissingPrice(s.items));
    var m3 := m2["missing_required_items" := Array(window)];
    KeptCosts(s.rework, v.reachable);
    var targets := Kept<string>(s.rework, v.reachable);
    PutTexts(m3, 200 + MissingPrice(s.items), "allowed_manual_rework_targets", targets, ArgumentsPrice(s.rework));
    assert CommonFields(s, v) == m3["allowed_manual_rework_targets" := Array(Texts(targets))];
  }

  /** For every session, the static content costs at most what the content of the placement is priced. */
  lemma ContentCosts(s: Static, v: View)
    requires ValidView(v) && |s.items| <= MAX_ITEMS_PER_DEFINITION
    ensures Costs(ContentFields(s, v), ContentPrice(s))
  {
    hide Costs, CommonFields, GuideFields, DispositionFields, GuidePrice, MissingPrice, DispositionPrice,
         ArgumentsPrice, ValidView;
    var common := 200 + MissingPrice(s.items) + FIELD_OVERHEAD + ArgumentsPrice(s.rework);
    CommonCosts(s, v);
    if s.guide.ActionGuide? {
      ActionCosts(s.guide, v);
    } else {
      DecisionCosts(s.guide, v);
    }
    DispositionCosts(s.guide);
    Merge(CommonFields(s, v), GuideFields(s.guide, v), common, GuidePrice(s.guide));
    Merge(CommonFields(s, v) + GuideFields(s.guide, v), DispositionFields(s.guide), common + GuidePrice(s.guide),
          DispositionPrice(s.guide));
  }
}
