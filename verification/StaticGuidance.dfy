/**
  The static charge of a placement: what its definition, its graph and its commands may put into a
  `session.next` response, priced when the Procedure is admitted.
  */
module StaticGuidance {
  import opened Utf8
  import opened CanonicalJson
  import opened Procedure
  import opened Saturation
  import opened NextBudget
  import opened TariffCoverage
  import opened TariffInstances
  import Decimal

  const MAX_PREDICATE_TEXT_CHARS: nat := 120
  const MAX_CONDITION_STATE_CHARS: nat := 11
  const MAX_CONDITION_COUNT_BYTES: nat := 5

  // ----- What a placement shows -----

  type I64 = n: int | I64_MIN <= n <= I64_MAX

  datatype Scalar = Flag(flag: bool) | Whole(number: I64) | Words(text: string)

  datatype Operator =
    | Equals(expected: Scalar)
    | NotEquals(expected: Scalar)
    | IsEmpty
    | NonEmpty
    | AtLeast(bound: I64)
    | AtMost(bound: I64)

  datatype Predicate = Predicate(node: Identifier, item: Identifier, outcome: bool, operator: Operator)

  datatype OptionSpec = OptionSpec(id: Identifier, caption: string, criteria: Option<string>,
                                   guards: Option<seq<Predicate>>)

  /** An item is required if it always is or may become so. */
  datatype ItemGuide = ItemGuide(id: Identifier, kind: ItemType, required: bool, prompt: string)

  /** An action with where it leads and whether it may be skipped, with or without a reason; or a decision. */
  datatype Guide =
    | ActionGuide(title: string, intent: string, description: Option<string>, instructions: seq<string>,
                  target: Option<Identifier>, skip: Option<bool>)
    | DecisionGuide(title: string, description: Option<string>, objective: string, prompt: string,
                    reasonPrompt: Option<string>, options: seq<OptionSpec>, guidance: seq<string>)

  datatype Static = Static(guide: Guide, items: seq<ItemGuide>, rework: seq<Identifier>, delegated: bool)

  const SESSION_ACTIONS: seq<string> :=
    ["session.complete", "session.decide", "session.retry", "session.skip", "session.rework", "session.block",
     "session.unblock", "session.cancel", "session.reset"]
  const GOAL_ACTIONS: seq<string> := ["goal.define", "goal.revise", "goal.assess_criterion"]
  const ITEM_ACTIONS: seq<string> :=
    ["item.check", "item.uncheck", "item.set", "item.add", "item.remove", "item.attach", "item.clear"]

  const ALL_ALLOWED_ACTIONS: seq<string> := SESSION_ACTIONS + GOAL_ACTIONS + ITEM_ACTIONS

  // ----- Exact prices -----

  ghost function TextPrice(s: string): (n: nat) {
    FIELD_OVERHEAD + STRING_BYTE_FACTOR * |s|
  }

  ghost function OptionalPrice(s: Option<string>): (n: nat) {
    if s.Some? then TextPrice(s.value) else 0
  }

  ghost function ScalarPrice(s: Scalar): (n: nat) {
    match s
    case Flag(b) => if b then 4 else 5
    case Whole(n) => |Decimal.Spell(n)|
    case Words(text) => STRING_BYTE_FACTOR * |text|
  }

  ghost function OperatorPrice(o: Operator): (n: nat) {
    match o
    case Equals(expected) => FIELD_OVERHEAD + ScalarPrice(expected)
    case NotEquals(expected) => FIELD_OVERHEAD + ScalarPrice(expected)
    case IsEmpty => FIELD_OVERHEAD + 4
    case NonEmpty => FIELD_OVERHEAD + 4
    case AtLeast(bound) => FIELD_OVERHEAD + |Decimal.Spell(bound)|
    case AtMost(bound) => FIELD_OVERHEAD + |Decimal.Spell(bound)|
  }

  ghost function OutcomePrice(p: Predicate): (n: nat) {
    if p.outcome then TextPrice("outcome") else 0
  }

  /** One authored guard predicate in its array. */
  ghost function GuardPrice(p: Predicate): (n: nat) {
    ARRAY_ELEMENT_OVERHEAD + FIELD_OVERHEAD + TextPrice(p.node) + TextPrice(p.item) + OutcomePrice(p)
        + OperatorPrice(p.operator)
  }

  ghost function GuardsPrice(ps: seq<Predicate>): (n: nat) {
    if ps == [] then 0 else GuardPrice(ps[0]) + GuardsPrice(ps[1..])
  }

  ghost function OptionPrice(o: OptionSpec): (n: nat) {
    ARRAY_ELEMENT_OVERHEAD + TextPrice(o.id) + TextPrice(o.caption) + OptionalPrice(o.criteria)
    + (if o.guards.Some? then FIELD_OVERHEAD + GuardsPrice(o.guards.value) else 0)
  }

  ghost function OptionsPrice(os: seq<OptionSpec>): (n: nat) {
    if os == [] then 0 else OptionPrice(os[0]) + OptionsPrice(os[1..])
  }

  function OperatorName(o: Operator): (s: string) {
    match o
    case Equals(_) => "equals"
    case NotEquals(_) => "not_equals"
    case IsEmpty => "empty"
    case NonEmpty => "non_empty"
    case AtLeast(_) => "at_least"
    case AtMost(_) => "at_most"
  }

  ghost function ExpectedPrice(o: Operator): (n: nat) {
    if o.IsEmpty? || o.NonEmpty? then 0 else OperatorPrice(o)
  }

  /** The widest value a guard can be compared with. */
  function ActualBytes(o: Operator): (n: nat) {
    match o
    case IsEmpty => MAX_CONDITION_COUNT_BYTES
    case NonEmpty => MAX_CONDITION_COUNT_BYTES
    case AtLeast(_) => MAX_U64_BYTES
    case AtMost(_) => MAX_U64_BYTES
    case Equals(e) => ScalarBytes(e)
    case NotEquals(e) => ScalarBytes(e)
  }

  function ScalarBytes(s: Scalar): (n: nat) {
    match s
    case Flag(_) => MAX_BOOL_BYTES
    case Whole(_) => MAX_U64_BYTES
    case Words(_) => STRING_BYTE_FACTOR * MAX_PREDICATE_TEXT_CHARS
  }

  const STATE_PRICE: nat := FIELD_OVERHEAD + STRING_BYTE_FACTOR * MAX_CONDITION_STATE_CHARS

  ghost function StatusPrice(p: Predicate): (n: nat) {
    ARRAY_ELEMENT_OVERHEAD + FIELD_OVERHEAD + TextPrice("evidence") + TextPrice(p.node) + TextPrice(p.item)
        + OutcomePrice(p)
    + TextPrice(OperatorName(p.operator)) + ExpectedPrice(p.operator) + FIELD_OVERHEAD + ActualBytes(p.operator)
        + STATE_PRICE
  }

  ghost function StatusesPrice(ps: seq<Predicate>): (n: nat) {
    if ps == [] then 0 else StatusPrice(ps[0]) + StatusesPrice(ps[1..])
  }

  function Guards(o: OptionSpec): (ps: seq<Predicate>) {
    if o.guards.Some? then o.guards.value else []
  }

  ghost function OptionStatusPrice(o: OptionSpec): (n: nat) {
    ARRAY_ELEMENT_OVERHEAD + TextPrice(o.id) + STATE_PRICE + FIELD_OVERHEAD + StatusesPrice(Guards(o))
  }

  ghost function OptionStatusesPrice(os: seq<OptionSpec>): (n: nat) {
    if os == [] then 0 else OptionStatusPrice(os[0]) + OptionStatusesPrice(os[1..])
  }

  function OptionIds(os: seq<OptionSpec>): (ids: seq<string>) {
    if os == [] then [] else [os[0].id] + OptionIds(os[1..])
  }

  predicate AnyGuarded(os: seq<OptionSpec>) {
    exists i :: 0 <= i < |os| && os[i].guards.Some?
  }

  ghost function GuidancePrice(guidance: seq<string>): (n: nat) {
    if guidance == [] then 0 else FIELD_OVERHEAD + ArgumentsPrice(guidance)
  }

  ghost function GuidePrice(g: Guide): (n: nat) {
    match g
    case ActionGuide(title, intent, description, instructions, _, _) =>
      TextPrice(title) + TextPrice(intent) + OptionalPrice(description) + FIELD_OVERHEAD + ArgumentsPrice(instructions)
    case DecisionGuide(title, description, objective, prompt, reasonPrompt, options, guidance) =>
      TextPrice(title) + OptionalPrice(description) + TextPrice(objective) + TextPrice(prompt)
      + FIELD_OVERHEAD + (FIELD_OVERHEAD + 4) + OptionalPrice(reasonPrompt)
      + FIELD_OVERHEAD + OptionsPrice(options) + FIELD_OVERHEAD + ArgumentsPrice(OptionIds(options))
      + (if AnyGuarded(options) then FIELD_OVERHEAD + OptionStatusesPrice(options) else 0)
      + GuidancePrice(guidance)
  }

  ghost function MissingPrice(items: seq<ItemGuide>): (n: nat) {
    if items == [] then 0
    else
      (if items[0].required then ARRAY_ELEMENT_OVERHEAD + TextPrice(items[0].id) + TextPrice(items[0].prompt) else 0)
      + MissingPrice(items[1..])
  }

  ghost function DispositionPrice(g: Guide): (n: nat) {
    if g.DecisionGuide? then 0
    else
      (if g.target.Some? then TextPrice(g.target.value) else FIELD_OVERHEAD + 4)
      + (if g.skip.Some? then FIELD_OVERHEAD + (FIELD_OVERHEAD + 4) + (FIELD_OVERHEAD + 5) else 0)
  }

  // ----- Suggested commands -----

  datatype Hint = Hint(command: string, argv: seq<string>, itemId: Option<string>)

  function HintValue(h: Hint): (v: Value) {
    SuggestionValue(h.command, h.argv, h.itemId)
  }

  function ItemHint(item: ItemGuide): (h: Hint) {
    match item.kind
    case CheckResult => Hint("item.record_many", ["record", "--stdin"], Some(item.id))
    case Confirm => Hint("item.check", ["check", item.id], Some(item.id))
    case Text => Hint("item.set", ["set", item.id, "<text>"], Some(item.id))
    case Choice => Hint("item.set", ["set", item.id, "<choice>"], Some(item.id))
    case Integer => Hint("item.set", ["set", item.id, "<integer>"], Some(item.id))
    case List => Hint("item.add", ["add", item.id, "<value>"], Some(item.id))
    case Artifact => Hint("item.attach", ["attach", item.id, "<path>"], Some(item.id))
  }

  const RETRY := Hint("session.retry", ["retry", "--reason", "<reason>"], None)
  const COMPLETE := Hint("session.complete", ["complete"], None)
  const SKIP := Hint("session.skip", ["skip", "--reason", "<text>"], None)

  function DecideHint(id: string): (h: Hint) {
    Hint("session.decide", ["decide", "--option", id, "--reason", "<reason>"], None)
  }

  ghost function HintPrice(h: Hint): (n: nat) {
    ARRAY_ELEMENT_OVERHEAD + Price(HintValue(h))
  }

  ghost function ItemHintsPrice(items: seq<ItemGuide>): (n: nat) {
    if items == [] then 0
    else (if items[0].required then HintPrice(ItemHint(items[0])) else 0) + ItemHintsPrice(items[1..])
  }

  ghost function DecideHintsPrice(ids: seq<string>): (n: nat) {
    if ids == [] then 0 else HintPrice(DecideHint(ids[0])) + DecideHintsPrice(ids[1..])
  }

  ghost function RouteHintsPrice(g: Guide): (n: nat) {
    match g
    case ActionGuide(_, _, _, _, _, skip) => HintPrice(COMPLETE) + (if skip.Some? then HintPrice(SKIP) else 0)
    case DecisionGuide(_, _, _, _, _, options, _) => DecideHintsPrice(OptionIds(options))
  }

  ghost function SuggestionsPrice(s: Static): (n: nat) {
    FIELD_OVERHEAD + ItemHintsPrice(s.items) + HintPrice(RETRY) + RouteHintsPrice(s.guide)
  }

  ghost function ActionsPrice(): (n: nat) {
    FIELD_OVERHEAD + ArgumentsPrice(ALL_ALLOWED_ACTIONS)
  }

  /** Everything but the command inventory, the suggestions and the delegation projection. */
  ghost function ContentPrice(s: Static): (n: nat) {
    (FIELD_OVERHEAD + 5) + GuidePrice(s.guide) + (FIELD_OVERHEAD + 3) + FIELD_OVERHEAD + MissingPrice(s.items)
    + DispositionPrice(s.guide) + FIELD_OVERHEAD + ArgumentsPrice(s.rework)
  }

  ghost function ExactStatic(s: Static): (n: nat) {
    ContentPrice(s) + ActionsPrice() + SuggestionsPrice(s)
    + (if s.delegated then DELEGATION_PROJECTION_CHARGE else 0)
  }

  // ----- The accumulation -----

  method AddPrice(charge: nat, ghost exact: nat, price: nat) returns (r: nat, ghost e: nat)
    requires charge == Capped(exact)
    ensures e == exact + price && r == Capped(e)
  {
    AddIsExact(exact, price);
    r, e := Add(charge, price), exact + price;
  }

  method AddText(charge: nat, ghost exact: nat, text: string) returns (r: nat, ghost e: nat)
    requires charge == Capped(exact)
    ensures e == exact + TextPrice(text) && r == Capped(e)
  {
    FieldCharge(exact, |text|);
    r, e := Add(charge, StringField(|text|)), exact + 64 + 6 * |text|;
  }

  method AddOptional(charge: nat, ghost exact: nat, text: Option<string>) returns (r: nat, ghost e: nat)
    requires charge == Capped(exact)
    ensures e == exact + OptionalPrice(text) && r == Capped(e)
  {
    r, e := charge, exact;
    if text.Some? {
      r, e := AddText(r, e, text.value);
    }
  }

  method AddTexts(charge: nat, ghost exact: nat, texts: seq<string>) returns (r: nat, ghost e: nat)
    requires charge == Capped(exact)
    ensures e == exact + ArgumentsPrice(texts) && r == Capped(e)
  {
    hide Capped, Add, ArrayString;
    r, e := charge, exact;
    assert texts[0..] == texts;
    for i := 0 to |texts|
      invariant r == Capped(e) && e + ArgumentsPrice(texts[i..]) == exact + ArgumentsPrice(texts)
    {
      assert texts[i..][1..] == texts[i + 1..];
      ElementCharge(e, |texts[i]|);
      r, e := Add(r, ArrayString(|texts[i]|)), e + 8 + 6 * |texts[i]|;
    }
  }

  method AddScalar(charge: nat, ghost exact: nat, s: Scalar) returns (r: nat, ghost e: nat)
    requires charge == Capped(exact)
    ensures e == exact + FIELD_OVERHEAD + ScalarPrice(s) && r == Capped(e)
  {
    match s
    case Flag(b) => r, e := AddPrice(charge, exact, FIELD_OVERHEAD + if b then 4 else 5);
    case Whole(n) => r, e := AddPrice(charge, exact, FIELD_OVERHEAD + |Decimal.Spell(n)|);
    case Words(text) => r, e := AddText(charge, exact, text);
  }

  method AddOperator(charge: nat, ghost exact: nat, o: Operator) returns (r: nat, ghost e: nat)
    requires charge == Capped(exact)
    ensures e == exact + OperatorPrice(o) && r == Capped(e)
  {
    match o
    case Equals(expected) => r, e := AddScalar(charge, exact, expected);
    case NotEquals(expected) => r, e := AddScalar(charge, exact, expected);
    case IsEmpty => r, e := AddPrice(charge, exact, FIELD_OVERHEAD + 4);
    case NonEmpty => r, e := AddPrice(charge, exact, FIELD_OVERHEAD + 4);
    case AtLeast(bound) => r, e := AddPrice(charge, exact, FIELD_OVERHEAD + |Decimal.Spell(bound)|);
    case AtMost(bound) => r, e := AddPrice(charge, exact, FIELD_OVERHEAD + |Decimal.Spell(bound)|);
  }

  /** `guard_authoring_charge`, added in place. */
  method AddGuards(charge: nat, ghost exact: nat, ps: seq<Predicate>) returns (r: nat, ghost e: nat)
    requires charge == Capped(exact)
    ensures e == exact + GuardsPrice(ps) && r == Capped(e)
  {
    hide Capped, OperatorPrice, TextPrice;
    r, e := charge, exact;
    assert ps[0..] == ps;
    for i := 0 to |ps|
      invariant r == Capped(e) && e + GuardsPrice(ps[i..]) == exact + GuardsPrice(ps)
    {
      assert ps[i..][1..] == ps[i + 1..];
      r, e := AddPrice(r, e, ARRAY_ELEMENT_OVERHEAD);
      r, e := AddPrice(r, e, FIELD_OVERHEAD);
      r, e := AddText(r, e, ps[i].node);
      r, e := AddText(r, e, ps[i].item);
      if ps[i].outcome {
        r, e := AddText(r, e, "outcome");
      }
      r, e := AddOperator(r, e, ps[i].operator);
    }
  }

  method AddOptions(charge: nat, ghost exact: nat, os: seq<OptionSpec>) returns (r: nat, ghost e: nat)
    requires charge == Capped(exact)
    ensures e == exact + OptionsPrice(os) && r == Capped(e)
  {
    hide Capped, GuardsPrice, TextPrice, OptionalPrice;
    r, e := charge, exact;
    assert os[0..] == os;
    for i := 0 to |os|
      invariant r == Capped(e) && e + OptionsPrice(os[i..]) == exact + OptionsPrice(os)
    {
      assert os[i..][1..] == os[i + 1..];
      r, e := AddPrice(r, e, ARRAY_ELEMENT_OVERHEAD);
      r, e := AddText(r, e, os[i].id);
      r, e := AddText(r, e, os[i].caption);
      r, e := AddOptional(r, e, os[i].criteria);
      if os[i].guards.Some? {
        r, e := AddPrice(r, e, FIELD_OVERHEAD);
        r, e := AddGuards(r, e, os[i].guards.value);
      }
    }
  }

  /** `predicate_status_charge` of every predicate, added in place. */
  method AddStatuses(charge: nat, ghost exact: nat, ps: seq<Predicate>) returns (r: nat, ghost e: nat)
    requires charge == Capped(exact)
    ensures e == exact + StatusesPrice(ps) && r == Capped(e)
  {
    hide Capped, OperatorPrice, TextPrice, OperatorName, ActualBytes;
    r, e := charge, exact;
    assert ps[0..] == ps;
    for i := 0 to |ps|
      invariant r == Capped(e) && e + StatusesPrice(ps[i..]) == exact + StatusesPrice(ps)
    {
      assert ps[i..][1..] == ps[i + 1..];
      var p := ps[i];
      r, e := AddPrice(r, e, ARRAY_ELEMENT_OVERHEAD);
      r, e := AddPrice(r, e, FIELD_OVERHEAD);
      r, e := AddText(r, e, "evidence");
      r, e := AddText(r, e, p.node);
      r, e := AddText(r, e, p.item);
      if p.outcome {
        r, e := AddText(r, e, "outcome");
      }
      r, e := AddText(r, e, OperatorName(p.operator));
      if !p.operator.IsEmpty? && !p.operator.NonEmpty? {
        r, e := AddOperator(r, e, p.operator);
      }
      r, e := AddPrice(r, e, FIELD_OVERHEAD + ActualBytes(p.operator));
      r, e := AddPrice(r, e, STATE_PRICE);
    }
  }

  /** `option_guard_statuses_charge`, added in place. */
  method AddOptionStatuses(charge: nat, ghost exact: nat, os: seq<OptionSpec>) returns (r: nat, ghost e: nat)
    requires charge == Capped(exact)
    ensures e == exact + OptionStatusesPrice(os) && r == Capped(e)
  {
    hide Capped, StatusesPrice, TextPrice;
    r, e := charge, exact;
    assert os[0..] == os;
    for i := 0 to |os|
      invariant r == Capped(e) && e + OptionStatusesPrice(os[i..]) == exact + OptionStatusesPrice(os)
    {
      assert os[i..][1..] == os[i + 1..];
      r, e := AddPrice(r, e, ARRAY_ELEMENT_OVERHEAD);
      r, e := AddText(r, e, os[i].id);
      r, e := AddPrice(r, e, STATE_PRICE);
      r, e := AddPrice(r, e, FIELD_OVERHEAD);
      r, e := AddStatuses(r, e, Guards(os[i]));
    }
  }

  method AddMissing(charge: nat, ghost exact: nat, items: seq<ItemGuide>) returns (r: nat, ghost e: nat)
    requires charge == Capped(exact)
    ensures e == exact + MissingPrice(items) && r == Capped(e)
  {
    hide Capped, TextPrice;
    r, e := charge, exact;
    assert items[0..] == items;
    for i := 0 to |items|
      invariant r == Capped(e) && e + MissingPrice(items[i..]) == exact + MissingPrice(items)
    {
      assert items[i..][1..] == items[i + 1..];
      if items[i].required {
        r, e := AddPrice(r, e, ARRAY_ELEMENT_OVERHEAD);
        r, e := AddText(r, e, items[i].id);
        r, e := AddText(r, e, items[i].prompt);
      }
    }
  }

  method AddGuide(charge: nat, ghost exact: nat, g: Guide) returns (r: nat, ghost e: nat)
    requires charge == Capped(exact)
    ensures e == exact + GuidePrice(g) && r == Capped(e)
  {
    hide Capped, TextPrice, OptionalPrice, ArgumentsPrice, OptionsPrice, OptionStatusesPrice, OptionIds, AnyGuarded;
    r, e := AddText(charge, exact, g.title);
    match g {
      case ActionGuide(_, intent, description, instructions, _, _) =>
        r, e := AddText(r, e, intent);
        r, e := AddOptional(r, e, description);
        r, e := AddPrice(r, e, FIELD_OVERHEAD);
        r, e := AddTexts(r, e, instructions);
      case DecisionGuide(_, description, objective, prompt, reasonPrompt, options, guidance) =>
        r, e := AddOptional(r, e, description);
        r, e := AddText(r, e, objective);
        r, e := AddText(r, e, prompt);
        r, e := AddPrice(r, e, FIELD_OVERHEAD);
        r, e := AddPrice(r, e, FIELD_OVERHEAD + 4);
        r, e := AddOptional(r, e, reasonPrompt);
        r, e := AddPrice(r, e, FIELD_OVERHEAD);
        r, e := AddOptions(r, e, options);
        r, e := AddPrice(r, e, FIELD_OVERHEAD);
        r, e := AddTexts(r, e, OptionIds(options));
        if AnyGuarded(options) {
          r, e := AddPrice(r, e, FIELD_OVERHEAD);
          r, e := AddOptionStatuses(r, e, options);
        }
        if guidance != [] {
          r, e := AddPrice(r, e, FIELD_OVERHEAD);
          r, e := AddTexts(r, e, guidance);
        }
    }
  }

  method AddHint(charge: nat, ghost exact: nat, h: Hint) returns (r: nat, ghost e: nat)
    requires charge == Capped(exact)
    ensures e == exact + HintPrice(h) && r == Capped(e)
  {
    hide Price, SuggestionValue, Capped, Add;
    var price := Suggestion(h.command, h.argv, h.itemId);
    AddIsExact(exact, HintPrice(h));
    r, e := Add(charge, price), exact + HintPrice(h);
  }

  method AddItemHints(charge: nat, ghost exact: nat, items: seq<ItemGuide>) returns (r: nat, ghost e: nat)
    requires charge == Capped(exact)
    ensures e == exact + ItemHintsPrice(items) && r == Capped(e)
  {
    hide Capped, HintPrice, ItemHint;
    r, e := charge, exact;
    assert items[0..] == items;
    for i := 0 to |items|
      invariant r == Capped(e) && e + ItemHintsPrice(items[i..]) == exact + ItemHintsPrice(items)
    {
      assert items[i..][1..] == items[i + 1..];
      if items[i].required {
        r, e := AddHint(r, e, ItemHint(items[i]));
      }
    }
  }

  method AddDecideHints(charge: nat, ghost exact: nat, ids: seq<string>) returns (r: nat, ghost e: nat)
    requires charge == Capped(exact)
    ensures e == exact + DecideHintsPrice(ids) && r == Capped(e)
  {
    hide Capped, HintPrice, DecideHint;
    r, e := charge, exact;
    assert ids[0..] == ids;
    for i := 0 to |ids|
      invariant r == Capped(e) && e + DecideHintsPrice(ids[i..]) == exact + DecideHintsPrice(ids)
    {
      assert ids[i..][1..] == ids[i + 1..];
      r, e := AddHint(r, e, DecideHint(ids[i]));
    }
  }

  /** `suggestion_charge`, added in place. */
  method AddSuggestions(charge: nat, ghost exact: nat, s: Static) returns (r: nat, ghost e: nat)
    requires charge == Capped(exact)
    ensures e == exact + SuggestionsPrice(s) && r == Capped(e)
  {
    hide Capped, HintPrice, ItemHintsPrice, DecideHintsPrice, OptionIds;
    r, e := AddPrice(charge, exact, FIELD_OVERHEAD);
    r, e := AddItemHints(r, e, s.items);
    r, e := AddHint(r, e, RETRY);
    match s.guide {
      case ActionGuide(_, _, _, _, _, skip) =>
        r, e := AddHint(r, e, COMPLETE);
        if skip.Some? {
          r, e := AddHint(r, e, SKIP);
        }
      case DecisionGuide(_, _, _, _, _, options, _) => r, e := AddDecideHints(r, e, OptionIds(options));
    }
  }

  method AddDisposition(charge: nat, ghost exact: nat, g: Guide) returns (r: nat, ghost e: nat)
    requires charge == Capped(exact)
    ensures e == exact + DispositionPrice(g) && r == Capped(e)
  {
    hide Capped, TextPrice;
    r, e := charge, exact;
    if g.ActionGuide? {
      if g.target.Some? {
        r, e := AddText(r, e, g.target.value);
      } else {
        r, e := AddPrice(r, e, FIELD_OVERHEAD + 4);
      }
      if g.skip.Some? {
        r, e := AddPrice(r, e, FIELD_OVERHEAD);
        r, e := AddPrice(r, e, FIELD_OVERHEAD + 4);
        r, e := AddPrice(r, e, FIELD_OVERHEAD + 5);
      }
    }
  }

  /** `next_static_charge`: the exact sum of everything listed, capped once. */
  method NextStaticCharge(s: Static) returns (charge: nat)
    ensures charge == Capped(ExactStatic(s))
  {
    hide Capped, GuidePrice, MissingPrice, DispositionPrice, ArgumentsPrice, SuggestionsPrice;
    ghost var e := 69;
    charge := FIELD_OVERHEAD + MAX_BOOL_BYTES;
    assert charge == Capped(e) by { SmallCap(69); }
    charge, e := AddGuide(charge, e, s.guide);
    charge, e := AddPrice(charge, e, FIELD_OVERHEAD + 3);
    charge, e := AddPrice(charge, e, FIELD_OVERHEAD);
    charge, e := AddMissing(charge, e, s.items);
    charge, e := AddDisposition(charge, e, s.guide);
    charge, e := AddPrice(charge, e, FIELD_OVERHEAD);
    charge, e := AddTexts(charge, e, s.rework);
    charge, e := AddPrice(charge, e, FIELD_OVERHEAD);
    charge, e := AddTexts(charge, e, ALL_ALLOWED_ACTIONS);
    charge, e := AddSuggestions(charge, e, s);
    if s.delegated {
      charge, e := AddPrice(charge, e, DELEGATION_PROJECTION_CHARGE);
    }
  }

  lemma SmallCap(n: nat)
    requires n <= U64_MAX
    ensures Capped(n) == n
  {
  }
}
