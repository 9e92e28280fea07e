/**
  The static charge from both sides: what the barest action and the barest decision are charged,
  and by exactly how much every part that can be added to them raises the charge. Nothing else is
  charged, so optional items cost nothing and no part is charged twice.
  */
module StaticIncrements {
  import opened Utf8
  import opened Procedure
  import opened TariffCoverage
  import opened TariffInstances
  import opened StaticGuidance
  import Decimal

  // ----- Suggestions -----

  lemma HintCosts(h: Hint)
    ensures HintPrice(h) == 180 + 6 * |h.command| + ArgumentsPrice(h.argv)
                            + (if h.itemId.Some? then 64 + 6 * |h.itemId.value| else 0)
  {
    hide Price, SuggestionValue, ArgumentsPrice;
    SuggestionPrice(h.command, h.argv, h.itemId);
  }

  lemma ArgumentStep(first: string, rest: seq<string>)
    ensures ArgumentsPrice([first] + rest) == 8 + 6 * |first| + ArgumentsPrice(rest)
  {
    assert ([first] + rest)[1..] == rest;
  }

  lemma OneArgument(a: string)
    ensures ArgumentsPrice([a]) == 8 + 6 * |a|
  {
    assert [a][1..] == [];
  }

  lemma TwoArguments(a: string, b: string)
    ensures ArgumentsPrice([a, b]) == 16 + 6 * (|a| + |b|)
  {
    hide ArgumentsPrice;
    OneArgument(b);
    ArgumentStep(a, [b]);
    assert [a] + [b] == [a, b];
  }

  lemma ThreeArguments(a: string, b: string, c: string)
    ensures ArgumentsPrice([a, b, c]) == 24 + 6 * (|a| + |b| + |c|)
  {
    hide ArgumentsPrice;
    TwoArguments(b, c);
    ArgumentStep(a, [b, c]);
    assert [a] + [b, c] == [a, b, c];
  }

  lemma RouteHintPrices()
    ensures HintPrice(RETRY) == 408 && HintPrice(COMPLETE) == 332 && HintPrice(SKIP) == 384
  {
    hide HintPrice, ArgumentsPrice;
    HintCosts(RETRY);
    ThreeArguments("retry", "--reason", "<reason>");
    HintCosts(COMPLETE);
    OneArgument("complete");
    HintCosts(SKIP);
    ThreeArguments("skip", "--reason", "<text>");
  }

  lemma DecideHintPrice(id: string)
    ensures HintPrice(DecideHint(id)) == 484 + 6 * |id|
  {
    hide HintPrice, ArgumentsPrice;
    HintCosts(DecideHint(id));
    ThreeArguments(id, "--reason", "<reason>");
    ArgumentStep("--option", [id, "--reason", "<reason>"]);
    ArgumentStep("decide", ["--option"] + [id, "--reason", "<reason>"]);
    assert ["decide"] + (["--option"] + [id, "--reason", "<reason>"]) == DecideHint(id).argv;
  }

  /** What the suggestion for a required item is charged, but for six a character of its identifier. */
  function HintBase(kind: ItemType): (n: nat) {
    match kind
    case Confirm => 350
    case Text => 370
    case Choice => 382
    case Integer => 388
    case List => 376
    case Artifact => 406
    case CheckResult => 434
  }

  function TimesNamed(kind: ItemType): (n: nat) {
    if kind.CheckResult? then 1 else 2
  }

  lemma ItemHintPrice(item: ItemGuide)
    ensures HintPrice(ItemHint(item)) == HintBase(item.kind) + 6 * TimesNamed(item.kind) * |item.id|
  {
    hide HintPrice, ArgumentsPrice, IsIdentifier;
    HintCosts(ItemHint(item));
    match item.kind
    case CheckResult => TwoArguments("record", "--stdin");
    case Confirm => TwoArguments("check", item.id);
    case Text => ThreeArguments("set", item.id, "<text>");
    case Choice => ThreeArguments("set", item.id, "<choice>");
    case Integer => ThreeArguments("set", item.id, "<integer>");
    case List => ThreeArguments("add", item.id, "<value>");
    case Artifact => ThreeArguments("attach", item.id, "<path>");
  }

  // ----- Appending -----

  lemma {:induction false} MissingAppend(items: seq<ItemGuide>, item: ItemGuide)
    ensures MissingPrice(items + [item])
            == MissingPrice(items) + (if item.required then 136 + 6 * |item.id| + 6 * |item.prompt| else 0)
  {
    if items == [] {
      assert items + [item] == [item] && [item][1..] == [];
    } else {
      MissingAppend(items[1..], item);
      assert (items + [item])[1..] == items[1..] + [item];
    }
  }

  lemma {:induction false} ItemHintsAppend(items: seq<ItemGuide>, item: ItemGuide)
    ensures ItemHintsPrice(items + [item])
            == ItemHintsPrice(items) + (if item.required then HintPrice(ItemHint(item)) else 0)
  {
    hide HintPrice, ItemHint;
    if items == [] {
      assert items + [item] == [item] && [item][1..] == [];
    } else {
      ItemHintsAppend(items[1..], item);
      assert (items + [item])[1..] == items[1..] + [item];
    }
  }

  lemma {:induction false} GuardsAppend(ps: seq<Predicate>, p: Predicate)
    ensures GuardsPrice(ps + [p]) == GuardsPrice(ps) + GuardPrice(p)
    ensures StatusesPrice(ps + [p]) == StatusesPrice(ps) + StatusPrice(p)
  {
    hide GuardPrice, StatusPrice;
    if ps == [] {
      assert ps + [p] == [p] && [p][1..] == [];
    } else {
      GuardsAppend(ps[1..], p);
      assert (ps + [p])[1..] == ps[1..] + [p];
    }
  }

  lemma {:induction false} OptionsAppend(os: seq<OptionSpec>, o: OptionSpec)
    ensures OptionsPrice(os + [o]) == OptionsPrice(os) + OptionPrice(o)
    ensures OptionStatusesPrice(os + [o]) == OptionStatusesPrice(os) + OptionStatusPrice(o)
    ensures OptionIds(os + [o]) == OptionIds(os) + [o.id]
  {
    hide OptionPrice, OptionStatusPrice;
    if os == [] {
      assert os + [o] == [o] && [o][1..] == [];
    } else {
      OptionsAppend(os[1..], o);
      assert (os + [o])[1..] == os[1..] + [o];
    }
  }

  lemma {:induction false} DecideHintsAppend(ids: seq<string>, id: string)
    ensures DecideHintsPrice(ids + [id]) == DecideHintsPrice(ids) + 484 + 6 * |id|
  {
    hide HintPrice, DecideHint;
    DecideHintPrice(id);
    if ids == [] {
      assert ids + [id] == [id] && [id][1..] == [];
    } else {
      DecideHintsAppend(ids[1..], id);
      assert (ids + [id])[1..] == ids[1..] + [id];
    }
  }

  // ----- The barest placements -----

  lemma {:induction false} ArgumentsConcat(a: seq<string>, b: seq<string>)
    ensures ArgumentsPrice(a + b) == ArgumentsPrice(a) + ArgumentsPrice(b)
  {
    if a == [] {
      assert a + b == b;
    } else {
      ArgumentsConcat(a[1..], b);
      assert (a + b)[1..] == a[1..] + b;
    }
  }

  lemma FourArguments(a: string, b: string, c: string, d: string)
    ensures ArgumentsPrice([a, b, c, d]) == 32 + 6 * (|a| + |b| + |c| + |d|)
  {
    hide ArgumentsPrice;
    ThreeArguments(b, c, d);
    ArgumentStep(a, [b, c, d]);
    assert [a] + [b, c, d] == [a, b, c, d];
  }

  lemma SessionActionsPrice()
    ensures ArgumentsPrice(SESSION_ACTIONS) == 816
  {
    hide ArgumentsPrice;
    FourArguments("session.complete", "session.decide", "session.retry", "session.skip");
    FourArguments("session.rework", "session.block", "session.unblock", "session.cancel");
    OneArgument("session.reset");
    var first := ["session.complete", "session.decide", "session.retry", "session.skip"];
    var second := ["session.rework", "session.block", "session.unblock", "session.cancel"];
    ArgumentsConcat(first, second);
    ArgumentsConcat(first + second, ["session.reset"]);
    assert SESSION_ACTIONS == first + second + ["session.reset"];
  }

  lemma OtherActionsPrice()
    ensures ArgumentsPrice(GOAL_ACTIONS) == 282 && ArgumentsPrice(ITEM_ACTIONS) == 476
  {
    hide ArgumentsPrice;
    ThreeArguments("goal.define", "goal.revise", "goal.assess_criterion");
    FourArguments("item.check", "item.uncheck", "item.set", "item.add");
    ThreeArguments("item.remove", "item.attach", "item.clear");
    var first, second := ["item.check", "item.uncheck", "item.set", "item.add"],
        ["item.remove", "item.attach", "item.clear"];
    ArgumentsConcat(first, second);
    assert ITEM_ACTIONS == first + second;
  }

  lemma InventoryCosts()
    ensures ActionsPrice() == 1_638
  {
    hide ArgumentsPrice;
    SessionActionsPrice();
    OtherActionsPrice();
    ArgumentsConcat(SESSION_ACTIONS, GOAL_ACTIONS);
    ArgumentsConcat(SESSION_ACTIONS + GOAL_ACTIONS, ITEM_ACTIONS);
  }

  /** An action with a title and an intent that ends the procedure: 2,966 bytes and six a character. */
  lemma BareAction(title: string, intent: string)
    ensures ExactStatic(Static(ActionGuide(title, intent, None, [], None, None), [], [], false))
            == 2_966 + 6 * |title| + 6 * |intent|
  {
    hide ActionsPrice, HintPrice;
    InventoryCosts();
    RouteHintPrices();
  }

  /** A decision without options: 2,826 bytes and six a character. */
  lemma BareDecision(title: string, objective: string, prompt: string)
    ensures ExactStatic(Static(DecisionGuide(title, None, objective, prompt, None, [], []), [], [], false))
            == 2_826 + 6 * |title| + 6 * |objective| + 6 * |prompt|
  {
    hide ActionsPrice, HintPrice;
    InventoryCosts();
    RouteHintPrices();
  }

  // ----- What every placement can add -----

  /** An item that is never required costs nothing; a required one its listing and its suggestion. */
  lemma ItemAdds(s: Static, item: ItemGuide)
    ensures ExactStatic(s.(items := s.items + [item]))
            == ExactStatic(s)
               + (if item.required then 136 + 6 * |item.id| + 6 * |item.prompt|
                                        + HintBase(item.kind) + 6 * TimesNamed(item.kind) * |item.id|
                  else 0)
  {
    hide ActionsPrice, HintPrice, GuidePrice, DispositionPrice, ArgumentsPrice, MissingPrice, ItemHintsPrice,
         RouteHintsPrice, IsIdentifier, HintBase, TimesNamed;
    MissingAppend(s.items, item);
    ItemHintsAppend(s.items, item);
    ItemHintPrice(item);
  }

  lemma ReworkTargetAdds(s: Static, target: Identifier)
    ensures ExactStatic(s.(rework := s.rework + [target])) == ExactStatic(s) + 8 + 6 * |target|
  {
    hide ActionsPrice, GuidePrice, DispositionPrice, ArgumentsPrice, MissingPrice, IsIdentifier, ItemHintsPrice,
         HintPrice, RouteHintsPrice;
    ArgumentsPriceAppend(s.rework, target);
  }

  lemma DelegationAdds(s: Static)
    requires !s.delegated
    ensures ExactStatic(s.(delegated := true)) == ExactStatic(s) + 8_192
  {
    hide ActionsPrice, SuggestionsPrice, ContentPrice;
    SameContent(s, s.(delegated := true));
  }

  lemma SameContent(s: Static, t: Static)
    requires t == s.(delegated := t.delegated)
    ensures ContentPrice(s) == ContentPrice(t) && SuggestionsPrice(s) == SuggestionsPrice(t)
  {
    hide GuidePrice, MissingPrice, DispositionPrice, ArgumentsPrice, ItemHintsPrice, HintPrice, RouteHintsPrice;
  }

  // ----- What an action can add -----

  lemma DescriptionAdds(s: Static, description: string)
    requires s.guide.description.None?
    ensures ExactStatic(s.(guide := s.guide.(description := Some(description))))
            == ExactStatic(s) + 64 + 6 * |description|
  {
    hide ActionsPrice, HintPrice, ArgumentsPrice, MissingPrice, ItemHintsPrice, DecideHintsPrice, OptionIds,
         OptionsPrice, OptionStatusesPrice, AnyGuarded, GuidancePrice;
  }

  lemma InstructionAdds(s: Static, instruction: string)
    requires s.guide.ActionGuide?
    ensures ExactStatic(s.(guide := s.guide.(instructions := s.guide.instructions + [instruction])))
            == ExactStatic(s) + 8 + 6 * |instruction|
  {
    hide ActionsPrice, HintPrice, ArgumentsPrice, MissingPrice, ItemHintsPrice;
    ArgumentsPriceAppend(s.guide.instructions, instruction);
  }

  /** Leading somewhere costs the name of the target instead of the flag of the end. */
  lemma TargetAdds(s: Static, target: Identifier)
    requires s.guide.ActionGuide? && s.guide.target.None?
    ensures ExactStatic(s.(guide := s.guide.(target := Some(target)))) + 4 == ExactStatic(s) + 6 * |target|
  {
    hide ActionsPrice, HintPrice, ArgumentsPrice, MissingPrice, ItemHintsPrice, IsIdentifier;
  }

  /** Skipping costs its object and one suggestion, whether or not a reason is required. */
  lemma SkipAdds(s: Static, reasonRequired: bool)
    requires s.guide.ActionGuide? && s.guide.skip.None?
    ensures ExactStatic(s.(guide := s.guide.(skip := Some(reasonRequired)))) == ExactStatic(s) + 585
  {
    hide ActionsPrice, HintPrice, ArgumentsPrice, MissingPrice, ItemHintsPrice;
    RouteHintPrices();
  }

  // ----- What a decision can add -----

  lemma ReasonPromptAdds(s: Static, text: string)
    requires s.guide.DecisionGuide? && s.guide.reasonPrompt.None?
    ensures ExactStatic(s.(guide := s.guide.(reasonPrompt := Some(text)))) == ExactStatic(s) + 64 + 6 * |text|
  {
    hide ActionsPrice, HintPrice, ArgumentsPrice, MissingPrice, ItemHintsPrice, DecideHintsPrice, OptionIds,
         OptionsPrice, OptionStatusesPrice, AnyGuarded, GuidancePrice;
  }

  /** The first piece of guidance brings the array. */
  lemma GuidanceAdds(s: Static, text: string)
    requires s.guide.DecisionGuide?
    ensures ExactStatic(s.(guide := s.guide.(guidance := s.guide.guidance + [text])))
            == ExactStatic(s) + 8 + 6 * |text| + (if s.guide.guidance == [] then 64 else 0)
  {
    hide ActionsPrice, HintPrice, ArgumentsPrice, MissingPrice, ItemHintsPrice, DecideHintsPrice, OptionIds,
         OptionsPrice, OptionStatusesPrice, AnyGuarded;
    ArgumentsPriceAppend(s.guide.guidance, text);
    NoArguments();
  }

  lemma NoArguments()
    ensures ArgumentsPrice([]) == 0
  {
  }

  // ----- Options and guards -----

  function WithOptions(s: Static, options: seq<OptionSpec>): (r: Static)
    requires s.guide.DecisionGuide?
  {
    s.(guide := s.guide.(options := options))
  }

  /** What the options of a decision are charged in all places together. */
  ghost function OptionsCharge(os: seq<OptionSpec>): (n: nat) {
    OptionsPrice(os) + ArgumentsPrice(OptionIds(os)) + (if AnyGuarded(os) then 64 + OptionStatusesPrice(os) else 0)
    + DecideHintsPrice(OptionIds(os))
  }

  lemma OnlyOptionsDiffer(s: Static, os: seq<OptionSpec>)
    requires s.guide.DecisionGuide?
    ensures ExactStatic(WithOptions(s, os)) == ExactStatic(s) - OptionsCharge(s.guide.options) + OptionsCharge(os)
  {
    hide ActionsPrice, HintPrice, ArgumentsPrice, MissingPrice, ItemHintsPrice, DecideHintsPrice, OptionIds,
         OptionsPrice, OptionStatusesPrice, AnyGuarded, GuidancePrice, TextPrice, OptionalPrice;
  }

  function CriteriaCharge(o: OptionSpec): (n: nat) {
    if o.criteria.Some? then 64 + 6 * |o.criteria.value| else 0
  }

  /** An option without guards: listed, named as allowed, suggested, and given a status if any option has guards. */
  lemma OptionAdds(s: Static, o: OptionSpec)
    requires s.guide.DecisionGuide? && o.guards.None?
    ensures var os := s.guide.options;
            ExactStatic(WithOptions(s, os + [o]))
            == ExactStatic(s) + 628 + 18 * |o.id| + 6 * |o.caption| + CriteriaCharge(o)
               + (if exists i :: 0 <= i < |os| && os[i].guards.Some? then 266 + 6 * |o.id| else 0)
  {
    hide ExactStatic, ArgumentsPrice, DecideHintsPrice, OptionIds, OptionsPrice, OptionStatusesPrice, IsIdentifier;
    var os := s.guide.options;
    OnlyOptionsDiffer(s, os + [o]);
    OptionsAppend(os, o);
    ArgumentsPriceAppend(OptionIds(os), o.id);
    DecideHintsAppend(OptionIds(os), o.id);
    GuardedAppend(os, o);
  }

  lemma GuardedAppend(os: seq<OptionSpec>, o: OptionSpec)
    ensures AnyGuarded(os + [o]) <==> AnyGuarded(os) || o.guards.Some?
  {
    if AnyGuarded(os) {
      var i :| 0 <= i < |os| && os[i].guards.Some?;
      assert (os + [o])[i] == os[i];
    }
    if o.guards.Some? { assert (os + [o])[|os|] == o; }
    if AnyGuarded(os + [o]) {
      var i :| 0 <= i < |os + [o]| && (os + [o])[i].guards.Some?;
      if i < |os| { assert os[i] == (os + [o])[i]; }
    }
  }

  function Characters(texts: seq<string>): (n: nat) {
    if texts == [] then 0 else |texts[0]| + Characters(texts[1..])
  }

  lemma {:induction false} BareStatuses(os: seq<OptionSpec>)
    requires forall i :: 0 <= i < |os| ==> Guards(os[i]) == []
    ensures OptionStatusesPrice(os) == 266 * |os| + 6 * Characters(OptionIds(os))
  {
    if os != [] {
      BareStatuses(os[1..]);
      assert OptionIds(os)[1..] == OptionIds(os[1..]);
    }
  }

  /** Guarding the last option brings its array, and the statuses of all options if it is the first with guards. */
  lemma GuardsAdd(s: Static, os: seq<OptionSpec>, o: OptionSpec)
    requires s.guide.DecisionGuide? && s.guide.options == os + [o] && o.guards.None?
    ensures ExactStatic(WithOptions(s, os + [o.(guards := Some([]))]))
            == ExactStatic(s) + 64
               + (if exists i :: 0 <= i < |os| && os[i].guards.Some? then 0
                  else 64 + 266 * (|os| + 1) + 6 * Characters(OptionIds(os + [o])))
  {
    hide ExactStatic, ArgumentsPrice, DecideHintsPrice, OptionsPrice, OptionStatusesPrice, IsIdentifier, OptionIds;
    var guarded := o.(guards := Some([]));
    OnlyOptionsDiffer(s, os + [guarded]);
    OptionsAppend(os, o);
    OptionsAppend(os, guarded);
    GuardedAppend(os, o);
    GuardedAppend(os, guarded);
    NoGuards();
    if !AnyGuarded(os) {
      BareStatuses(os + [guarded]);
      assert OptionIds(os + [guarded]) == OptionIds(os + [o]);
    }
  }

  lemma NoGuards()
    ensures GuardsPrice([]) == 0 && StatusesPrice([]) == 0
  {
  }

  function ScalarCharge(v: Scalar): (n: nat) {
    match v
    case Flag(b) => if b then 4 else 5
    case Whole(n) => |Decimal.Spell(n)|
    case Words(text) => 6 * |text|
  }

  /** What the operand of a guard is charged, its field included. */
  function OperandCharge(o: Operator): (n: nat) {
    match o
    case Equals(v) => 64 + ScalarCharge(v)
    case NotEquals(v) => 64 + ScalarCharge(v)
    case IsEmpty => 68
    case NonEmpty => 68
    case AtLeast(n) => 64 + |Decimal.Spell(n)|
    case AtMost(n) => 64 + |Decimal.Spell(n)|
  }

  function SourceCharge(p: Predicate): (n: nat) {
    128 + 6 * |p.node| + 6 * |p.item| + (if p.outcome then 106 else 0)
  }

  /** The operator's word, what it expects and the widest value it can find, in a status. */
  function ComparisonCharge(o: Operator): (n: nat) {
    match o
    case Equals(v) => 100 + OperandCharge(o) + WidestScalar(v)
    case NotEquals(v) => 124 + OperandCharge(o) + WidestScalar(v)
    case IsEmpty => 94 + 5
    case NonEmpty => 118 + 5
    case AtLeast(_) => 112 + OperandCharge(o) + 20
    case AtMost(_) => 106 + OperandCharge(o) + 20
  }

  function WidestScalar(v: Scalar): (n: nat) {
    match v
    case Flag(_) => 5
    case Whole(_) => 20
    case Words(_) => 720
  }

  lemma GuardCharge(p: Predicate)
    ensures GuardPrice(p) == 72 + SourceCharge(p) + OperandCharge(p.operator)
  {
  }

  lemma StatusCharge(p: Predicate)
    ensures StatusPrice(p) == 378 + SourceCharge(p) + ComparisonCharge(p.operator)
  {
    hide IsIdentifier;
  }

  /** A guard of the last option is charged once as it was written and once as a status. */
  lemma GuardAdds(s: Static, os: seq<OptionSpec>, o: OptionSpec, ps: seq<Predicate>, p: Predicate)
    requires s.guide.DecisionGuide? && s.guide.options == os + [o] && o.guards == Some(ps)
    ensures ExactStatic(WithOptions(s, os + [o.(guards := Some(ps + [p]))]))
            == ExactStatic(s) + (72 + SourceCharge(p) + OperandCharge(p.operator))
               + (378 + SourceCharge(p) + ComparisonCharge(p.operator))
  {
    hide ExactStatic, ArgumentsPrice, DecideHintsPrice, OptionsPrice, OptionStatusesPrice, IsIdentifier, OptionIds,
         GuardsPrice, StatusesPrice, GuardPrice, StatusPrice, SourceCharge, OperandCharge, ComparisonCharge;
    var more := o.(guards := Some(ps + [p]));
    OnlyOptionsDiffer(s, os + [more]);
    OptionsAppend(os, o);
    OptionsAppend(os, more);
    GuardedAppend(os, o);
    GuardedAppend(os, more);
    GuardsAppend(ps, p);
    GuardCharge(p);
    StatusCharge(p);
  }
}
