/**
  The suggested commands of a `session.next` response. The static charge prices a suggestion for
  every required item, for every route out of the placement and for a retry. The daemon also
  suggests goal commands, and the next check result to record even if it is optional. These are
  charged nowhere and bounded here on their own.
  */
module Suggestions {
  import opened Utf8
  import opened CanonicalJson
  import opened CanonicalLength
  import opened Procedure
  import opened NextBudget
  import opened TariffCoverage
  import opened TariffInstances
  import opened DelegationAdmission
  import opened StaticGuidance
  import opened StaticPrint
  import opened StaticMembers

  // ----- What is suggested -----

  const PLAIN_SKIP := Hint("session.skip", ["skip"], None)
  const DEFINE := Hint("goal.define", ["goal", "define", "--goal", "<goal>", "--criterion", "<criterion>"], None)

  function CheckHint(id: string): (h: Hint) {
    Hint(RECORD_MANY, ["record", "--stdin"], Some(id))
  }

  function AssessHint(criterion: string): (h: Hint) {
    Hint("goal.assess_criterion",
         ["goal", "assess-criterion", criterion, "--status", "<status>", "--reason", "<reason>"], None)
  }

  function CheckHints(v: View): (r: seq<Hint>) {
    if v.check.Some? then [CheckHint(v.check.value)] else []
  }

  function MissingHints(items: seq<ItemGuide>, v: View): (r: seq<Hint>) {
    if items == [] then []
    else
      (if items[0].required && v.missing(items[0]) && !items[0].kind.CheckResult? then [ItemHint(items[0])] else [])
      + MissingHints(items[1..], v)
  }

  function DecideHints(ids: seq<string>, v: View): (r: seq<Hint>) {
    if ids == [] then [] else (if v.open(ids[0]) then [DecideHint(ids[0])] else []) + DecideHints(ids[1..], v)
  }

  function RouteHints(g: Guide, v: View): (r: seq<Hint>) {
    if g.ActionGuide? then (if v.completes then [COMPLETE] else []) else DecideHints(OptionIds(g.options), v)
  }

  function SkipHints(g: Guide, v: View): (r: seq<Hint>) {
    if g.ActionGuide? && g.skip.Some? && v.skips then [if g.skip.value then SKIP else PLAIN_SKIP] else []
  }

  function AssessHints(criteria: seq<Identifier>): (r: seq<Hint>) {
    if criteria == [] then [] else [AssessHint(criteria[0])] + AssessHints(criteria[1..])
  }

  function GoalHints(v: View): (r: seq<Hint>) {
    (if v.define then [DEFINE] else []) + AssessHints(v.assess)
  }

  /** Everything that could be suggested, in order. */
  function AllHints(s: Static, v: View): (r: seq<Hint>) {
    CheckHints(v) + MissingHints(s.items, v) + RouteHints(s.guide, v) + [RETRY] + SkipHints(s.guide, v) + GoalHints(v)
  }

  // ----- The builder -----

  method PushMissing(hints: seq<Hint>, items: seq<ItemGuide>, v: View) returns (r: seq<Hint>)
    ensures r == hints + MissingHints(items, v)
  {
    hide ItemHint;
    r := hints;
    assert items[0..] == items;
    for i := 0 to |items|
      invariant r + MissingHints(items[i..], v) == hints + MissingHints(items, v)
    {
      assert items[i..][1..] == items[i + 1..];
      var item := items[i];
      if item.required && v.missing(item) && !item.kind.CheckResult? {
        r := r + [ItemHint(item)];
      }
    }
  }

  method PushDecide(hints: seq<Hint>, ids: seq<string>, v: View) returns (r: seq<Hint>)
    ensures r == hints + DecideHints(ids, v)
  {
    hide DecideHint;
    r := hints;
    assert ids[0..] == ids;
    for i := 0 to |ids|
      invariant r + DecideHints(ids[i..], v) == hints + DecideHints(ids, v)
    {
      assert ids[i..][1..] == ids[i + 1..];
      if v.open(ids[i]) {
        r := r + [DecideHint(ids[i])];
      }
    }
  }

  method PushAssess(hints: seq<Hint>, criteria: seq<Identifier>) returns (r: seq<Hint>)
    ensures r == hints + AssessHints(criteria)
  {
    hide AssessHint;
    r := hints;
    assert criteria[0..] == criteria;
    for i := 0 to |criteria|
      invariant r + AssessHints(criteria[i..]) == hints + AssessHints(criteria)
    {
      assert criteria[i..][1..] == criteria[i + 1..];
      r := r + [AssessHint(criteria[i])];
    }
  }

  /** The suggestions, pushed in order and cut at 128, with a bound on their printed bytes. */
  method Suggest(s: Static, v: View) returns (hints: seq<Hint>)
    requires ValidView(v)
    ensures hints == Cut(AllHints(s, v))
    ensures HintBytes(hints) <= SuggestionsPrice(s) - FIELD_OVERHEAD + UNCHARGED_HINTS
  {
    hide MissingHints, DecideHints, AssessHints, HintBytes, SuggestionsPrice, ValidView;
    hints := CheckHints(v);
    hints := PushMissing(hints, s.items, v);
    if s.guide.ActionGuide? {
      if v.completes {
        hints := hints + [COMPLETE];
      }
    } else {
      hints := PushDecide(hints, OptionIds(s.guide.options), v);
    }
    assert hints == CheckHints(v) + MissingHints(s.items, v) + RouteHints(s.guide, v);
    hints := hints + [RETRY];
    hints := hints + SkipHints(s.guide, v);
    ghost var before := hints;
    if v.define {
      hints := hints + [DEFINE];
    }
    hints := PushAssess(hints, v.assess);
    assert hints == before + GoalHints(v);
    hints := Cut(hints);
    SuggestionsFit(s, v);
  }

  // ----- Bytes -----

  function HintValues(hints: seq<Hint>): (r: seq<Value>) {
    if hints == [] then [] else [HintValue(hints[0])] + HintValues(hints[1..])
  }

  ghost function HintBytes(hints: seq<Hint>): (n: nat) {
    if hints == [] then 0 else Len(HintValue(hints[0])) + 1 + HintBytes(hints[1..])
  }

  function Cut(hints: seq<Hint>): (r: seq<Hint>) {
    if |hints| <= MAX_SUGGESTION_WINDOW then hints else hints[..MAX_SUGGESTION_WINDOW]
  }

  lemma {:induction false} HintBytesAreItems(hints: seq<Hint>)
    ensures ItemsLength(HintValues(hints)) == HintBytes(hints)
  {
    hide Len, HintValue;
    if hints != [] {
      HintBytesAreItems(hints[1..]);
      assert HintValues(hints)[1..] == HintValues(hints[1..]);
    }
  }

  lemma {:induction false} HintBytesConcat(a: seq<Hint>, b: seq<Hint>)
    ensures HintBytes(a + b) == HintBytes(a) + HintBytes(b)
  {
    hide Len, HintValue;
    if a == [] {
      assert a + b == b;
    } else {
      HintBytesConcat(a[1..], b);
      assert (a + b)[1..] == a[1..] + b;
    }
  }

  lemma CutBytes(hints: seq<Hint>)
    ensures HintBytes(Cut(hints)) <= HintBytes(hints)
  {
    hide HintBytes;
    if |hints| > MAX_SUGGESTION_WINDOW {
      HintBytesConcat(hints[..MAX_SUGGESTION_WINDOW], hints[MAX_SUGGESTION_WINDOW..]);
      assert hints[..MAX_SUGGESTION_WINDOW] + hints[MAX_SUGGESTION_WINDOW..] == hints;
    }
  }

  lemma OneHint(h: Hint)
    ensures HintBytes([h]) == Len(HintValue(h)) + 1
  {
    hide Len, HintValue;
    assert [h][1..] == [];
  }

  lemma NoHints()
    ensures HintBytes([]) == 0
  {
  }

  /** A charged suggestion prints within its price. */
  lemma HintFits(h: Hint)
    ensures HintBytes([h]) <= HintPrice(h)
  {
    hide Len, Price, SuggestionValue, HintBytes;
    OneHint(h);
    SuggestionCovered(h.command, h.argv, h.itemId);
  }

  lemma {:induction false} MissingHintsFit(items: seq<ItemGuide>, v: View)
    ensures HintBytes(MissingHints(items, v)) <= ItemHintsPrice(items)
  {
    hide HintBytes, HintPrice, ItemHint;
    NoHints();
    if items != [] {
      MissingHintsFit(items[1..], v);
      HintFits(ItemHint(items[0]));
      HintBytesConcat([ItemHint(items[0])], MissingHints(items[1..], v));
      HintBytesConcat([], MissingHints(items[1..], v));
    }
  }

  lemma {:induction false} DecideHintsFit(ids: seq<string>, v: View)
    ensures HintBytes(DecideHints(ids, v)) <= DecideHintsPrice(ids)
  {
    hide HintBytes, HintPrice, DecideHint;
    NoHints();
    if ids != [] {
      DecideHintsFit(ids[1..], v);
      HintFits(DecideHint(ids[0]));
      HintBytesConcat([DecideHint(ids[0])], DecideHints(ids[1..], v));
      HintBytesConcat([], DecideHints(ids[1..], v));
    }
  }

  lemma PlainSkipFits()
    ensures HintPrice(PLAIN_SKIP) <= HintPrice(SKIP)
  {
    hide Price, SuggestionValue;
    SuggestionPrice("session.skip", ["skip"], None);
    SuggestionPrice("session.skip", ["skip", "--reason", "<text>"], None);
    assert ["skip"][1..] == [];
    assert ["skip", "--reason", "<text>"][1..] == ["--reason", "<text>"];
  }

  lemma RouteHintsFit(g: Guide, v: View)
    ensures HintBytes(RouteHints(g, v)) + HintBytes(SkipHints(g, v)) <= RouteHintsPrice(g)
  {
    hide HintBytes, HintPrice, DecideHints, DecideHintsPrice, OptionIds;
    NoHints();
    if g.ActionGuide? {
      HintFits(COMPLETE);
      HintFits(SKIP);
      HintFits(PLAIN_SKIP);
      PlainSkipFits();
    } else {
      DecideHintsFit(OptionIds(g.options), v);
    }
  }

  // ----- Suggestions without a charge -----

  ghost function PlainBytes(texts: seq<string>): (n: nat) {
    if texts == [] then 0 else |texts[0]| + 3 + PlainBytes(texts[1..])
  }

  lemma {:induction false} PlainTextsLength(texts: seq<string>)
    requires forall i :: 0 <= i < |texts| ==> PlainText(texts[i])
    ensures ItemsLength(Texts(texts)) == PlainBytes(texts)
  {
    hide Len, PlainText;
    if texts != [] {
      WordLength(texts[0]);
      PlainTextsLength(texts[1..]);
      assert Texts(texts)[1..] == Texts(texts[1..]);
    }
  }

  lemma PlainHintLength(h: Hint, arguments: nat)
    requires PlainText(h.command) && (forall i :: 0 <= i < |h.argv| ==> PlainText(h.argv[i]))
    requires PlainBytes(h.argv) <= arguments
    requires h.itemId.Some? ==> IsIdentifier(h.itemId.value)
    ensures HintBytes([h]) <= |h.command| + arguments + (if h.itemId.Some? then 80 else 0) + 44
  {
    hide Len, Quoted, PlainText, IsIdentifier, HintBytes, PlainBytes;
    OneHint(h);
    var argv := ["podway"] + h.argv;
    PodwayIsPlain();
    PlainTextsLength(argv);
    PodwayBytes(h.argv);
    ArrayLength(Texts(argv));
    HintNames();
    WordLength(h.command);
    OneField("command", String(h.command), 9, |h.command| + 2);
    var m1 := map["command" := String(h.command)];
    AddField(m1, "argv", Array(Texts(argv)), |h.command| + 15, 6, arguments + 10);
    var m2 := m1["argv" := Array(Texts(argv))];
    assert m2 == map["command" := String(h.command), "argv" := Array(Texts(argv))];
    if h.itemId.Some? {
      IdentifierLength(h.itemId.value);
      AddField(m2, "item_id", String(h.itemId.value), |h.command| + arguments + 33, 9, 66);
    }
  }

  lemma PodwayIsPlain()
    ensures PlainText("podway")
  {
  }

  lemma PodwayBytes(argv: seq<string>)
    ensures PlainBytes(["podway"] + argv) == 9 + PlainBytes(argv)
  {
    assert (["podway"] + argv)[1..] == argv;
  }

  lemma HintNames()
    ensures |Quoted("command")| == 9 && |Quoted("argv")| == 6 && |Quoted("item_id")| == 9
  {
    hide Quoted;
    PlainLength("command");
    PlainLength("argv");
    PlainLength("item_id");
  }

  lemma CheckHintBytes(v: View)
    ensures HintBytes(CheckHints(v)) <= 160
  {
    hide HintBytes, IsIdentifier;
    NoHints();
    if v.check.Some? {
      var argv := ["record", "--stdin"];
      assert argv[1..] == ["--stdin"] && argv[1..][1..] == [];
      PlainHintLength(CheckHint(v.check.value), 19);
    }
  }

  lemma DefineBytes()
    ensures HintBytes([DEFINE]) <= 120
  {
    hide HintBytes, PlainBytes;
    FourBytes("--goal", "<goal>", "--criterion", "<criterion>");
    var four := ["--goal", "<goal>", "--criterion", "<criterion>"];
    PlainStep("define", four);
    PlainStep("goal", ["define"] + four);
    assert DEFINE.argv == ["goal"] + (["define"] + four);
    PlainHintLength(DEFINE, 62);
  }

  lemma PlainStep(first: string, rest: seq<string>)
    ensures PlainBytes([first] + rest) == |first| + 3 + PlainBytes(rest)
  {
    assert ([first] + rest)[1..] == rest;
  }

  lemma FourBytes(a: string, b: string, c: string, d: string)
    ensures PlainBytes([a, b, c, d]) == |a| + |b| + |c| + |d| + 12
  {
    hide PlainBytes;
    NoBytes();
    PlainStep(d, []);
    PlainStep(c, [d]);
    PlainStep(b, [c, d]);
    PlainStep(a, [b, c, d]);
    assert [d] + [] == [d] && [c] + [d] == [c, d] && [b] + [c, d] == [b, c, d] && [a] + [b, c, d] == [a, b, c, d];
  }

  lemma NoBytes()
    ensures PlainBytes([]) == 0
  {
  }

  lemma AssessBytes(criterion: Identifier)
    ensures HintBytes([AssessHint(criterion)]) <= 202
  {
    hide HintBytes, IsIdentifier, PlainBytes, PlainText;
    IdentifierIsPlain(criterion);
    AssessWords();
    FourBytes("--status", "<status>", "--reason", "<reason>");
    var four := ["--status", "<status>", "--reason", "<reason>"];
    PlainStep(criterion, four);
    PlainStep("assess-criterion", [criterion] + four);
    PlainStep("goal", ["assess-criterion"] + ([criterion] + four));
    assert AssessHint(criterion).argv == ["goal"] + (["assess-criterion"] + ([criterion] + four));
    PlainHintLength(AssessHint(criterion), 137);
  }

  lemma AssessWords()
    ensures PlainText("goal.assess_criterion") && PlainText("goal") && PlainText("assess-criterion")
    ensures PlainText("--status") && PlainText("<status>") && PlainText("--reason") && PlainText("<reason>")
  {
  }

  lemma IdentifierIsPlain(id: Identifier)
    ensures PlainText(id) && |id| <= 64
  {
  }

  lemma {:induction false} AssessHintsBytes(criteria: seq<Identifier>)
    ensures HintBytes(AssessHints(criteria)) <= 202 * |criteria|
  {
    hide HintBytes, AssessHint, IsIdentifier;
    NoHints();
    if criteria != [] {
      AssessBytes(criteria[0]);
      AssessHintsBytes(criteria[1..]);
      HintBytesConcat([AssessHint(criteria[0])], AssessHints(criteria[1..]));
    }
  }

  /** What the suggestions that nothing charges print at most. */
  const UNCHARGED_HINTS: nat := 3_512

  lemma GoalHintsBytes(v: View)
    requires ValidView(v)
    ensures HintBytes(GoalHints(v)) <= 3_352
  {
    hide HintBytes, AssessHints;
    NoHints();
    AssessHintsBytes(v.assess);
    DefineBytes();
    HintBytesConcat([DEFINE], AssessHints(v.assess));
    HintBytesConcat([], AssessHints(v.assess));
  }

  /** For every placement and session: the printed suggestions stay within their charge and what goal commands add. */
  lemma SuggestionsFit(s: Static, v: View)
    requires ValidView(v)
    ensures HintBytes(Cut(AllHints(s, v))) <= SuggestionsPrice(s) - FIELD_OVERHEAD + UNCHARGED_HINTS
  {
    hide HintBytes, CheckHints, MissingHints, RouteHints, SkipHints, GoalHints, ItemHintsPrice, RouteHintsPrice,
         HintPrice, ValidView;
    CutBytes(AllHints(s, v));
    var a := CheckHints(v);
    var b := a + MissingHints(s.items, v);
    var c := b + RouteHints(s.guide, v);
    var d := c + [RETRY];
    var e := d + SkipHints(s.guide, v);
    HintBytesConcat(a, MissingHints(s.items, v));
    HintBytesConcat(b, RouteHints(s.guide, v));
    HintBytesConcat(c, [RETRY]);
    HintBytesConcat(d, SkipHints(s.guide, v));
    HintBytesConcat(e, GoalHints(v));
    CheckHintBytes(v);
    MissingHintsFit(s.items, v);
    RouteHintsFit(s.guide, v);
    HintFits(RETRY);
    GoalHintsBytes(v);
  }

  // ----- Allowed commands -----

  const KNOWN_ACTIONS: seq<string> := ALL_ALLOWED_ACTIONS + [RECORD_MANY]

  lemma SessionAction(action: string)
    requires action in SESSION_ACTIONS
    ensures PlainText(action) && 8 <= |action| <= 21
  {
  }

  lemma GoalAction(action: string)
    requires action in GOAL_ACTIONS || action == RECORD_MANY
    ensures PlainText(action) && 8 <= |action| <= 21
  {
  }

  lemma ItemAction(action: string)
    requires action in ITEM_ACTIONS
    ensures PlainText(action) && 8 <= |action| <= 21
  {
  }

  lemma KnownAction(action: string)
    requires IsAction(action)
    ensures PlainText(action) && 8 <= |action| <= 21
  {
    hide PlainText;
    if action in SESSION_ACTIONS {
      SessionAction(action);
    } else if action in ITEM_ACTIONS {
      ItemAction(action);
    } else {
      GoalAction(action);
    }
  }

  /** Distinct members of a sequence are no more than it has. */
  lemma {:induction false} DistinctWithin(xs: seq<string>, known: seq<string>)
    requires Distinct(xs) && forall i :: 0 <= i < |xs| ==> xs[i] in known
    ensures |xs| <= |known|
  {
    if xs != [] {
      var k :| 0 <= k < |known| && known[k] == xs[0];
      var rest := known[..k] + known[k + 1..];
      forall i | 0 <= i < |xs[1..]| ensures xs[1..][i] in rest {
        assert xs[1..][i] == xs[i + 1] && xs[i + 1] != xs[0];
        var j :| 0 <= j < |known| && known[j] == xs[i + 1];
        assert rest[if j < k then j else j - 1] == known[j];
      }
      DistinctWithin(xs[1..], rest);
    }
  }

  lemma DistinctActions(actions: seq<string>)
    requires Distinct(actions)
    requires forall i :: 0 <= i < |actions| ==> IsAction(actions[i])
    ensures |actions| <= 20
  {
    hide Distinct;
    forall i | 0 <= i < |actions| ensures actions[i] in KNOWN_ACTIONS {
      if actions[i] == RECORD_MANY {
        assert KNOWN_ACTIONS[19] == RECORD_MANY;
      }
    }
    DistinctWithin(actions, KNOWN_ACTIONS);
  }

  lemma {:induction false} LeastArguments(texts: seq<string>)
    requires forall i :: 0 <= i < |texts| ==> |texts[i]| >= 8
    ensures ArgumentsPrice(texts) >= 56 * |texts|
  {
    if texts != [] { LeastArguments(texts[1..]); }
  }

  lemma InventoryPrice()
    ensures ActionsPrice() >= 1_128
  {
    hide ArgumentsPrice;
    forall i | 0 <= i < |ALL_ALLOWED_ACTIONS| ensures |ALL_ALLOWED_ACTIONS[i]| >= 8 {
      KnownAction(ALL_ALLOWED_ACTIONS[i]);
    }
    LeastArguments(ALL_ALLOWED_ACTIONS);
  }

  lemma ActionLength(action: string)
    requires IsAction(action)
    ensures Len(String(action)) <= 23
  {
    hide Len, PlainText, IsAction;
    KnownAction(action);
    WordLength(action);
  }

  lemma ActionsLength(v: View)
    requires ValidView(v)
    ensures Len(Array(Texts(v.actions))) <= 482
  {
    hide Len, Distinct, Comparable, IsAction;
    DistinctActions(v.actions);
    var values := Texts(v.actions);
    forall i | 0 <= i < |values| ensures Len(values[i]) <= 23 {
      ActionLength(v.actions[i]);
    }
    ItemsLengthBound(values, 23);
    ArrayLength(values);
  }

  /** Distinct known commands, twenty at most, print within what the inventory is charged. */
  lemma ActionsFit(v: View)
    requires ValidView(v)
    ensures FieldLength("allowed_actions", Array(Texts(v.actions))) + 1 <= ActionsPrice()
  {
    hide Len, Quoted, ActionsPrice, ValidView, Texts;
    ActionsLength(v);
    PlainLength("allowed_actions");
    InventoryPrice();
  }
}
