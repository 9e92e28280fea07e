/**
  What is suggested, and in which order: every suggestion with its command line, for the items, the
  options and the criteria a session has picked.
  */
module SuggestionContents {
  import opened Utf8
  import opened CanonicalJson
  import opened JsonMembers
  import opened Procedure
  import opened StaticGuidance
  import opened StaticPrint
  import opened StaticMembers
  import opened Suggestions
  import opened StaticContents

  // ----- One suggestion -----

  ghost predicate SaysCommand(v: Value, command: string, argv: seq<string>, itemId: Option<string>) {
    && Names(v, if itemId.Some? then {"command", "argv", "item_id"} else {"command", "argv"})
    && Holds(v, "command", String(command)) && SaysTexts(At(v, "argv"), argv) && SaysOptional(v, "item_id", itemId)
  }

  lemma HintSays(h: Hint)
    ensures SaysCommand(HintValue(h), h.command, ["podway"] + h.argv, h.itemId)
  {
  }

  ghost predicate SuggestsItem(v: Value, item: ItemGuide) {
    var id := item.id;
    match item.kind
    case Confirm => SaysCommand(v, "item.check", ["podway", "check", id], Some(id))
    case Text => SaysCommand(v, "item.set", ["podway", "set", id, "<text>"], Some(id))
    case Choice => SaysCommand(v, "item.set", ["podway", "set", id, "<choice>"], Some(id))
    case Integer => SaysCommand(v, "item.set", ["podway", "set", id, "<integer>"], Some(id))
    case List => SaysCommand(v, "item.add", ["podway", "add", id, "<value>"], Some(id))
    case Artifact => SaysCommand(v, "item.attach", ["podway", "attach", id, "<path>"], Some(id))
    case CheckResult => SuggestsCheck(v, id)
  }

  ghost predicate SuggestsCheck(v: Value, id: string) {
    SaysCommand(v, "item.record_many", ["podway", "record", "--stdin"], Some(id))
  }

  ghost predicate SuggestsDecide(v: Value, id: string) {
    SaysCommand(v, "session.decide", ["podway", "decide", "--option", id, "--reason", "<reason>"], None)
  }

  ghost predicate SuggestsAssess(v: Value, criterion: string) {
    SaysCommand(v, "goal.assess_criterion",
                ["podway", "goal", "assess-criterion", criterion, "--status", "<status>", "--reason", "<reason>"], None)
  }

  ghost predicate SuggestsSkip(v: Value, reasonRequired: bool) {
    SaysCommand(v, "session.skip",
                if reasonRequired then ["podway", "skip", "--reason", "<text>"] else ["podway", "skip"], None)
  }

  ghost predicate SuggestsComplete(v: Value) {
    SaysCommand(v, "session.complete", ["podway", "complete"], None)
  }

  ghost predicate SuggestsRetry(v: Value) {
    SaysCommand(v, "session.retry", ["podway", "retry", "--reason", "<reason>"], None)
  }

  ghost predicate SuggestsDefine(v: Value) {
    SaysCommand(v, "goal.define", ["podway", "goal", "define", "--goal", "<goal>", "--criterion", "<criterion>"], None)
  }

  lemma ItemHintSays(item: ItemGuide)
    ensures SuggestsItem(HintValue(ItemHint(item)), item)
  {
    hide SaysCommand, HintValue, IsIdentifier;
    var h, id := ItemHint(item), item.id;
    HintSays(h);
    match item.kind
    case Confirm => assert ["podway"] + h.argv == ["podway", "check", id];
    case Text => assert ["podway"] + h.argv == ["podway", "set", id, "<text>"];
    case Choice => assert ["podway"] + h.argv == ["podway", "set", id, "<choice>"];
    case Integer => assert ["podway"] + h.argv == ["podway", "set", id, "<integer>"];
    case List => assert ["podway"] + h.argv == ["podway", "add", id, "<value>"];
    case Artifact => assert ["podway"] + h.argv == ["podway", "attach", id, "<path>"];
    case CheckResult => assert ["podway"] + h.argv == ["podway", "record", "--stdin"];
  }

  lemma CheckHintSays(id: string)
    ensures SuggestsCheck(HintValue(CheckHint(id)), id)
  {
    hide SaysCommand, HintValue;
    HintSays(CheckHint(id));
    assert ["podway"] + CheckHint(id).argv == ["podway", "record", "--stdin"];
  }

  lemma DecideHintSays(id: string)
    ensures SuggestsDecide(HintValue(DecideHint(id)), id)
  {
    hide SaysCommand, HintValue;
    HintSays(DecideHint(id));
    assert ["podway"] + DecideHint(id).argv == ["podway", "decide", "--option", id, "--reason", "<reason>"];
  }

  lemma AssessHintSays(criterion: string)
    ensures SuggestsAssess(HintValue(AssessHint(criterion)), criterion)
  {
    hide SaysCommand, HintValue;
    HintSays(AssessHint(criterion));
    assert ["podway"] + AssessHint(criterion).argv
        == ["podway", "goal", "assess-criterion", criterion, "--status", "<status>", "--reason", "<reason>"];
  }

  lemma FixedHintsSay()
    ensures SuggestsComplete(HintValue(COMPLETE)) && SuggestsRetry(HintValue(RETRY))
            && SuggestsDefine(HintValue(DEFINE))
    ensures SuggestsSkip(HintValue(SKIP), true) && SuggestsSkip(HintValue(PLAIN_SKIP), false)
  {
    hide SaysCommand, HintValue;
    HintSays(COMPLETE);
    assert ["podway"] + COMPLETE.argv == ["podway", "complete"];
    HintSays(RETRY);
    assert ["podway"] + RETRY.argv == ["podway", "retry", "--reason", "<reason>"];
    HintSays(SKIP);
    assert ["podway"] + SKIP.argv == ["podway", "skip", "--reason", "<text>"];
    HintSays(PLAIN_SKIP);
    assert ["podway"] + PLAIN_SKIP.argv == ["podway", "skip"];
    HintSays(DEFINE);
    assert ["podway"] + DEFINE.argv == ["podway", "goal", "define", "--goal", "<goal>", "--criterion", "<criterion>"];
  }

  // ----- All suggestions in order -----

  /** A check result has its own suggestion. */
  function WantsHint(view: View): (f: ItemGuide -> bool) {
    (item: ItemGuide) => item.required && view.missing(item) && !item.kind.CheckResult?
  }

  lemma {:induction false} MissingHintsAreKept(items: seq<ItemGuide>, view: View)
    ensures var hints, picked := MissingHints(items, view), Kept(items, WantsHint(view));
            |hints| == |picked| && forall i :: 0 <= i < |picked| ==> hints[i] == ItemHint(picked[i])
  {
    hide ItemHint;
    if items != [] { MissingHintsAreKept(items[1..], view); }
  }

  lemma {:induction false} DecideHintsAreOpen(os: seq<OptionSpec>, view: View)
    ensures var hints, picked := DecideHints(OptionIds(os), view), Kept(os, IsOpen(view));
            |hints| == |picked| && forall i :: 0 <= i < |picked| ==> hints[i] == DecideHint(picked[i].id)
  {
    hide DecideHint;
    if os != [] {
      DecideHintsAreOpen(os[1..], view);
      assert OptionIds(os)[1..] == OptionIds(os[1..]);
    }
  }

  lemma {:induction false} AssessHintsAreAll(criteria: seq<Identifier>)
    ensures var hints := AssessHints(criteria);
            |hints| == |criteria| && forall i :: 0 <= i < |criteria| ==> hints[i] == AssessHint(criteria[i])
  {
    hide AssessHint;
    if criteria != [] { AssessHintsAreAll(criteria[1..]); }
  }

  /** Numbers of suggestions, part by part. */
  function One(b: bool): (n: nat) {
    if b then 1 else 0
  }

  function RouteCount(g: Guide, view: View, open: nat): (n: nat) {
    if g.ActionGuide? then One(view.completes) else open
  }

  predicate Skips(g: Guide, view: View) {
    g.ActionGuide? && g.skip.Some? && view.skips
  }

  ghost predicate ListsFront(full: seq<Value>, s: Static, view: View, items: seq<ItemGuide>) {
    var a := One(view.check.Some?);
    && |full| >= a + |items|
    && (view.check.Some? ==> SuggestsCheck(full[0], view.check.value))
    && forall i :: 0 <= i < |items| ==> SuggestsItem(full[a + i], items[i])
  }

  ghost predicate ListsRoutes(full: seq<Value>, g: Guide, view: View, options: seq<OptionSpec>, b: nat) {
    && |full| >= b + RouteCount(g, view, |options|)
    && if g.ActionGuide? then view.completes ==> SuggestsComplete(full[b])
       else forall i :: 0 <= i < |options| ==> SuggestsDecide(full[b + i], options[i].id)
  }

  /** From the retry at `c` to the end. */
  ghost predicate ListsEnd(full: seq<Value>, g: Guide, view: View, c: nat) {
    var e := c + 1 + One(Skips(g, view));
    var f := e + One(view.define);
    && |full| == f + |view.assess|
    && SuggestsRetry(full[c])
    && (Skips(g, view) ==> SuggestsSkip(full[c + 1], g.skip.value))
    && (view.define ==> SuggestsDefine(full[e]))
    && forall i :: 0 <= i < |view.assess| ==> SuggestsAssess(full[f + i], view.assess[i])
  }

  /** The check result, the missing items, the routes, the retry, the skip and the goal, in this order. */
  ghost predicate Lists(full: seq<Value>, s: Static, view: View, items: seq<ItemGuide>, options: seq<OptionSpec>) {
    var b := One(view.check.Some?) + |items|;
    var c := b + RouteCount(s.guide, view, |options|);
    && Picks(s.items, WantsHint(view), items)
    && (s.guide.DecisionGuide? ==> Picks(s.guide.options, IsOpen(view), options))
    && ListsFront(full, s, view, items) && ListsRoutes(full, s.guide, view, options, b)
       && ListsEnd(full, s.guide, view, c)
  }

  ghost predicate SaysSuggestions(v: Value, s: Static, view: View) {
    exists full, items, options ::
      && Lists(full, s, view, items, options)
      && v == Array(if |full| <= 128 then full else full[..128])
  }

  lemma {:induction false} HintValueAt(hints: seq<Hint>)
    ensures |HintValues(hints)| == |hints|
    ensures forall i :: 0 <= i < |hints| ==> HintValues(hints)[i] == HintValue(hints[i])
  {
    hide HintValue;
    if hints != [] { HintValueAt(hints[1..]); }
  }

  function Options(g: Guide): (os: seq<OptionSpec>) {
    if g.DecisionGuide? then g.options else []
  }

  lemma FrontSays(s: Static, view: View, rest: seq<Hint>)
    ensures ListsFront(HintValues(CheckHints(view) + MissingHints(s.items, view) + rest), s, view,
                       Kept(s.items, WantsHint(view)))
    ensures |CheckHints(view)| == One(view.check.Some?)
    ensures |MissingHints(s.items, view)| == |Kept(s.items, WantsHint(view))|
  {
    hide MissingHints, Kept, HintValue, HintValues, SuggestsItem, SuggestsCheck, ItemHint, CheckHint;
    var hints := CheckHints(view) + MissingHints(s.items, view) + rest;
    HintValueAt(hints);
    MissingHintsAreKept(s.items, view);
    if view.check.Some? { CheckHintSays(view.check.value); }
    var items, a := Kept(s.items, WantsHint(view)), One(view.check.Some?);
    forall i | 0 <= i < |items| ensures SuggestsItem(HintValues(hints)[a + i], items[i]) {
      assert hints[a + i] == MissingHints(s.items, view)[i];
      ItemHintSays(items[i]);
    }
  }

  lemma RoutesSay(g: Guide, view: View, front: seq<Hint>, rest: seq<Hint>)
    ensures ListsRoutes(HintValues(front + RouteHints(g, view) + rest), g, view, Kept(Options(g), IsOpen(view)),
                        |front|)
    ensures |RouteHints(g, view)| == RouteCount(g, view, |Kept(Options(g), IsOpen(view))|)
  {
    hide DecideHints, Kept, HintValue, HintValues, SuggestsDecide, SuggestsComplete, SuggestsRetry, SuggestsDefine,
         SuggestsSkip, DecideHint, OptionIds;
    var hints := front + RouteHints(g, view) + rest;
    HintValueAt(hints);
    FixedHintsSay();
    if g.DecisionGuide? {
      DecideHintsAreOpen(g.options, view);
      var open := Kept(g.options, IsOpen(view));
      forall i | 0 <= i < |open| ensures SuggestsDecide(HintValues(hints)[|front| + i], open[i].id) {
        assert hints[|front| + i] == DecideHints(OptionIds(g.options), view)[i];
        DecideHintSays(open[i].id);
      }
    } else if view.completes {
      assert hints[|front|] == COMPLETE;
    }
  }

  /** Where the parts of the list stand. */
  lemma Place(front: seq<Hint>, x: Hint, k: seq<Hint>, g: seq<Hint>, i: nat)
    ensures var hints := front + [x] + k + g;
            && |hints| == |front| + 1 + |k| + |g| && hints[|front|] == x
            && (i < |k| ==> hints[|front| + 1 + i] == k[i])
            && (i < |g| ==> hints[|front| + 1 + |k| + i] == g[i])
  {
  }

  lemma GoalHintsCount(view: View)
    ensures |GoalHints(view)| == One(view.define) + |view.assess|
  {
    hide AssessHints;
    AssessHintsAreAll(view.assess);
  }

  lemma GoalHintAt(view: View, i: nat)
    requires i < |view.assess| && |GoalHints(view)| == One(view.define) + |view.assess|
    ensures GoalHints(view)[One(view.define) + i] == AssessHint(view.assess[i])
  {
    hide AssessHints, AssessHint;
    AssessHintsAreAll(view.assess);
  }

  lemma SkipHintSays(g: Guide, view: View)
    ensures |SkipHints(g, view)| == One(Skips(g, view))
    ensures Skips(g, view) ==> SuggestsSkip(HintValue(SkipHints(g, view)[0]), g.skip.value)
  {
    hide SuggestsSkip, HintValue;
    FixedHintsSay();
  }

  lemma AssessAt(g: Guide, view: View, front: seq<Hint>, retry: Hint, i: nat)
    requires i < |view.assess|
    ensures var hints := front + [retry] + SkipHints(g, view) + GoalHints(view);
            var at := |front| + 1 + One(Skips(g, view)) + One(view.define) + i;
            at < |HintValues(hints)| && SuggestsAssess(HintValues(hints)[at], view.assess[i])
  {
    hide HintValue, HintValues, SuggestsAssess, AssessHint, SkipHints, GoalHints, Skips, SuggestsSkip;
    HintValueAt(front + [retry] + SkipHints(g, view) + GoalHints(view));
    SkipHintSays(g, view);
    GoalHintsCount(view);
    GoalHintAt(view, i);
    Place(front, retry, SkipHints(g, view), GoalHints(view), One(view.define) + i);
    AssessHintSays(view.assess[i]);
  }

  lemma EndSays(g: Guide, view: View, front: seq<Hint>, retry: Hint)
    requires SuggestsRetry(HintValue(retry))
    ensures ListsEnd(HintValues(front + [retry] + SkipHints(g, view) + GoalHints(view)), g, view, |front|)
  {
    hide HintValue, HintValues, SuggestsAssess, SuggestsSkip, SuggestsRetry, SuggestsDefine, SkipHints, GoalHints,
         Skips;
    var full := HintValues(front + [retry] + SkipHints(g, view) + GoalHints(view));
    HintValueAt(front + [retry] + SkipHints(g, view) + GoalHints(view));
    SkipHintSays(g, view);
    GoalHintsCount(view);
    DefineSays(view);
    Place(front, retry, SkipHints(g, view), GoalHints(view), 0);
    var f := |front| + 1 + One(Skips(g, view)) + One(view.define);
    forall i | 0 <= i < |view.assess| ensures SuggestsAssess(full[f + i], view.assess[i]) {
      AssessAt(g, view, front, retry, i);
    }
  }

  lemma DefineSays(view: View)
    requires |GoalHints(view)| == One(view.define) + |view.assess|
    ensures view.define ==> SuggestsDefine(HintValue(GoalHints(view)[0]))
  {
    hide SuggestsDefine, HintValue, AssessHints, SuggestsComplete, SuggestsRetry, SuggestsSkip;
    FixedHintsSay();
  }

  /** What `Suggest` returns, printed, is this list. */
  lemma SuggestionsSay(s: Static, view: View)
    ensures SaysSuggestions(Array(HintValues(Cut(AllHints(s, view)))), s, view)
  {
    hide CheckHints, MissingHints, RouteHints, SkipHints, GoalHints, HintValues, Kept, Picks, ListsFront, ListsRoutes,
         ListsEnd, HintValue, SuggestsComplete, SuggestsRetry, SuggestsDefine, SuggestsSkip;
    var items, options := Kept(s.items, WantsHint(view)), Kept(Options(s.guide), IsOpen(view));
    var a, b, r := CheckHints(view), MissingHints(s.items, view), RouteHints(s.guide, view);
    var k, g := SkipHints(s.guide, view), GoalHints(view);
    var all := AllHints(s, view);
    assert all == a + b + (r + [RETRY] + k + g);
    FrontSays(s, view, r + [RETRY] + k + g);
    assert all == (a + b) + r + ([RETRY] + k + g);
    RoutesSay(s.guide, view, a + b, [RETRY] + k + g);
    assert all == (a + b + r) + [RETRY] + k + g;
    FixedHintsSay();
    EndSays(s.guide, view, a + b + r, RETRY);
    KeptPicks(s.items, WantsHint(view));
    KeptPicks(Options(s.guide), IsOpen(view));
    var full := HintValues(all);
    assert Lists(full, s, view, items, options);
    HintValueAt(all);
    HintValueAt(Cut(all));
    assert HintValues(Cut(all)) == if |full| <= 128 then full else full[..128];
  }
}
