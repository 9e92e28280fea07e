/**
  What the static members of a response say: the definition, its options with their guards and
  statuses, and the parts of it that a session has picked.
  */
module StaticContents {
  import opened Utf8
  import opened CanonicalJson
  import opened JsonMembers
  import opened Procedure
  import opened StaticGuidance
  import opened StaticPrint
  import opened StaticMembers

  // ----- Picking in order -----

  /** The picked entries are, in order, all those that are wanted. */
  ghost predicate PickedAt<T>(all: seq<T>, wanted: T -> bool, picked: seq<T>, at: seq<int>) {
    && |at| == |picked|
    && (forall j :: 0 <= j < |at| ==> 0 <= at[j] < |all| && picked[j] == all[at[j]] && wanted(all[at[j]]))
    && (forall j, k :: 0 <= j < k < |at| ==> at[j] < at[k])
    && (forall i :: 0 <= i < |all| && wanted(all[i]) ==> i in at)
  }

  ghost predicate Picks<T(!new)>(all: seq<T>, wanted: T -> bool, picked: seq<T>) {
    exists at :: PickedAt(all, wanted, picked, at)
  }

  function Shifted(at: seq<int>): (r: seq<int>)
    ensures |r| == |at| && forall j :: 0 <= j < |at| ==> r[j] == at[j] + 1
  {
    seq(|at|, j requires 0 <= j < |at| => at[j] + 1)
  }

  lemma {:induction false} KeptAt<T>(all: seq<T>, wanted: T -> bool) returns (at: seq<int>)
    ensures PickedAt(all, wanted, Kept(all, wanted), at)
  {
    at := [];
    if all != [] {
      var rest := KeptAt(all[1..], wanted);
      if wanted(all[0]) {
        at := [0] + Shifted(rest);
        FirstPicks(all, wanted, Kept(all[1..], wanted), rest);
      } else {
        at := Shifted(rest);
        LaterPicks(all, wanted, Kept(all[1..], wanted), rest);
        assert [] + Kept(all[1..], wanted) == Kept(all[1..], wanted);
      }
    }
  }

  /** One entry more in front moves every place by one. */
  lemma LaterPicks<T>(all: seq<T>, wanted: T -> bool, picked: seq<T>, at: seq<int>)
    requires all != [] && !wanted(all[0]) && PickedAt(all[1..], wanted, picked, at)
    ensures PickedAt(all, wanted, picked, Shifted(at))
  {
    var more := Shifted(at);
    forall j | 0 <= j < |more| ensures 0 <= more[j] < |all| && picked[j] == all[more[j]] && wanted(all[more[j]]) {
      assert all[1..][at[j]] == all[more[j]];
    }
    forall i | 0 <= i < |all| && wanted(all[i]) ensures i in more {
      assert all[1..][i - 1] == all[i];
      var j :| 0 <= j < |at| && at[j] == i - 1;
      assert more[j] == i;
    }
  }

  lemma FirstPicks<T>(all: seq<T>, wanted: T -> bool, picked: seq<T>, at: seq<int>)
    requires all != [] && wanted(all[0]) && PickedAt(all[1..], wanted, picked, at)
    ensures PickedAt(all, wanted, [all[0]] + picked, [0] + Shifted(at))
  {
    var chosen, more := [all[0]] + picked, [0] + Shifted(at);
    forall j | 0 <= j < |more| ensures 0 <= more[j] < |all| && chosen[j] == all[more[j]] && wanted(all[more[j]]) {
      if j > 0 { assert all[1..][at[j - 1]] == all[more[j]]; }
    }
    forall i | 0 <= i < |all| && wanted(all[i]) ensures i in more { FirstFinds(all, wanted, picked, at, i); }
    ShiftedAscends(at);
  }

  lemma ShiftedAscends(at: seq<int>)
    requires forall j :: 0 <= j < |at| ==> 0 <= at[j]
    requires forall j, k :: 0 <= j < k < |at| ==> at[j] < at[k]
    ensures var more := [0] + Shifted(at); forall j, k :: 0 <= j < k < |more| ==> more[j] < more[k]
  {
    var more := [0] + Shifted(at);
    assert forall j :: 0 < j < |more| ==> more[j] == at[j - 1] + 1;
  }

  lemma FirstFinds<T>(all: seq<T>, wanted: T -> bool, picked: seq<T>, at: seq<int>, i: nat)
    requires all != [] && PickedAt(all[1..], wanted, picked, at) && i < |all| && wanted(all[i])
    ensures i in [0] + Shifted(at)
  {
    var more := [0] + Shifted(at);
    if i == 0 {
      assert more[0] == 0;
    } else {
      assert all[1..][i - 1] == all[i];
      var j :| 0 <= j < |at| && at[j] == i - 1;
      assert more[j + 1] == i;
    }
  }

  lemma KeptPicks<T(!new)>(all: seq<T>, wanted: T -> bool)
    ensures Picks(all, wanted, Kept(all, wanted))
  {
    var at := KeptAt(all, wanted);
  }

  // ----- Guards and options -----

  ghost predicate SaysScalar(v: Value, s: Scalar) {
    match s
    case Flag(b) => v == Bool(b)
    case Whole(n) => v == Int(n)
    case Words(text) => v == String(text)
  }

  /** The member that stands for the operator, and what it holds. */
  ghost predicate SaysOperator(v: Value, o: Operator, others: set<string>) {
    match o
    case Equals(e) => Names(v, others + {"equals"}) && SaysScalar(At(v, "equals"), e)
    case NotEquals(e) => Names(v, others + {"not_equals"}) && SaysScalar(At(v, "not_equals"), e)
    case IsEmpty => Names(v, others + {"empty"}) && Holds(v, "empty", Bool(true))
    case NonEmpty => Names(v, others + {"non_empty"}) && Holds(v, "non_empty", Bool(true))
    case AtLeast(n) => Names(v, others + {"at_least"}) && Holds(v, "at_least", Int(n))
    case AtMost(n) => Names(v, others + {"at_most"}) && Holds(v, "at_most", Int(n))
  }

  ghost predicate SaysGuard(v: Value, p: Predicate) {
    var source := At(v, "evidence");
    && Names(source, {"node", "item"}) && Holds(source, "node", String(p.node)) && Holds(source, "item", String(p.item))
    && (p.outcome ==> Holds(v, "field", String("outcome")))
    && SaysOperator(v, p.operator, if p.outcome then {"evidence", "field"} else {"evidence"})
  }

  ghost predicate SaysGuards(v: Value, ps: seq<Predicate>) {
    v.Array? && |v.items| == |ps| && forall i :: 0 <= i < |ps| ==> SaysGuard(v.items[i], ps[i])
  }

  ghost predicate SaysOption(v: Value, o: OptionSpec) {
    && Holds(v, "option_id", String(o.id)) && Holds(v, "label", String(o.caption))
    && SaysOptional(v, "criteria", o.criteria)
    && (if o.guards.Some? then SaysGuards(At(v, "guards"), o.guards.value) else Lacks(v, "guards"))
  }

  ghost predicate SaysOptions(v: Value, os: seq<OptionSpec>) {
    v.Array? && |v.items| == |os| && forall i :: 0 <= i < |os| ==> SaysOption(v.items[i], os[i])
  }

  function GuardHead(p: Predicate): (m: map<string, Value>) {
    map["evidence" := Object(map["node" := String(p.node), "item" := String(p.item)])]
  }

  lemma GuardParts(p: Predicate)
    ensures var m := GuardFields(p);
            && Extends(m, GuardHead(p)) && Extends(m, OutcomeFields(p)) && Extends(m, OperatorFields(p.operator))
            && m.Keys == {"evidence"} + OutcomeFields(p).Keys + OperatorFields(p.operator).Keys
  {
    hide IsIdentifier, Extends, ScalarValueOf;
    PartsOfThree(GuardHead(p), OutcomeFields(p), OperatorFields(p.operator));
  }

  lemma OperatorOf(m: map<string, Value>, o: Operator, others: set<string>)
    requires Extends(m, OperatorFields(o)) && m.Keys == others + OperatorFields(o).Keys
    ensures SaysOperator(Object(m), o, others)
  {
    var part := OperatorFields(o);
    match o
    case Equals(_) => StillHolds(m, part, "equals");
    case NotEquals(_) => StillHolds(m, part, "not_equals");
    case IsEmpty => StillHolds(m, part, "empty");
    case NonEmpty => StillHolds(m, part, "non_empty");
    case AtLeast(_) => StillHolds(m, part, "at_least");
    case AtMost(_) => StillHolds(m, part, "at_most");
  }

  lemma GuardSays(p: Predicate)
    ensures SaysGuard(Object(GuardFields(p)), p)
  {
    hide IsIdentifier, GuardFields, Extends, OperatorFields, SaysOperator;
    var m := GuardFields(p);
    GuardParts(p);
    StillHolds(m, GuardHead(p), "evidence");
    if p.outcome { StillHolds(m, OutcomeFields(p), "field"); }
    OperatorOf(m, p.operator, if p.outcome then {"evidence", "field"} else {"evidence"});
  }

  lemma {:induction false} GuardsSay(ps: seq<Predicate>)
    ensures SaysGuards(Array(GuardValues(ps)), ps)
  {
    hide SaysGuard, GuardFields;
    if ps != [] {
      GuardSays(ps[0]);
      GuardsSay(ps[1..]);
      var values := GuardValues(ps);
      forall i | 0 <= i < |ps| ensures SaysGuard(values[i], ps[i]) {
        if i > 0 { assert values[i] == values[1..][i - 1] && ps[i] == ps[1..][i - 1]; }
      }
    }
  }

  lemma OptionSays(o: OptionSpec)
    ensures SaysOption(Object(OptionFields(o)), o)
  {
    hide SaysGuards, GuardValues, IsIdentifier;
    if o.guards.Some? { GuardsSay(o.guards.value); }
  }

  lemma {:induction false} OptionsSay(os: seq<OptionSpec>)
    ensures SaysOptions(Array(OptionValues(os)), os)
  {
    hide SaysOption, OptionFields;
    if os != [] {
      OptionSays(os[0]);
      OptionsSay(os[1..]);
      var values := OptionValues(os);
      forall i | 0 <= i < |os| ensures SaysOption(values[i], os[i]) {
        if i > 0 { assert values[i] == values[1..][i - 1] && os[i] == os[1..][i - 1]; }
      }
    }
  }

  // ----- Statuses -----

  predicate StateWord(c: Condition, word: string) {
    match c
    case Met => word == "met"
    case Unmet => word == "unmet"
    case Unevaluable => word == "unevaluable"
  }

  predicate OperatorWord(o: Operator, word: string) {
    match o
    case Equals(_) => word == "equals"
    case NotEquals(_) => word == "not_equals"
    case IsEmpty => word == "empty"
    case NonEmpty => word == "non_empty"
    case AtLeast(_) => word == "at_least"
    case AtMost(_) => word == "at_most"
  }

  ghost predicate SaysExpected(v: Value, o: Operator) {
    match o
    case Equals(e) => SaysScalar(At(v, "expected"), e)
    case NotEquals(e) => SaysScalar(At(v, "expected"), e)
    case IsEmpty => Lacks(v, "expected")
    case NonEmpty => Lacks(v, "expected")
    case AtLeast(n) => Holds(v, "expected", Int(n))
    case AtMost(n) => Holds(v, "expected", Int(n))
  }

  ghost predicate SaysActual(v: Value, a: Actual) {
    match a
    case Found(s) => SaysScalar(At(v, "actual"), s) && Lacks(v, "actual_count")
    case Counted(n) => Holds(v, "actual_count", Int(n)) && Lacks(v, "actual")
    case Unavailable => Lacks(v, "actual") && Lacks(v, "actual_count")
  }

  ghost predicate SaysStatus(v: Value, p: Predicate, e: Evaluation) {
    var source := At(v, "source");
    && v.Object?
    && Holds(source, "kind", String("evidence")) && Holds(source, "graph_node_id", String(p.node))
    && Holds(source, "item_id", String(p.item))
       && SaysOptional(source, "field", if p.outcome then Some("outcome") else None)
    && At(v, "operator").String? && OperatorWord(p.operator, At(v, "operator").text)
    && At(v, "state").String? && StateWord(e.condition, At(v, "state").text)
    && SaysExpected(v, p.operator) && SaysActual(v, e.actual)
  }

  ghost predicate SaysOptionStatus(v: Value, o: OptionSpec, view: View) {
    var ps, statuses := Guards(o), At(v, "predicates");
    && Names(v, {"option_id", "state", "predicates"})
    && Holds(v, "option_id", String(o.id)) && At(v, "state").String?
       && StateWord(view.optionState(o), At(v, "state").text)
    && statuses.Array? && |statuses.items| == |ps|
    && forall i :: 0 <= i < |ps| ==> SaysStatus(statuses.items[i], ps[i], view.evaluate(ps[i]))
  }

  ghost predicate SaysOptionStatuses(v: Value, os: seq<OptionSpec>, view: View) {
    v.Array? && |v.items| == |os| && forall i :: 0 <= i < |os| ==> SaysOptionStatus(v.items[i], os[i], view)
  }

  function StatusHead(p: Predicate, c: Condition): (m: map<string, Value>) {
    map["source" := Object(SourceFields(p)), "operator" := String(OperatorName(p.operator)),
        "state" := String(ConditionName(c))]
  }

  lemma StatusParts(p: Predicate, e: Evaluation)
    ensures var m := StatusFields(p, e.actual, e.condition);
            && Extends(m, StatusHead(p, e.condition)) && Extends(m, ExpectedFields(p.operator))
            && Extends(m, ActualFields(e.actual))
            && m.Keys == {"source", "operator", "state"} + ExpectedFields(p.operator).Keys + ActualFields(e.actual).Keys
    ensures ExpectedFields(p.operator).Keys <= {"expected"} && ActualFields(e.actual).Keys <= {"actual", "actual_count"}
  {
    hide SourceFields, OperatorName, ConditionName, Extends, ScalarValueOf;
    PartsOfThree(StatusHead(p, e.condition), ExpectedFields(p.operator), ActualFields(e.actual));
  }

  lemma SourceSays(p: Predicate)
    ensures var source := Object(SourceFields(p));
            && Holds(source, "kind", String("evidence")) && Holds(source, "graph_node_id", String(p.node))
            && Holds(source, "item_id", String(p.item))
            && SaysOptional(source, "field", if p.outcome then Some("outcome") else None)
  {
    hide IsIdentifier;
  }

  lemma ExpectedOf(m: map<string, Value>, o: Operator)
    requires Extends(m, ExpectedFields(o)) && ("expected" in m ==> "expected" in ExpectedFields(o))
    ensures SaysExpected(Object(m), o)
  {
    if "expected" in ExpectedFields(o) { StillHolds(m, ExpectedFields(o), "expected"); }
  }

  lemma ActualOf(m: map<string, Value>, a: Actual)
    requires Extends(m, ActualFields(a)) && ("actual" in m ==> "actual" in ActualFields(a))
    requires "actual_count" in m ==> "actual_count" in ActualFields(a)
    ensures SaysActual(Object(m), a)
  {
    if a.Found? { StillHolds(m, ActualFields(a), "actual"); }
    if a.Counted? { StillHolds(m, ActualFields(a), "actual_count"); }
  }

  lemma HeadOf(m: map<string, Value>, p: Predicate, c: Condition)
    requires Extends(m, StatusHead(p, c))
    ensures var v := Object(m);
            && At(v, "source") == Object(SourceFields(p))
            && At(v, "operator").String? && OperatorWord(p.operator, At(v, "operator").text)
            && At(v, "state").String? && StateWord(c, At(v, "state").text)
  {
    hide Extends, SourceFields, Holds, At;
    var head := StatusHead(p, c);
    StillHolds(m, head, "source");
    StillHolds(m, head, "operator");
    StillHolds(m, head, "state");
  }

  lemma StatusSays(p: Predicate, e: Evaluation)
    ensures SaysStatus(Object(StatusFields(p, e.actual, e.condition)), p, e)
  {
    hide SourceFields, StatusFields, Extends, Holds, SaysOptional, OperatorWord, StateWord, SaysExpected, SaysActual,
         ExpectedFields, ActualFields, At;
    var m := StatusFields(p, e.actual, e.condition);
    StatusParts(p, e);
    HeadOf(m, p, e.condition);
    SourceSays(p);
    ExpectedOf(m, p.operator);
    ActualOf(m, e.actual);
  }

  lemma {:induction false} StatusesSay(ps: seq<Predicate>, view: View)
    ensures var values := StatusValues(ps, view);
            |values| == |ps| && forall i :: 0 <= i < |ps| ==> SaysStatus(values[i], ps[i], view.evaluate(ps[i]))
  {
    hide SaysStatus, StatusFields;
    if ps != [] {
      StatusSays(ps[0], view.evaluate(ps[0]));
      StatusesSay(ps[1..], view);
      var values := StatusValues(ps, view);
      forall i | 0 <= i < |ps| ensures SaysStatus(values[i], ps[i], view.evaluate(ps[i])) {
        if i > 0 { assert values[i] == values[1..][i - 1] && ps[i] == ps[1..][i - 1]; }
      }
    }
  }

  lemma OptionStatusSays(o: OptionSpec, view: View)
    ensures SaysOptionStatus(Object(OptionStatusFields(o, view)), o, view)
  {
    hide SaysStatus, StatusValues, IsIdentifier;
    StatusesSay(Guards(o), view);
  }

  lemma {:induction false} OptionStatusesSay(os: seq<OptionSpec>, view: View)
    ensures SaysOptionStatuses(Array(OptionStatusValues(os, view)), os, view)
  {
    hide SaysOptionStatus, OptionStatusFields;
    if os != [] {
      OptionStatusSays(os[0], view);
      OptionStatusesSay(os[1..], view);
      var values := OptionStatusValues(os, view);
      forall i | 0 <= i < |os| ensures SaysOptionStatus(values[i], os[i], view) {
        if i > 0 { assert values[i] == values[1..][i - 1] && os[i] == os[1..][i - 1]; }
      }
    }
  }

  // ----- Missing items -----

  function Wants(view: View): (f: ItemGuide -> bool) {
    (item: ItemGuide) => item.required && view.missing(item)
  }

  ghost predicate SaysMissing(v: Value, item: ItemGuide) {
    && Names(v, {"item_id", "prompt"}) && Holds(v, "item_id", String(item.id))
       && Holds(v, "prompt", String(item.prompt))
  }

  lemma {:induction false} MissingAreKept(items: seq<ItemGuide>, view: View)
    ensures var values, picked := MissingValues(items, view), Kept(items, Wants(view));
            |values| == |picked| && forall i :: 0 <= i < |picked| ==> SaysMissing(values[i], picked[i])
  {
    hide SaysMissing;
    if items != [] {
      MissingAreKept(items[1..], view);
      MissingSays(items[0]);
      var values, picked := MissingValues(items, view), Kept(items, Wants(view));
      if Wants(view)(items[0]) {
        assert values[1..] == MissingValues(items[1..], view) && picked[1..] == Kept(items[1..], Wants(view));
        forall i | 0 <= i < |picked| ensures SaysMissing(values[i], picked[i]) {
          if i > 0 { assert values[i] == values[1..][i - 1] && picked[i] == picked[1..][i - 1]; }
        }
      }
    }
  }

  lemma MissingSays(item: ItemGuide)
    ensures SaysMissing(Object(map["item_id" := String(item.id), "prompt" := String(item.prompt)]), item)
  {
  }

  /** The first 64 of the missing items, their exact number, and the targets that are reachable. */
  ghost predicate SaysCommon(v: Value, s: Static, view: View) {
    && Holds(v, "goal_tracking", Bool(view.goalTracking))
    && (exists picked ::
          && Picks(s.items, Wants(view), picked)
          && Holds(v, "missing_required_item_count", Int(|picked|))
          && SaysMissingItems(At(v, "missing_required_items"), picked))
    && (exists picked ::
          Picks<string>(s.rework, view.reachable, picked) && SaysTexts(At(v, "allowed_manual_rework_targets"), picked))
  }

  ghost predicate SaysMissingItems(v: Value, picked: seq<ItemGuide>) {
    && v.Array? && |v.items| == (if |picked| <= 64 then |picked| else 64)
    && forall i :: 0 <= i < |v.items| ==> SaysMissing(v.items[i], picked[i])
  }

  lemma CommonSays(s: Static, view: View)
    ensures SaysCommon(Object(CommonFields(s, view)), s, view)
  {
    hide Picks, Kept, MissingValues, SaysMissing;
    var v, picked := Object(CommonFields(s, view)), Kept(s.items, Wants(view));
    MissingAreKept(s.items, view);
    KeptPicks(s.items, Wants(view));
    assert SaysMissingItems(At(v, "missing_required_items"), picked);
    var targets := Kept<string>(s.rework, view.reachable);
    KeptPicks<string>(s.rework, view.reachable);
    assert SaysTexts(At(v, "allowed_manual_rework_targets"), targets);
  }

  // ----- The definition -----

  ghost predicate SaysAction(v: Value, g: Guide)
    requires g.ActionGuide?
  {
    && Holds(v, "title", String(g.title)) && Holds(v, "intent", String(g.intent))
    && SaysOptional(v, "description", g.description) && SaysTexts(At(v, "instructions"), g.instructions)
  }

  ghost predicate SaysPolicy(v: Value, reasonPrompt: Option<string>) {
    Holds(v, "required", Bool(true)) && SaysOptional(v, "prompt", reasonPrompt)
  }

  ghost predicate SaysQuestion(v: Value, g: Guide)
    requires g.DecisionGuide?
  {
    && Holds(v, "title", String(g.title)) && Holds(v, "objective", String(g.objective))
    && Holds(v, "prompt", String(g.prompt)) && SaysOptional(v, "description", g.description)
    && SaysPolicy(At(v, "reason_policy"), g.reasonPrompt)
    && (if g.guidance == [] then Lacks(v, "evidence_guidance") else SaysTexts(At(v, "evidence_guidance"), g.guidance))
  }

  /** All options, the ones that are open by name, and a status of every option if one has guards. */
  ghost predicate SaysChoices(v: Value, g: Guide, view: View)
    requires g.DecisionGuide?
  {
    && SaysOptions(At(v, "options"), g.options)
    && (exists picked ::
          Picks(g.options, IsOpen(view), picked) && SaysIds(At(v, "allowed_option_ids"), picked))
    && (if exists i :: 0 <= i < |g.options| && g.options[i].guards.Some?
        then SaysOptionStatuses(At(v, "option_guard_statuses"), g.options, view)
        else Lacks(v, "option_guard_statuses"))
  }

  function IsOpen(view: View): (f: OptionSpec -> bool) {
    (o: OptionSpec) => view.open(o.id)
  }

  ghost predicate SaysIds(v: Value, options: seq<OptionSpec>) {
    v.Array? && |v.items| == |options| && forall i :: 0 <= i < |options| ==> v.items[i] == String(options[i].id)
  }

  ghost predicate SaysDisposition(v: Value, g: Guide) {
    if g.DecisionGuide? then Lacks(v, "next_graph_node_id") && Lacks(v, "terminal") && Lacks(v, "skip")
    else
      && (if g.target.Some? then Holds(v, "next_graph_node_id", String(g.target.value)) && Lacks(v, "terminal")
          else Lacks(v, "next_graph_node_id") && Holds(v, "terminal", Bool(true)))
      && (if g.skip.None? then Lacks(v, "skip")
          else
            && Names(At(v, "skip"), {"allowed", "reason_required"}) && Holds(At(v, "skip"), "allowed", Bool(true))
            && Holds(At(v, "skip"), "reason_required", Bool(g.skip.value)))
  }

  lemma ActionSays(g: Guide, view: View)
    requires g.ActionGuide?
    ensures SaysAction(Object(GuideFields(g, view)), g)
  {
  }

  lemma DispositionSays(g: Guide)
    ensures SaysDisposition(Object(DispositionFields(g)), g)
  {
  }

  lemma {:induction false} OpenIds(os: seq<OptionSpec>, view: View)
    ensures var ids, picked := Kept(OptionIds(os), view.open), Kept(os, IsOpen(view));
            |ids| == |picked| && forall i :: 0 <= i < |ids| ==> ids[i] == picked[i].id
  {
    if os != [] {
      OpenIds(os[1..], view);
      assert OptionIds(os)[1..] == OptionIds(os[1..]);
    }
  }

  const HEAD_NAMES: set<string> := {"title", "objective", "prompt", "reason_policy", "options", "allowed_option_ids"}

  lemma DecisionParts(g: Guide, view: View)
    requires g.DecisionGuide?
    ensures var m := GuideFields(g, view);
            && Extends(m, DecisionHead(g, view)) && Extends(m, OptionalFields("description", g.description))
            && Extends(m, StatusesFields(g.options, view)) && Extends(m, TextsFields("evidence_guidance", g.guidance))
            && m.Keys == HEAD_NAMES + OptionalFields("description", g.description).Keys
                         + StatusesFields(g.options, view).Keys + TextsFields("evidence_guidance", g.guidance).Keys
  {
    hide Extends, AnyGuarded, OptionStatusValues, OptionValues, OptionIds, Kept, PolicyFields;
    var a, b := DecisionHead(g, view), OptionalFields("description", g.description);
    var c, d := StatusesFields(g.options, view), TextsFields("evidence_guidance", g.guidance);
    assert a.Keys == HEAD_NAMES;
    PartsOfThree(a, b, c);
    MergeExtends(a + b + c, d);
    var m := GuideFields(g, view);
    assert m == a + b + c + d;
    ExtendsFurther(m, a + b + c, a);
    ExtendsFurther(m, a + b + c, b);
    ExtendsFurther(m, a + b + c, c);
  }

  lemma PolicySays(reasonPrompt: Option<string>)
    ensures SaysPolicy(Object(PolicyFields(reasonPrompt)), reasonPrompt)
  {
  }

  lemma HeadSays(m: map<string, Value>, g: Guide, view: View)
    requires g.DecisionGuide? && Extends(m, DecisionHead(g, view))
    ensures var v := Object(m);
            && Holds(v, "title", String(g.title)) && Holds(v, "objective", String(g.objective))
            && Holds(v, "prompt", String(g.prompt)) && SaysPolicy(At(v, "reason_policy"), g.reasonPrompt)
  {
    hide Extends, OptionValues, OptionIds, Kept, PolicyFields, SaysPolicy, Holds, At;
    var head := DecisionHead(g, view);
    StillHolds(m, head, "title");
    StillHolds(m, head, "objective");
    StillHolds(m, head, "prompt");
    StillHolds(m, head, "reason_policy");
    PolicySays(g.reasonPrompt);
  }

  lemma QuestionSays(g: Guide, view: View)
    requires g.DecisionGuide?
    ensures SaysQuestion(Object(GuideFields(g, view)), g)
  {
    hide GuideFields, Extends, DecisionHead, SaysPolicy;
    var m := GuideFields(g, view);
    DecisionParts(g, view);
    HeadSays(m, g, view);
    assert "description" !in HEAD_NAMES && "evidence_guidance" !in HEAD_NAMES;
    if g.description.Some? { StillHolds(m, OptionalFields("description", g.description), "description"); }
    if g.guidance != [] { StillHolds(m, TextsFields("evidence_guidance", g.guidance), "evidence_guidance"); }
  }

  lemma ChoicesSay(g: Guide, view: View)
    requires g.DecisionGuide?
    ensures SaysChoices(Object(GuideFields(g, view)), g, view)
  {
    hide GuideFields, Extends, OptionValues, OptionIds, Kept, OptionStatusValues, Picks, SaysOptions,
         SaysOptionStatuses;
    var m, head := GuideFields(g, view), DecisionHead(g, view);
    DecisionParts(g, view);
    StillHolds(m, head, "options");
    StillHolds(m, head, "allowed_option_ids");
    OptionsSay(g.options);
    OpenIds(g.options, view);
    KeptPicks(g.options, IsOpen(view));
    assert SaysIds(At(Object(m), "allowed_option_ids"), Kept(g.options, IsOpen(view)));
    OptionStatusesSay(g.options, view);
    if AnyGuarded(g.options) {
      StillHolds(m, StatusesFields(g.options, view), "option_guard_statuses");
    }
  }

  // ----- All static members but the commands -----

  const COMMON_NAMES: set<string> :=
    {"goal_tracking", "missing_required_item_count", "missing_required_items", "allowed_manual_rework_targets"}
  const GUIDE_NAMES: set<string> :=
    {"title", "intent", "description", "instructions", "objective", "prompt", "reason_policy", "options",
     "allowed_option_ids", "option_guard_statuses", "evidence_guidance"}
  const DISPOSITION_NAMES: set<string> := {"next_graph_node_id", "terminal", "skip"}

  ghost predicate SaysGuide(v: Value, g: Guide, view: View) {
    match g
    case ActionGuide(_, _, _, _, _, _) => SaysAction(v, g)
    case DecisionGuide(_, _, _, _, _, _, _) => SaysQuestion(v, g) && SaysChoices(v, g, view)
  }

  ghost predicate SaysContent(v: Value, s: Static, view: View) {
    SaysCommon(v, s, view) && SaysGuide(v, s.guide, view) && SaysDisposition(v, s.guide)
  }

  lemma CommonLifts(v: Value, w: Value, s: Static, view: View)
    requires SaysCommon(v, s, view) && Agrees(v, w, COMMON_NAMES)
    ensures SaysCommon(w, s, view)
  {
    hide Agrees, Picks, At, Holds, SaysMissingItems;
    SameAt(v, w, COMMON_NAMES, "goal_tracking");
    SameAt(v, w, COMMON_NAMES, "missing_required_item_count");
    SameAt(v, w, COMMON_NAMES, "missing_required_items");
    SameAt(v, w, COMMON_NAMES, "allowed_manual_rework_targets");
  }

  lemma ActionLifts(v: Value, w: Value, g: Guide)
    requires g.ActionGuide? && SaysAction(v, g) && Agrees(v, w, GUIDE_NAMES)
    ensures SaysAction(w, g)
  {
    hide Agrees, At, Holds, Lacks, SaysTexts;
    SameAt(v, w, GUIDE_NAMES, "title");
    SameAt(v, w, GUIDE_NAMES, "intent");
    SameAt(v, w, GUIDE_NAMES, "description");
    SameAt(v, w, GUIDE_NAMES, "instructions");
  }

  lemma QuestionLifts(v: Value, w: Value, g: Guide)
    requires g.DecisionGuide? && SaysQuestion(v, g) && Agrees(v, w, GUIDE_NAMES)
    ensures SaysQuestion(w, g)
  {
    hide Agrees, At, Holds, Lacks, SaysPolicy, SaysTexts;
    SameAt(v, w, GUIDE_NAMES, "title");
    SameAt(v, w, GUIDE_NAMES, "objective");
    SameAt(v, w, GUIDE_NAMES, "prompt");
    SameAt(v, w, GUIDE_NAMES, "description");
    SameAt(v, w, GUIDE_NAMES, "reason_policy");
    SameAt(v, w, GUIDE_NAMES, "evidence_guidance");
  }

  lemma ChoicesLift(v: Value, w: Value, g: Guide, view: View)
    requires g.DecisionGuide? && SaysChoices(v, g, view) && Agrees(v, w, GUIDE_NAMES)
    ensures SaysChoices(w, g, view)
  {
    hide Agrees, At, Lacks, Picks, SaysOptions, SaysOptionStatuses, SaysIds;
    SameAt(v, w, GUIDE_NAMES, "options");
    SameAt(v, w, GUIDE_NAMES, "allowed_option_ids");
    SameAt(v, w, GUIDE_NAMES, "option_guard_statuses");
  }

  lemma GuideLifts(v: Value, w: Value, g: Guide, view: View)
    requires SaysGuide(v, g, view) && Agrees(v, w, GUIDE_NAMES)
    ensures SaysGuide(w, g, view)
  {
    hide Agrees, SaysAction, SaysQuestion, SaysChoices;
    if g.ActionGuide? {
      ActionLifts(v, w, g);
    } else {
      QuestionLifts(v, w, g);
      ChoicesLift(v, w, g, view);
    }
  }

  lemma DispositionLifts(v: Value, w: Value, g: Guide)
    requires SaysDisposition(v, g) && Agrees(v, w, DISPOSITION_NAMES)
    ensures SaysDisposition(w, g)
  {
    hide Agrees;
    SameAt(v, w, DISPOSITION_NAMES, "next_graph_node_id");
    SameAt(v, w, DISPOSITION_NAMES, "terminal");
    SameAt(v, w, DISPOSITION_NAMES, "skip");
  }

  lemma CommonNames(s: Static, view: View)
    ensures CommonFields(s, view).Keys <= COMMON_NAMES
  {
    hide Kept, MissingValues, Window;
  }

  lemma GuideNames(g: Guide, view: View)
    ensures GuideFields(g, view).Keys <= GUIDE_NAMES
  {
    if g.DecisionGuide? {
      hide GuideFields;
      DecisionParts(g, view);
      assert HEAD_NAMES <= GUIDE_NAMES;
    }
  }

  lemma DispositionNames(g: Guide)
    ensures DispositionFields(g).Keys <= DISPOSITION_NAMES
  {
  }

  lemma NamesApart()
    ensures COMMON_NAMES !! GUIDE_NAMES && COMMON_NAMES + GUIDE_NAMES !! DISPOSITION_NAMES
  {
  }

  lemma ContentSays(s: Static, view: View)
    ensures SaysContent(Object(ContentFields(s, view)), s, view)
    ensures ContentFields(s, view).Keys <= COMMON_NAMES + GUIDE_NAMES + DISPOSITION_NAMES
  {
    hide CommonFields, GuideFields, DispositionFields, SaysCommon, SaysGuide, SaysDisposition, Agrees;
    var a, b, c := CommonFields(s, view), GuideFields(s.guide, view), DispositionFields(s.guide);
    CommonNames(s, view);
    GuideNames(s.guide, view);
    DispositionNames(s.guide);
    NamesApart();
    MergeAgrees(a, b, COMMON_NAMES, GUIDE_NAMES);
    MergeAgrees(a + b, c, COMMON_NAMES + GUIDE_NAMES, DISPOSITION_NAMES);
    var v, w := Object(a + b), Object(a + b + c);
    AgreesFurther(Object(a), v, w, COMMON_NAMES, COMMON_NAMES + GUIDE_NAMES);
    AgreesFurther(Object(b), v, w, GUIDE_NAMES, COMMON_NAMES + GUIDE_NAMES);
    CommonSays(s, view);
    CommonLifts(Object(a), w, s, view);
    GuideSays(s.guide, view);
    GuideLifts(Object(b), w, s.guide, view);
    DispositionSays(s.guide);
    DispositionLifts(Object(c), w, s.guide);
  }

  lemma GuideSays(g: Guide, view: View)
    ensures SaysGuide(Object(GuideFields(g, view)), g, view)
  {
    hide GuideFields, SaysAction, SaysQuestion, SaysChoices;
    if g.ActionGuide? {
      ActionSays(g, view);
    } else {
      QuestionSays(g, view);
      ChoicesSay(g, view);
    }
  }
}
