/**
  The members of a `session.next` response that come from the running session: its goal, its place
  in the graph, its blockers and the delegation projection. Only the projection has a charge; the
  rest is bounded here by its own limits.
  */
module RuntimeMembers {
  import opened Utf8
  import opened CanonicalJson
  import opened CanonicalLength
  import opened Procedure
  import opened NextBudget
  import opened Saturation
  import opened DelegationAdmission
  import opened DelegationPackage
  import opened TariffInstances
  import opened DecisionRecordSize
  import CanonicalPrinters

  // ----- Merging members -----

  /** Members set over others never print longer than the two objects apart. */
  lemma {:induction false} MergeLength(a: map<string, Value>, b: map<string, Value>)
    ensures Len(Object(a + b)) <= Len(Object(a)) + Len(Object(b))
    decreases |b.Keys|
  {
    hide Len;
    if b == map[] {
      assert a + b == a;
    } else {
      assert b.Keys != {};
      var k :| k in b.Keys;
      var rest := b - {k};
      assert rest.Keys == b.Keys - {k};
      MergeLength(a, rest);
      MergeStep(a, rest, k, b[k]);
      assert b == rest[k := b[k]];
      assert a + b == (a + rest)[k := b[k]];
    }
  }

  lemma MergeStep(a: map<string, Value>, rest: map<string, Value>, k: string, v: Value)
    requires k !in rest && Len(Object(a + rest)) <= Len(Object(a)) + Len(Object(rest))
    ensures Len(Object((a + rest)[k := v])) <= Len(Object(a)) + Len(Object(rest[k := v]))
  {
    hide Len, FieldLength;
    AddFieldLength(a + rest, k, v);
    AddFieldLength(rest, k, v);
    if rest == map[] {
      EmptyObject();
      assert a + rest == a;
    }
  }

  // ----- The goal -----

  /** A criterion has the status it was given last, or none yet. */
  datatype GoalView = GoalView(
    goal: Goal, status: Identifier -> Option<CriterionStatus>, applicability: Option<bool>,
        determined: Option<GoalOutcome>)

  function CriterionStatusName(s: Option<CriterionStatus>): (r: string) {
    if s.Some? then StatusName(s.value) else "unassessed"
  }

  function DisplayedCriterion(c: Criterion, g: GoalView): (v: Value) {
    Object(map["criterion_id" := String(c.id), "statement" := String(c.statement),
               "status" := String(CriterionStatusName(g.status(c.id)))])
  }

  function DisplayedCriteria(criteria: seq<Criterion>, g: GoalView): (r: seq<Value>)
    ensures |r| == |criteria|
    ensures forall i :: 0 <= i < |criteria| ==> r[i] == DisplayedCriterion(criteria[i], g)
  {
    seq(|criteria|, i requires 0 <= i < |criteria| => DisplayedCriterion(criteria[i], g))
  }

  function ModeFields(applicability: Option<bool>): (m: map<string, Value>) {
    if applicability.None? then map[]
    else map["assessment_mode" := String(if applicability.value then "applicability" else "assessment")]
  }

  function OutcomeField(k: string, outcome: Option<GoalOutcome>): (m: map<string, Value>) {
    if outcome.None? then map[] else map[k := String(OutcomeName(outcome.value))]
  }

  function DisplayedGoal(g: GoalView): (m: map<string, Value>) {
    map["revision" := Int(g.goal.revision), "statement" := String(g.goal.statement),
        "criteria" := Array(DisplayedCriteria(g.goal.criteria, g))]
    + ModeFields(g.applicability) + OutcomeField("determined_outcome", g.determined)
  }

  lemma StatusLengths(s: Option<CriterionStatus>)
    ensures Len(String(CriterionStatusName(s))) <= 16
  {
    hide Len;
    match s
    case None => WordLength("unassessed");
    case Some(Satisfied) => WordLength("satisfied");
    case Some(Unsatisfied) => WordLength("unsatisfied");
    case Some(NotApplicable) => WordLength("not_applicable");
  }

  lemma CriterionNames()
    ensures |Quoted("criterion_id")| == 14 && |Quoted("statement")| == 11 && |Quoted("status")| == 8
  {
    hide Quoted;
    PlainLength("criterion_id");
    PlainLength("statement");
    PlainLength("status");
  }

  lemma DisplayedCriterionLength(c: Criterion, g: GoalView)
    ensures Len(DisplayedCriterion(c, g)) <= 1_927
  {
    hide Len, Quoted, CriterionStatusName, IsIdentifier;
    CriterionNames();
    IdentifierLength(c.id);
    TextLength(c.statement, 300);
    var status := CriterionStatusName(g.status(c.id));
    StatusLengths(g.status(c.id));
    OneField("criterion_id", String(c.id), 14, 66);
    var m1 := map["criterion_id" := String(c.id)];
    AddField(m1, "statement", String(c.statement), 84, 11, 1_802);
    var m2 := m1["statement" := String(c.statement)];
    AddField(m2, "status", String(status), 1_899, 8, 16);
    assert DisplayedCriterion(c, g) == Object(m2["status" := String(status)]);
  }

  lemma DisplayedCriteriaLength(g: GoalView)
    ensures Len(Array(DisplayedCriteria(g.goal.criteria, g))) <= 30_850
  {
    hide Len, DisplayedCriterion;
    var values := DisplayedCriteria(g.goal.criteria, g);
    forall i | 0 <= i < |values| ensures Len(values[i]) <= 1_927 {
      DisplayedCriterionLength(g.goal.criteria[i], g);
    }
    ItemsLengthBound(values, 1_927);
    ArrayLength(values);
  }

  lemma ModeLength(applicability: Option<bool>)
    ensures Len(Object(ModeFields(applicability))) <= 36
  {
    hide Len, Quoted;
    EmptyObject();
    if applicability.Some? {
      var mode := if applicability.value then "applicability" else "assessment";
      WordLength(mode);
      PlainLength("assessment_mode");
      OneField("assessment_mode", String(mode), 17, 15);
    }
  }

  lemma OutcomeNameLength(o: GoalOutcome)
    ensures Len(String(OutcomeName(o))) <= 14
  {
    WordLength(OutcomeName(o));
  }

  lemma OutcomeFieldLength(k: string, outcome: Option<GoalOutcome>)
    requires PlainText(k)
    ensures Len(Object(OutcomeField(k, outcome))) <= |k| + 20
  {
    hide Len, Quoted, OutcomeName, PlainText;
    EmptyObject();
    if outcome.Some? {
      OutcomeNameLength(outcome.value);
      PlainLength(k);
      OneField(k, String(OutcomeName(outcome.value)), |k| + 2, 14);
    }
  }

  lemma GoalNames()
    ensures |Quoted("revision")| == 10 && |Quoted("statement")| == 11 && |Quoted("criteria")| == 10
  {
    hide Quoted;
    PlainLength("revision");
    PlainLength("statement");
    PlainLength("criteria");
  }

  /** The largest goal takes less than 36 KiB. */
  lemma DisplayedGoalLength(g: GoalView)
    ensures Len(Object(DisplayedGoal(g))) <= 36_990
  {
    hide Len, Quoted, DisplayedCriteria, ModeFields, OutcomeField, PlainText;
    GoalNames();
    NumberLength(g.goal.revision);
    TextLength(g.goal.statement, 1_000);
    DisplayedCriteriaLength(g);
    var criteria := Array(DisplayedCriteria(g.goal.criteria, g));
    OneField("revision", Int(g.goal.revision), 10, 20);
    var m1 := map["revision" := Int(g.goal.revision)];
    AddField(m1, "statement", String(g.goal.statement), 34, 11, 6_002);
    var m2 := m1["statement" := String(g.goal.statement)];
    AddField(m2, "criteria", criteria, 6_049, 10, 30_850);
    var m3 := m2["criteria" := criteria];
    assert m3 == map["revision" := Int(g.goal.revision), "statement" := String(g.goal.statement),
                     "criteria" := criteria];
    ModeLength(g.applicability);
    MergeLength(m3, ModeFields(g.applicability));
    DeterminedIsPlain();
    OutcomeFieldLength("determined_outcome", g.determined);
    MergeLength(m3 + ModeFields(g.applicability), OutcomeField("determined_outcome", g.determined));
  }

  lemma DeterminedIsPlain()
    ensures PlainText("determined_outcome") && PlainText("latest_goal_outcome")
  {
  }

  function GoalMembers(goal: Option<GoalView>, latest: Option<GoalOutcome>): (m: map<string, Value>) {
    if goal.None? then map["goal_defined" := Bool(false)]
    else
      map["goal_defined" := Bool(true), "goal_revision" := Int(goal.value.goal.revision),
          "goal" := Object(DisplayedGoal(goal.value))]
      + OutcomeField("latest_goal_outcome", latest)
  }

  lemma GoalMemberNames()
    ensures |Quoted("goal_defined")| == 14 && |Quoted("goal_revision")| == 15 && |Quoted("goal")| == 6
  {
    hide Quoted;
    PlainLength("goal_defined");
    PlainLength("goal_revision");
    PlainLength("goal");
  }

  lemma GoalMembersLength(goal: Option<GoalView>, latest: Option<GoalOutcome>)
    ensures Len(Object(GoalMembers(goal, latest))) <= 37_100
  {
    hide Len, Quoted, DisplayedGoal, OutcomeField, PlainText;
    GoalMemberNames();
    BoolLength(goal.Some?);
    OneField("goal_defined", Bool(goal.Some?), 14, 5);
    if goal.Some? {
      var m1 := map["goal_defined" := Bool(true)];
      var revision := goal.value.goal.revision;
      NumberLength(revision);
      AddField(m1, "goal_revision", Int(revision), 23, 15, 20);
      var m2 := m1["goal_revision" := Int(revision)];
      DisplayedGoalLength(goal.value);
      AddField(m2, "goal", Object(DisplayedGoal(goal.value)), 60, 6, 36_990);
      var m3 := m2["goal" := Object(DisplayedGoal(goal.value))];
      assert m3 == map["goal_defined" := Bool(true), "goal_revision" := Int(revision),
                       "goal" := Object(DisplayedGoal(goal.value))];
      DeterminedIsPlain();
      OutcomeFieldLength("latest_goal_outcome", latest);
      MergeLength(m3, OutcomeField("latest_goal_outcome", latest));
    }
  }

  // ----- The place in the graph -----

  datatype Place = Place(
    digest: Digest, definition: Identifier, node: Identifier, decision: bool, attempt: Uuid, number: U64, trace: U64,
    revision: U64, itemsSatisfied: bool, unblocked: bool, goalReady: bool, canAdvance: bool)

  function SchemaMembers(p: Place): (m: map<string, Value>) {
    map["schema" := String("podway.next-result/v5"), "procedure_schema" := String("podway.procedure/v2"),
        "procedure_digest" := String(p.digest), "trace_length" := Int(p.trace), "revision" := Int(p.revision)]
  }

  function NodeFields(p: Place): (m: map<string, Value>) {
    map["node_definition_id" := String(p.definition), "graph_node_id" := String(p.node),
        "node_type" := String(if p.decision then "decision" else "action")]
  }

  function AttemptIdentity(p: Place): (m: map<string, Value>) {
    map["attempt_id" := String(p.attempt), "attempt_number" := Int(p.number)]
  }

  function ReadinessFields(p: Place): (m: map<string, Value>) {
    map["items_satisfied" := Bool(p.itemsSatisfied), "unblocked" := Bool(p.unblocked),
        "goal_ready" := Bool(p.goalReady),
        "can_advance" := Bool(p.canAdvance)]
  }

  function PlaceMembers(p: Place): (m: map<string, Value>) {
    map["node" := Object(NodeFields(p)), "attempt" := Object(AttemptIdentity(p)),
        "readiness" := Object(ReadinessFields(p))]
  }

  lemma SchemaNames()
    ensures |Quoted("schema")| == 8 && |Quoted("procedure_schema")| == 18 && |Quoted("procedure_digest")| == 18
    ensures |Quoted("trace_length")| == 14 && |Quoted("revision")| == 10
  {
    hide Quoted;
    PlainLength("schema");
    PlainLength("procedure_schema");
    PlainLength("procedure_digest");
    PlainLength("trace_length");
    PlainLength("revision");
  }

  lemma SchemaMembersLength(p: Place)
    ensures Len(Object(SchemaMembers(p))) <= 240
  {
    hide Len, Quoted, IsDigest;
    SchemaNames();
    WordLength("podway.next-result/v5");
    WordLength("podway.procedure/v2");
    DigestLength(p.digest);
    NumberLength(p.trace);
    NumberLength(p.revision);
    OneField("schema", String("podway.next-result/v5"), 8, 23);
    var m1 := map["schema" := String("podway.next-result/v5")];
    AddField(m1, "procedure_schema", String("podway.procedure/v2"), 35, 18, 21);
    var m2 := m1["procedure_schema" := String("podway.procedure/v2")];
    AddField(m2, "procedure_digest", String(p.digest), 76, 18, 73);
    var m3 := m2["procedure_digest" := String(p.digest)];
    AddField(m3, "trace_length", Int(p.trace), 169, 14, 20);
    var m4 := m3["trace_length" := Int(p.trace)];
    AddField(m4, "revision", Int(p.revision), 205, 10, 20);
    assert SchemaMembers(p) == m4["revision" := Int(p.revision)];
  }

  lemma NodeNames()
    ensures |Quoted("node_definition_id")| == 20 && |Quoted("graph_node_id")| == 15 && |Quoted("node_type")| == 11
  {
    hide Quoted;
    PlainLength("node_definition_id");
    PlainLength("graph_node_id");
    PlainLength("node_type");
  }

  lemma NodeFieldsLength(p: Place)
    ensures Len(Object(NodeFields(p))) <= 200
  {
    hide Len, Quoted, IsIdentifier;
    NodeNames();
    IdentifierLength(p.definition);
    IdentifierLength(p.node);
    var kind := if p.decision then "decision" else "action";
    WordLength(kind);
    OneField("node_definition_id", String(p.definition), 20, 66);
    var m1 := map["node_definition_id" := String(p.definition)];
    AddField(m1, "graph_node_id", String(p.node), 90, 15, 66);
    var m2 := m1["graph_node_id" := String(p.node)];
    AddField(m2, "node_type", String(kind), 173, 11, 10);
    assert NodeFields(p) == m2["node_type" := String(kind)];
  }

  lemma AttemptIdentityLength(p: Place)
    ensures Len(Object(AttemptIdentity(p))) <= 100
  {
    hide Len, Quoted, IsUuid;
    PlainLength("attempt_id");
    PlainLength("attempt_number");
    UuidLength(p.attempt);
    NumberLength(p.number);
    OneField("attempt_id", String(p.attempt), 12, 38);
    AddField(map["attempt_id" := String(p.attempt)], "attempt_number", Int(p.number), 54, 16, 20);
    assert AttemptIdentity(p) == map["attempt_id" := String(p.attempt)]["attempt_number" := Int(p.number)];
  }

  lemma ReadinessNames()
    ensures |Quoted("items_satisfied")| == 17 && |Quoted("unblocked")| == 11 && |Quoted("goal_ready")| == 12
    ensures |Quoted("can_advance")| == 13
  {
    hide Quoted;
    PlainLength("items_satisfied");
    PlainLength("unblocked");
    PlainLength("goal_ready");
    PlainLength("can_advance");
  }

  lemma ReadinessLength(p: Place)
    ensures Len(Object(ReadinessFields(p))) <= 90
  {
    hide Len, Quoted;
    ReadinessNames();
    BoolLength(p.itemsSatisfied);
    BoolLength(p.unblocked);
    BoolLength(p.goalReady);
    BoolLength(p.canAdvance);
    OneField("items_satisfied", Bool(p.itemsSatisfied), 17, 5);
    var m1 := map["items_satisfied" := Bool(p.itemsSatisfied)];
    AddField(m1, "unblocked", Bool(p.unblocked), 26, 11, 5);
    var m2 := m1["unblocked" := Bool(p.unblocked)];
    AddField(m2, "goal_ready", Bool(p.goalReady), 44, 12, 5);
    var m3 := m2["goal_ready" := Bool(p.goalReady)];
    AddField(m3, "can_advance", Bool(p.canAdvance), 63, 13, 5);
    assert ReadinessFields(p) == m3["can_advance" := Bool(p.canAdvance)];
  }

  lemma PlaceMembersLength(p: Place)
    ensures Len(Object(PlaceMembers(p))) <= 430
  {
    hide Len, Quoted, NodeFields, AttemptIdentity, ReadinessFields;
    PlainLength("node");
    PlainLength("attempt");
    PlainLength("readiness");
    NodeFieldsLength(p);
    AttemptIdentityLength(p);
    ReadinessLength(p);
    OneField("node", Object(NodeFields(p)), 6, 200);
    var m1 := map["node" := Object(NodeFields(p))];
    AddField(m1, "attempt", Object(AttemptIdentity(p)), 210, 9, 100);
    var m2 := m1["attempt" := Object(AttemptIdentity(p))];
    AddField(m2, "readiness", Object(ReadinessFields(p)), 321, 11, 90);
    assert PlaceMembers(p) == m2["readiness" := Object(ReadinessFields(p))];
  }

  // ----- Blockers -----

  const BLOCKER_WINDOW_BYTES_MAX: nat := 49_152

  datatype Blocker = Blocker(id: Uuid, reason: string, createdAt: Timestamp)

  function BlockerValue(b: Blocker): (v: Value) {
    Object(map["blocker_id" := String(b.id), "reason" := String(b.reason), "created_at" := String(b.createdAt)])
  }

  function BlockerValues(blockers: seq<Blocker>): (r: seq<Value>)
    ensures |r| == |blockers|
    ensures forall i :: 0 <= i < |blockers| ==> r[i] == BlockerValue(blockers[i])
  {
    seq(|blockers|, i requires 0 <= i < |blockers| => BlockerValue(blockers[i]))
  }

  lemma {:induction false} ItemsLengthAppend(items: seq<Value>, last: Value)
    ensures ItemsLength(items + [last]) == ItemsLength(items) + Len(last) + 1
  {
    hide Len;
    if items == [] {
      assert items + [last] == [last] && [last][1..] == [];
    } else {
      ItemsLengthAppend(items[1..], last);
      assert (items + [last])[1..] == items[1..] + [last];
    }
  }

  lemma BlockerStep(blockers: seq<Blocker>, next: Blocker)
    ensures BlockerValues(blockers + [next]) == BlockerValues(blockers) + [BlockerValue(next)]
    ensures Len(Array(BlockerValues(blockers + [next])))
            == Len(Array(BlockerValues(blockers))) + Len(BlockerValue(next)) + (if blockers == [] then 0 else 1)
  {
    hide Len, BlockerValue;
    assert BlockerValues(blockers + [next]) == BlockerValues(blockers) + [BlockerValue(next)];
    ItemsLengthAppend(BlockerValues(blockers), BlockerValue(next));
    ArrayLength(BlockerValues(blockers));
    ArrayLength(BlockerValues(blockers + [next]));
  }

  lemma NoBlockers()
    ensures Len(Array(BlockerValues([]))) == 2
  {
    hide Len;
    assert BlockerValues([]) == [];
    ArrayLength([]);
  }

  /**
    The window over the open blockers, newest first: the longest prefix whose array prints in 48
    KiB, and whether it was cut.
    */
  method BlockerWindow(blockers: seq<Blocker>) returns (shown: seq<Blocker>, truncated: bool)
    ensures shown <= blockers && truncated == (|shown| < |blockers|)
    ensures Len(Array(BlockerValues(shown))) <= BLOCKER_WINDOW_BYTES_MAX
    ensures truncated ==> Len(Array(BlockerValues(blockers[..|shown| + 1]))) > BLOCKER_WINDOW_BYTES_MAX
  {
    hide Len, BlockerValue, BlockerValues;
    var used := 2;
    shown := [];
    NoBlockers();
    for n := 0 to |blockers|
      invariant shown == blockers[..n] && used == Len(Array(BlockerValues(shown))) <= BLOCKER_WINDOW_BYTES_MAX
    {
      var outcome, printed := CanonicalPrinters.CanonicalJsonBytes(BlockerValue(blockers[n]));
      BlockerPrints(blockers[n]);
      PrintedLength(BlockerValue(blockers[n]), printed);
      var bytes := |printed| + if shown == [] then 0 else 1;
      BlockerStep(shown, blockers[n]);
      assert blockers[..n + 1] == shown + [blockers[n]];
      if used + bytes > BLOCKER_WINDOW_BYTES_MAX {
        truncated := true;
        return;
      }
      used := used + bytes;
      shown := shown + [blockers[n]];
    }
    truncated := false;
  }

  lemma BlockerPrints(b: Blocker)
    ensures IntegersOnly(BlockerValue(b))
  {
  }

  lemma PrintedLength(v: Value, bytes: seq<Byte>)
    requires bytes == Canonical(v)
    ensures Len(v) == |bytes|
  {
  }

  // ----- Windows -----

  datatype Windows = Windows(
    missingCut: bool, blockers: seq<Blocker>, blockersTotal: U64, blockersCut: bool, itemsTotal: U64,
        suggestionsTotal: U64)

  function CountMembers(w: Windows): (m: map<string, Value>) {
    map["missing_required_items_truncated" := Bool(w.missingCut), "blockers_total" := Int(w.blockersTotal),
        "blockers_truncated" := Bool(w.blockersCut), "readback_items_total" := Int(w.itemsTotal)]
  }

  function TailMembers(w: Windows): (m: map<string, Value>) {
    map["readback_items_truncated" := Bool(false), "suggestions_total" := Int(w.suggestionsTotal),
        "suggestions_truncated" := Bool(false), "blockers" := Array(BlockerValues(w.blockers))]
  }

  lemma CountNames()
    ensures |Quoted("missing_required_items_truncated")| == 34 && |Quoted("blockers_total")| == 16
    ensures |Quoted("blockers_truncated")| == 20 && |Quoted("readback_items_total")| == 22
  {
    hide Quoted;
    PlainLength("missing_required_items_truncated");
    PlainLength("blockers_total");
    PlainLength("blockers_truncated");
    PlainLength("readback_items_total");
  }

  lemma TailNames()
    ensures |Quoted("readback_items_truncated")| == 26 && |Quoted("suggestions_total")| == 19
    ensures |Quoted("suggestions_truncated")| == 23 && |Quoted("blockers")| == 10
  {
    hide Quoted;
    PlainLength("readback_items_truncated");
    PlainLength("suggestions_total");
    PlainLength("suggestions_truncated");
    PlainLength("blockers");
  }

  lemma CountMembersLength(w: Windows)
    ensures Len(Object(CountMembers(w))) <= 155
  {
    hide Len, Quoted;
    CountNames();
    BoolLength(w.missingCut);
    BoolLength(w.blockersCut);
    NumberLength(w.blockersTotal);
    NumberLength(w.itemsTotal);
    OneField("missing_required_items_truncated", Bool(w.missingCut), 34, 5);
    var m1 := map["missing_required_items_truncated" := Bool(w.missingCut)];
    AddField(m1, "blockers_total", Int(w.blockersTotal), 43, 16, 20);
    var m2 := m1["blockers_total" := Int(w.blockersTotal)];
    AddField(m2, "blockers_truncated", Bool(w.blockersCut), 81, 20, 5);
    var m3 := m2["blockers_truncated" := Bool(w.blockersCut)];
    AddField(m3, "readback_items_total", Int(w.itemsTotal), 108, 22, 20);
    assert CountMembers(w) == m3["readback_items_total" := Int(w.itemsTotal)];
  }

  lemma TailMembersLength(w: Windows)
    requires Len(Array(BlockerValues(w.blockers))) <= BLOCKER_WINDOW_BYTES_MAX
    ensures Len(Object(TailMembers(w))) <= 49_275
  {
    hide Len, Quoted, BlockerValues;
    TailNames();
    BoolLength(false);
    NumberLength(w.suggestionsTotal);
    var blockers := Array(BlockerValues(w.blockers));
    OneField("readback_items_truncated", Bool(false), 26, 5);
    var m1 := map["readback_items_truncated" := Bool(false)];
    AddField(m1, "suggestions_total", Int(w.suggestionsTotal), 35, 19, 20);
    var m2 := m1["suggestions_total" := Int(w.suggestionsTotal)];
    AddField(m2, "suggestions_truncated", Bool(false), 76, 23, 5);
    var m3 := m2["suggestions_truncated" := Bool(false)];
    AddField(m3, "blockers", blockers, 106, 10, 49_152);
    assert TailMembers(w) == m3["blockers" := blockers];
  }

  // ----- Delegation -----

  datatype Receipt = Receipt(id: Uuid, attempt: Uuid, package: Digest, result: Digest, acceptedAt: Timestamp)

  datatype Delegation =
    | Direct
    | Accepted(receipt: Option<Receipt>)
    | Stale(packageChanged: bool, receipt: Option<Receipt>)
    | Awaiting(itemsSatisfied: bool, blocked: bool)

  function ReceiptValue(receipt: Option<Receipt>): (v: Value) {
    match receipt
    case None => Null
    case Some(r) =>
      Object(map["receipt_id" := String(r.id), "attempt_id" := String(r.attempt), "package_digest" := String(r.package),
                 "result_digest" := String(r.result), "accepted_at" := String(r.acceptedAt)])
  }

  function DelegationWords(state: string, reason: string, action: string): (m: map<string, Value>) {
    map["state" := String(state), "reason" := String(reason), "safe_next_action" := String(action)]
  }

  function DelegationState(d: Delegation): (s: string) {
    match d
    case Direct => "not_applicable"
    case Accepted(_) => "accepted"
    case Stale(_, _) => "stale_acceptance"
    case Awaiting(_, _) => "awaiting_acceptance"
  }

  function DelegationReason(d: Delegation): (s: string) {
    match d
    case Direct => "direct_placement"
    case Accepted(_) => "current_receipt"
    case Stale(packageChanged, _) => if packageChanged then "package_changed" else "items_changed"
    case Awaiting(itemsSatisfied, blocked) =>
      if !itemsSatisfied then "items_incomplete" else if blocked then "blockers_open" else "receipt_required"
  }

  function SafeNextAction(d: Delegation): (s: string) {
    match d
    case Direct => "continue_direct"
    case Accepted(_) => "complete"
    case Stale(_, _) => "retry_or_rework"
    case Awaiting(itemsSatisfied, blocked) =>
      if !itemsSatisfied then "record_items" else if blocked then "clear_blockers" else "accept"
  }

  function AcceptedGuidance(): (s: string) {
    "Changing an accepted item makes the receipt stale; complete while its item state is current."
  }

  function StaleGuidance(): (s: string) {
    "The acceptance is stale. Retry or rework for a fresh attempt; do not redispatch automatically."
  }

  function AwaitingGuidance(): (s: string) {
    "Finish all items and corrections before acceptance; later item edits require a fresh attempt."
  }

  /** The guidance a delegated placement shows. */
  function Guidance(d: Delegation): (s: string)
    requires !d.Direct?
  {
    match d
    case Accepted(_) => AcceptedGuidance()
    case Stale(_, _) => StaleGuidance()
    case Awaiting(_, _) => AwaitingGuidance()
  }

  function DelegationFields(d: Delegation): (m: map<string, Value>) {
    var words := DelegationWords(DelegationState(d), DelegationReason(d), SafeNextAction(d));
    if d.Direct? then words
    else
      var guided := words["guidance" := String(Guidance(d))];
      if d.Awaiting? then guided else guided["receipt" := ReceiptValue(d.receipt)]
  }

  lemma ReceiptLength(receipt: Option<Receipt>)
    ensures Len(ReceiptValue(receipt)) <= 900
  {
    hide Len, Quoted, IsUuid, IsDigest;
    NullLength();
    if receipt.Some? {
      var r := receipt.value;
      KeyLength("receipt_id", 10);
      KeyLength("attempt_id", 10);
      KeyLength("package_digest", 14);
      KeyLength("result_digest", 13);
      KeyLength("accepted_at", 11);
      UuidLength(r.id);
      UuidLength(r.attempt);
      DigestLength(r.package);
      DigestLength(r.result);
      TextLength(r.acceptedAt, 24);
      OneField("receipt_id", String(r.id), 62, 38);
      var m1 := map["receipt_id" := String(r.id)];
      AddField(m1, "attempt_id", String(r.attempt), 104, 62, 38);
      var m2 := m1["attempt_id" := String(r.attempt)];
      AddField(m2, "package_digest", String(r.package), 206, 86, 73);
      var m3 := m2["package_digest" := String(r.package)];
      AddField(m3, "result_digest", String(r.result), 367, 80, 73);
      var m4 := m3["result_digest" := String(r.result)];
      AddField(m4, "accepted_at", String(r.acceptedAt), 522, 68, 146);
      assert ReceiptValue(receipt) == Object(m4["accepted_at" := String(r.acceptedAt)]);
    }
  }

  lemma DelegationWordsLength(state: string, reason: string, action: string)
    requires |state| <= 20 && |reason| <= 20 && |action| <= 20
    ensures Len(Object(DelegationWords(state, reason, action))) <= 600
  {
    hide Len, Quoted;
    KeyLength("state", 5);
    KeyLength("reason", 6);
    KeyLength("safe_next_action", 16);
    TextLength(state, 20);
    TextLength(reason, 20);
    TextLength(action, 20);
    OneField("state", String(state), 32, 122);
    var m1 := map["state" := String(state)];
    AddField(m1, "reason", String(reason), 158, 38, 122);
    var m2 := m1["reason" := String(reason)];
    AddField(m2, "safe_next_action", String(action), 320, 98, 122);
    assert DelegationWords(state, reason, action) == m2["safe_next_action" := String(action)];
  }

  lemma GuidedLength(words: map<string, Value>, guidance: string, receipt: Option<Receipt>)
    requires Len(Object(words)) <= 600 && |guidance| <= 120
    ensures var m := words["guidance" := String(guidance)];
            Len(Object(m)) <= 1_400 && Len(Object(m["receipt" := ReceiptValue(receipt)])) <= 2_400
  {
    hide Len, Quoted, ReceiptValue;
    KeyLength("guidance", 8);
    KeyLength("receipt", 7);
    TextLength(guidance, 120);
    ReceiptLength(receipt);
    AddField(words, "guidance", String(guidance), 600, 50, 722);
    AddField(words["guidance" := String(guidance)], "receipt", ReceiptValue(receipt), 1_400, 44, 900);
  }

  lemma DelegationTexts(d: Delegation)
    ensures |DelegationState(d)| <= 20 && |DelegationReason(d)| <= 20 && |SafeNextAction(d)| <= 20
  {
  }

  lemma AcceptedSize()
    ensures |AcceptedGuidance()| <= 120
  {
  }

  lemma StaleSize()
    ensures |StaleGuidance()| <= 120
  {
  }

  lemma AwaitingSize()
    ensures |AwaitingGuidance()| <= 120
  {
  }

  lemma GuidanceSize(d: Delegation)
    requires !d.Direct?
    ensures |Guidance(d)| <= 120
  {
    hide AcceptedGuidance, StaleGuidance, AwaitingGuidance;
    AcceptedSize();
    StaleSize();
    AwaitingSize();
  }

  /** The projection prints well within its charge. */
  lemma DelegationLength(d: Delegation)
    ensures FieldLength("delegation", Object(DelegationFields(d))) + 1 <= DELEGATION_PROJECTION_CHARGE
  {
    hide Len, Quoted, DelegationWords, ReceiptValue, DelegationState, DelegationReason, SafeNextAction, Guidance;
    DelegationTexts(d);
    KeyLength("delegation", 10);
    DelegationWordsLength(DelegationState(d), DelegationReason(d), SafeNextAction(d));
    var words := DelegationWords(DelegationState(d), DelegationReason(d), SafeNextAction(d));
    if !d.Direct? {
      GuidanceSize(d);
      GuidedLength(words, Guidance(d), if d.Awaiting? then None else d.receipt);
    }
  }

  // ----- Together -----

  datatype Runtime = Runtime(
    goal: Option<GoalView>, latest: Option<GoalOutcome>, place: Place, windows: Windows)

  function SessionMembers(r: Runtime): (m: map<string, Value>) {
    GoalMembers(r.goal, r.latest) + SchemaMembers(r.place) + PlaceMembers(r.place) + CountMembers(r.windows)
    + TailMembers(r.windows)
  }

  /** What the session adds to a response without a charge. */
  const SESSION_BYTES: nat := 87_200

  lemma SessionMembersLength(r: Runtime)
    requires Len(Array(BlockerValues(r.windows.blockers))) <= BLOCKER_WINDOW_BYTES_MAX
    ensures Len(Object(SessionMembers(r))) <= SESSION_BYTES
  {
    hide Len, GoalMembers, SchemaMembers, PlaceMembers, CountMembers, TailMembers, BlockerValues;
    GoalMembersLength(r.goal, r.latest);
    SchemaMembersLength(r.place);
    PlaceMembersLength(r.place);
    CountMembersLength(r.windows);
    TailMembersLength(r.windows);
    var m1 := GoalMembers(r.goal, r.latest) + SchemaMembers(r.place);
    MergeLength(GoalMembers(r.goal, r.latest), SchemaMembers(r.place));
    var m2 := m1 + PlaceMembers(r.place);
    MergeLength(m1, PlaceMembers(r.place));
    MergeLength(m2, CountMembers(r.windows));
    MergeLength(m2 + CountMembers(r.windows), TailMembers(r.windows));
  }
}
