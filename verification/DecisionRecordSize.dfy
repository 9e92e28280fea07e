/**
  A complete decision record in the readback never outgrows its charge, with or without the goal
  assessment that was decided.
  */
module DecisionRecordSize {
  import opened Utf8
  import opened CanonicalJson
  import opened CanonicalLength
  import opened Procedure
  import opened NextBudget
  import opened Saturation
  import opened TariffCoverage
  import opened TariffInstances

  // ----- Records -----

  type Actor = s: string | TextWithin(s, 256) witness "a"

  type Timestamp = s: string | |s| == 24 witness "1970-01-01T00:00:00.000Z"

  datatype Effect = Advance | Rework

  datatype SnapshotData = SnapshotData(attemptId: Uuid, attemptNumber: U64, itemsDigest: Digest)

  datatype ReferenceSnapshot =
    | Resolved(source: Identifier, data: SnapshotData)
    | Skipped(source: Identifier, data: SnapshotData)
    | Unresolved(source: Identifier)

  datatype GoalOutcome = Achieved | NotAchieved | Superseded

  datatype GoalAssessment = GoalAssessment(outcome: GoalOutcome, results: seq<CriterionResult>)

  datatype DecisionRecord = DecisionRecord(
    trace: U64, sessionId: Uuid, sessionRevision: U64, snapshotId: Uuid, digest: Digest,
    graphNode: Identifier, definition: Identifier, attemptId: Uuid, attemptNumber: U64, goalRevision: Option<U64>,
    optionId: Identifier, effect: Effect, target: Identifier, reason: Reason, actor: Option<Actor>,
        recordedAt: Timestamp,
    references: seq<ReferenceSnapshot>, assessment: Option<GoalAssessment>)

  /** One to sixteen valid results, either all of them `not_applicable` or none. */
  ghost predicate ValidAssessment(a: GoalAssessment) {
    && 1 <= |a.results| <= MAX_GOAL_CRITERIA
    && (forall i :: 0 <= i < |a.results| ==> ValidResult(a.results[i]))
    && (forall i :: 0 <= i < |a.results| ==>
          (a.results[i].status == NotApplicable <==> a.results[0].status == NotApplicable))
  }

  ghost predicate ValidRecord(r: DecisionRecord) {
    && |r.references| <= MAX_RECORD_REFERENCES
    && (r.assessment.Some? ==> ValidAssessment(r.assessment.value))
  }

  // ----- Their JSON -----

  function EffectName(e: Effect): (s: string) {
    match e
    case Advance => "advance"
    case Rework => "rework"
  }

  function OutcomeName(o: GoalOutcome): (s: string) {
    match o
    case Achieved => "achieved"
    case NotAchieved => "not_achieved"
    case Superseded => "superseded"
  }

  function ModeName(a: GoalAssessment): (s: string)
    requires a.results != []
  {
    if a.results[0].status == NotApplicable then "applicability" else "assessment"
  }

  function StateName(r: ReferenceSnapshot): (s: string) {
    match r
    case Resolved(_, _) => "resolved"
    case Skipped(_, _) => "skipped"
    case Unresolved(_) => "unresolved"
  }

  function SnapshotFields(r: ReferenceSnapshot): (m: map<string, Value>) {
    if r.Unresolved? then map[]
    else
      map["source_attempt_id" := String(r.data.attemptId), "source_attempt_number" := Int(r.data.attemptNumber),
          "items_digest" := String(r.data.itemsDigest)]
  }

  function SnapshotValue(r: ReferenceSnapshot): (v: Value) {
    Object(map["source_graph_node_id" := String(r.source), "state" := String(StateName(r))] + SnapshotFields(r))
  }

  function SnapshotValues(references: seq<ReferenceSnapshot>): (r: seq<Value>)
    ensures |r| == |references|
    ensures forall i :: 0 <= i < |references| ==> r[i] == SnapshotValue(references[i])
  {
    seq(|references|, i requires 0 <= i < |references| => SnapshotValue(references[i]))
  }

  function ResultValues(results: seq<CriterionResult>): (r: seq<Value>)
    ensures |r| == |results|
    ensures forall i :: 0 <= i < |results| ==> r[i] == ResultValue(results[i])
  {
    seq(|results|, i requires 0 <= i < |results| => ResultValue(results[i]))
  }

  function IdentityFields(r: DecisionRecord): (m: map<string, Value>) {
    map["trace_sequence" := Int(r.trace), "session_id" := String(r.sessionId),
        "session_revision" := Int(r.sessionRevision),
        "procedure_schema" := String("podway.procedure/v2"), "procedure_snapshot_id" := String(r.snapshotId),
        "procedure_digest" := String(r.digest)]
  }

  function RevisionValue(revision: Option<U64>): (v: Value) {
    if revision.Some? then Int(revision.value) else Null
  }

  function AttemptFields(r: DecisionRecord): (m: map<string, Value>) {
    map["graph_node_id" := String(r.graphNode), "node_definition_id" := String(r.definition),
        "attempt_id" := String(r.attemptId), "attempt_number" := Int(r.attemptNumber),
        "goal_revision" := RevisionValue(r.goalRevision)]
  }

  function RouteFields(r: DecisionRecord): (m: map<string, Value>) {
    map["option_id" := String(r.optionId), "effect" := String(EffectName(r.effect)),
        "target_graph_node_id" := String(r.target), "reason" := String(r.reason), "recorded_at" := String(r.recordedAt)]
  }

  function ActorFields(r: DecisionRecord): (m: map<string, Value>) {
    if r.actor.Some? then map["actor" := String(r.actor.value)] else map[]
  }

  function ReferenceFields(r: DecisionRecord): (m: map<string, Value>) {
    map["references" := Array(SnapshotValues(r.references))]
  }

  function AssessmentFields(a: GoalAssessment): (m: map<string, Value>)
    requires a.results != []
  {
    map["assessment" := String("session_goal"), "assessment_mode" := String(ModeName(a)),
        "goal_outcome" := String(OutcomeName(a.outcome)), "criterion_results" := Array(ResultValues(a.results))]
  }

  /** The record as the readback prints it. */
  function RecordFields(r: DecisionRecord): (m: map<string, Value>)
    requires r.assessment.Some? ==> r.assessment.value.results != []
  {
    IdentityFields(r) + AttemptFields(r) + RouteFields(r) + ActorFields(r) + ReferenceFields(r)
    + (if r.assessment.Some? then AssessmentFields(r.assessment.value) else map[])
  }

  // ----- Their prices -----

  /** A group of fields with short names that costs at most `price`. */
  ghost predicate Costs(m: map<string, Value>, price: nat) {
    Printable(Object(m)) && Price(Object(m)) <= price
  }

  lemma Merge(a: map<string, Value>, b: map<string, Value>, priceA: nat, priceB: nat)
    requires Costs(a, priceA) && Costs(b, priceB)
    ensures Costs(a + b, priceA + priceB)
  {
    hide Price;
    MergePrice(a, b);
  }

  /** A field name made of lower-case letters and underscores. */
  predicate PlainName(k: string) {
    |k| <= 30 && forall i :: 0 <= i < |k| ==> 'a' <= k[i] <= 'z' || k[i] == '_'
  }

  lemma Put(m: map<string, Value>, soFar: nat, k: string, v: Value, price: nat)
    requires Costs(m, soFar) && PlainName(k) && Printable(v) && Price(v) <= price
    ensures Costs(m[k := v], soFar + 64 + price)
  {
    hide Price, Quoted;
    PlainLength(k);
    PutField(m, k, v, soFar, price);
  }

  lemma PutText(m: map<string, Value>, soFar: nat, k: string, s: string, characters: nat)
    requires Costs(m, soFar) && PlainName(k) && |s| <= characters
    ensures Costs(m[k := String(s)], soFar + 64 + 6 * characters)
  {
    Put(m, soFar, k, String(s), 6 * characters);
  }

  lemma PutNumber(m: map<string, Value>, soFar: nat, k: string, n: U64)
    requires Costs(m, soFar) && PlainName(k)
    ensures Costs(m[k := Int(n)], soFar + 84)
  {
    hide Price;
    NumberPrice(n);
    Put(m, soFar, k, Int(n), 20);
  }

  lemma NumberPrice(n: U64)
    ensures Price(Int(n)) <= 20
  {
    IntegerLength(n);
  }

  lemma Nothing()
    ensures Costs(map[], 0)
  {
    NoFieldsPrice();
  }

  lemma IdentityCosts(r: DecisionRecord)
    ensures Costs(IdentityFields(r), 1_396)
  {
    hide Costs, IsUuid, IsDigest;
    Nothing();
    var m0: map<string, Value> := map[];
    var m1 := m0["trace_sequence" := Int(r.trace)];
    PutNumber(m0, 0, "trace_sequence", r.trace);
    var m2 := m1["session_id" := String(r.sessionId)];
    assert |r.sessionId| == 36 by { UuidSize(r.sessionId); }
    PutText(m1, 84, "session_id", r.sessionId, 36);
    var m3 := m2["session_revision" := Int(r.sessionRevision)];
    PutNumber(m2, 364, "session_revision", r.sessionRevision);
    var m4 := m3["procedure_schema" := String("podway.procedure/v2")];
    PutText(m3, 448, "procedure_schema", "podway.procedure/v2", 19);
    var m5 := m4["procedure_snapshot_id" := String(r.snapshotId)];
    assert |r.snapshotId| == 36 by { UuidSize(r.snapshotId); }
    PutText(m4, 626, "procedure_snapshot_id", r.snapshotId, 36);
    assert |r.digest| == 71 by { DigestSize(r.digest); }
    PutText(m5, 906, "procedure_digest", r.digest, 71);
    assert IdentityFields(r) == m5["procedure_digest" := String(r.digest)];
  }

  lemma UuidSize(s: Uuid)
    ensures |s| == 36
  {
  }

  lemma DigestSize(s: Digest)
    ensures |s| == 71
  {
  }

  lemma IdentifierSize(s: Identifier)
    ensures |s| <= 64
  {
  }

  lemma AttemptCosts(r: DecisionRecord)
    ensures Costs(AttemptFields(r), 1_344)
  {
    hide Costs, IsUuid, IsIdentifier, RevisionValue;
    Nothing();
    IdentifierSize(r.graphNode);
    IdentifierSize(r.definition);
    UuidSize(r.attemptId);
    var m0: map<string, Value> := map[];
    var m1 := m0["graph_node_id" := String(r.graphNode)];
    PutText(m0, 0, "graph_node_id", r.graphNode, 64);
    var m2 := m1["node_definition_id" := String(r.definition)];
    PutText(m1, 448, "node_definition_id", r.definition, 64);
    var m3 := m2["attempt_id" := String(r.attemptId)];
    PutText(m2, 896, "attempt_id", r.attemptId, 36);
    var m4 := m3["attempt_number" := Int(r.attemptNumber)];
    PutNumber(m3, 1_176, "attempt_number", r.attemptNumber);
    RevisionPrice(r.goalRevision);
    Put(m4, 1_260, "goal_revision", RevisionValue(r.goalRevision), 20);
    assert AttemptFields(r) == m4["goal_revision" := RevisionValue(r.goalRevision)];
  }

  lemma RevisionPrice(revision: Option<U64>)
    ensures Printable(RevisionValue(revision)) && Price(RevisionValue(revision)) <= 20
  {
    if revision.Some? { NumberPrice(revision.value); }
  }

  lemma RouteCosts(r: DecisionRecord)
    ensures Costs(RouteFields(r), 13_274)
  {
    hide Costs, IsIdentifier;
    Nothing();
    IdentifierSize(r.optionId);
    IdentifierSize(r.target);
    var m0: map<string, Value> := map[];
    var m1 := m0["option_id" := String(r.optionId)];
    PutText(m0, 0, "option_id", r.optionId, 64);
    var m2 := m1["effect" := String(EffectName(r.effect))];
    PutText(m1, 448, "effect", EffectName(r.effect), 7);
    var m3 := m2["target_graph_node_id" := String(r.target)];
    PutText(m2, 554, "target_graph_node_id", r.target, 64);
    var m4 := m3["reason" := String(r.reason)];
    PutText(m3, 1_002, "reason", r.reason, 2_000);
    PutText(m4, 13_066, "recorded_at", r.recordedAt, 24);
    assert RouteFields(r) == m4["recorded_at" := String(r.recordedAt)];
  }

  lemma ActorCosts(r: DecisionRecord)
    ensures Costs(ActorFields(r), 1_600)
  {
    hide Costs;
    Nothing();
    CostsMore(map[], 0, 1_600);
    if r.actor.Some? {
      var m0: map<string, Value> := map[];
      PutText(m0, 0, "actor", r.actor.value, 256);
      assert ActorFields(r) == m0["actor" := String(r.actor.value)];
    }
  }

  lemma CostsMore(m: map<string, Value>, price: nat, more: nat)
    requires Costs(m, price) && price <= more
    ensures Costs(m, more)
  {
  }

  lemma SnapshotCosts(r: ReferenceSnapshot)
    ensures Printable(SnapshotValue(r)) && Price(SnapshotValue(r)) <= 1_414
  {
    var m2 := map["source_graph_node_id" := String(r.source), "state" := String(StateName(r))];
    var n := |StateName(r)|;
    assert Costs(m2, 512 + 6 * n) by { SnapshotHead(r); }
    assert Costs(SnapshotFields(r), if r.Unresolved? then 0 else 854) by { SnapshotTail(r); }
    hide Price;
    Merge(m2, SnapshotFields(r), 512 + 6 * n, if r.Unresolved? then 0 else 854);
  }

  lemma SnapshotHead(r: ReferenceSnapshot)
    ensures Costs(map["source_graph_node_id" := String(r.source), "state" := String(StateName(r))],
                  512 + 6 * |StateName(r)|)
  {
    hide Costs, IsIdentifier, StateName;
    Nothing();
    IdentifierSize(r.source);
    var m0: map<string, Value> := map[];
    var m1 := m0["source_graph_node_id" := String(r.source)];
    PutText(m0, 0, "source_graph_node_id", r.source, 64);
    PutText(m1, 448, "state", StateName(r), |StateName(r)|);
    assert m1["state" := String(StateName(r))]
        == map["source_graph_node_id" := String(r.source), "state" := String(StateName(r))];
  }

  lemma SnapshotTail(r: ReferenceSnapshot)
    ensures Costs(SnapshotFields(r), if r.Unresolved? then 0 else 854)
  {
    hide Costs, IsUuid, IsDigest;
    Nothing();
    if !r.Unresolved? {
      UuidSize(r.data.attemptId);
      DigestSize(r.data.itemsDigest);
      var m0: map<string, Value> := map[];
      var m1 := m0["source_attempt_id" := String(r.data.attemptId)];
      PutText(m0, 0, "source_attempt_id", r.data.attemptId, 36);
      var m2 := m1["source_attempt_number" := Int(r.data.attemptNumber)];
      PutNumber(m1, 280, "source_attempt_number", r.data.attemptNumber);
      PutText(m2, 364, "items_digest", r.data.itemsDigest, 71);
      assert SnapshotFields(r) == m2["items_digest" := String(r.data.itemsDigest)];
    }
  }

  lemma ReferenceCosts(r: DecisionRecord)
    requires |r.references| <= MAX_RECORD_REFERENCES
    ensures Costs(ReferenceFields(r), 11_440)
  {
    hide Costs, SnapshotValue;
    var values := SnapshotValues(r.references);
    forall i | 0 <= i < |values| ensures Printable(values[i]) && Price(values[i]) <= 1_414 {
      SnapshotCosts(r.references[i]);
    }
    hide Price;
    ItemsPriceBound(values, 1_414);
    ArrayPrice(values);
    assert |values| * 1_422 <= 8 * 1_422;
    Nothing();
    var m0: map<string, Value> := map[];
    Put(m0, 0, "references", Array(values), 11_376);
    assert ReferenceFields(r) == m0["references" := Array(values)];
  }

  /** What the results cost with the mode that goes with them. */
  lemma ResultsCost(a: GoalAssessment)
    requires ValidAssessment(a)
    ensures Printable(Array(ResultValues(a.results)))
    ensures 6 * |ModeName(a)| + Price(Array(ResultValues(a.results))) <= 60 + 16 * 14_538
  {
    hide ResultValue;
    var values := ResultValues(a.results);
    var each: nat := if a.results[0].status == NotApplicable then 12_724 else 14_530;
    forall i | 0 <= i < |values| ensures Printable(values[i]) && Price(values[i]) <= each {
      ResultPrice(a.results[i]);
    }
    hide Price;
    ItemsPriceBound(values, each);
    ArrayPrice(values);
    assert |values| * (8 + each) <= 16 * (8 + each);
  }

  lemma AssessmentCosts(a: GoalAssessment)
    requires ValidAssessment(a)
    ensures Costs(AssessmentFields(a), 233_068)
  {
    hide Costs, ModeName, Price;
    ResultsCost(a);
    Nothing();
    var m0: map<string, Value> := map[];
    var m1 := m0["assessment" := String("session_goal")];
    PutText(m0, 0, "assessment", "session_goal", 12);
    var mode, results := 6 * |ModeName(a)|, Array(ResultValues(a.results));
    var m2 := m1["assessment_mode" := String(ModeName(a))];
    PutText(m1, 136, "assessment_mode", ModeName(a), |ModeName(a)|);
    var m3 := m2["goal_outcome" := String(OutcomeName(a.outcome))];
    PutText(m2, 200 + mode, "goal_outcome", OutcomeName(a.outcome), 12);
    Put(m3, 336 + mode, "criterion_results", results, Price(results));
    assert AssessmentFields(a) == m3["criterion_results" := results];
    CostsMore(AssessmentFields(a), 400 + mode + Price(results), 233_068);
  }

  /**
    Every valid record, of a plain decision or of a goal assessment, fits the charge of its kind:
    the field name, the record and a separator together.
    */
  lemma DecisionRecordCovered(r: DecisionRecord)
    requires ValidRecord(r)
    ensures FIELD_OVERHEAD + Price(Object(RecordFields(r))) <= DecisionRecordCharge(r.assessment.Some?)
    ensures FieldLength("decision_record", Object(RecordFields(r))) + 1 <= DecisionRecordCharge(r.assessment.Some?)
  {
    RecordCosts(r);
    hide Price, RecordFields, DecisionRecordCharge, ValidRecord, Len;
    PinnedPlainRecord();
    PinnedAssessmentRecord();
    TariffCovers(Object(RecordFields(r)));
    RecordName();
  }

  lemma RecordName()
    ensures |Quoted("decision_record")| == 17
  {
    hide Quoted;
    PlainLength("decision_record");
  }

  lemma RecordCosts(r: DecisionRecord)
    requires ValidRecord(r)
    ensures Costs(RecordFields(r), if r.assessment.Some? then 262_122 else 29_054)
  {
    hide Costs, IdentityFields, AttemptFields, RouteFields, ActorFields, ReferenceFields, AssessmentFields;
    IdentityCosts(r);
    AttemptCosts(r);
    Merge(IdentityFields(r), AttemptFields(r), 1_396, 1_344);
    var m2 := IdentityFields(r) + AttemptFields(r);
    RouteCosts(r);
    Merge(m2, RouteFields(r), 2_740, 13_274);
    var m3 := m2 + RouteFields(r);
    ActorCosts(r);
    Merge(m3, ActorFields(r), 16_014, 1_600);
    var m4 := m3 + ActorFields(r);
    ReferenceCosts(r);
    Merge(m4, ReferenceFields(r), 17_614, 11_440);
    var m5 := m4 + ReferenceFields(r);
    if r.assessment.Some? {
      AssessmentCosts(r.assessment.value);
      Merge(m5, AssessmentFields(r.assessment.value), 29_054, 233_068);
    } else {
      assert RecordFields(r) == m5;
    }
  }
}
