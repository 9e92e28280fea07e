/**
  What the evidence of a response says, member by member: references, readbacks, items with their
  previews, and complete decision records.
  */
module EvidenceContents {
  import opened CanonicalJson
  import opened JsonMembers
  import opened Procedure
  import opened TariffInstances
  import opened DecisionRecordSize
  import opened ReadbackSize
  import opened EvidenceSurface
  import PackageContents

  // ----- Snapshots and references -----

  predicate SnapshotWord(r: ReferenceSnapshot, word: string) {
    match r
    case Resolved(_, _) => word == "resolved"
    case Skipped(_, _) => word == "skipped"
    case Unresolved(_) => word == "unresolved"
  }

  /** A source attempt is named exactly if there is one. */
  ghost predicate SaysAttemptOf(v: Value, r: ReferenceSnapshot) {
    && At(v, "state").String? && SnapshotWord(r, At(v, "state").text)
    && if r.Unresolved? then Lacks(v, "source_attempt_id") && Lacks(v, "source_attempt_number")
       && Lacks(v, "items_digest")
       else
         && Holds(v, "source_attempt_id", String(r.data.attemptId))
         && Holds(v, "source_attempt_number", Int(r.data.attemptNumber))
         && Holds(v, "items_digest", String(r.data.itemsDigest))
  }

  ghost predicate SaysReference(v: Value, r: Readback) {
    && Holds(v, "source_graph_node_id", String(r.source)) && SaysOptional(v, "source_title", r.title)
    && SaysAttemptOf(v, r.snapshot)
  }

  lemma ReferenceSays(r: Readback)
    ensures SaysReference(Object(ReferenceMetadata(r, false)), r)
  {
  }

  // ----- Items and previews -----

  predicate UnitWord(value: Recorded, word: string) {
    match value
    case RecordedText(_) => word == "scalars"
    case RecordedList(_) => word == "entries"
    case RecordedCheck(_, _, _, _, _) => word == "bytes"
    case RecordedWhole(_) => word == "value"
  }

  predicate CheckWord(o: CheckOutcome, word: string) {
    match o
    case Pass => word == "pass"
    case Fail => word == "fail"
    case Inconclusive => word == "inconclusive"
  }

  function Charged(entries: seq<string>): (n: nat) {
    if entries == [] then 0 else 8 + 6 * |entries[0]| + Charged(entries[1..])
  }

  /** The longest run of whole entries that fits 5,628 bytes, and not an empty one. */
  ghost predicate LongestRun(entries: seq<string>, end: nat) {
    && 0 < end <= |entries| && Charged(entries[..end]) <= 5_628
    && (end < |entries| ==> Charged(entries[..end + 1]) > 5_628)
  }

  ghost predicate SaysCheck(v: Value, value: Recorded)
    requires value.RecordedCheck?
  {
    && Names(v, {"operation_id", "outcome", "operation_digest", "input_basis", "output_digest"})
    && Holds(v, "operation_id", String(value.operation))
    && At(v, "outcome").String? && CheckWord(value.outcome, At(v, "outcome").text)
    && Holds(v, "operation_digest", String(value.operationDigest))
    && Names(At(v, "input_basis"), {"digest"}) && Holds(At(v, "input_basis"), "digest", String(value.inputDigest))
    && Holds(v, "output_digest", String(value.outputDigest))
  }

  /** What is shown of a value, and whether something is left out. */
  ghost predicate SaysPreview(payload: Value, value: Recorded, truncated: bool) {
    match value
    case RecordedText(text) =>
      text != "" && payload == String(if |text| <= 938 then text else text[..938]) && truncated == (|text| > 938)
    case RecordedList(entries) =>
      exists end: nat :: LongestRun(entries, end) && SaysTexts(payload, entries[..end])
          && truncated == (end < |entries|)
    case RecordedCheck(_, _, _, _, _) => SaysCheck(payload, value) && !truncated
    case RecordedWhole(v) => payload == v && !truncated
  }

  ghost predicate SaysItem(v: Value, item: RecordedItem) {
    && Holds(v, "item_id", String(item.id))
    && At(v, "type").String? && PackageContents.TypeWord(item.kind, At(v, "type").text)
    && Holds(v, "revision", Int(item.revision)) && Holds(v, "value_digest", String(item.digest))
    && Holds(v, "total_size", Int(item.totalSize))
    && At(v, "size_unit").String? && UnitWord(item.value, At(v, "size_unit").text)
  }

  const ITEM_NAMES: set<string> := {"item_id", "type", "revision", "value_digest", "total_size", "size_unit"}

  /** With a preview the item says what is shown, and where to go on if that is not all. */
  ghost predicate SaysPrinted(v: Value, i: PrintedItem) {
    && SaysItem(v, i.item)
    && match i
       case Plain(_) => Names(v, ITEM_NAMES)
       case Previewed(item, payload, truncated) =>
         && SaysPreview(payload, item.value, truncated)
         && Holds(v, "preview", payload) && Holds(v, "preview_truncated", Bool(truncated))
         && if truncated then
              && Names(v, ITEM_NAMES + {"preview", "preview_truncated", "next_page_token"})
              && Holds(v, "next_page_token", String(item.token))
            else Names(v, ITEM_NAMES + {"preview", "preview_truncated"})
  }

  lemma {:induction false} ChargedIsCost(entries: seq<string>)
    ensures Charged(entries) == EntriesCost(entries)
  {
    if entries != [] { ChargedIsCost(entries[1..]); }
  }

  lemma RunIsEnd(entries: seq<string>, end: nat)
    requires 0 < end && IsPreviewEnd(entries, end)
    ensures LongestRun(entries, end)
  {
    hide Charged, EntriesCost;
    ChargedIsCost(entries[..end]);
    if end < |entries| { ChargedIsCost(entries[..end + 1]); }
  }

  lemma CheckSays(value: Recorded)
    requires value.RecordedCheck?
    ensures SaysCheck(CheckPreview(value), value)
  {
    hide IsIdentifier, IsDigest;
  }

  lemma PreviewSays(value: Recorded, payload: Value, truncated: bool)
    requires Shows(value, payload, truncated)
    ensures SaysPreview(payload, value, truncated)
  {
    hide Charged, EntriesCost, SaysCheck, CheckPreview;
    match value
    case RecordedText(text) => assert |text| <= 938 ==> text[..|text|] == text;
    case RecordedList(entries) =>
      var end: nat :| 0 < end && IsPreviewEnd(entries, end) && payload == Array(Texts(entries[..end]))
                 && truncated == (end < |entries|);
      RunIsEnd(entries, end);
      assert LongestRun(entries, end) && SaysTexts(payload, entries[..end]) && truncated == (end < |entries|);
    case RecordedCheck(_, _, _, _, _) => CheckSays(value);
    case RecordedWhole(_) =>
  }

  lemma ItemSays(item: RecordedItem)
    ensures SaysItem(Object(ItemFields(item)), item) && Names(Object(ItemFields(item)), ITEM_NAMES)
  {
    hide IsIdentifier, IsDigest;
  }

  /** Members added under other names leave the item as it was. */
  lemma ItemKeeps(v: Value, w: Value, item: RecordedItem)
    requires SaysItem(v, item) && w.Object?
    requires forall name :: name in ITEM_NAMES ==>
                              name in v.members && name in w.members && v.members[name] == w.members[name]
    ensures SaysItem(w, item)
  {
    hide IsIdentifier, IsDigest;
  }

  lemma PrintedSays(i: PrintedItem)
    requires ValidItem(i)
    ensures SaysPrinted(PrintedValue(i), i)
  {
    hide Shows, SaysPreview, SaysItem, ItemFields, IsIdentifier, IsDigest;
    ItemSays(i.item);
    if i.Previewed? {
      PreviewSays(i.item.value, i.payload, i.truncated);
      ItemKeeps(Object(ItemFields(i.item)), PrintedValue(i), i.item);
    }
  }

  ghost predicate SaysAllPrinted(v: Value, items: seq<PrintedItem>) {
    v.Array? && |v.items| == |items| && forall i :: 0 <= i < |items| ==> SaysPrinted(v.items[i], items[i])
  }

  lemma AllPrintedSay(items: seq<PrintedItem>)
    requires AllValid(items)
    ensures SaysAllPrinted(Array(PrintedValues(items)), items)
  {
    hide SaysPrinted, PrintedValue, ValidItem;
    forall i | 0 <= i < |items| ensures SaysPrinted(PrintedValues(items)[i], items[i]) {
      PrintedSays(items[i]);
    }
  }

  // ----- Decision records -----

  predicate EffectWord(e: Effect, word: string) {
    match e
    case Advance => word == "advance"
    case Rework => word == "rework"
  }

  predicate GoalWord(o: GoalOutcome, word: string) {
    match o
    case Achieved => word == "achieved"
    case NotAchieved => word == "not_achieved"
    case Superseded => word == "superseded"
  }

  predicate CriterionWord(s: CriterionStatus, word: string) {
    match s
    case Satisfied => word == "satisfied"
    case Unsatisfied => word == "unsatisfied"
    case NotApplicable => word == "not_applicable"
  }

  ghost predicate SaysCitation(v: Value, c: Citation) {
    match c
    case Evidence(node) => Names(v, {"reference_graph_node_id"}) && Holds(v, "reference_graph_node_id", String(node))
    case Item(item) => Names(v, {"local_item_id"}) && Holds(v, "local_item_id", String(item))
  }

  ghost predicate SaysCriterion(v: Value, r: CriterionResult) {
    var citations := At(v, "citations");
    && Names(v, {"criterion_id", "status", "reason", "citations"})
    && Holds(v, "criterion_id", String(r.criterionId))
    && At(v, "status").String? && CriterionWord(r.status, At(v, "status").text)
    && Holds(v, "reason", String(r.reason))
    && citations.Array? && |citations.items| == |r.citations|
    && forall i :: 0 <= i < |r.citations| ==> SaysCitation(citations.items[i], r.citations[i])
  }

  ghost predicate SaysAssessment(v: Value, a: GoalAssessment)
    requires a.results != []
  {
    var results := At(v, "criterion_results");
    && Holds(v, "assessment", String("session_goal"))
    && Holds(v, "assessment_mode", String(if a.results[0].status.NotApplicable? then "applicability" else "assessment"))
    && At(v, "goal_outcome").String? && GoalWord(a.outcome, At(v, "goal_outcome").text)
    && results.Array? && |results.items| == |a.results|
    && forall i :: 0 <= i < |a.results| ==> SaysCriterion(results.items[i], a.results[i])
  }

  ghost predicate SaysSnapshot(v: Value, r: ReferenceSnapshot) {
    Holds(v, "source_graph_node_id", String(r.source)) && SaysAttemptOf(v, r)
  }

  ghost predicate SaysSnapshots(v: Value, references: seq<ReferenceSnapshot>) {
    && v.Array? && |v.items| == |references|
    && forall i :: 0 <= i < |references| ==> SaysSnapshot(v.items[i], references[i])
  }

  ghost predicate SaysOrigin(v: Value, r: DecisionRecord) {
    && Holds(v, "trace_sequence", Int(r.trace)) && Holds(v, "session_id", String(r.sessionId))
    && Holds(v, "session_revision", Int(r.sessionRevision))
    && Holds(v, "procedure_schema", String("podway.procedure/v2"))
    && Holds(v, "procedure_snapshot_id", String(r.snapshotId)) && Holds(v, "procedure_digest", String(r.digest))
  }

  ghost predicate SaysDecided(v: Value, r: DecisionRecord) {
    && Holds(v, "graph_node_id", String(r.graphNode)) && Holds(v, "node_definition_id", String(r.definition))
    && Holds(v, "attempt_id", String(r.attemptId)) && Holds(v, "attempt_number", Int(r.attemptNumber))
    && Holds(v, "goal_revision", if r.goalRevision.Some? then Int(r.goalRevision.value) else Null)
    && Holds(v, "option_id", String(r.optionId))
    && At(v, "effect").String? && EffectWord(r.effect, At(v, "effect").text)
    && Holds(v, "target_graph_node_id", String(r.target)) && Holds(v, "reason", String(r.reason))
    && Holds(v, "recorded_at", String(r.recordedAt)) && SaysOptional(v, "actor", r.actor)
  }

  ghost predicate SaysRecord(v: Value, r: DecisionRecord)
    requires r.assessment.Some? ==> r.assessment.value.results != []
  {
    && SaysOrigin(v, r) && SaysDecided(v, r) && SaysSnapshots(At(v, "references"), r.references)
    && (if r.assessment.Some? then SaysAssessment(v, r.assessment.value) else Lacks(v, "assessment"))
  }

  lemma CriterionSays(r: CriterionResult)
    ensures SaysCriterion(ResultValue(r), r)
  {
    hide IsIdentifier;
  }

  lemma SnapshotsSay(references: seq<ReferenceSnapshot>)
    ensures SaysSnapshots(Array(SnapshotValues(references)), references)
  {
    hide SaysSnapshot, SnapshotValue;
    forall i | 0 <= i < |references| ensures SaysSnapshot(SnapshotValues(references)[i], references[i]) {
      SnapshotSays(references[i]);
    }
  }

  lemma SnapshotSays(r: ReferenceSnapshot)
    ensures SaysSnapshot(SnapshotValue(r), r)
  {
    hide IsIdentifier, IsUuid, IsDigest;
  }

  const ORIGIN_NAMES: set<string> :=
    {"trace_sequence", "session_id", "session_revision", "procedure_schema", "procedure_snapshot_id",
     "procedure_digest"}
  const ATTEMPT_NAMES: set<string> :=
    {"graph_node_id", "node_definition_id", "attempt_id", "attempt_number", "goal_revision"}
  const ROUTE_NAMES: set<string> := {"option_id", "effect", "target_graph_node_id", "reason", "recorded_at"}
  const ASSESSMENT_NAMES: set<string> := {"assessment", "assessment_mode", "goal_outcome", "criterion_results"}

  lemma OriginApart()
    ensures ORIGIN_NAMES !! ATTEMPT_NAMES && ORIGIN_NAMES !! ROUTE_NAMES && ORIGIN_NAMES !! ASSESSMENT_NAMES
    ensures ORIGIN_NAMES !! {"actor", "references"}
  {
  }

  lemma RecordNames()
    ensures ATTEMPT_NAMES !! ROUTE_NAMES && ATTEMPT_NAMES !! ASSESSMENT_NAMES && ROUTE_NAMES !! ASSESSMENT_NAMES
    ensures ATTEMPT_NAMES + ROUTE_NAMES + ASSESSMENT_NAMES !! {"actor", "references"} && {"actor"} !! {"references"}
  {
  }

  function AssessedFields(r: DecisionRecord): (m: map<string, Value>)
    requires r.assessment.Some? ==> r.assessment.value.results != []
  {
    if r.assessment.Some? then AssessmentFields(r.assessment.value) else map[]
  }

  lemma PartNames(r: DecisionRecord)
    requires r.assessment.Some? ==> r.assessment.value.results != []
    ensures IdentityFields(r).Keys == ORIGIN_NAMES && AttemptFields(r).Keys == ATTEMPT_NAMES
    ensures RouteFields(r).Keys == ROUTE_NAMES && ActorFields(r).Keys <= {"actor"}
    ensures ReferenceFields(r).Keys == {"references"} && AssessedFields(r).Keys <= ASSESSMENT_NAMES
    ensures r.assessment.None? ==> AssessedFields(r).Keys == {}
  {
    hide IsIdentifier, IsUuid, IsDigest, ModeName, OutcomeName, ResultValues, SnapshotValues, EffectName,
         RevisionValue;
  }

  /** The record has all the members of each of its parts. */
  lemma RecordParts(r: DecisionRecord)
    requires r.assessment.Some? ==> r.assessment.value.results != []
    ensures var m := RecordFields(r);
            && Extends(m, IdentityFields(r)) && Extends(m, AttemptFields(r)) && Extends(m, RouteFields(r))
            && Extends(m, ActorFields(r)) && Extends(m, ReferenceFields(r)) && Extends(m, AssessedFields(r))
    ensures "actor" in RecordFields(r) <==> r.actor.Some?
    ensures "assessment" in RecordFields(r) <==> r.assessment.Some?
  {
    hide IdentityFields, AttemptFields, RouteFields, ReferenceFields, AssessmentFields, Extends, AssessedFields,
         ActorFields;
    PartNames(r);
    OriginApart();
    RecordNames();
    PartsOfSix(IdentityFields(r), AttemptFields(r), RouteFields(r), ActorFields(r), ReferenceFields(r),
               AssessedFields(r));
    AssessmentNamed(r);
    SameRecord(r);
    assert "actor" !in ORIGIN_NAMES + ATTEMPT_NAMES + ROUTE_NAMES + {"references"} + ASSESSMENT_NAMES;
    assert "assessment" !in ORIGIN_NAMES + ATTEMPT_NAMES + ROUTE_NAMES + {"references", "actor"};
  }

  lemma SameRecord(r: DecisionRecord)
    requires r.assessment.Some? ==> r.assessment.value.results != []
    ensures RecordFields(r) == IdentityFields(r) + AttemptFields(r) + RouteFields(r) + ActorFields(r)
            + ReferenceFields(r)
                               + AssessedFields(r)
    ensures "actor" in ActorFields(r) <==> r.actor.Some?
  {
    hide IdentityFields, AttemptFields, RouteFields, ReferenceFields, AssessmentFields;
  }

  lemma AssessmentNamed(r: DecisionRecord)
    requires r.assessment.Some? ==> r.assessment.value.results != []
    ensures "assessment" in AssessedFields(r) <==> r.assessment.Some?
  {
    hide ModeName, OutcomeName, ResultValues;
  }

  lemma OriginOf(m: map<string, Value>, r: DecisionRecord)
    requires Extends(m, IdentityFields(r))
    ensures SaysOrigin(Object(m), r)
  {
    hide IsIdentifier, IsUuid, IsDigest, Extends, Holds, At;
    var part := IdentityFields(r);
    StillHolds(m, part, "trace_sequence");
    StillHolds(m, part, "session_id");
    StillHolds(m, part, "session_revision");
    StillHolds(m, part, "procedure_schema");
    StillHolds(m, part, "procedure_snapshot_id");
    StillHolds(m, part, "procedure_digest");
  }

  lemma OriginSays(r: DecisionRecord)
    requires r.assessment.Some? ==> r.assessment.value.results != []
    ensures SaysOrigin(Object(RecordFields(r)), r)
  {
    hide RecordFields, SaysOrigin, Extends;
    RecordParts(r);
    OriginOf(RecordFields(r), r);
  }

  lemma AttemptOf(m: map<string, Value>, r: DecisionRecord)
    requires Extends(m, AttemptFields(r))
    ensures var v := Object(m);
            && Holds(v, "graph_node_id", String(r.graphNode)) && Holds(v, "node_definition_id", String(r.definition))
            && Holds(v, "attempt_id", String(r.attemptId)) && Holds(v, "attempt_number", Int(r.attemptNumber))
            && Holds(v, "goal_revision", if r.goalRevision.Some? then Int(r.goalRevision.value) else Null)
  {
    hide IsIdentifier, IsUuid, IsDigest, Extends, Holds, At;
    var part := AttemptFields(r);
    StillHolds(m, part, "graph_node_id");
    StillHolds(m, part, "node_definition_id");
    StillHolds(m, part, "attempt_id");
    StillHolds(m, part, "attempt_number");
    StillHolds(m, part, "goal_revision");
  }

  lemma RouteOf(m: map<string, Value>, r: DecisionRecord)
    requires Extends(m, RouteFields(r))
    ensures var v := Object(m);
            && Holds(v, "option_id", String(r.optionId))
            && At(v, "effect").String? && EffectWord(r.effect, At(v, "effect").text)
            && Holds(v, "target_graph_node_id", String(r.target)) && Holds(v, "reason", String(r.reason))
            && Holds(v, "recorded_at", String(r.recordedAt))
  {
    hide IsIdentifier, IsUuid, IsDigest, Extends, Holds, At;
    var part := RouteFields(r);
    StillHolds(m, part, "option_id");
    StillHolds(m, part, "effect");
    StillHolds(m, part, "target_graph_node_id");
    StillHolds(m, part, "reason");
    StillHolds(m, part, "recorded_at");
  }

  lemma ActorOf(m: map<string, Value>, r: DecisionRecord)
    requires Extends(m, ActorFields(r)) && ("actor" in m <==> r.actor.Some?)
    ensures SaysOptional(Object(m), "actor", r.actor)
  {
  }

  lemma DecidedSays(r: DecisionRecord)
    requires r.assessment.Some? ==> r.assessment.value.results != []
    ensures SaysDecided(Object(RecordFields(r)), r)
  {
    hide RecordFields, Extends, Holds, At, SaysOptional, AttemptFields, RouteFields, ActorFields, EffectWord;
    RecordParts(r);
    AttemptOf(RecordFields(r), r);
    RouteOf(RecordFields(r), r);
    ActorOf(RecordFields(r), r);
  }

  lemma ReferencesOf(m: map<string, Value>, r: DecisionRecord)
    requires Extends(m, ReferenceFields(r))
    ensures SaysSnapshots(At(Object(m), "references"), r.references)
  {
    hide SaysSnapshots, SnapshotValues;
    SnapshotsSay(r.references);
  }

  lemma AssessmentOf(m: map<string, Value>, a: GoalAssessment)
    requires a.results != [] && Extends(m, AssessmentFields(a))
    ensures SaysAssessment(Object(m), a)
  {
    hide IsIdentifier, SaysCriterion, ResultValue;
    assert At(Object(m), "criterion_results") == Array(ResultValues(a.results));
    forall i | 0 <= i < |a.results| ensures SaysCriterion(ResultValues(a.results)[i], a.results[i]) {
      CriterionSays(a.results[i]);
    }
  }

  lemma AssessmentSays(r: DecisionRecord)
    requires r.assessment.Some? ==> r.assessment.value.results != []
    ensures if r.assessment.Some? then SaysAssessment(Object(RecordFields(r)), r.assessment.value)
            else Lacks(Object(RecordFields(r)), "assessment")
    ensures SaysSnapshots(At(Object(RecordFields(r)), "references"), r.references)
  {
    hide RecordFields, Extends, ReferenceFields, AssessmentFields, SaysAssessment, SaysSnapshots;
    RecordParts(r);
    ReferencesOf(RecordFields(r), r);
    if r.assessment.Some? {
      AssessmentOf(RecordFields(r), r.assessment.value);
    }
  }

  lemma RecordSays(r: DecisionRecord)
    requires r.assessment.Some? ==> r.assessment.value.results != []
    ensures SaysRecord(Object(RecordFields(r)), r)
  {
    hide RecordFields, SaysOrigin, SaysDecided, SaysAssessment, SaysSnapshots;
    OriginSays(r);
    DecidedSays(r);
    AssessmentSays(r);
  }

  // ----- Readbacks -----

  const REFERENCE_NAMES: set<string> :=
    {"source_graph_node_id", "source_title", "state", "source_attempt_id", "source_attempt_number", "items_digest"}

  /** Members under other names do not change what is said about the reference. */
  lemma ReferenceKeeps(v: Value, w: Value, r: Readback)
    requires SaysReference(v, r) && w.Object?
    requires forall name :: name in REFERENCE_NAMES ==>
               (name in v.members <==> name in w.members) && At(v, name) == At(w, name)
    ensures SaysReference(w, r)
  {
    assert "source_graph_node_id" in REFERENCE_NAMES && "source_title" in REFERENCE_NAMES && "state" in REFERENCE_NAMES;
    assert "source_attempt_id" in REFERENCE_NAMES && "source_attempt_number" in REFERENCE_NAMES;
    assert "items_digest" in REFERENCE_NAMES;
  }

  ghost predicate SaysReadback(v: Value, r: Readback)
    requires r.decision.Some? ==> ValidRecord(r.decision.value)
  {
    && SaysReference(v, r) && SaysAllPrinted(At(v, "items"), r.items)
    && Holds(v, "items_total", Int(|r.items|)) && Holds(v, "items_truncated", Bool(false))
    && (if r.decision.Some? then SaysRecord(At(v, "decision_record"), r.decision.value)
        else Lacks(v, "decision_record"))
  }

  lemma OtherNames()
    ensures "items" !in REFERENCE_NAMES && "items_total" !in REFERENCE_NAMES && "items_truncated" !in REFERENCE_NAMES
    ensures "decision_record" !in REFERENCE_NAMES
  {
  }

  lemma MetadataNames(r: Readback)
    ensures ReferenceMetadata(r, false).Keys <= REFERENCE_NAMES
  {
    hide IsIdentifier, IsUuid, IsDigest, ReferenceState;
  }

  lemma ReadbackSays(r: Readback)
    requires (r.decision.Some? ==> ValidRecord(r.decision.value)) && AllValid(r.items)
    ensures SaysReadback(Object(ReadbackFields(r)), r)
  {
    hide ReferenceMetadata, PrintedValues, RecordFields, SaysReference, SaysAllPrinted, SaysRecord, ValidRecord,
         ValidItem;
    ReferenceSays(r);
    OtherNames();
    MetadataNames(r);
    AllPrintedSay(r.items);
    ReferenceKeeps(Object(ReferenceMetadata(r, false)), Object(ReadbackFields(r)), r);
    if r.decision.Some? {
      AssessedResults(r.decision.value);
      RecordSays(r.decision.value);
    }
  }

  lemma AssessedResults(r: DecisionRecord)
    requires ValidRecord(r)
    ensures r.assessment.Some? ==> r.assessment.value.results != []
  {
  }

  // ----- Both arrays -----

  ghost predicate SaysReferences(v: Value, rs: seq<Readback>) {
    v.Array? && |v.items| == |rs| && forall i :: 0 <= i < |rs| ==> SaysReference(v.items[i], rs[i])
  }

  ghost predicate SaysReadbacks(v: Value, rs: seq<Readback>)
    requires forall i :: 0 <= i < |rs| && rs[i].decision.Some? ==> ValidRecord(rs[i].decision.value)
  {
    v.Array? && |v.items| == |rs| && forall i :: 0 <= i < |rs| ==> SaysReadback(v.items[i], rs[i])
  }

  lemma {:induction false} ReferencesSay(rs: seq<Readback>)
    ensures SaysReferences(Array(MetadataValues(rs)), rs)
  {
    hide SaysReference, ReferenceMetadata;
    if rs != [] {
      ReferenceSays(rs[0]);
      ReferencesSay(rs[1..]);
      var values := MetadataValues(rs);
      forall i | 0 <= i < |rs| ensures SaysReference(values[i], rs[i]) {
        if i > 0 { assert values[i] == values[1..][i - 1] && rs[i] == rs[1..][i - 1]; }
      }
    }
  }

  lemma {:induction false} ReadbacksSay(rs: seq<Readback>)
    requires forall i :: 0 <= i < |rs| && rs[i].decision.Some? ==> ValidRecord(rs[i].decision.value)
    requires forall i :: 0 <= i < |rs| ==> AllValid(rs[i].items)
    ensures SaysReadbacks(Array(ReadbackValues(rs)), rs)
  {
    hide SaysReadback, ReadbackFields, ValidRecord, ValidItem;
    if rs != [] {
      ReadbackSays(rs[0]);
      ReadbacksSay(rs[1..]);
      var values := ReadbackValues(rs);
      forall i | 0 <= i < |rs| ensures SaysReadback(values[i], rs[i]) {
        if i > 0 { assert values[i] == values[1..][i - 1] && rs[i] == rs[1..][i - 1]; }
      }
    }
  }
}
