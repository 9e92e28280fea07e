/**
  The evidence surface of `session.next` as the daemon prints it, reference by reference and as a
  whole, against the allocations charged for it when the Procedure was admitted.

  Not every printed field has a charge of its own. `items_total` and `items_truncated` of a readback
  and the name of the `preview` field are charged nowhere; they fit because identifiers, UUIDs and
  digests are charged six bytes a character and print as one.
  */
module EvidenceSurface {
  import opened Utf8
  import opened CanonicalJson
  import opened CanonicalLength
  import opened Procedure
  import opened Saturation
  import opened NextBudget
  import opened EvidenceBudget
  import opened BudgetTheorems
  import opened DecisionRecordSize
  import opened DelegationAdmission
  import opened ReadbackSize

  // ----- References -----

  type Title = s: string | |s| <= 120

  /**
    One declared reference as it is printed twice: as metadata and, with its items, as a readback.
    A source that no definition gives a title has none in its metadata.
    */
  datatype Readback = Readback(
    source: Identifier, title: Option<Title>, snapshot: ReferenceSnapshot, items: seq<PrintedItem>,
    decision: Option<DecisionRecord>)

  function TitleFields(r: Readback): (m: map<string, Value>) {
    if r.title.Some? then map["source_title" := String(r.title.value)] else map[]
  }

  /** A snapshot that later work has overtaken is `stale`, whatever it was resolved to. */
  function ReferenceState(r: Readback, stale: bool): (s: string) {
    if stale then "stale" else StateName(r.snapshot)
  }

  function ReferenceMetadata(r: Readback, stale: bool): (m: map<string, Value>) {
    map["source_graph_node_id" := String(r.source), "state" := String(ReferenceState(r, stale))] + TitleFields(r)
    + SnapshotFields(r.snapshot)
  }

  function ReadbackFields(r: Readback): (m: map<string, Value>)
    requires r.decision.Some? ==> ValidRecord(r.decision.value)
  {
    var m := ReferenceMetadata(r, false)["items" := Array(PrintedValues(r.items))]["items_total" := Int(|r.items|)]
             ["items_truncated" := Bool(false)];
    if r.decision.Some? then m["decision_record" := Object(RecordFields(r.decision.value))] else m
  }

  lemma SnapshotFieldsLength(base: map<string, Value>, r: ReferenceSnapshot, soFar: nat)
    requires Len(Object(base)) <= soFar
    ensures Len(Object(base + SnapshotFields(r))) <= soFar + 443
  {
    hide Len, Quoted, IsUuid, IsDigest;
    if r.Unresolved? {
      assert base + SnapshotFields(r) == base;
    } else {
      KeyLength("source_attempt_id", 17);
      KeyLength("source_attempt_number", 21);
      KeyLength("items_digest", 12);
      UuidLength(r.data.attemptId);
      NumberLength(r.data.attemptNumber);
      DigestLength(r.data.itemsDigest);
      var m1 := base["source_attempt_id" := String(r.data.attemptId)];
      AddField(base, "source_attempt_id", String(r.data.attemptId), soFar, 104, 38);
      var m2 := m1["source_attempt_number" := Int(r.data.attemptNumber)];
      AddField(m1, "source_attempt_number", Int(r.data.attemptNumber), soFar + 144, 128, 20);
      AddField(m2, "items_digest", String(r.data.itemsDigest), soFar + 294, 74, 73);
      assert base + SnapshotFields(r) == m2["items_digest" := String(r.data.itemsDigest)];
    }
  }

  lemma ReferenceMetadataLength(r: Readback, stale: bool)
    ensures Len(Object(ReferenceMetadata(r, stale))) <= 1_479
  {
    hide Len, Quoted, IsIdentifier, SnapshotFields, ReferenceState, TitleFields;
    var state := ReferenceState(r, stale);
    KeyLength("source_graph_node_id", 20);
    KeyLength("state", 5);
    IdentifierLength(r.source);
    StateLength(r, stale);
    OneField("source_graph_node_id", String(r.source), 122, 66);
    var m1 := map["source_graph_node_id" := String(r.source)];
    AddField(m1, "state", String(state), 192, 32, 12);
    var m2 := m1["state" := String(state)];
    assert m2 == map["source_graph_node_id" := String(r.source), "state" := String(state)];
    TitleFieldsLength(m2, r, 238);
    SnapshotFieldsLength(m2 + TitleFields(r), r.snapshot, 1_036);
  }

  lemma StateLength(r: Readback, stale: bool)
    ensures Len(String(ReferenceState(r, stale))) <= 12
  {
    WordLength(ReferenceState(r, stale));
  }

  lemma TitleFieldsLength(base: map<string, Value>, r: Readback, soFar: nat)
    requires Len(Object(base)) <= soFar
    ensures Len(Object(base + TitleFields(r))) <= soFar + 798
  {
    hide Len, Quoted;
    if r.title.Some? {
      KeyLength("source_title", 12);
      TextLength(r.title.value, 120);
      AddField(base, "source_title", String(r.title.value), soFar, 74, 722);
      assert base + TitleFields(r) == base["source_title" := String(r.title.value)];
    } else {
      assert base + TitleFields(r) == base;
    }
  }

  /** What the complete decision record of a readback takes, its name and separator included. */
  ghost function RecordLength(r: Readback): (n: nat)
    requires r.decision.Some? ==> ValidRecord(r.decision.value)
  {
    if r.decision.Some? then FieldLength("decision_record", Object(RecordFields(r.decision.value))) + 1 else 0
  }

  lemma ReadbackLength(r: Readback)
    requires (r.decision.Some? ==> ValidRecord(r.decision.value)) && |r.items| <= U64_MAX
    ensures Len(Object(ReadbackFields(r))) <= 1_704 + ItemsLength(PrintedValues(r.items)) + RecordLength(r)
  {
    hide Len, Quoted, ReferenceMetadata, PrintedValues, RecordFields, FieldLength, ItemsLength;
    ReferenceMetadataLength(r, false);
    KeyLength("items", 5);
    KeyLength("items_total", 11);
    KeyLength("items_truncated", 15);
    NumberLength(|r.items|);
    BoolLength(false);
    var items := Array(PrintedValues(r.items));
    var l := ItemsLength(PrintedValues(r.items));
    ArrayLength(PrintedValues(r.items));
    var m := ReferenceMetadata(r, false);
    AddField(m, "items", items, 1_479, 32, 2 + l);
    var m1 := m["items" := items];
    AddField(m1, "items_total", Int(|r.items|), 1_515 + l, 68, 20);
    var m2 := m1["items_total" := Int(|r.items|)];
    AddField(m2, "items_truncated", Bool(false), 1_605 + l, 92, 5);
    var m3 := m2["items_truncated" := Bool(false)];
    if r.decision.Some? {
      AddFieldLength(m3, "decision_record", Object(RecordFields(r.decision.value)));
    }
  }

  /**
    The readback belongs to this source: no more items than were selected, previews only where
    items were selected by name, and a decision record only of a decision, with an assessment only
    if the decision assesses the goal.
    */
  ghost predicate Belongs(r: Readback, source: Source) {
    && |r.items| <= |source.selected| <= U64_MAX
    && AllValid(r.items)
    && (Previews(r.items) > 0 ==> source.explicit)
    && (r.decision.Some? ==>
          && ValidRecord(r.decision.value) && source.definition.Decision?
          && (r.decision.value.assessment.Some? ==> source.definition.assessment))
  }

  lemma RecordWithinCharge(r: Readback, source: Source)
    requires Belongs(r, source)
    ensures RecordLength(r) <= SourceRecord(source)
  {
    hide RecordFields, ValidRecord, DecisionRecordCharge, FieldLength;
    if r.decision.Some? {
      DecisionRecordCovered(r.decision.value);
      PinnedPlainRecord();
      PinnedAssessmentRecord();
    }
  }

  /**
    Both prints of one reference, separators included, fit what the reference is charged: twice the
    reference metadata, the item array, the items, the record, and a slot for every preview.
    */
  lemma ReferenceFits(r: Readback, source: Source, stale: bool)
    requires Belongs(r, source)
    ensures Len(Object(ReferenceMetadata(r, stale))) + 1 + Len(Object(ReadbackFields(r))) + 1
            <= SourceMetadata(source) + SourceRecord(source) + SLOT_CHARGE * Previews(r.items)
  {
    hide Len, ReferenceMetadata, ReadbackFields, RecordLength, PrintedValues, SourceRecord, ItemsCharge,
         ReferenceMetadataCharge, ItemsLength, ValidRecord, ValidItem;
    PinnedReference();
    ReferenceMetadataLength(r, stale);
    ReadbackLength(r);
    PrintedItemsLength(r.items);
    LeastItemsCharge(source.selected);
    RecordWithinCharge(r, source);
  }

  // ----- The whole surface -----

  function MetadataValues(rs: seq<Readback>): (r: seq<Value>) {
    if rs == [] then [] else [Object(ReferenceMetadata(rs[0], false))] + MetadataValues(rs[1..])
  }

  ghost predicate AllBelong(p: Procedure, references: seq<Reference>, rs: seq<Readback>) {
    && |references| == |rs|
    && (references != [] ==>
          && Resolve(p, references[0]).Some? && Belongs(rs[0], Resolve(p, references[0]).value)
          && AllBelong(p, references[1..], rs[1..]))
  }

  function ReadbackValues(rs: seq<Readback>): (r: seq<Value>)
    requires forall i :: 0 <= i < |rs| && rs[i].decision.Some? ==> ValidRecord(rs[i].decision.value)
  {
    if rs == [] then [] else [Object(ReadbackFields(rs[0]))] + ReadbackValues(rs[1..])
  }

  function AllPreviews(rs: seq<Readback>): (n: nat) {
    if rs == [] then 0 else Previews(rs[0].items) + AllPreviews(rs[1..])
  }

  /** Readbacks that carry the printed items show as many previews as were granted. */
  lemma {:induction false} PreviewsAreShared(rs: seq<Readback>, printed: seq<seq<PrintedItem>>)
    requires |rs| == |printed| && forall i :: 0 <= i < |rs| ==> rs[i].items == printed[i]
    ensures AllPreviews(rs) == TotalPreviews(printed)
  {
    if rs != [] {
      PreviewsAreShared(rs[1..], printed[1..]);
    }
  }

  lemma {:induction false} RecordsAreValid(p: Procedure, references: seq<Reference>, rs: seq<Readback>)
    requires AllBelong(p, references, rs)
    ensures forall i :: 0 <= i < |rs| && rs[i].decision.Some? ==> ValidRecord(rs[i].decision.value)
  {
    hide ValidRecord, ValidItem, Resolve;
    if rs != [] {
      RecordsAreValid(p, references[1..], rs[1..]);
      forall i | 0 <= i < |rs| && rs[i].decision.Some? ensures ValidRecord(rs[i].decision.value) {
        if i > 0 { assert rs[i] == rs[1..][i - 1]; }
      }
    }
  }

  /** Previews are shown of named items only. */
  lemma {:induction false} PreviewsAreOfNamedItems(p: Procedure, references: seq<Reference>, rs: seq<Readback>)
    requires AllBelong(p, references, rs)
    ensures AllPreviews(rs) <= NamedItems(references)
  {
    hide ValidRecord, ValidItem, SelectItems;
    if rs != [] {
      PreviewsAreOfNamedItems(p, references[1..], rs[1..]);
    }
  }

  lemma {:induction false} SurfaceFits(p: Procedure, references: seq<Reference>, rs: seq<Readback>, sums: Sums)
    requires AllBelong(p, references, rs)
    requires forall i :: 0 <= i < |rs| && rs[i].decision.Some? ==> ValidRecord(rs[i].decision.value)
    ensures SumReferences(p, references, sums).Some?
    ensures var r := SumReferences(p, references, sums).value;
            ItemsLength(MetadataValues(rs)) + ItemsLength(ReadbackValues(rs))
            <= (r.metadata - sums.metadata) + (r.records - sums.records) + SLOT_CHARGE * AllPreviews(rs)
    decreases |references|
  {
    hide Len, Resolve, Belongs, ReferenceMetadata, ReadbackFields, SourceMetadata, SourceRecord, SourcePreviews,
         ValidRecord;
    if rs != [] {
      var source := Resolve(p, references[0]).value;
      ReferenceFits(rs[0], source, false);
      SurfaceFits(p, references[1..], rs[1..], sums.Plus(source));
      assert MetadataValues(rs)[1..] == MetadataValues(rs[1..]);
      assert ReadbackValues(rs)[1..] == ReadbackValues(rs[1..]);
    }
  }

  function AllItems(rs: seq<Readback>): (n: nat) {
    if rs == [] then 0 else |rs[0].items| + AllItems(rs[1..])
  }

  /** What both prints of a reference take without items, record and previews. */
  const REFERENCE_BYTES: nat := 3_185

  lemma ReferenceBytes(r: Readback, source: Source)
    requires Belongs(r, source)
    ensures Len(Object(ReferenceMetadata(r, false))) + 1 + Len(Object(ReadbackFields(r))) + 1
            <= REFERENCE_BYTES + ITEM_BYTES * |r.items| + PREVIEW_BYTES * Previews(r.items) + SourceRecord(source)
    ensures SourceMetadata(source) >= 4_476 + 1_377 * |source.selected|
  {
    hide Len, ReferenceMetadata, ReadbackFields, RecordLength, PrintedValues, SourceRecord, ItemsCharge,
         ReferenceMetadataCharge, ItemsLength, ValidRecord, ValidItem;
    PinnedReference();
    ReferenceMetadataLength(r, false);
    ReadbackLength(r);
    PrintedItemsLength(r.items);
    LeastItemsCharge(source.selected);
    RecordWithinCharge(r, source);
  }

  /**
    The printed surface counted by references, items, previews and records, and what its metadata is
    charged at least.
    */
  lemma {:induction false} SurfaceBytes(p: Procedure, references: seq<Reference>, rs: seq<Readback>, sums: Sums)
    requires AllBelong(p, references, rs)
    requires forall i :: 0 <= i < |rs| && rs[i].decision.Some? ==> ValidRecord(rs[i].decision.value)
    ensures SumReferences(p, references, sums).Some?
    ensures var r := SumReferences(p, references, sums).value;
            && ItemsLength(MetadataValues(rs)) + ItemsLength(ReadbackValues(rs))
               <= REFERENCE_BYTES * |rs| + ITEM_BYTES * AllItems(rs) + PREVIEW_BYTES * AllPreviews(rs)
                   + (r.records - sums.records)
            && r.metadata - sums.metadata >= 4_476 * |rs| + 1_377 * (r.items - sums.items)
            && AllItems(rs) <= r.items - sums.items
    decreases |references|
  {
    hide Len, Resolve, Belongs, ReferenceMetadata, ReadbackFields, SourceMetadata, SourceRecord, SourcePreviews,
         ValidRecord, Previews;
    if rs != [] {
      var source := Resolve(p, references[0]).value;
      ReferenceBytes(rs[0], source);
      ItemsWithin(rs[0], source);
      SurfaceBytes(p, references[1..], rs[1..], sums.Plus(source));
      assert MetadataValues(rs)[1..] == MetadataValues(rs[1..]);
      assert ReadbackValues(rs)[1..] == ReadbackValues(rs[1..]);
    }
  }

  lemma ItemsWithin(r: Readback, source: Source)
    requires Belongs(r, source)
    ensures |r.items| <= |source.selected|
  {
  }

  /** Both evidence fields of a response, their names and separators included. */
  ghost function SurfaceLength(rs: seq<Readback>): (n: nat)
    requires forall i :: 0 <= i < |rs| && rs[i].decision.Some? ==> ValidRecord(rs[i].decision.value)
  {
    FieldLength("references", Array(MetadataValues(rs))) + 1 + FieldLength("readback", Array(ReadbackValues(rs))) + 1
  }

  /** The exact record, metadata, preview and token charges. */
  function EvidenceCharge(sums: Sums): (n: nat) {
    var slots := Min(sums.previews, MAX_EVIDENCE_PREVIEW_SLOTS);
    sums.records + sums.metadata + slots * 5_628 + slots * 1_600
  }

  const EVIDENCE_ALLOCATIONS: nat :=
    DECISION_RECORD_BUDGET + READBACK_BUDGET + EVIDENCE_PREVIEW_BUDGET + PAGE_TOKEN_BUDGET

  /**
    For every placement whose references resolve, both evidence fields of the response together
    stay within the exact charges of the placement, if at most 32 previews are shown.
    */
  lemma EvidenceSurfaceFits(p: Procedure, placement: Placement, rs: seq<Readback>)
    requires placement.evidence.Some? && AllBelong(p, placement.evidence.value, rs)
    requires AllPreviews(rs) <= MAX_EVIDENCE_PREVIEW_SLOTS
    ensures forall i :: 0 <= i < |rs| && rs[i].decision.Some? ==> ValidRecord(rs[i].decision.value)
    ensures SumReferences(p, placement.evidence.value, NO_EVIDENCE).Some?
    ensures SurfaceLength(rs) <= EvidenceCharge(SumReferences(p, placement.evidence.value, NO_EVIDENCE).value)
  {
    hide Len, ItemsLength, SumReferences, AllBelong, MetadataValues, ReadbackValues, ValidRecord, NamedItems;
    var references := placement.evidence.value;
    RecordsAreValid(p, references, rs);
    SurfaceFits(p, references, rs, NO_EVIDENCE);
    PreviewsAreOfNamedItems(p, references, rs);
    PreviewsAreNamed(p, references, NO_EVIDENCE);
    ArrayLength(MetadataValues(rs));
    ArrayLength(ReadbackValues(rs));
    FieldNames();
  }

  lemma FieldNames()
    ensures |Quoted("references")| == 12 && |Quoted("readback")| == 10
  {
    hide Quoted;
    PlainLength("references");
    PlainLength("readback");
  }

  /** A placement that passes its four evidence allocations never prints more than their 720 KiB of evidence. */
  lemma AdmittedSurfaceFits(p: Procedure, placement: Placement, rs: seq<Readback>)
    requires placement.evidence.Some? && AllBelong(p, placement.evidence.value, rs)
    requires AllPreviews(rs) <= MAX_EVIDENCE_PREVIEW_SLOTS
    ensures forall i :: 0 <= i < |rs| && rs[i].decision.Some? ==> ValidRecord(rs[i].decision.value)
    ensures var c := ChargesOf(p, placement);
            && !ExceedsBudget(c.decisionRecords, DECISION_RECORD_BUDGET) && !ExceedsBudget(c.metadata, READBACK_BUDGET)
            ==> SurfaceLength(rs) <= EVIDENCE_ALLOCATIONS
  {
    hide SurfaceLength, SumReferences, AllBelong, ValidRecord, PageTokenCharge;
    EvidenceSurfaceFits(p, placement, rs);
    var sums := SumReferences(p, placement.evidence.value, NO_EVIDENCE).value;
    OverrunIsExact(sums.records, DECISION_RECORD_BUDGET);
    OverrunIsExact(sums.metadata, READBACK_BUDGET);
  }

  // ----- From what was recorded to what is printed -----

  /** What a session has recorded for one declared reference. */
  datatype Recall = Recall(
    source: Identifier, title: Option<Title>, snapshot: ReferenceSnapshot, candidates: seq<Candidate>,
    decision: Option<DecisionRecord>)

  /** It was recorded at this source: items it selects, and a record only of a decision, an assessment only of one. */
  ghost predicate RecordedAt(recall: Recall, source: Source) {
    && |recall.candidates| <= |source.selected| <= U64_MAX
    && AllCandidates(recall.candidates)
    && (recall.decision.Some? ==>
          && ValidRecord(recall.decision.value) && source.definition.Decision?
          && (recall.decision.value.assessment.Some? ==> source.definition.assessment))
  }

  ghost predicate AllRecorded(p: Procedure, references: seq<Reference>, recalls: seq<Recall>) {
    && |references| == |recalls|
    && forall i :: 0 <= i < |references| ==>
         Resolve(p, references[i]).Some? && RecordedAt(recalls[i], Resolve(p, references[i]).value)
  }

  /** The readback of a recall carries its items, in order, and changes nothing else. */
  ghost predicate ReadsBack(r: Readback, recall: Recall) {
    && r.source == recall.source && r.title == recall.title && r.snapshot == recall.snapshot
       && r.decision == recall.decision
    && Prints(r.items, recall.candidates)
  }

  /** The plans of the first `n` references that name items. */
  function PlannedEarlier(references: seq<Reference>, recalls: seq<Recall>, n: nat): (r: nat)
    requires n <= |references| && n <= |recalls|
  {
    if n == 0 then 0
    else
      PlannedEarlier(references, recalls, n - 1)
      + (if NamesItems(references[n - 1]) then Planned(recalls[n - 1].candidates) else 0)
  }

  /** The 32 slots go to the items selected by name, in order. */
  ghost predicate SlotsInOrder(references: seq<Reference>, recalls: seq<Recall>, rs: seq<Readback>) {
    && |rs| == |recalls| == |references|
    && forall i :: 0 <= i < |rs| ==>
         InOrder(rs[i].items, recalls[i].candidates, NamesItems(references[i]),
                 32 - PlannedEarlier(references, recalls, i))
  }

  lemma {:induction false} PlannedAlike(
    references: seq<Reference>, recalls: seq<Recall>, groups: seq<(seq<Candidate>, bool)>, n: nat)
    requires |references| == |recalls| == |groups| && n <= |groups|
    requires forall i :: 0 <= i < |groups| ==> groups[i] == (recalls[i].candidates, NamesItems(references[i]))
    ensures PlannedEarlier(references, recalls, n) == PlannedBefore(groups, n)
  {
    if n > 0 { PlannedAlike(references, recalls, groups, n - 1); }
  }

  predicate NamesItems(reference: Reference) {
    reference.selected.Some? && reference.selected.value != []
  }

  lemma NamedIsExplicit(p: Procedure, reference: Reference)
    requires NamesItems(reference) && Resolve(p, reference).Some?
    ensures Resolve(p, reference).value.explicit
  {
  }

  lemma {:induction false} AllBelongFromEach(p: Procedure, references: seq<Reference>, rs: seq<Readback>)
    requires |references| == |rs|
    requires forall i :: 0 <= i < |rs| ==>
               Resolve(p, references[i]).Some? && Belongs(rs[i], Resolve(p, references[i]).value)
    ensures AllBelong(p, references, rs)
  {
    hide Resolve, Belongs;
    if rs != [] {
      AllBelongFromEach(p, references[1..], rs[1..]);
    }
  }

  /**
    The evidence of one response, from the records of a session: every recorded item is printed,
    at most 32 with a preview, and both evidence fields stay within the charges of the placement.
    If its records and metadata pass their allocations, they stay within the four allocations.
    */
  method PrintEvidence(p: Procedure, placement: Placement, recalls: seq<Recall>) returns (rs: seq<Readback>)
    requires placement.evidence.Some? && AllRecorded(p, placement.evidence.value, recalls)
    ensures |rs| == |recalls| && forall i :: 0 <= i < |rs| ==> ReadsBack(rs[i], recalls[i])
    ensures AllBelong(p, placement.evidence.value, rs) && AllPreviews(rs) <= MAX_EVIDENCE_PREVIEW_SLOTS
    ensures SlotsInOrder(placement.evidence.value, recalls, rs)
    ensures forall i :: 0 <= i < |rs| && rs[i].decision.Some? ==> ValidRecord(rs[i].decision.value)
    ensures SumReferences(p, placement.evidence.value, NO_EVIDENCE).Some?
    ensures SurfaceLength(rs) <= EvidenceCharge(SumReferences(p, placement.evidence.value, NO_EVIDENCE).value)
    ensures var c := ChargesOf(p, placement);
            && !ExceedsBudget(c.decisionRecords, DECISION_RECORD_BUDGET) && !ExceedsBudget(c.metadata, READBACK_BUDGET)
            ==> SurfaceLength(rs) <= EVIDENCE_ALLOCATIONS
  {
    hide Resolve, RecordedAt, AllCandidates, AllValid, Previews, Prints, Belongs, AllBelong, SumReferences,
         SurfaceLength, ChargesOf, EvidenceCharge, ValidRecord;
    var references := placement.evidence.value;
    forall i | 0 <= i < |recalls| ensures AllCandidates(recalls[i].candidates) {
      RecordedCandidates(recalls[i], Resolve(p, references[i]).value);
    }
    var groups := seq(|recalls|, i requires 0 <= i < |recalls| => (recalls[i].candidates, NamesItems(references[i])));
    var printed := PrintReadbacks(groups);
    rs := seq(|recalls|, i requires 0 <= i < |recalls| =>
      var recall := recalls[i];
      Readback(recall.source, recall.title, recall.snapshot, printed[i], recall.decision));
    forall i | 0 <= i < |rs| ensures Belongs(rs[i], Resolve(p, references[i]).value) {
      PrintedBelongs(p, references[i], recalls[i], rs[i]);
    }
    forall i | 0 <= i < |rs| ensures PlannedEarlier(references, recalls, i) == PlannedBefore(groups, i) {
      PlannedAlike(references, recalls, groups, i);
    }
    AllBelongFromEach(p, references, rs);
    PreviewsAreShared(rs, printed);
    EvidenceSurfaceFits(p, placement, rs);
    AdmittedSurfaceFits(p, placement, rs);
  }

  lemma RecordedCandidates(recall: Recall, source: Source)
    requires RecordedAt(recall, source)
    ensures AllCandidates(recall.candidates)
  {
  }

  lemma PrintedBelongs(p: Procedure, reference: Reference, recall: Recall, r: Readback)
    requires Resolve(p, reference).Some? && RecordedAt(recall, Resolve(p, reference).value)
    requires ReadsBack(r, recall) && AllValid(r.items) && (Previews(r.items) > 0 ==> NamesItems(reference))
    ensures Belongs(r, Resolve(p, reference).value)
  {
    hide Resolve, AllValid, AllCandidates, ValidRecord;
    if NamesItems(reference) {
      NamedIsExplicit(p, reference);
    }
  }
}
