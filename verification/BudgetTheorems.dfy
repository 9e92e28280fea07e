/**
  Which placements fit which allocation of the `session.next` frame.
  */
module BudgetTheorems {
  import opened Utf8
  import opened Procedure
  import opened NextBudget
  import opened Saturation
  import opened EvidenceBudget

  // ----- Decision records -----

  /** Decision sources among the references, by whether they assess the session goal. */
  datatype Decisions = Decisions(plain: nat, assessing: nat) {
    function Plus(source: Source): (r: Decisions) {
      if !source.definition.Decision? then this
      else if source.definition.assessment then Decisions(plain, assessing + 1)
      else Decisions(plain + 1, assessing)
    }
  }

  function CountDecisions(p: Procedure, references: seq<Reference>, counted: Decisions): (r: Decisions)
    decreases |references|
  {
    if references == [] || Resolve(p, references[0]).None? then counted
    else CountDecisions(p, references[1..], counted.Plus(Resolve(p, references[0]).value))
  }

  lemma {:induction false} RecordsAreCounted(p: Procedure, references: seq<Reference>, sums: Sums, counted: Decisions)
    requires SumReferences(p, references, sums).Some?
    requires sums.records == 29_118 * counted.plain + 262_186 * counted.assessing
    ensures var r := CountDecisions(p, references, counted);
            && SumReferences(p, references, sums).value.records == 29_118 * r.plain + 262_186 * r.assessing
            && r.plain + r.assessing <= counted.plain + counted.assessing + |references|
    decreases |references|
  {
    hide Resolve, SourceRecord, SourceMetadata, SourcePreviews;
    if references != [] {
      var source := Resolve(p, references[0]).value;
      RecordIsCounted(source, sums, counted);
      RecordsAreCounted(p, references[1..], sums.Plus(source), counted.Plus(source));
    }
  }

  lemma RecordIsCounted(source: Source, sums: Sums, counted: Decisions)
    requires sums.records == 29_118 * counted.plain + 262_186 * counted.assessing
    ensures var r := counted.Plus(source);
            && sums.Plus(source).records == 29_118 * r.plain + 262_186 * r.assessing
            && r.plain + r.assessing <= counted.plain + counted.assessing + 1
  {
    hide DecisionRecordCharge, SourceMetadata, SourcePreviews;
    PinnedPlainRecord();
    PinnedAssessmentRecord();
  }

  /** Every declared reference leads to a placement, a definition and the selected items. */
  predicate Resolves(p: Procedure, placement: Placement) {
    AllResolve(p, References(placement))
  }

  predicate AllResolve(p: Procedure, references: seq<Reference>) {
    forall i :: 0 <= i < |references| ==> Resolve(p, references[i]).Some?
  }

  lemma {:induction false} SumsWhenAllResolve(p: Procedure, references: seq<Reference>, sums: Sums)
    ensures SumReferences(p, references, sums).Some? <==> AllResolve(p, references)
    decreases |references|
  {
    hide Resolve, SourceRecord, SourceMetadata, SourcePreviews;
    if references != [] && Resolve(p, references[0]).Some? {
      SumsWhenAllResolve(p, references[1..], sums.Plus(Resolve(p, references[0]).value));
      if AllResolve(p, references[1..]) {
        forall i | 0 <= i < |references| ensures Resolve(p, references[i]).Some? {
          if i > 0 { assert references[i] == references[1..][i - 1]; }
        }
      } else {
        var i :| 0 <= i < |references[1..]| && Resolve(p, references[1..][i]).None?;
        assert references[i + 1] == references[1..][i];
      }
    }
  }

  /**
    With at most eight references the decision-record allocation admits a placement exactly when
    its references resolve and no source assesses the goal, or the only decision source is one
    that does.
    */
  lemma DecisionRecordAdmission(p: Procedure, placement: Placement)
    requires |References(placement)| <= 8
    ensures var decisions := CountDecisions(p, References(placement), Decisions(0, 0));
            !ExceedsBudget(ChargesOf(p, placement).decisionRecords, DECISION_RECORD_BUDGET)
            <==> Resolves(p, placement)
                 && (decisions.assessing == 0 || (decisions.assessing == 1 && decisions.plain == 0))
  {
    hide Resolve;
    SumsWhenAllResolve(p, References(placement), NO_EVIDENCE);
    if placement.evidence.Some? && Resolves(p, placement) {
      hide SumReferences, CountDecisions;
      var references := placement.evidence.value;
      RecordsAreCounted(p, references, NO_EVIDENCE, Decisions(0, 0));
      OverrunIsExact(SumReferences(p, references, NO_EVIDENCE).value.records, DECISION_RECORD_BUDGET);
    }
  }

  const FROM_A := Reference("a", true, None)
  const FROM_B := Reference("b", true, None)

  /** A node that reads back two plain decisions. */
  const READER := ActionPlacement("c", "x", Some([FROM_A, FROM_B]), None)

  const CHOICE := Decision("d", [], map[], false)

  function TwoDecisions(digest: Digest): (p: Procedure) {
    Procedure([DecisionPlacement("a", "d", None), DecisionPlacement("b", "d", None), READER],
              [CHOICE, Action("x", [], map[])],
              false, digest)
  }

  lemma TwoDecisionsResolve(digest: Digest)
    ensures var p := TwoDecisions(digest);
            Resolve(p, FROM_A) == Some(Source(CHOICE, [], false))
                && Resolve(p, FROM_B) == Some(Source(CHOICE, [], false))
  {
    var p := TwoDecisions(digest);
    assert FindFirst(p.placements, PlacementId, "a") == Some(p.placements[0]);
    assert p.placements[1..][0] == p.placements[1] && "a" != "b";
    assert FindFirst(p.placements[1..], PlacementId, "b") == Some(p.placements[1]);
    assert FindFirst(p.definitions, DefinitionId, "d") == Some(CHOICE);
  }

  /** Two decision sources at once: their records cost 58,236 bytes of the 270,336 there are. */
  lemma TwoPlainDecisionsFit(digest: Digest)
    ensures var p := TwoDecisions(digest);
            && CountDecisions(p, References(READER), Decisions(0, 0)) == Decisions(2, 0)
            && ChargesOf(p, READER).decisionRecords == 58_236
            && !ExceedsBudget(ChargesOf(p, READER).decisionRecords, DECISION_RECORD_BUDGET)
  {
    hide Resolve, SourceRecord, SourceMetadata, SourcePreviews, TwoDecisions;
    var p, references := TwoDecisions(digest), References(READER);
    TwoDecisionsResolve(digest);
    assert references[0] == FROM_A && references[1..] == [FROM_B] && references[1..][1..] == [];
    var source := Source(CHOICE, [], false);
    assert CountDecisions(p, references, Decisions(0, 0)) == CountDecisions(p, [FROM_B], Decisions(1, 0));
    assert CountDecisions(p, [FROM_B], Decisions(1, 0)) == CountDecisions(p, [], Decisions(2, 0));
    assert SumReferences(p, references, NO_EVIDENCE) == SumReferences(p, [FROM_B], NO_EVIDENCE.Plus(source));
    assert [FROM_B][1..] == [];
    assert SumReferences(p, [FROM_B], NO_EVIDENCE.Plus(source)) == Some(NO_EVIDENCE.Plus(source).Plus(source));
    RecordsAreCounted(p, references, NO_EVIDENCE, Decisions(0, 0));
  }

  // ----- Metadata, previews and tokens -----

  /** Item metadata costs the same for every item but for its type name; `check_result` is the longest. */
  lemma ReadbackItemBound(item: ItemSpec)
    ensures ReadbackItemCharge(item) <= 1_425
    ensures ReadbackItemCharge(item) == 1_425 - 6 * (12 - |ItemTypeName(item.kind)|)
  {
    hide ItemTypeName, StringField, FixedField, Accumulated, Sum;
    var n := |ItemTypeName(item.kind)|;
    TypeNameWithin(item.kind);
    FieldCharges();
    TypeNamePrice(n);
    SumOfEight(8, 448, 64 + 6 * n, 84, 490, 84, 106, 69);
    AccumulatedSum(ReadbackItemPrices(item), 1_353 + 6 * n);
  }

  lemma TypeNamePrice(n: nat)
    requires n <= 12
    ensures StringField(n) == 64 + 6 * n
  {
  }

  lemma TypeNameWithin(t: ItemType)
    ensures |ItemTypeName(t)| <= 12
  {
  }

  lemma {:induction false} ItemsChargeBound(items: seq<ItemSpec>)
    ensures ItemsCharge(items) <= 1_425 * |items|
  {
    hide ReadbackItemCharge;
    if items != [] {
      ReadbackItemBound(items[0]);
      ItemsChargeBound(items[1..]);
    }
  }

  lemma {:induction false} MetadataBound(p: Procedure, references: seq<Reference>, sums: Sums)
    requires SumReferences(p, references, sums).Some?
    ensures var r := SumReferences(p, references, sums).value;
            && r.items >= sums.items
            && r.metadata <= sums.metadata + 4_476 * |references| + 1_425 * (r.items - sums.items)
    decreases |references|
  {
    hide Resolve, ItemsCharge, ReferenceMetadataCharge, SourceRecord, SourcePreviews;
    if references != [] {
      PinnedReference();
      var source := Resolve(p, references[0]).value;
      ItemsChargeBound(source.selected);
      MetadataBound(p, references[1..], sums.Plus(source));
    }
  }

  /**
    The ceiling of 128 metadata records implies the metadata byte budget for every placement with
    at most eight references, whatever the item kinds.
    */
  lemma RecordCeilingImpliesByteBudget(p: Procedure, placement: Placement)
    requires |References(placement)| <= 8
    ensures !ExceedsBudget(ChargesOf(p, placement).metadataRecords, READBACK_RECORD_BUDGET) ==>
              !ExceedsBudget(ChargesOf(p, placement).metadata, READBACK_BUDGET)
  {
    hide SumReferences;
    if placement.evidence.Some? && SumReferences(p, placement.evidence.value, NO_EVIDENCE).Some? {
      MetadataBound(p, placement.evidence.value, NO_EVIDENCE);
    }
  }

  /** Previews and tokens fit their allocations for every placement whose references resolve, and for no other. */
  lemma PreviewsAlwaysFit(p: Procedure, placement: Placement)
    ensures !ExceedsBudget(ChargesOf(p, placement).preview, EVIDENCE_PREVIEW_BUDGET) <==> Resolves(p, placement)
    ensures !ExceedsBudget(ChargesOf(p, placement).pageTokens, PAGE_TOKEN_BUDGET) <==> Resolves(p, placement)
  {
    hide SumReferences, PageTokenCharge, AllResolve;
    SumsWhenAllResolve(p, References(placement), NO_EVIDENCE);
    NothingToResolve(p);
    PinnedCharges();
  }

  lemma NothingToResolve(p: Procedure)
    ensures AllResolve(p, [])
  {
  }

  /** Items that references select by name; an omitted selection names none. */
  function NamedItems(references: seq<Reference>): (n: nat) {
    if references == [] then 0
    else (if references[0].selected.Some? then |references[0].selected.value| else 0) + NamedItems(references[1..])
  }

  lemma {:induction false} PreviewsAreNamed(p: Procedure, references: seq<Reference>, sums: Sums)
    requires SumReferences(p, references, sums).Some?
    ensures SumReferences(p, references, sums).value.previews == sums.previews + NamedItems(references)
    decreases |references|
  {
    hide SourceMetadata, SourceRecord, SelectItems;
    if references != [] {
      PreviewsAreNamed(p, references[1..], sums.Plus(Resolve(p, references[0]).value));
    }
  }

  /** Preview and token charges depend on nothing but how many items are selected by name, up to 32. */
  lemma PreviewCharges(p: Procedure, placement: Placement)
    ensures Resolves(p, placement) ==>
              var slots := Min(NamedItems(References(placement)), MAX_EVIDENCE_PREVIEW_SLOTS);
              ChargesOf(p, placement).preview == slots * 5_628 && ChargesOf(p, placement).pageTokens == slots * 1_600
  {
    hide SumReferences, ChargesFor, AllResolve;
    SumsWhenAllResolve(p, References(placement), NO_EVIDENCE);
    SlotsAreExact(NO_EVIDENCE);
    if placement.evidence.Some? && Resolves(p, placement) {
      PreviewsAreNamed(p, placement.evidence.value, NO_EVIDENCE);
      SlotsAreExact(SumReferences(p, placement.evidence.value, NO_EVIDENCE).value);
    }
  }

  /** A reference that does not resolve fails every allocation. */
  lemma UnresolvedFailsClosed(p: Procedure, placement: Placement)
    requires !Resolves(p, placement)
    ensures var c := ChargesOf(p, placement);
            && ExceedsBudget(c.decisionRecords, DECISION_RECORD_BUDGET) && ExceedsBudget(c.metadata, READBACK_BUDGET)
            && ExceedsBudget(c.metadataRecords, READBACK_RECORD_BUDGET)
               && ExceedsBudget(c.preview, EVIDENCE_PREVIEW_BUDGET)
            && ExceedsBudget(c.pageTokens, PAGE_TOKEN_BUDGET)
  {
    hide SumReferences, AllResolve;
    SumsWhenAllResolve(p, References(placement), NO_EVIDENCE);
    NothingToResolve(p);
  }

  // ----- The frame -----

  datatype PlacementBudget = PlacementBudget(
    nextStatic: nat, evidence: EvidenceCharges, counters: nat, delegatedSnapshot: bool)

  function ChargedTotal(b: PlacementBudget): (r: nat) {
    Add(Add(Add(Add(Add(b.nextStatic, b.evidence.decisionRecords), b.evidence.metadata), b.evidence.preview),
            b.evidence.pageTokens), b.counters)
  }

  function ObservationStaticMembers(b: PlacementBudget): (r: nat) {
    Add(Add(Add(Add(Add(Add(b.nextStatic, b.evidence.decisionRecords), b.evidence.metadata), b.counters), b.counters),
            MAX_OBSERVATION_STATUS_NON_COUNTER_BYTES), if b.delegatedSnapshot then DELEGATION_PROJECTION_CHARGE else 0)
  }

  /** Six charges before capping. */
  datatype ExactBudget = ExactBudget(nextStatic: nat, sums: Sums, counters: nat, delegatedSnapshot: bool)

  function Saturated(e: ExactBudget): (b: PlacementBudget) {
    PlacementBudget(Capped(e.nextStatic), ChargesFor(e.sums), Capped(e.counters), e.delegatedSnapshot)
  }

  function ExactTotal(e: ExactBudget): (n: nat) {
    var slots := Min(e.sums.previews, MAX_EVIDENCE_PREVIEW_SLOTS);
    e.nextStatic + e.sums.records + e.sums.metadata + slots * 5_628 + slots * 1_600 + e.counters
  }

  lemma SlotsAreExact(sums: Sums)
    ensures var slots := Min(sums.previews, MAX_EVIDENCE_PREVIEW_SLOTS);
            ChargesFor(sums).preview == slots * 5_628 && ChargesFor(sums).pageTokens == slots * 1_600
  {
    hide PageTokenCharge;
    PinnedCharges();
  }

  lemma SumOfCaps(a: nat, b: nat, c: nat, d: nat, e: nat, f: nat)
    ensures Add(Add(Add(Add(Add(Capped(a), Capped(b)), Capped(c)), Capped(d)), Capped(e)), Capped(f))
            == Capped(a + b + c + d + e + f)
  {
    hide Add, Capped;
    AddIsExact(a, b);
    AddIsExact(a + b, c);
    AddIsExact(a + b + c, d);
    AddIsExact(a + b + c + d, e);
    AddIsExact(a + b + c + d + e, f);
  }

  /** The aggregate test on saturated charges agrees with the test on exact charges. */
  lemma FrameTestIsExact(e: ExactBudget)
    ensures ChargedTotal(Saturated(e)) == Capped(ExactTotal(e))
    ensures ExceedsBudget(ChargedTotal(Saturated(e)), NEXT_FRAME_BUDGET - NEXT_SERIALIZATION_RESERVE)
            <==> ExactTotal(e) > NEXT_FRAME_BUDGET - NEXT_SERIALIZATION_RESERVE
  {
    hide Add;
    var slots := Min(e.sums.previews, MAX_EVIDENCE_PREVIEW_SLOTS);
    SlotsAreExact(e.sums);
    SumOfCaps(e.nextStatic, e.sums.records, e.sums.metadata, slots * 5_628, slots * 1_600, e.counters);
  }

  const MAX_OBSERVATION_STATIC_MEMBERS: nat := 768 * KIB

  /** Guidance and status of an observation, before capping: both carry the counters. */
  function ExactObservation(e: ExactBudget): (n: nat) {
    e.nextStatic + e.sums.records + e.sums.metadata + e.counters + e.counters + MAX_OBSERVATION_STATUS_NON_COUNTER_BYTES
    + (if e.delegatedSnapshot then DELEGATION_PROJECTION_CHARGE else 0)
  }

  /** The observation test agrees with the test on exact charges as well. */
  lemma ObservationTestIsExact(e: ExactBudget)
    ensures ObservationStaticMembers(Saturated(e)) == Capped(ExactObservation(e))
    ensures ExceedsBudget(ObservationStaticMembers(Saturated(e)), MAX_OBSERVATION_STATIC_MEMBERS)
            <==> ExactObservation(e) > MAX_OBSERVATION_STATIC_MEMBERS
  {
    hide Add;
    var status := MAX_OBSERVATION_STATUS_NON_COUNTER_BYTES;
    var delegation := if e.delegatedSnapshot then DELEGATION_PROJECTION_CHARGE else 0;
    SumOfCaps(e.nextStatic, e.sums.records, e.sums.metadata, e.counters, e.counters, status);
    AddIsExact(e.nextStatic + e.sums.records + e.sums.metadata + e.counters + e.counters + status, delegation);
  }

  /** The five local maxima and the reserve span the frame, so all maxima with any counter are refused together. */
  lemma LocalMaximaSpanFrame(counters: nat)
    requires 0 < counters
    ensures NEXT_STATIC_BUDGET + DECISION_RECORD_BUDGET + READBACK_BUDGET + EVIDENCE_PREVIEW_BUDGET + PAGE_TOKEN_BUDGET
            + NEXT_SERIALIZATION_RESERVE == NEXT_FRAME_BUDGET
    ensures ExceedsBudget(
              ChargedTotal(PlacementBudget(
                NEXT_STATIC_BUDGET,
                EvidenceCharges(DECISION_RECORD_BUDGET, READBACK_BUDGET, 0, EVIDENCE_PREVIEW_BUDGET, PAGE_TOKEN_BUDGET),
                counters, false)),
              NEXT_FRAME_BUDGET - NEXT_SERIALIZATION_RESERVE)
  {
  }
}
