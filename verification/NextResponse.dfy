/**
  The complete `session.next` result of a running session against the tests its placement passed
  when the Procedure was admitted.

  More is printed without a charge than the 48 KiB reserve holds: the blocker window alone may take
  48 KiB and the goal 36 KiB. The result fits all the same, because what is charged for evidence
  exceeds what evidence prints.
  */
module NextResponse {
  import opened Utf8
  import opened CanonicalJson
  import opened CanonicalLength
  import opened Procedure
  import opened Saturation
  import opened NextBudget
  import opened EvidenceBudget
  import opened BudgetTheorems
  import opened TariffCoverage
  import opened TariffInstances
  import opened DecisionRecordSize
  import opened ReadbackSize
  import opened EvidenceSurface
  import opened GraphCounters
  import opened StaticGuidance
  import opened StaticMembers
  import opened Suggestions
  import opened RuntimeMembers

  // ----- The budget of a placement -----

  function PlacementLengths(placements: seq<Placement>): (r: seq<nat>)
    ensures |r| == |placements|
    ensures forall i :: 0 <= i < |placements| ==> r[i] == |placements[i].id|
  {
    seq(|placements|, i requires 0 <= i < |placements| => |placements[i].id|)
  }

  ghost function EvidenceSums(p: Procedure, placement: Placement): (r: Option<Sums>) {
    SumReferences(p, References(placement), NO_EVIDENCE)
  }

  /** The charges of a placement whose references resolve, before capping. */
  ghost function ExactCharges(p: Procedure, placement: Placement, s: Static): (e: ExactBudget)
    requires EvidenceSums(p, placement).Some?
  {
    ExactBudget(ExactStatic(s), EvidenceSums(p, placement).value, ExactArrayBytes(PlacementLengths(p.placements)),
                s.delegated)
  }

  /** `placement_budget`: the three computed charges. They are the exact ones, capped. */
  method PlacementCharges(p: Procedure, placement: Placement, s: Static) returns (b: PlacementBudget)
    ensures EvidenceSums(p, placement).Some? ==> b == Saturated(ExactCharges(p, placement, s))
    ensures EvidenceSums(p, placement).None? ==> b.evidence == FAIL_CLOSED
    ensures b.nextStatic == Capped(ExactStatic(s)) && b.delegatedSnapshot == s.delegated
    ensures b.counters == Capped(ExactArrayBytes(PlacementLengths(p.placements)))
  {
    hide ExactStatic, ExactArrayBytes, Capped, SumReferences, ChargesFor;
    var next := NextStaticCharge(s);
    var evidence := EvidenceChargesFor(p, placement);
    var counters := MaximumGraphCounterArrayBytes(PlacementLengths(p.placements));
    b := PlacementBudget(next, evidence, counters, s.delegated);
    NoReferences(p);
  }

  lemma NoReferences(p: Procedure)
    ensures SumReferences(p, [], NO_EVIDENCE) == Some(NO_EVIDENCE)
  {
  }

  // ----- The result -----

  /** What a running session brings to the static content. */
  datatype Session = Session(
    view: View, readbacks: seq<Readback>, counters: seq<Counter>, delegation: Delegation, runtime: Runtime)

  /** One counter for each placement, evidence that belongs to its references, and windows that were cut. */
  ghost predicate Projects(p: Procedure, placement: Placement, session: Session) {
    && ValidView(session.view)
    && AllBelong(p, References(placement), session.readbacks)
    && AllPreviews(session.readbacks) <= MAX_EVIDENCE_PREVIEW_SLOTS
    && NodeLengths(session.counters) == PlacementLengths(p.placements)
    && Len(Array(BlockerValues(session.runtime.windows.blockers))) <= BLOCKER_WINDOW_BYTES_MAX
  }

  ghost predicate RecordsValid(rs: seq<Readback>) {
    forall i :: 0 <= i < |rs| && rs[i].decision.Some? ==> ValidRecord(rs[i].decision.value)
  }

  function CommandMembers(s: Static, v: View): (m: map<string, Value>) {
    map["allowed_actions" := Array(Texts(v.actions)), "suggestions" := Array(HintValues(Cut(AllHints(s, v))))]
  }

  function EvidenceMembers(rs: seq<Readback>): (m: map<string, Value>)
    requires RecordsValid(rs)
  {
    map["references" := Array(MetadataValues(rs)), "readback" := Array(ReadbackValues(rs))]
  }

  function DelegationMembers(s: Static, d: Delegation): (m: map<string, Value>) {
    if s.delegated then map["delegation" := Object(DelegationFields(d))] else map[]
  }

  function NextResult(s: Static, session: Session): (m: map<string, Value>)
    requires RecordsValid(session.readbacks)
  {
    ContentFields(s, session.view) + CommandMembers(s, session.view) + EvidenceMembers(session.readbacks)
    + map["counters" := Array(CounterValues(session.counters))] + DelegationMembers(s, session.delegation)
    + SessionMembers(session.runtime)
  }

  /** The result is this map. */
  ghost predicate Gives(s: Static, session: Session, result: map<string, Value>) {
    RecordsValid(session.readbacks) && result == NextResult(s, session)
  }

  ghost predicate FitsIn(s: Static, session: Session, bytes: nat) {
    RecordsValid(session.readbacks) && Len(Object(NextResult(s, session))) <= bytes
  }

  /** The references of the placement resolve and its charges pass the observation test. */
  ghost predicate Observable(p: Procedure, placement: Placement, s: Static) {
    && EvidenceSums(p, placement).Some?
    && !ExceedsBudget(ObservationStaticMembers(Saturated(ExactCharges(p, placement, s))),
                      MAX_OBSERVATION_STATIC_MEMBERS)
  }

  // ----- Its parts -----

  lemma TwoMembers(j: string, v: Value, k: string, w: Value)
    requires j != k
    ensures Len(Object(map[j := v, k := w])) <= 2 + FieldLength(j, v) + 1 + FieldLength(k, w)
  {
    hide Len, FieldLength;
    DelegationAdmission.EmptyObject();
    var none: map<string, Value> := map[];
    AddFieldLength(none, j, v);
    AddFieldLength(none[j := v], k, w);
    assert none[j := v][k := w] == map[j := v, k := w];
  }

  lemma OneMember(k: string, v: Value)
    ensures Len(Object(map[k := v])) == 2 + FieldLength(k, v)
  {
    hide Len, FieldLength;
    DelegationAdmission.EmptyObject();
    var none: map<string, Value> := map[];
    AddFieldLength(none, k, v);
    assert none[k := v] == map[k := v];
  }

  lemma ContentLength(s: Static, v: View)
    requires ValidView(v) && |s.items| <= MAX_ITEMS_PER_DEFINITION
    ensures Len(Object(ContentFields(s, v))) <= ContentPrice(s) + 2
  {
    hide Len, Price, ContentFields, ContentPrice, ValidView;
    ContentCosts(s, v);
    TariffCovers(Object(ContentFields(s, v)));
  }

  lemma CommandLength(s: Static, v: View)
    requires ValidView(v)
    ensures Len(Object(CommandMembers(s, v))) <= ActionsPrice() + SuggestionsPrice(s) + UNCHARGED_HINTS
  {
    hide Len, Quoted, ActionsPrice, SuggestionsPrice, HintBytes, HintValues, AllHints, Cut, ValidView, Texts,
         ItemsLength;
    var hints := Cut(AllHints(s, v));
    ActionsFit(v);
    SuggestionsFit(s, v);
    HintBytesAreItems(hints);
    ArrayLength(HintValues(hints));
    PlainLength("suggestions");
    TwoMembers("allowed_actions", Array(Texts(v.actions)), "suggestions", Array(HintValues(hints)));
  }

  /** The elements of both evidence arrays. */
  ghost function SurfaceItems(rs: seq<Readback>): (n: nat)
    requires RecordsValid(rs)
  {
    ItemsLength(MetadataValues(rs)) + ItemsLength(ReadbackValues(rs))
  }

  lemma EvidenceLength(rs: seq<Readback>)
    requires RecordsValid(rs)
    ensures Len(Object(EvidenceMembers(rs))) <= 31 + SurfaceItems(rs)
  {
    hide Len, Quoted, ItemsLength, MetadataValues, ReadbackValues, ValidRecord;
    FieldNames();
    ArrayLength(MetadataValues(rs));
    ArrayLength(ReadbackValues(rs));
    TwoMembers("references", Array(MetadataValues(rs)), "readback", Array(ReadbackValues(rs)));
  }

  lemma CountersLength(counters: seq<Counter>)
    ensures Len(Object(map["counters" := Array(CounterValues(counters))]))
            <= 13 + ExactArrayBytes(NodeLengths(counters))
  {
    hide Len, Quoted, ExactArrayBytes, CounterValues, NodeLengths;
    CounterArrayFits(counters);
    PlainLength("counters");
    OneMember("counters", Array(CounterValues(counters)));
  }

  lemma DelegationMembersLength(s: Static, d: Delegation)
    ensures Len(Object(DelegationMembers(s, d))) <= 2 + (if s.delegated then DELEGATION_PROJECTION_CHARGE else 0)
  {
    hide Len, FieldLength, DelegationFields;
    DelegationAdmission.EmptyObject();
    DelegationLength(d);
    OneMember("delegation", Object(DelegationFields(d)));
  }

  lemma StaticLength(s: Static, session: Session)
    requires ValidView(session.view) && |s.items| <= MAX_ITEMS_PER_DEFINITION
    ensures Len(Object(ContentFields(s, session.view))) + Len(Object(CommandMembers(s, session.view)))
            + Len(Object(DelegationMembers(s, session.delegation)))
            <= ExactStatic(s) + UNCHARGED_HINTS + 4
  {
    hide Len, ContentFields, CommandMembers, DelegationMembers, ContentPrice, ActionsPrice, SuggestionsPrice,
         ValidView;
    ContentLength(s, session.view);
    CommandLength(s, session.view);
    DelegationMembersLength(s, session.delegation);
  }

  lemma Merged(a: map<string, Value>, b: map<string, Value>, c: map<string, Value>, d: map<string, Value>,
               e: map<string, Value>, f: map<string, Value>)
    ensures Len(Object(a + b + c + d + e + f))
            <= Len(Object(a)) + Len(Object(b)) + Len(Object(c)) + Len(Object(d)) + Len(Object(e)) + Len(Object(f))
  {
    hide Len;
    MergeLength(a, b);
    MergeLength(a + b, c);
    MergeLength(a + b + c, d);
    MergeLength(a + b + c + d, e);
    MergeLength(a + b + c + d + e, f);
  }

  /** What a result prints beside its static charge, its counters and its evidence. */
  const UNCHARGED_BYTES: nat := UNCHARGED_HINTS + SESSION_BYTES + 48

  /** The length of the whole result, by what it is made of. */
  lemma ResultLength(p: Procedure, placement: Placement, s: Static, session: Session)
    requires Projects(p, placement, session) && |s.items| <= MAX_ITEMS_PER_DEFINITION
    ensures RecordsValid(session.readbacks)
    ensures FitsIn(s, session, ExactStatic(s) + SurfaceItems(session.readbacks)
                               + ExactArrayBytes(PlacementLengths(p.placements)) + UNCHARGED_BYTES)
  {
    hide Len, ExactStatic, ItemsLength, MetadataValues, ReadbackValues, ExactArrayBytes, ContentFields, CommandMembers,
         EvidenceMembers, DelegationMembers, SessionMembers, ValidView, AllBelong, ValidRecord, CounterValues,
         BlockerValues;
    RecordsAreValid(p, References(placement), session.readbacks);
    StaticLength(s, session);
    EvidenceLength(session.readbacks);
    CountersLength(session.counters);
    SessionMembersLength(session.runtime);
    Merged(ContentFields(s, session.view), CommandMembers(s, session.view), EvidenceMembers(session.readbacks),
           map["counters" := Array(CounterValues(session.counters))], DelegationMembers(s, session.delegation),
           SessionMembers(session.runtime));
  }

  // ----- Whole results -----

  /** Against the exact charges: the surface by references, items and previews. */
  lemma ResultBytes(p: Procedure, placement: Placement, s: Static, session: Session)
    requires Projects(p, placement, session) && |s.items| <= MAX_ITEMS_PER_DEFINITION
    ensures EvidenceSums(p, placement).Some?
    ensures var e := ExactCharges(p, placement, s);
            var rs := session.readbacks;
            && FitsIn(s, session, e.nextStatic + e.counters + e.sums.records + REFERENCE_BYTES * |rs|
                                  + ITEM_BYTES * AllItems(rs) + PREVIEW_BYTES * AllPreviews(rs) + UNCHARGED_BYTES)
            && e.sums.metadata >= 128 + 4_476 * |rs| + 1_377 * e.sums.items
            && AllItems(rs) <= e.sums.items
            && AllPreviews(rs) <= Min(e.sums.previews, MAX_EVIDENCE_PREVIEW_SLOTS)
  {
    hide Len, ExactStatic, ItemsLength, MetadataValues, ReadbackValues, ExactArrayBytes, NextResult, ValidView,
         AllBelong, SumReferences, RecordsValid, BlockerValues, AllItems, AllPreviews, NamedItems;
    var references := References(placement);
    ResultLength(p, placement, s, session);
    ValidRecords(session.readbacks);
    SurfaceBytes(p, references, session.readbacks, NO_EVIDENCE);
    PreviewsAreOfNamedItems(p, references, session.readbacks);
    PreviewsAreNamed(p, references, NO_EVIDENCE);
  }

  lemma ValidRecords(rs: seq<Readback>)
    requires RecordsValid(rs)
    ensures forall i :: 0 <= i < |rs| && rs[i].decision.Some? ==> ValidRecord(rs[i].decision.value)
  {
  }

  lemma ValidReadbacks(rs: seq<Readback>)
    requires forall i :: 0 <= i < |rs| && rs[i].decision.Some? ==> ValidRecord(rs[i].decision.value)
    ensures RecordsValid(rs)
  {
  }

  /**
    A placement that passes the observation test never prints a result of more than 1,041,000
    bytes, whatever the session: 7 KiB are left of the frame for the envelope.
    */
  lemma ObservedResultFits(p: Procedure, placement: Placement, s: Static, session: Session)
    requires Projects(p, placement, session) && |s.items| <= MAX_ITEMS_PER_DEFINITION
    ensures Observable(p, placement, s) ==> FitsIn(s, session, 1_041_000) && 1_041_000 <= NEXT_FRAME_BUDGET - 7 * KIB
  {
    hide Len, Projects, NextResult, ExactCharges, RecordsValid, EvidenceSums, ObservationStaticMembers, Saturated,
         AllItems, AllPreviews;
    ResultBytes(p, placement, s, session);
    ObservationTestIsExact(ExactCharges(p, placement, s));
  }

  lemma {:induction false} ElementsBound(placements: seq<Placement>)
    ensures ElementBytes(PlacementLengths(placements)) <= 168 * |placements|
  {
    if placements != [] {
      ElementsBound(placements[1..]);
      assert PlacementLengths(placements)[1..] == PlacementLengths(placements[1..]);
    }
  }

  const MAX_GRAPH_NODES: nat := 1_024

  /** The tests on one placement: its static content, its records, its items and their aggregate with the counters. */
  predicate Framed(b: PlacementBudget) {
    && !ExceedsBudget(b.nextStatic, NEXT_STATIC_BUDGET)
    && !ExceedsBudget(b.evidence.decisionRecords, DECISION_RECORD_BUDGET)
    && !ExceedsBudget(b.evidence.metadataRecords, READBACK_RECORD_BUDGET)
    && !ExceedsBudget(ChargedTotal(b), NEXT_FRAME_BUDGET - NEXT_SERIALIZATION_RESERVE)
  }

  ghost predicate Frameable(p: Procedure, placement: Placement, s: Static) {
    EvidenceSums(p, placement).Some? && Framed(Saturated(ExactCharges(p, placement, s)))
  }

  lemma FramedCharges(e: ExactBudget)
    requires Framed(Saturated(e))
    ensures e.nextStatic <= NEXT_STATIC_BUDGET && e.sums.records <= DECISION_RECORD_BUDGET && e.sums.items <= 128
    ensures ExactTotal(e) <= NEXT_FRAME_BUDGET - NEXT_SERIALIZATION_RESERVE
  {
    hide ChargedTotal, ExactTotal;
    OverrunIsExact(e.nextStatic, NEXT_STATIC_BUDGET);
    OverrunIsExact(e.sums.records, DECISION_RECORD_BUDGET);
    OverrunIsExact(e.sums.items, READBACK_RECORD_BUDGET);
    FrameTestIsExact(e);
  }

  /**
    Few preview slots leave room in the frame; many bring charges that previews and items do not
    use. Either way the result fits.
    */
  lemma FrameArithmetic(e: ExactBudget, references: nat, items: nat, previews: nat)
    requires e.nextStatic <= NEXT_STATIC_BUDGET && e.sums.records <= DECISION_RECORD_BUDGET
             && items <= e.sums.items <= 128
    requires ExactTotal(e) <= NEXT_FRAME_BUDGET - NEXT_SERIALIZATION_RESERVE
    requires references <= MAX_RECORD_REFERENCES && e.counters <= 2 + 168 * MAX_GRAPH_NODES
    requires e.sums.metadata >= 128 + 4_476 * references + 1_377 * e.sums.items && e.sums.previews <= e.sums.items
    requires previews <= Min(e.sums.previews, MAX_EVIDENCE_PREVIEW_SLOTS)
    ensures e.nextStatic + e.counters + e.sums.records + REFERENCE_BYTES * references + ITEM_BYTES * items
            + PREVIEW_BYTES * previews + UNCHARGED_BYTES
            <= 1_042_000
  {
    var slots := Min(e.sums.previews, MAX_EVIDENCE_PREVIEW_SLOTS);
    if slots < 25 {
      assert PREVIEW_BYTES * previews <= 24 * PREVIEW_BYTES;
    } else {
      assert e.sums.metadata + slots * 7_228
          >= 48_425 + REFERENCE_BYTES * references + ITEM_BYTES * items + PREVIEW_BYTES * previews;
    }
  }

  lemma {:induction false} PreviewableItems(p: Procedure, references: seq<Reference>, sums: Sums)
    requires SumReferences(p, references, sums).Some?
    ensures var r := SumReferences(p, references, sums).value; r.previews - sums.previews <= r.items - sums.items
    decreases |references|
  {
    hide Resolve, SourceRecord, SourceMetadata;
    if references != [] {
      PreviewableItems(p, references[1..], sums.Plus(Resolve(p, references[0]).value));
    }
  }

  /**
    A placement with at most eight references in a graph of at most 1,024 nodes that passes its own
    allocations and the aggregate test never prints a result of more than 1,042,000 bytes.
    */
  lemma FramedResultFits(p: Procedure, placement: Placement, s: Static, session: Session)
    requires Projects(p, placement, session) && |s.items| <= MAX_ITEMS_PER_DEFINITION
    requires |References(placement)| <= MAX_RECORD_REFERENCES && |p.placements| <= MAX_GRAPH_NODES
    ensures Frameable(p, placement, s) ==> FitsIn(s, session, 1_042_000) && 1_042_000 <= NEXT_FRAME_BUDGET - 6 * KIB
  {
    hide Len, NextResult, RecordsValid, Framed, Saturated, AllItems, AllPreviews, ExactTotal, ElementBytes,
         SumReferences, ValidView, AllBelong, BlockerValues, ExactStatic;
    ResultBytes(p, placement, s, session);
    var e := ExactCharges(p, placement, s);
    if Framed(Saturated(e)) {
      FramedCharges(e);
      ElementsBound(p.placements);
      PreviewableItems(p, References(placement), NO_EVIDENCE);
      ReadbackCount(p, References(placement), session.readbacks);
      FrameArithmetic(e, |session.readbacks|, AllItems(session.readbacks), AllPreviews(session.readbacks));
    }
  }

  lemma ReadbackCount(p: Procedure, references: seq<Reference>, rs: seq<Readback>)
    requires AllBelong(p, references, rs)
    ensures |rs| == |references|
  {
  }
}
