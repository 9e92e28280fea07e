/**
  The budget tests in numbers: the limits, what a placement's charges are added up to, and what a
  projected value is charged, with no constant but the numbers themselves.
  */
module BudgetNumbers {
  import opened CanonicalJson
  import opened CanonicalLength
  import opened Procedure
  import opened Saturation
  import opened NextBudget
  import opened BudgetTheorems
  import opened StaticGuidance
  import opened NextResponse
  import opened ReadbackSize

  /** Static content, records, and metadata. */
  function Content(e: ExactBudget): (n: nat) {
    e.nextStatic + e.sums.records + e.sums.metadata
  }

  /** At most 32 slots, with 5,628 bytes of preview and 1,600 of page token each. */
  function SlotBytes(e: ExactBudget): (n: nat) {
    7_228 * if e.sums.previews < 32 then e.sums.previews else 32
  }

  /**
    The observation test: the content and twice the counters leave 32,768 bytes for the status,
    8,192 for a delegation.
    */
  lemma ObservableInNumbers(p: Procedure, placement: Placement, s: Static)
    ensures Observable(p, placement, s) <==>
            && EvidenceSums(p, placement).Some?
            && var e := ExactCharges(p, placement, s);
               Content(e) + 2 * e.counters + (if e.delegatedSnapshot then 40_960 else 32_768) <= 786_432
  {
    hide ObservationStaticMembers, Saturated, ExactCharges, EvidenceSums, ExceedsBudget;
    if EvidenceSums(p, placement).Some? {
      ObservationTestIsExact(ExactCharges(p, placement, s));
    }
  }

  /** The frame test: 262,144 bytes of static content, 270,336 of records, 128 items, and 999,424 in all. */
  lemma FrameableInNumbers(p: Procedure, placement: Placement, s: Static)
    ensures Frameable(p, placement, s) <==>
            && EvidenceSums(p, placement).Some?
            && var e := ExactCharges(p, placement, s);
               && e.nextStatic <= 262_144 && e.sums.records <= 270_336 && e.sums.items <= 128
               && Content(e) + SlotBytes(e) + e.counters <= 999_424
  {
    hide ChargedTotal, ExactCharges, EvidenceSums, ExceedsBudget;
    if EvidenceSums(p, placement).Some? {
      var e := ExactCharges(p, placement, s);
      OverrunIsExact(e.nextStatic, NEXT_STATIC_BUDGET);
      OverrunIsExact(e.sums.records, DECISION_RECORD_BUDGET);
      OverrunIsExact(e.sums.items, READBACK_RECORD_BUDGET);
      FrameTestIsExact(e);
    }
  }

  /** What a projected value is charged: 20 bytes a scalar, six a character, eight more an element or a member. */
  lemma ProjectedInNumbers(v: Value, items: seq<Value>, members: map<string, Value>, key: string)
    requires key !in members
    ensures v.Null? || v.Bool? || v.Int? || v.Float? ==> Projected(v) == 20
    ensures v.String? ==> Projected(v) == 6 * |v.text|
    ensures Projected(Array([])) == 0 && Projected(Array([v] + items)) == 8 + Projected(v) + Projected(Array(items))
    ensures Projected(Object(map[])) == 0
    ensures Projected(Object(members[key := v])) == 8 + 6 * |key| + Projected(v) + Projected(Object(members))
  {
    hide Total, ProjectedFields;
    assert ([v] + items)[1..] == items;
    ProjectedNothing();
    ProjectedMember(v, members, key);
  }

  lemma ProjectedNothing()
    ensures Projected(Object(map[])) == 0
  {
    assert ProjectedFields(Object(map[])) == map[];
  }

  lemma ProjectedMember(v: Value, members: map<string, Value>, key: string)
    requires key !in members
    ensures Projected(Object(members[key := v])) == 8 + 6 * |key| + Projected(v) + Projected(Object(members))
  {
    hide Total, ProjectedFields, Projected;
    var fields := ProjectedFields(Object(members));
    FieldsWith(v, members, key);
    TotalSetting(fields, key, 8 + 6 * |key| + Projected(v));
    ProjectedTotal(members);
    ProjectedTotal(members[key := v]);
  }

  lemma ProjectedTotal(members: map<string, Value>)
    ensures Projected(Object(members)) == Total(ProjectedFields(Object(members)))
  {
    hide Total, ProjectedFields;
  }

  lemma FieldsWith(v: Value, members: map<string, Value>, key: string)
    ensures ProjectedFields(Object(members[key := v]))
            == ProjectedFields(Object(members))[key := 8 + 6 * |key| + Projected(v)]
  {
    hide Projected, Total;
  }

  /** The other allocations, and the largest machine words. */
  lemma LimitsInNumbers()
    ensures READBACK_BUDGET == 221_184 && EVIDENCE_PREVIEW_BUDGET == 180_224 && PAGE_TOKEN_BUDGET == 65_536
    ensures NEXT_FRAME_BUDGET == 1_048_576 && NEXT_SERIALIZATION_RESERVE == 49_152
    ensures U64_MAX == 18_446_744_073_709_551_615 && I64_MIN == -9_223_372_036_854_775_808
    ensures I64_MAX == 9_223_372_036_854_775_807
    ensures MIN_INTEGER == -9_223_372_036_854_775_808 && MAX_INTEGER == 18_446_744_073_709_551_615
  {
  }
}
