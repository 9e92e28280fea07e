/**
  The byte budget of a `session.next` response: every string, field and array element has a
  conservative price, every sum saturates at the largest `u64`, and each allocation of the frame
  is charged on its own.
  */
module NextBudget {
  import opened Procedure
  import opened Saturation

  const KIB: nat := 1024
  const NEXT_STATIC_BUDGET: nat := 256 * KIB
  const DECISION_RECORD_BUDGET: nat := 264 * KIB
  const READBACK_BUDGET: nat := 216 * KIB
  const EVIDENCE_PREVIEW_BUDGET: nat := 176 * KIB
  const PAGE_TOKEN_BUDGET: nat := 64 * KIB
  const NEXT_SERIALIZATION_RESERVE: nat := 48 * KIB
  const NEXT_FRAME_BUDGET: nat := 1024 * KIB
  const READBACK_RECORD_BUDGET: nat := 128

  const STRING_BYTE_FACTOR: nat := 6
  const FIELD_OVERHEAD: nat := 64
  const ARRAY_ELEMENT_OVERHEAD: nat := 8
  const MAX_IDENTIFIER_CHARS: nat := 64
  const MAX_DEFINITION_TITLE_CHARS: nat := 120
  const MAX_UUID_CHARS: nat := 36
  const MAX_DIGEST_CHARS: nat := 71
  const MAX_TIMESTAMP_CHARS: nat := 24
  const MAX_RECORD_REASON_CHARS: nat := 2_000
  const MAX_ACTOR_CHARS: nat := 256
  const MAX_U64_BYTES: nat := 20
  const MAX_BOOL_BYTES: nat := 5
  const MAX_GOAL_CRITERIA: nat := 16
  const MAX_CRITERION_REASON_CHARS: nat := 2_000
  const MAX_CITATIONS_PER_CRITERION: nat := 4
  const MAX_RECORD_REFERENCES: nat := 8
  const MAX_EVIDENCE_PREVIEW_SLOTS: nat := 32
  const MAX_EVIDENCE_PREVIEW_BYTES: nat := 938 * STRING_BYTE_FACTOR
  const MAX_EVIDENCE_PAGE_TOKEN_CHARS: nat := 256
  const MAX_OBSERVATION_STATUS_NON_COUNTER_BYTES: nat := 32 * KIB
  const DELEGATION_PROJECTION_CHARGE: nat := 8 * KIB

  // ----- Tariff -----

  function FixedField(encodedBytes: nat): (r: nat) {
    Add(FIELD_OVERHEAD, encodedBytes)
  }

  function StringBytes(characters: nat): (r: nat) {
    Mul(characters, STRING_BYTE_FACTOR)
  }

  function StringField(characters: nat): (r: nat) {
    Add(FIELD_OVERHEAD, StringBytes(characters))
  }

  function ArrayString(characters: nat): (r: nat) {
    Add(ARRAY_ELEMENT_OVERHEAD, StringBytes(characters))
  }

  predicate ExceedsBudget(charged: nat, budget: nat) {
    charged > budget
  }

  /** Saturation never hides an overrun and never invents one, for any budget a `u64` can exceed. */
  lemma OverrunIsExact(exact: nat, budget: nat)
    requires budget < U64_MAX
    ensures ExceedsBudget(Capped(exact), budget) <==> exact > budget
  {
  }

  // ----- Fixed shapes -----

  function ReferenceMetadataCharge(): (r: nat) {
    Accumulated([ARRAY_ELEMENT_OVERHEAD, StringField(MAX_IDENTIFIER_CHARS), StringField(MAX_DEFINITION_TITLE_CHARS),
                 StringField(MAX_UUID_CHARS), FixedField(MAX_U64_BYTES), StringField(MAX_DIGEST_CHARS),
                 StringField(|"resolved"|)])
  }

  function PageTokenCharge(): (r: nat) {
    StringField(MAX_EVIDENCE_PAGE_TOKEN_CHARS)
  }

  function ReadbackItemPrices(item: ItemSpec): (prices: seq<nat>) {
    [ARRAY_ELEMENT_OVERHEAD, StringField(MAX_IDENTIFIER_CHARS), StringField(|ItemTypeName(item.kind)|),
     FixedField(MAX_U64_BYTES),
     StringField(MAX_DIGEST_CHARS), FixedField(MAX_U64_BYTES), StringField(|"scalars"|), FixedField(MAX_BOOL_BYTES)]
  }

  function ReadbackItemCharge(item: ItemSpec): (r: nat) {
    Accumulated(ReadbackItemPrices(item))
  }

  function ReferenceSnapshotCharge(): (r: nat) {
    Accumulated([ARRAY_ELEMENT_OVERHEAD, StringField(MAX_IDENTIFIER_CHARS), StringField(MAX_UUID_CHARS),
                 FixedField(MAX_U64_BYTES),
                 StringField(MAX_DIGEST_CHARS), StringField(|"resolved"|)])
  }

  function CriterionResultCharge(): (r: nat) {
    Accumulated([ARRAY_ELEMENT_OVERHEAD, StringField(MAX_IDENTIFIER_CHARS), StringField(|"unsatisfied"|),
                 StringField(MAX_CRITERION_REASON_CHARS), FIELD_OVERHEAD,
                 Mul(MAX_CITATIONS_PER_CRITERION, Add(ARRAY_ELEMENT_OVERHEAD, StringField(MAX_IDENTIFIER_CHARS)))])
  }

  function GoalAssessmentRecordCharge(): (r: nat) {
    Accumulated([StringField(|"session_goal"|), StringField(|"assessment"|), StringField(|"not_achieved"|),
                 FIELD_OVERHEAD,
                 Mul(MAX_GOAL_CRITERIA, CriterionResultCharge())])
  }

  function DecisionRecordPrices(): (prices: seq<nat>) {
    [FIELD_OVERHEAD, FixedField(MAX_U64_BYTES), StringField(MAX_UUID_CHARS), FixedField(MAX_U64_BYTES),
     StringField(|"podway.procedure/v2"|), StringField(MAX_UUID_CHARS), StringField(MAX_DIGEST_CHARS),
     StringField(MAX_IDENTIFIER_CHARS), StringField(MAX_IDENTIFIER_CHARS), StringField(MAX_UUID_CHARS),
     FixedField(MAX_U64_BYTES), FixedField(MAX_U64_BYTES), StringField(MAX_IDENTIFIER_CHARS), StringField(|"advance"|),
     StringField(MAX_IDENTIFIER_CHARS), StringField(MAX_RECORD_REASON_CHARS), StringField(MAX_ACTOR_CHARS),
     StringField(MAX_TIMESTAMP_CHARS), FIELD_OVERHEAD, Mul(MAX_RECORD_REFERENCES, ReferenceSnapshotCharge())]
  }

  function DecisionRecordCharge(isGoalAssessment: bool): (r: nat) {
    var record := Accumulated(DecisionRecordPrices());
    if isGoalAssessment then Add(record, GoalAssessmentRecordCharge()) else record
  }

  /** The numbers the source pins. */
  lemma PinnedCharges()
    ensures ReferenceMetadataCharge() == 2_206 && PageTokenCharge() == 1_600 && MAX_EVIDENCE_PREVIEW_BYTES == 5_628
    ensures CriterionResultCharge() == 14_538
    ensures DecisionRecordCharge(false) == 29_118 && DecisionRecordCharge(true) == 262_186
  {
    hide ReferenceMetadataCharge, CriterionResultCharge, DecisionRecordCharge;
    PinnedReference();
    PinnedCriterion();
    PinnedPlainRecord();
    PinnedAssessmentRecord();
  }

  /** The prices the shapes are made of. */
  lemma FieldCharges()
    ensures StringField(MAX_IDENTIFIER_CHARS) == 448 && StringField(MAX_DEFINITION_TITLE_CHARS) == 784
    ensures StringField(MAX_UUID_CHARS) == 280 && StringField(MAX_DIGEST_CHARS) == 490
            && StringField(|"resolved"|) == 112
    ensures StringField(|"scalars"|) == 106 && FixedField(MAX_U64_BYTES) == 84 && FixedField(MAX_BOOL_BYTES) == 69
  {
  }

  lemma RecordPrices()
    ensures StringField(|"unsatisfied"|) == 130 && StringField(MAX_CRITERION_REASON_CHARS) == 12_064
    ensures StringField(|"session_goal"|) == 136 && StringField(|"assessment"|) == 124
            && StringField(|"not_achieved"|) == 136
    ensures StringField(|"podway.procedure/v2"|) == 178 && StringField(|"advance"|) == 106
    ensures StringField(MAX_RECORD_REASON_CHARS) == 12_064 && StringField(MAX_ACTOR_CHARS) == 1_600
            && StringField(MAX_TIMESTAMP_CHARS) == 208
  {
  }

  lemma PinnedReference()
    ensures ReferenceMetadataCharge() == 2_206
  {
    hide StringField, FixedField, Accumulated, Sum;
    FieldCharges();
    SumOfEight(8, 448, 784, 280, 84, 490, 112, 0);
    AccumulatedSum([8, 448, 784, 280, 84, 490, 112], 2_206);
  }

  lemma PinnedCriterion()
    ensures CriterionResultCharge() == 14_538
  {
    hide StringField, FixedField, Accumulated, Sum;
    FieldCharges();
    RecordPrices();
    SumOfEight(8, 448, 130, 12_064, 64, 1_824, 0, 0);
    AccumulatedSum([8, 448, 130, 12_064, 64, 1_824], 14_538);
  }

  lemma PinnedSnapshot()
    ensures ReferenceSnapshotCharge() == 1_422
  {
    hide StringField, FixedField, Accumulated, Sum;
    FieldCharges();
    SumOfEight(8, 448, 280, 84, 490, 112, 0, 0);
    AccumulatedSum([8, 448, 280, 84, 490, 112], 1_422);
  }

  lemma PinnedAssessment()
    ensures GoalAssessmentRecordCharge() == 233_068
  {
    hide StringField, FixedField, Accumulated, Sum, CriterionResultCharge;
    RecordPrices();
    PinnedCriterion();
    SumOfEight(136, 124, 136, 64, 232_608, 0, 0, 0);
    AccumulatedSum([136, 124, 136, 64, 232_608], 233_068);
  }

  lemma RecordPricesSum()
    ensures Sum(DecisionRecordPrices()) == 29_118
  {
    hide StringField, FixedField, Sum, ReferenceSnapshotCharge;
    FieldCharges();
    RecordPrices();
    PinnedSnapshot();
    var a, b, c := [64, 84, 280, 84, 178, 280, 490, 448], [448, 280, 84, 84, 448, 106, 448, 12_064],
        [1_600, 208, 64, 11_376];
    assert DecisionRecordPrices() == a + b + c;
    SumSplits(a + b, c);
    SumSplits(a, b);
    SumOfEight(64, 84, 280, 84, 178, 280, 490, 448);
    SumOfEight(448, 280, 84, 84, 448, 106, 448, 12_064);
    SumOfFour(1_600, 208, 64, 11_376);
  }

  lemma PinnedPlainRecord()
    ensures DecisionRecordCharge(false) == 29_118
  {
    hide DecisionRecordPrices, Accumulated, Sum;
    RecordPricesSum();
    AccumulatedSum(DecisionRecordPrices(), 29_118);
  }

  lemma PinnedAssessmentRecord()
    ensures DecisionRecordCharge(true) == 262_186
  {
    hide DecisionRecordPrices, Accumulated, Sum, GoalAssessmentRecordCharge;
    PinnedPlainRecord();
    PinnedAssessment();
  }
}
