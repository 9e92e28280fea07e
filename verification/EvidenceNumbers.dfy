/**
  The evidence charges of a placement in numbers: what every kind of source and every item adds,
  counted from what the references read.
  */
module EvidenceNumbers {
  import opened Utf8
  import opened Procedure
  import opened Saturation
  import opened NextBudget
  import opened EvidenceBudget
  import opened BudgetTheorems

  /** The references lead to these sources. */
  ghost predicate AllLead(p: Procedure, references: seq<Reference>, sources: seq<Source>) {
    |references| == |sources| && forall i :: 0 <= i < |sources| ==> Resolve(p, references[i]) == Some(sources[i])
  }

  function TypeLetters(t: ItemType): (n: nat) {
    match t
    case Confirm => 7
    case Text => 4
    case Choice => 6
    case Integer => 7
    case List => 4
    case Artifact => 8
    case CheckResult => 12
  }

  /** 1,353 bytes and six a letter of the type, for every item. */
  function ItemNumbers(items: seq<ItemSpec>): (n: nat) {
    if items == [] then 0 else 1_353 + 6 * TypeLetters(items[0].kind) + ItemNumbers(items[1..])
  }

  function RecordNumber(source: Source): (n: nat) {
    match source.definition
    case Action(_, _, _) => 0
    case Decision(_, _, _, assessment) => if assessment then 262_186 else 29_118
  }

  function Records(sources: seq<Source>): (n: nat) {
    if sources == [] then 0 else RecordNumber(sources[0]) + Records(sources[1..])
  }

  /** 4,476 bytes for every reference, and its items. */
  function Metadata(sources: seq<Source>): (n: nat) {
    if sources == [] then 0 else 4_476 + ItemNumbers(sources[0].selected) + Metadata(sources[1..])
  }

  function Items(sources: seq<Source>): (n: nat) {
    if sources == [] then 0 else |sources[0].selected| + Items(sources[1..])
  }

  /** Items that were selected by name. */
  function Named(sources: seq<Source>): (n: nat) {
    if sources == [] then 0 else (if sources[0].explicit then |sources[0].selected| else 0) + Named(sources[1..])
  }

  lemma {:induction false} ItemsInNumbers(items: seq<ItemSpec>)
    ensures ItemsCharge(items) == ItemNumbers(items)
  {
    hide ReadbackItemCharge;
    if items != [] {
      ReadbackItemBound(items[0]);
      LettersOf(items[0].kind);
      ItemsInNumbers(items[1..]);
    }
  }

  lemma LettersOf(t: ItemType)
    ensures |ItemTypeName(t)| == TypeLetters(t)
  {
  }

  lemma SourceInNumbers(source: Source)
    ensures SourceRecord(source) == RecordNumber(source)
    ensures SourceMetadata(source) == 4_476 + ItemNumbers(source.selected)
  {
    hide ReferenceMetadataCharge, DecisionRecordCharge;
    PinnedReference();
    PinnedPlainRecord();
    PinnedAssessmentRecord();
    ItemsInNumbers(source.selected);
  }

  lemma {:induction false} SumsInNumbers(p: Procedure, references: seq<Reference>, sources: seq<Source>, sums: Sums)
    requires AllLead(p, references, sources)
    ensures SumReferences(p, references, sums)
            == Some(Sums(sums.records + Records(sources), sums.metadata + Metadata(sources),
                         sums.items + Items(sources), sums.previews + Named(sources)))
    decreases |references|
  {
    hide Resolve, SourceRecord, SourceMetadata, ItemNumbers, RecordNumber;
    if references != [] {
      SourceInNumbers(sources[0]);
      SumsInNumbers(p, references[1..], sources[1..], sums.Plus(sources[0]));
    }
  }

  /** The four allocations and the item count of a placement whose references lead somewhere. */
  lemma ChargesInNumbers(p: Procedure, placement: Placement, sources: seq<Source>)
    requires AllLead(p, References(placement), sources)
    ensures var slots := if Named(sources) < 32 then Named(sources) else 32;
            ChargesOf(p, placement)
            == EvidenceCharges(Capped(Records(sources)), Capped(128 + Metadata(sources)), Capped(Items(sources)),
                               5_628 * slots, 1_600 * slots)
  {
    hide SumReferences, PageTokenCharge;
    SumsInNumbers(p, References(placement), sources, NO_EVIDENCE);
    NothingToResolve(p);
    SlotsAreExact(Sums(Records(sources), 128 + Metadata(sources), Items(sources), Named(sources)));
    SlotsAreExact(NO_EVIDENCE);
  }
}
