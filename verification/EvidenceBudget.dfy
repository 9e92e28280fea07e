/**
  The four evidence-derived allocations of one placement: complete decision records, reference
  and item metadata, previews, and continuation tokens.
  */
module EvidenceBudget {
  import opened Utf8
  import opened Procedure
  import opened NextBudget
  import opened Saturation

  datatype EvidenceCharges = EvidenceCharges(
    decisionRecords: nat, metadata: nat, metadataRecords: nat, preview: nat, pageTokens: nat)

  /** Charged when a reference does not resolve, which validation rules out. */
  const FAIL_CLOSED := EvidenceCharges(U64_MAX, U64_MAX, U64_MAX, U64_MAX, U64_MAX)

  // ----- What a reference selects -----

  function SelectItems(items: seq<ItemSpec>, ids: seq<Identifier>, done: seq<ItemSpec>): (r: Option<seq<ItemSpec>>)
    ensures r.Some? ==> |r.value| == |done| + |ids|
    decreases |ids|
  {
    if ids == [] then Some(done)
    else
      match FindItem(items, ids[0])
      case None => None
      case Some(item) => SelectItems(items, ids[1..], done + [item])
  }

  /** The definition behind a reference and the items it reads back. */
  datatype Source = Source(definition: Definition, selected: seq<ItemSpec>, explicit: bool)

  function Resolve(p: Procedure, reference: Reference): (r: Option<Source>) {
    match FindPlacement(p.placements, reference.source)
    case None => None
    case Some(source) =>
      match FindDefinition(p.definitions, source.definition)
      case None => None
      case Some(definition) =>
        match reference.selected
        case None => Some(Source(definition, definition.items, false))
        case Some(ids) =>
          match SelectItems(definition.items, ids, [])
          case None => None
          case Some(selected) => Some(Source(definition, selected, true))
  }

  // ----- What resolving means -----

  /** The selected items are, one by one, the first items with the requested identifiers. */
  ghost predicate Picks(items: seq<ItemSpec>, ids: seq<Identifier>, selected: seq<ItemSpec>) {
    |selected| == |ids| && forall i :: 0 <= i < |ids| ==> IsFirst(items, ItemId, ids[i], selected[i])
  }

  ghost predicate Misses(items: seq<ItemSpec>, ids: seq<Identifier>) {
    exists i :: 0 <= i < |ids| && IsAbsent(items, ItemId, ids[i])
  }

  /** Selection picks the first item for every identifier, and fails exactly when one of them has none. */
  lemma {:induction false} SelectionMeans(items: seq<ItemSpec>, ids: seq<Identifier>, done: seq<ItemSpec>)
    ensures var r := SelectItems(items, ids, done);
            && (r.None? <==> Misses(items, ids))
            && (r.Some? ==> r.value[..|done|] == done && Picks(items, ids, r.value[|done|..]))
    decreases |ids|
  {
    hide FindItem, IsFirst, IsAbsent;
    if ids != [] {
      FoundItem(items, ids[0]);
      var rest := ids[1..];
      if IsAbsent(items, ItemId, ids[0]) {
      } else {
        var item := FindItem(items, ids[0]).value;
        SelectionMeans(items, rest, done + [item]);
        MissesLater(items, ids);
        var r := SelectItems(items, ids, done);
        if r.Some? {
          assert r.value[..|done| + 1] == done + [item];
          assert r.value[..|done|] == r.value[..|done| + 1][..|done|];
          var picked := r.value[|done|..];
          assert picked[0] == r.value[..|done| + 1][|done|];
          assert picked[1..] == r.value[|done| + 1..];
          PicksLater(items, ids, picked);
        }
      }
    }
  }

  lemma FoundItem(items: seq<ItemSpec>, id: Identifier)
    ensures var r := FindItem(items, id);
            if r.Some? then IsFirst(items, ItemId, id, r.value) && !IsAbsent(items, ItemId, id)
            else IsAbsent(items, ItemId, id)
  {
    FoundIsFirst(items, ItemId, id);
  }

  lemma MissesLater(items: seq<ItemSpec>, ids: seq<Identifier>)
    requires ids != [] && !IsAbsent(items, ItemId, ids[0])
    ensures Misses(items, ids) <==> Misses(items, ids[1..])
  {
    hide IsAbsent;
    if i :| 0 <= i < |ids| && IsAbsent(items, ItemId, ids[i]) {
      assert ids[1..][i - 1] == ids[i];
    }
    if i :| 0 <= i < |ids[1..]| && IsAbsent(items, ItemId, ids[1..][i]) {
      assert ids[i + 1] == ids[1..][i];
    }
  }

  lemma PicksLater(items: seq<ItemSpec>, ids: seq<Identifier>, selected: seq<ItemSpec>)
    requires ids != [] && selected != [] && IsFirst(items, ItemId, ids[0], selected[0])
             && Picks(items, ids[1..], selected[1..])
    ensures Picks(items, ids, selected)
  {
    hide IsFirst;
    forall i | 0 <= i < |ids| ensures IsFirst(items, ItemId, ids[i], selected[i]) {
      if i > 0 { assert ids[i] == ids[1..][i - 1] && selected[i] == selected[1..][i - 1]; }
    }
  }

  /** The first placement of the source node and the first definition it uses. */
  ghost predicate LeadsTo(p: Procedure, reference: Reference, placement: Placement, definition: Definition) {
    && IsFirst(p.placements, PlacementId, reference.source, placement)
    && IsFirst(p.definitions, DefinitionId, placement.definition, definition)
  }

  /** The reference reads this source: the items it names, or all of them if it names none. */
  ghost predicate Reads(p: Procedure, reference: Reference, source: Source) {
    && (exists placement :: LeadsTo(p, reference, placement, source.definition))
    && source.explicit == reference.selected.Some?
    && (if source.explicit then Picks(source.definition.items, reference.selected.value, source.selected)
        else source.selected == source.definition.items)
  }

  /** The placement, its definition or one of the named items is missing. */
  ghost predicate Dangles(p: Procedure, reference: Reference) {
    || IsAbsent(p.placements, PlacementId, reference.source)
    || (exists placement :: IsFirst(p.placements, PlacementId, reference.source, placement)
                            && IsAbsent(p.definitions, DefinitionId, placement.definition))
    || (reference.selected.Some?
        && exists placement, definition :: LeadsTo(p, reference, placement, definition)
                                           && Misses(definition.items, reference.selected.value))
  }

  /** Where a reference leads: to what it reads, or nowhere exactly when it dangles. */
  lemma ResolveMeans(p: Procedure, reference: Reference)
    ensures var r := Resolve(p, reference);
            && (r.Some? ==> Reads(p, reference, r.value))
            && (r.None? <==> Dangles(p, reference))
  {
    hide IsFirst, IsAbsent, Picks, Misses, SelectItems, FindPlacement, FindDefinition;
    PlacementFound(p, reference.source);
    var found := FindPlacement(p.placements, reference.source);
    if found.Some? {
      UniquePlacement(p, reference.source, found.value);
      var id := found.value.definition;
      DefinitionFound(p, id);
      var definition := FindDefinition(p.definitions, id);
      if definition.Some? {
        UniqueDefinition(p, id, definition.value);
        assert LeadsTo(p, reference, found.value, definition.value);
        if reference.selected.Some? {
          var ids := reference.selected.value;
          SelectionMeans(definition.value.items, ids, []);
          var selected := SelectItems(definition.value.items, ids, []);
          if selected.Some? {
            assert selected.value[0..] == selected.value;
          }
        }
      }
    }
  }

  lemma PlacementFound(p: Procedure, id: Identifier)
    ensures var r := FindPlacement(p.placements, id);
            if r.Some? then IsFirst(p.placements, PlacementId, id, r.value) && !IsAbsent(p.placements, PlacementId, id)
            else IsAbsent(p.placements, PlacementId, id) && forall x :: !IsFirst(p.placements, PlacementId, id, x)
  {
    FoundIsFirst(p.placements, PlacementId, id);
  }

  lemma DefinitionFound(p: Procedure, id: Identifier)
    ensures var r := FindDefinition(p.definitions, id);
            if r.Some?
            then IsFirst(p.definitions, DefinitionId, id, r.value) && !IsAbsent(p.definitions, DefinitionId, id)
            else IsAbsent(p.definitions, DefinitionId, id) && forall x :: !IsFirst(p.definitions, DefinitionId, id, x)
  {
    FoundIsFirst(p.definitions, DefinitionId, id);
  }

  lemma UniquePlacement(p: Procedure, id: Identifier, placement: Placement)
    requires IsFirst(p.placements, PlacementId, id, placement)
    ensures forall x :: IsFirst(p.placements, PlacementId, id, x) ==> x == placement
  {
    forall x | IsFirst(p.placements, PlacementId, id, x) ensures x == placement {
      FirstIsUnique(p.placements, PlacementId, id, x, placement);
    }
  }

  lemma UniqueDefinition(p: Procedure, id: Identifier, definition: Definition)
    requires IsFirst(p.definitions, DefinitionId, id, definition)
    ensures forall x :: IsFirst(p.definitions, DefinitionId, id, x) ==> x == definition
  {
    forall x | IsFirst(p.definitions, DefinitionId, id, x) ensures x == definition {
      FirstIsUnique(p.definitions, DefinitionId, id, x, definition);
    }
  }

  // ----- Exact charges -----

  function ItemsCharge(items: seq<ItemSpec>): (n: nat) {
    if items == [] then 0 else ReadbackItemCharge(items[0]) + ItemsCharge(items[1..])
  }

  function SourceMetadata(source: Source): (n: nat) {
    ReferenceMetadataCharge() + ReferenceMetadataCharge() + FIELD_OVERHEAD + ItemsCharge(source.selected)
  }

  function SourceRecord(source: Source): (n: nat) {
    if source.definition.Decision? then DecisionRecordCharge(source.definition.assessment) else 0
  }

  function SourcePreviews(source: Source): (n: nat) {
    if source.explicit then |source.selected| else 0
  }

  /** The exact sums over all references, when every one of them resolves. */
  datatype Sums = Sums(records: nat, metadata: nat, items: nat, previews: nat) {
    function Plus(source: Source): (r: Sums) {
      Sums(records + SourceRecord(source), metadata + SourceMetadata(source), items + |source.selected|,
           previews + SourcePreviews(source))
    }
  }

  function SumReferences(p: Procedure, references: seq<Reference>, sums: Sums): (r: Option<Sums>)
    decreases |references|
  {
    if references == [] then Some(sums)
    else
      match Resolve(p, references[0])
      case None => None
      case Some(source) => SumReferences(p, references[1..], sums.Plus(source))
  }

  /** Both reference arrays are always present. */
  const NO_EVIDENCE := Sums(0, FIELD_OVERHEAD + FIELD_OVERHEAD, 0, 0)

  function Min(a: nat, b: nat): (r: nat) {
    if a < b then a else b
  }

  function ChargesFor(sums: Sums): (r: EvidenceCharges) {
    var slots := Min(Capped(sums.previews), MAX_EVIDENCE_PREVIEW_SLOTS);
    EvidenceCharges(Capped(sums.records), Capped(sums.metadata), Capped(sums.items),
                    Mul(slots, MAX_EVIDENCE_PREVIEW_BYTES), Mul(slots, PageTokenCharge()))
  }

  /** The allocations of a placement: exact sums, capped. */
  function ChargesOf(p: Procedure, placement: Placement): (r: EvidenceCharges) {
    match placement.evidence
    case None => ChargesFor(NO_EVIDENCE)
    case Some(references) =>
      match SumReferences(p, references, NO_EVIDENCE)
      case None => FAIL_CLOSED
      case Some(sums) => ChargesFor(sums)
  }

  // ----- The accumulation loops -----

  method CollectSelected(items: seq<ItemSpec>, ids: seq<Identifier>) returns (r: Option<seq<ItemSpec>>)
    ensures r.Some? ==> Picks(items, ids, r.value)
    ensures r.None? <==> Misses(items, ids)
    ensures r == SelectItems(items, ids, [])
  {
    hide FindItem, Picks, Misses;
    SelectedMeans(items, ids);
    var selected := [];
    assert ids[0..] == ids;
    for i := 0 to |ids|
      invariant SelectItems(items, ids[i..], selected) == SelectItems(items, ids, [])
    {
      assert ids[i..][1..] == ids[i + 1..];
      var item := FindItem(items, ids[i]);
      if item.None? {
        return None;
      }
      selected := selected + [item.value];
    }
    r := Some(selected);
  }

  lemma SelectedMeans(items: seq<ItemSpec>, ids: seq<Identifier>)
    ensures var r := SelectItems(items, ids, []);
            (r.Some? ==> Picks(items, ids, r.value)) && (r.None? <==> Misses(items, ids))
  {
    hide Picks, Misses;
    SelectionMeans(items, ids, []);
    var r := SelectItems(items, ids, []);
    if r.Some? {
      assert r.value[0..] == r.value;
    }
  }

  method AddItemCharges(metadata: nat, items: seq<ItemSpec>) returns (charge: nat)
    ensures charge == Capped(metadata + ItemsCharge(items))
  {
    hide ReadbackItemCharge;
    charge := Capped(metadata);
    assert items[0..] == items;
    for i := 0 to |items|
      invariant charge <= U64_MAX
      invariant Capped(charge + ItemsCharge(items[i..])) == Capped(metadata + ItemsCharge(items))
    {
      assert items[i..][1..] == items[i + 1..];
      charge := Add(charge, ReadbackItemCharge(items[i]));
    }
  }

  method ResolveReference(p: Procedure, reference: Reference) returns (r: Option<Source>)
    ensures r.Some? ==> Reads(p, reference, r.value)
    ensures r.None? <==> Dangles(p, reference)
    ensures r == Resolve(p, reference)
  {
    hide Reads, Dangles, Picks, Misses, FindPlacement, FindDefinition;
    ResolveMeans(p, reference);
    var source := FindPlacement(p.placements, reference.source);
    if source.None? {
      return None;
    }
    var definition := FindDefinition(p.definitions, source.value.definition);
    if definition.None? {
      return None;
    }
    var items := definition.value.items;
    if reference.selected.None? {
      return Some(Source(definition.value, items, false));
    }
    var selected := CollectSelected(items, reference.selected.value);
    r := if selected.None? then None else Some(Source(definition.value, selected.value, true));
  }

  /** The four running totals; each is an exact sum, capped. */
  datatype Totals = Totals(records: nat, metadata: nat, items: nat, previews: nat)

  function CappedSums(sums: Sums): (t: Totals) {
    Totals(Capped(sums.records), Capped(sums.metadata), Capped(sums.items), Capped(sums.previews))
  }

  method AddSource(totals: Totals, source: Source, ghost sums: Sums) returns (r: Totals)
    requires totals == CappedSums(sums)
    ensures r == CappedSums(sums.Plus(source))
  {
    hide ReferenceMetadataCharge, DecisionRecordCharge, ItemsCharge, Add, Capped;
    var metadata := Add(Add(Add(totals.metadata, ReferenceMetadataCharge()), ReferenceMetadataCharge()),
                        FIELD_OVERHEAD);
    AddThreeIsExact(sums.metadata, ReferenceMetadataCharge(), ReferenceMetadataCharge(), FIELD_OVERHEAD);
    var previews := if source.explicit then Add(totals.previews, |source.selected|) else totals.previews;
    AddIsExact(sums.previews, |source.selected|);
    var items := Add(totals.items, |source.selected|);
    AddIsExact(sums.items, |source.selected|);
    metadata := AddItemCharges(metadata, source.selected);
    CapTwice(sums.metadata + ReferenceMetadataCharge() + ReferenceMetadataCharge() + FIELD_OVERHEAD,
             ItemsCharge(source.selected));
    var records := totals.records;
    if source.definition.Decision? {
      records := Add(records, DecisionRecordCharge(source.definition.assessment));
      AddIsExact(sums.records, DecisionRecordCharge(source.definition.assessment));
    }
    r := Totals(records, metadata, items, previews);
  }

  lemma CapTwice(a: nat, b: nat)
    ensures Capped(Capped(a) + b) == Capped(a + b)
  {
  }

  /**
    `evidence_charges`: saturating accumulation over the references. Its result is the exact sums,
    capped once at the end, so the order of the additions and the place of saturation do not matter.
    */
  method EvidenceChargesFor(p: Procedure, placement: Placement) returns (charges: EvidenceCharges)
    ensures charges == ChargesOf(p, placement)
  {
    hide Resolve, SourceRecord, SourceMetadata, SourcePreviews, PageTokenCharge;
    if placement.evidence.None? {
      return EvidenceCharges(0, Add(FIELD_OVERHEAD, FIELD_OVERHEAD), 0, 0, 0);
    }
    var references := placement.evidence.value;
    var totals := Totals(0, Add(FIELD_OVERHEAD, FIELD_OVERHEAD), 0, 0);
    ghost var sums := NO_EVIDENCE;
    assert references[0..] == references;
    for i := 0 to |references|
      invariant SumReferences(p, references[i..], sums) == SumReferences(p, references, NO_EVIDENCE)
      invariant totals == CappedSums(sums)
    {
      assert references[i..][1..] == references[i + 1..];
      var source := ResolveReference(p, references[i]);
      if source.None? {
        return FAIL_CLOSED;
      }
      totals := AddSource(totals, source.value, sums);
      sums := sums.Plus(source.value);
    }
    var slots := Min(totals.previews, MAX_EVIDENCE_PREVIEW_SLOTS);
    charges := EvidenceCharges(totals.records, totals.metadata, totals.items,
                               Mul(slots, MAX_EVIDENCE_PREVIEW_BYTES), Mul(slots, PageTokenCharge()));
  }
}
