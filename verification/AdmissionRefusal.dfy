/**
  Why the package budget refuses a Procedure: the first delegated placement, in order, that has no
  definition, an unreadable source or too large a worst case, with what the error reports.
  */
module AdmissionRefusal {
  import opened CanonicalJson
  import opened CanonicalLength
  import opened Procedure
  import opened Saturation
  import opened DelegationPackage
  import opened DelegationAdmission
  import opened PackageContents

  /** How many items a reference can bring: as many as it names, or as its source has. */
  ghost predicate Brings(p: Procedure, reference: Reference, count: nat) {
    match reference.selected
    case Some(ids) => count == |ids|
    case None =>
      exists placement, definition ::
        Placed(p, reference.source, placement, definition) && count == |definition.items|
  }

  ghost predicate AllBring(p: Procedure, references: seq<Reference>, counts: seq<nat>) {
    |counts| == |references| && forall i :: 0 <= i < |counts| ==> Brings(p, references[i], counts[i])
  }

  function Total(counts: seq<nat>): (n: nat) {
    if counts == [] then 0 else counts[0] + Total(counts[1..])
  }

  /** The document, 53,000 bytes, 1,500 for each reference and 400 for each item. */
  ghost function WorstCase(document: map<string, Value>, counts: seq<nat>): (n: nat) {
    Len(Object(document)) + 53_000 + 1_500 * |counts| + 400 * Total(counts)
  }

  ghost predicate Unreadable(p: Procedure, reference: Reference) {
    forall count: nat :: !Brings(p, reference, count)
  }

  ghost predicate TooLarge(p: Procedure, placement: Placement, definition: Definition, counts: seq<nat>,
                           e: PackageError) {
    && IsFirst(p.definitions, DefinitionId, placement.definition, definition)
    && AllBring(p, References(placement), counts)
    && WorstCase(definition.document, counts) > 950_000
    && e == OutOfBounds("delegation work package worst-case JSON bytes", 950_000,
                        Capped(WorstCase(definition.document, counts)))
  }

  ghost predicate RefusedPlacement(p: Procedure, placement: Placement, e: PackageError) {
    && placement.ActionPlacement? && placement.delegation.Some?
    && (if IsAbsent(p.definitions, DefinitionId, placement.definition) then
          e == InvalidValue("delegation work package definition", "action definition is missing")
        else if exists i :: 0 <= i < |References(placement)| && Unreadable(p, References(placement)[i]) then
          e == InvalidValue("delegation work package evidence", "frozen evidence does not match declared selectors")
        else exists definition, counts :: TooLarge(p, placement, definition, counts, e))
  }

  lemma CountIsBrought(p: Procedure, reference: Reference)
    ensures var r := ReferenceCount(p, reference);
            && (r.Ok? ==> forall n: nat :: Brings(p, reference, n) <==> n == r.value)
            && (r.Err? ==> Unreadable(p, reference) && r.error == INVALID_EVIDENCE)
  {
    hide Placed;
    if reference.selected.None? {
      if SourceItems(p, reference.source).Ok? {
        var a, b := SourceReads(p, reference.source);
      }
      forall placement, definition | Placed(p, reference.source, placement, definition)
        ensures SourceItems(p, reference.source) == Ok(definition.items)
      {
        SourceFound(p, reference.source, placement, definition);
      }
    }
  }

  lemma {:induction false} CountsAreExact(p: Procedure, references: seq<Reference>) returns (counts: seq<nat>)
    requires AllCount(p, references)
    ensures AllBring(p, references, counts)
    ensures ExactReferences(p, references) == 1_500 * |counts| + 400 * Total(counts)
  {
    hide ReferenceCount, Brings;
    counts := [];
    if references != [] {
      CountIsBrought(p, references[0]);
      var rest := CountsAreExact(p, references[1..]);
      counts := [ReferenceCount(p, references[0]).value] + rest;
      assert counts[1..] == rest;
      forall i | 0 <= i < |counts| ensures Brings(p, references[i], counts[i]) {
        if i > 0 { assert references[i] == references[1..][i - 1] && counts[i] == rest[i - 1]; }
      }
    }
  }

  lemma {:induction false} CountsAreUnique(p: Procedure, references: seq<Reference>, a: seq<nat>, b: seq<nat>)
    requires AllBring(p, references, a) && AllBring(p, references, b)
    ensures a == b
  {
    hide Brings;
    forall i | 0 <= i < |a| ensures a[i] == b[i] {
      CountIsBrought(p, references[i]);
    }
  }

  lemma {:induction false} AllCountMeans(p: Procedure, references: seq<Reference>)
    ensures AllCount(p, references) <==> !exists i :: 0 <= i < |references| && Unreadable(p, references[i])
    ensures forall charge: nat :: ReferencesCharge(p, references, charge).Err? ==>
              ReferencesCharge(p, references, charge).error == INVALID_EVIDENCE
    decreases |references|
  {
    hide ReferenceCount, Unreadable, Add, Mul;
    if references != [] {
      CountIsBrought(p, references[0]);
      if ReferenceCount(p, references[0]).Ok? { CountedIsReadable(p, references[0]); }
      AllCountMeans(p, references[1..]);
      if i :| 0 <= i < |references| && Unreadable(p, references[i]) {
        if i > 0 { assert references[i] == references[1..][i - 1]; }
      }
      if i :| 0 <= i < |references[1..]| && Unreadable(p, references[1..][i]) {
        assert references[i + 1] == references[1..][i];
      }
    }
  }

  lemma CountedIsReadable(p: Procedure, reference: Reference)
    requires ReferenceCount(p, reference).Ok?
    ensures !Unreadable(p, reference)
  {
    hide Brings;
    CountIsBrought(p, reference);
    assert Brings(p, reference, ReferenceCount(p, reference).value);
  }

  /** One placement is refused exactly for these reasons. */
  lemma PlacementRefused(p: Procedure, placement: Placement, e: PackageError)
    ensures PlacementVerdict(p, placement) == Err(e) <==> RefusedPlacement(p, placement, e)
  {
    hide Len, ReferencesCharge, ExactReferences, AllCount, Unreadable, AllBring, IsFirst, IsAbsent, FindDefinition,
         Capped;
    if Delegated(placement) {
      DefinitionLookup(p, placement.definition);
      var found := FindDefinition(p.definitions, placement.definition);
      if found.Some? {
        var references, document := References(placement), found.value.document;
        SmallCharge(Len(Object(document)) + FIXED_RESERVE);
        ReferencesChargeIsExact(p, references, Len(Object(document)) + FIXED_RESERVE);
        AllCountMeans(p, references);
        if AllCount(p, references) {
          var counts := CountsAreExact(p, references);
          CapKeepsOverrun(WorstCase(document, counts));
          if PlacementVerdict(p, placement) == Err(e) {
            assert TooLarge(p, placement, found.value, counts, e);
          }
          forall definition, others | TooLarge(p, placement, definition, others, e)
            ensures definition == found.value && others == counts
          {
            CountsAreUnique(p, references, others, counts);
          }
        }
      }
    }
  }

  lemma SmallCharge(n: nat)
    requires n >= FIXED_RESERVE
    ensures Add(n - FIXED_RESERVE, FIXED_RESERVE) == Capped(n)
  {
  }

  lemma CapKeepsOverrun(n: nat)
    ensures Capped(n) > 950_000 <==> n > 950_000
  {
  }

  /** A Procedure is refused exactly for the first of its placements that is. */
  lemma AdmissionRefused(p: Procedure, e: PackageError)
    ensures BudgetVerdict(p, p.placements) == Err(e) <==> FirstRefused(p, p.placements, e)
  {
    RefusedInOrder(p, p.placements, e);
  }

  ghost predicate FirstRefused(p: Procedure, placements: seq<Placement>, e: PackageError) {
    exists i :: RefusedFirst(p, placements, i, e)
  }

  ghost predicate RefusedFirst(p: Procedure, placements: seq<Placement>, i: int, e: PackageError) {
    && 0 <= i < |placements| && RefusedPlacement(p, placements[i], e)
    && forall j, other :: 0 <= j < i ==> !RefusedPlacement(p, placements[j], other)
  }

  lemma {:induction false} RefusedInOrder(p: Procedure, placements: seq<Placement>, e: PackageError)
    ensures BudgetVerdict(p, placements) == Err(e) <==> FirstRefused(p, placements, e)
  {
    hide PlacementVerdict, RefusedPlacement;
    if placements != [] {
      var first, rest := placements[0], placements[1..];
      forall other ensures PlacementVerdict(p, first) == Err(other) <==> RefusedPlacement(p, first, other) {
        PlacementRefused(p, first, other);
      }
      RefusedInOrder(p, rest, e);
      if PlacementVerdict(p, first).Err? {
        if PlacementVerdict(p, first) == Err(e) { assert RefusedFirst(p, placements, 0, e); }
        if i :| RefusedFirst(p, placements, i, e) {
          assert i == 0;
        }
      } else {
        if i :| RefusedFirst(p, rest, i, e) {
          RefusedLater(p, placements, i, e);
        }
        if i :| RefusedFirst(p, placements, i, e) {
          assert i > 0 && placements[i] == rest[i - 1];
          assert forall j :: 0 <= j < i - 1 ==> rest[j] == placements[j + 1];
          assert RefusedFirst(p, rest, i - 1, e);
        }
      }
    }
  }

  lemma RefusedLater(p: Procedure, placements: seq<Placement>, i: int, e: PackageError)
    requires placements != [] && RefusedFirst(p, placements[1..], i, e)
    requires forall other :: !RefusedPlacement(p, placements[0], other)
    ensures RefusedFirst(p, placements, i + 1, e)
  {
    hide RefusedPlacement;
    assert placements[i + 1] == placements[1..][i];
    forall j, other | 0 <= j < i + 1 ensures !RefusedPlacement(p, placements[j], other) {
      if j > 0 { assert placements[j] == placements[1..][j - 1]; }
    }
  }
}
