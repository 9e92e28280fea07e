/**
  What a package commits to: its canonical bytes determine every runtime input it was projected
  from. The digest of a package is taken over these bytes.
  */
module DelegationBinding {
  import opened Utf8
  import opened CanonicalJson
  import opened CanonicalLength
  import opened Procedure
  import opened DelegationPackage
  import opened DelegationAdmission
  import CanonicalRoundTrip
  import CanonicalPrinters

  // ----- A package holds integers only, so it can be printed -----

  lemma EvidenceIntegers(p: Procedure, selector: Reference, frozen: Evidence)
    requires EvidenceValue(p, selector, frozen).Ok?
    ensures IntegersOnly(EvidenceValue(p, selector, frozen).value)
  {
    hide SourceItems, EvidenceMatches;
    SelectorIntegers(selector);
    ItemsIntegers(frozen.items);
  }

  lemma SelectorIntegers(selector: Reference)
    ensures IntegersOnly(SelectorValue(selector))
  {
    if selector.selected.Some? {
      assert IntegersOnly(Array(Strings(selector.selected.value)));
    }
  }

  lemma ItemsIntegers(items: seq<EvidenceItem>)
    ensures IntegersOnly(Array(ItemValues(items)))
  {
    forall i | 0 <= i < |items| ensures IntegersOnly(ItemValues(items)[i]) {
      assert ItemValues(items)[i] == ItemValue(items[i]);
    }
  }

  lemma {:induction false} EvidenceValuesIntegers(p: Procedure, declared: seq<Reference>, frozen: seq<Evidence>)
    requires |declared| == |frozen| && EvidenceValues(p, declared, frozen).Ok?
    ensures |EvidenceValues(p, declared, frozen).value| == |declared|
    ensures forall i :: 0 <= i < |declared| ==>
              EvidenceValue(p, declared[i], frozen[i]) == Ok(EvidenceValues(p, declared, frozen).value[i])
    ensures IntegersOnly(Array(EvidenceValues(p, declared, frozen).value))
    decreases |declared|
  {
    hide EvidenceValue;
    if declared != [] {
      EvidenceIntegers(p, declared[0], frozen[0]);
      EvidenceValuesIntegers(p, declared[1..], frozen[1..]);
      var values := EvidenceValues(p, declared, frozen).value;
      forall i | 0 <= i < |declared|
        ensures EvidenceValue(p, declared[i], frozen[i]) == Ok(values[i]) && IntegersOnly(values[i])
      {
        if i > 0 {
          var rest := Array(EvidenceValues(p, declared[1..], frozen[1..]).value);
          assert values[i] == rest.items[i - 1];
        }
      }
    }
  }

  lemma GoalIntegers(goal: Option<Goal>)
    ensures IntegersOnly(GoalValue(goal))
  {
    if goal.Some? {
      forall i | 0 <= i < |goal.value.criteria| ensures IntegersOnly(CriterionValues(goal.value.criteria)[i]) {
        assert CriterionValues(goal.value.criteria)[i] == CriterionValue(goal.value.criteria[i]);
      }
      assert IntegersOnly(Array(CriterionValues(goal.value.criteria)));
    }
  }

  lemma PackageObjectIntegers(p: Procedure, input: Input, d: Declaration, action: map<string, Value>,
                              evidence: seq<Value>)
    requires IntegersOnly(Object(action)) && IntegersOnly(Array(evidence)) && IntegersOnly(GoalValue(input.goal))
    requires IntegersOnly(DeclarationValue(d))
    ensures IntegersOnly(PackageObject(p, input, d, action, evidence))
  {
    hide GoalValue, DeclarationValue;
    var o, e := Object(action), Array(evidence);
    assert IntegersOnly(o) && IntegersOnly(e);
  }

  lemma DeclarationIntegers(d: Declaration)
    ensures IntegersOnly(DeclarationValue(d))
  {
  }

  lemma PackageIntegers(p: Procedure, input: Input)
    ensures PackageValue(p, input).Ok? ==> IntegersOnly(PackageValue(p, input).value)
  {
    hide GoalValue, EvidenceValues, PackageObject, DeclarationValue;
    if PackageValue(p, input).Err? {
      return;
    }
    var placement := FindPlacement(p.placements, input.placement).value;
    var document := FindDefinition(p.definitions, placement.definition).value.document;
    EvidenceValuesIntegers(p, References(placement), input.evidence);
    GoalIntegers(input.goal);
    DeclarationIntegers(placement.delegation.value);
    assert IntegersOnly(Object(document)) ==> IntegersOnly(Object(document - {"type"}));
    PackageObjectIntegers(p, input, placement.delegation.value, document - {"type"},
                          EvidenceValues(p, References(placement), input.evidence).value);
  }

  // ----- What is accepted -----

  function ItemIds(items: seq<EvidenceItem>): (ids: seq<Identifier>) {
    seq(|items|, i requires 0 <= i < |items| => items[i].id)
  }

  /**
    Frozen evidence answers its declared selector: the selected items, or all of the source's, in
    their order; values only from a resolved source and only of the declared type.
    */
  ghost predicate Answers(p: Procedure, selector: Reference, frozen: Evidence) {
    && frozen.selector == selector
    && |frozen.items| <= MAX_ITEMS
    && SourceItems(p, selector.source).Ok?
    && var source := SourceItems(p, selector.source).value;
    && ItemIds(frozen.items) == Expected(selector, source)
    && (forall item :: item in frozen.items && item.Present? ==>
          frozen.resolution.Resolved? && ItemSpec(item.id, item.valueType) in source)
    && (!frozen.resolution.Unresolved? ==> frozen.resolution.number >= 1)
  }

  lemma EvidenceAccepts(p: Procedure, selector: Reference, frozen: Evidence)
    ensures EvidenceValue(p, selector, frozen).Ok? <==> Answers(p, selector, frozen)
  {
    hide EvidenceObject, SourceItems;
    if SourceItems(p, selector.source).Ok? {
      var source := SourceItems(p, selector.source).value;
      MatchingIds(selector, frozen, source);
    }
    if EvidenceValue(p, selector, frozen).Ok? {
      forall item | item in frozen.items && item.Present? ensures frozen.resolution.Resolved? {
        var i :| 0 <= i < |frozen.items| && frozen.items[i] == item;
      }
    }
  }

  lemma MatchingIds(selector: Reference, frozen: Evidence, source: seq<ItemSpec>)
    ensures EvidenceMatches(selector, frozen, source)
            <==> ItemIds(frozen.items) == Expected(selector, source)
                 && forall item :: item in frozen.items ==> Declared(source, item)
  {
    hide Expected, Declared;
    var expected, ids := Expected(selector, source), ItemIds(frozen.items);
    if EvidenceMatches(selector, frozen, source) {
      assert ids == expected;
    }
    if ids == expected {
      forall i | 0 <= i < |expected| ensures expected[i] == frozen.items[i].id {
        assert ids[i] == expected[i];
      }
    }
  }

  /** A delegated action placement of a known action definition. */
  ghost predicate DelegatedAction(p: Procedure, id: Identifier) {
    var placement := FindPlacement(p.placements, id);
    && placement.Some? && Delegated(placement.value)
    && var definition := FindDefinition(p.definitions, placement.value.definition);
    definition.Some? && definition.value.Action?
  }

  /**
    A package can be built exactly when a goal is only given to a Procedure that tracks goals, the
    placement delegates a known action, and the frozen evidence answers the declared references
    one by one.
    */
  lemma PackageAccepts(p: Procedure, input: Input)
    ensures PackageValue(p, input).Ok? <==>
              && (input.goal.Some? ==> p.goalTracking)
              && DelegatedAction(p, input.placement)
              && var references := References(FindPlacement(p.placements, input.placement).value);
              && |references| == |input.evidence|
              && forall i :: 0 <= i < |references| ==> Answers(p, references[i], input.evidence[i])
  {
    hide EvidenceValue, EvidenceValues, Answers, PackageObject;
    if DelegatedAction(p, input.placement) {
      var references := References(FindPlacement(p.placements, input.placement).value);
      if |references| == |input.evidence| {
        AllEvidenceAccepts(p, references, input.evidence);
      }
    }
  }

  lemma {:induction false} AllEvidenceAccepts(p: Procedure, declared: seq<Reference>, frozen: seq<Evidence>)
    requires |declared| == |frozen|
    ensures EvidenceValues(p, declared, frozen).Ok?
            <==> forall i :: 0 <= i < |declared| ==> Answers(p, declared[i], frozen[i])
    decreases |declared|
  {
    hide EvidenceValue, Answers;
    if declared != [] {
      EvidenceAccepts(p, declared[0], frozen[0]);
      AllEvidenceAccepts(p, declared[1..], frozen[1..]);
      if Answers(p, declared[0], frozen[0])
         && forall i :: 0 <= i < |declared[1..]| ==> Answers(p, declared[1..][i], frozen[1..][i]) {
        forall i | 0 <= i < |declared| ensures Answers(p, declared[i], frozen[i]) {
          if i > 0 { assert declared[i] == declared[1..][i - 1] && frozen[i] == frozen[1..][i - 1]; }
        }
      }
    }
  }

  // ----- The projection -----

  /** A package, its canonical text, and the bytes its digest is taken over. */
  datatype Package = Package(value: Value, canonical: seq<Byte>, preimage: seq<Byte>)

  function Preimage(canonical: seq<Byte>): (bytes: seq<Byte>) {
    Encode(PACKAGE_SCHEMA) + [10] + canonical
  }

  method ProjectDelegationWorkPackage(p: Procedure, input: Input) returns (r: Result<Package>)
    ensures PackageValue(p, input).Err? ==> r == Err(PackageValue(p, input).error)
    ensures PackageValue(p, input).Ok? ==>
              var v := PackageValue(p, input).value;
              r == if Len(v) > MAX_PACKAGE_BYTES then
                     Err(OutOfBounds("delegation work package JSON bytes", MAX_PACKAGE_BYTES, Len(v)))
                   else
                     Ok(Package(v, Canonical(v), Preimage(Canonical(v))))
    ensures BudgetVerdict(p, p.placements).Ok? && PackageValue(p, input).Ok? ==> r.Ok?
  {
    hide PackageValue, BudgetVerdict, Canonical, IntegersOnly, PlacementCharge, FindPlacement, Encode;
    var value := PackageValue(p, input);
    if value.Err? {
      return Err(value.error);
    }
    PackageIntegers(p, input);
    var _, canonical := CanonicalPrinters.CanonicalJsonBytes(value.value);
    if BudgetVerdict(p, p.placements).Ok? {
      AdmissionIsSound(p, input);
    }
    if |canonical| > MAX_PACKAGE_BYTES {
      return Err(OutOfBounds("delegation work package JSON bytes", MAX_PACKAGE_BYTES, |canonical|));
    }
    r := Ok(Package(value.value, canonical, Preimage(canonical)));
  }

  // ----- Equal values come from equal inputs -----

  lemma ItemBinds(a: EvidenceItem, b: EvidenceItem)
    requires ItemValue(a) == ItemValue(b)
    ensures a == b
  {
    var m, n := ItemValue(a).members, ItemValue(b).members;
    assert m["item_id"] == n["item_id"];
    assert m["state"] == n["state"];
    assert "present" != "missing";
    if a.Present? {
      assert m["item_revision"] == n["item_revision"];
      assert m["value_digest"] == n["value_digest"];
      assert m["value_type"] == n["value_type"];
      assert m["size_bytes"] == n["size_bytes"];
      ItemTypeNameBinds(a.valueType, b.valueType);
    }
  }

  lemma ItemTypeNameBinds(a: ItemType, b: ItemType)
    requires ItemTypeName(a) == ItemTypeName(b)
    ensures a == b
  {
    assert "confirm" != "integer";
    assert "text" != "list";
  }

  lemma ItemsBind(a: seq<EvidenceItem>, b: seq<EvidenceItem>)
    requires ItemValues(a) == ItemValues(b)
    ensures a == b
  {
    hide ItemValue;
    assert |a| == |ItemValues(a)| == |ItemValues(b)| == |b|;
    forall i | 0 <= i < |a| ensures a[i] == b[i] {
      assert ItemValues(a)[i] == ItemValues(b)[i];
      ItemBinds(a[i], b[i]);
    }
  }

  lemma EvidenceBinds(p: Procedure, selector: Reference, a: Evidence, b: Evidence)
    requires EvidenceValue(p, selector, a).Ok? && EvidenceValue(p, selector, a) == EvidenceValue(p, selector, b)
    ensures a == b
  {
    hide EvidenceMatches, SourceItems;
    assert EvidenceValue(p, selector, a) == Ok(Object(EvidenceMembers(selector, a)));
    assert EvidenceValue(p, selector, b) == Ok(Object(EvidenceMembers(selector, b)));
    EvidenceMembersBind(selector, a, b);
  }

  lemma EvidenceMembersBind(selector: Reference, a: Evidence, b: Evidence)
    requires EvidenceMembers(selector, a) == EvidenceMembers(selector, b)
    requires a.selector == selector == b.selector
    ensures a == b
  {
    hide SelectorValue, ItemValues;
    var m, n := EvidenceMembers(selector, a), EvidenceMembers(selector, b);
    assert m["resolution"] == n["resolution"];
    assert "resolved" != "skipped" && "resolved" != "unresolved" && "skipped" != "unresolved";
    assert m["items"] == n["items"];
    ItemsBind(a.items, b.items);
    if !a.resolution.Unresolved? {
      assert m["source_attempt_id"] == n["source_attempt_id"];
      assert m["source_attempt_number"] == n["source_attempt_number"];
      assert m["source_items_digest"] == n["source_items_digest"];
    }
  }

  lemma CriteriaBind(a: seq<Criterion>, b: seq<Criterion>)
    requires CriterionValues(a) == CriterionValues(b)
    ensures a == b
  {
    assert |a| == |CriterionValues(a)| == |CriterionValues(b)| == |b|;
    forall i | 0 <= i < |a| ensures a[i] == b[i] {
      assert CriterionValues(a)[i] == CriterionValues(b)[i];
      var m, n := CriterionValue(a[i]).members, CriterionValue(b[i]).members;
      assert m["criterion_id"] == n["criterion_id"] && m["statement"] == n["statement"];
    }
  }

  lemma GoalBinds(a: Option<Goal>, b: Option<Goal>)
    requires GoalValue(a) == GoalValue(b)
    ensures a == b
  {
    hide CriterionValues;
    if a.Some? {
      var m, n := GoalValue(a).members, GoalValue(b).members;
      assert m["revision"] == n["revision"];
      assert m["statement"] == n["statement"];
      assert m["criteria"] == n["criteria"];
      CriteriaBind(a.value.criteria, b.value.criteria);
    }
  }

  lemma PackageObjectBinds(p: Procedure, a: Input, b: Input, d: Declaration, e: Declaration,
                           x: map<string, Value>, y: map<string, Value>, s: seq<Value>, t: seq<Value>)
    requires PackageObject(p, a, d, x, s) == PackageObject(p, b, e, y, t)
    ensures a.workspace == b.workspace && a.session == b.session && a.placement == b.placement && a.attempt == b.attempt
    ensures a.goal == b.goal && s == t
  {
    hide GoalValue, DeclarationValue;
    var m, n := PackageObject(p, a, d, x, s).members, PackageObject(p, b, e, y, t).members;
    assert m["workspace_uuid"] == n["workspace_uuid"];
    assert m["session_id"] == n["session_id"];
    assert m["placement_id"] == n["placement_id"];
    assert m["attempt_id"] == n["attempt_id"];
    assert m["goal"] == n["goal"];
    assert m["evidence"] == n["evidence"];
    GoalBinds(a.goal, b.goal);
  }

  /**
    For one Procedure, two inputs whose packages have the same canonical bytes are the same input:
    workspace, session, placement, attempt, goal and every piece of frozen evidence.
    */
  lemma PackageBindsInput(p: Procedure, a: Input, b: Input)
    ensures && PackageValue(p, a).Ok? && PackageValue(p, b).Ok?
            && Canonical(PackageValue(p, a).value) == Canonical(PackageValue(p, b).value)
            ==> a == b
  {
    hide Canonical, PackageObject, EvidenceValues, IntegersOnly;
    if PackageValue(p, a).Err? || PackageValue(p, b).Err?
       || Canonical(PackageValue(p, a).value) != Canonical(PackageValue(p, b).value) {
      return;
    }
    PackageIntegers(p, a);
    PackageIntegers(p, b);
    CanonicalRoundTrip.CanonicalInjective(PackageValue(p, a).value, PackageValue(p, b).value);
    var placement, other := FindPlacement(p.placements, a.placement).value,
        FindPlacement(p.placements, b.placement).value;
    var x := FindDefinition(p.definitions, placement.definition).value.document - {"type"};
    var y := FindDefinition(p.definitions, other.definition).value.document - {"type"};
    PackageObjectBinds(p, a, b, placement.delegation.value, other.delegation.value, x, y,
                       EvidenceValues(p, References(placement), a.evidence).value,
                       EvidenceValues(p, References(other), b.evidence).value);
    EvidenceListBinds(p, References(placement), a.evidence, b.evidence);
  }

  lemma EvidenceListBinds(p: Procedure, declared: seq<Reference>, a: seq<Evidence>, b: seq<Evidence>)
    requires |declared| == |a| == |b|
    ensures EvidenceValues(p, declared, a).Ok? && EvidenceValues(p, declared, a) == EvidenceValues(p, declared, b)
            ==> a == b
  {
    hide EvidenceValue, EvidenceValues;
    if EvidenceValues(p, declared, a).Ok? && EvidenceValues(p, declared, a) == EvidenceValues(p, declared, b) {
      EvidenceValuesIntegers(p, declared, a);
      EvidenceValuesIntegers(p, declared, b);
      forall i | 0 <= i < |a| ensures a[i] == b[i] {
        EvidenceBinds(p, declared[i], a[i], b[i]);
      }
    }
  }

  // ----- A Procedure that is admitted -----

  /** One delegated action with an empty document and no evidence. */
  function SmallestProcedure(delegation: Declaration, digest: Digest): (p: Procedure) {
    Procedure([ActionPlacement("a", "d", None, Some(delegation))], [Action("d", [], map[])], false, digest)
  }

  /** The smallest delegated Procedure is admitted, and every attempt on it gets a package. */
  lemma SmallestProcedureIsAdmitted(delegation: Declaration, digest: Digest, workspace: Uuid, session: Uuid,
                                    attempt: Uuid)
    ensures var p := SmallestProcedure(delegation, digest);
            && BudgetVerdict(p, p.placements).Ok?
            && PackageValue(p, Input(workspace, session, "a", attempt, None, [])).Ok?
  {
    hide Len, PackageObject;
    EmptyObject();
    var p := SmallestProcedure(delegation, digest);
    assert FindDefinition(p.definitions, "d") == Some(Action("d", [], map[]));
    assert p.placements[1..] == [];
  }
}
