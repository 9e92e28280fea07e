/**
  What a delegation work package says, member by member, and why one is refused: stated from the
  Procedure and the input alone, with the words and names of the package schema.
  */
module PackageContents {
  import opened Utf8
  import opened CanonicalJson
  import opened JsonMembers
  import opened Procedure
  import opened DelegationPackage
  import opened DelegationBinding

  // ----- Items, selectors and evidence -----

  predicate TypeWord(t: ItemType, word: string) {
    match t
    case Confirm => word == "confirm"
    case Text => word == "text"
    case Choice => word == "choice"
    case Integer => word == "integer"
    case List => word == "list"
    case Artifact => word == "artifact"
    case CheckResult => word == "check_result"
  }

  ghost predicate SaysItem(v: Value, item: EvidenceItem) {
    match item
    case Missing(id) => Names(v, {"item_id", "state"}) && Holds(v, "item_id", String(id))
        && Holds(v, "state", String("missing"))
    case Present(id, revision, valueDigest, valueType, sizeBytes) =>
      && Names(v, {"item_id", "state", "item_revision", "value_digest", "value_type", "size_bytes"})
      && Holds(v, "item_id", String(id)) && Holds(v, "state", String("present"))
      && Holds(v, "item_revision", Int(revision)) && Holds(v, "value_digest", String(valueDigest))
      && At(v, "value_type").String? && TypeWord(valueType, At(v, "value_type").text)
      && Holds(v, "size_bytes", Int(sizeBytes))
  }

  ghost predicate SaysItems(v: Value, items: seq<EvidenceItem>) {
    v.Array? && |v.items| == |items| && forall i :: 0 <= i < |items| ==> SaysItem(v.items[i], items[i])
  }

  ghost predicate SaysSelector(v: Value, selector: Reference) {
    && Holds(v, "node", String(selector.source)) && Holds(v, "required", Bool(selector.required))
    && (if selector.selected.None? then Names(v, {"node", "required"})
        else Names(v, {"node", "required", "items"}) && SaysTexts(At(v, "items"), selector.selected.value))
  }

  ghost predicate SaysSource(v: Value, attempt: Uuid, number: int, itemsDigest: Digest) {
    && Names(v, {"selector", "resolution", "items", "source_attempt_id", "source_attempt_number",
                 "source_items_digest"})
    && Holds(v, "source_attempt_id", String(attempt)) && Holds(v, "source_attempt_number", Int(number))
    && Holds(v, "source_items_digest", String(itemsDigest))
  }

  ghost predicate SaysEvidence(v: Value, selector: Reference, frozen: Evidence) {
    && SaysSelector(At(v, "selector"), selector)
    && SaysItems(At(v, "items"), frozen.items)
    && match frozen.resolution
       case Resolved(attempt, number, itemsDigest) =>
         Holds(v, "resolution", String("resolved")) && SaysSource(v, attempt, number, itemsDigest)
       case Skipped(attempt, number, itemsDigest) =>
         Holds(v, "resolution", String("skipped")) && SaysSource(v, attempt, number, itemsDigest)
       case Unresolved =>
         Holds(v, "resolution", String("unresolved")) && Names(v, {"selector", "resolution", "items"})
  }

  lemma ItemSays(item: EvidenceItem)
    ensures SaysItem(ItemValue(item), item)
  {
  }

  lemma ItemsSay(items: seq<EvidenceItem>)
    ensures SaysItems(Array(ItemValues(items)), items)
  {
    hide SaysItem, ItemValue;
    forall i | 0 <= i < |items| ensures SaysItem(ItemValues(items)[i], items[i]) {
      ItemSays(items[i]);
    }
  }

  lemma SelectorSays(selector: Reference)
    ensures SaysSelector(SelectorValue(selector), selector)
  {
  }

  lemma EvidenceSays(p: Procedure, selector: Reference, frozen: Evidence)
    requires EvidenceValue(p, selector, frozen).Ok?
    ensures SaysEvidence(EvidenceValue(p, selector, frozen).value, selector, frozen)
  {
    hide EvidenceMatches, SourceItems, SelectorValue, ItemValues, SaysSelector, SaysItems;
    assert EvidenceValue(p, selector, frozen) == Ok(Object(EvidenceMembers(selector, frozen)));
    SelectorSays(selector);
    ItemsSay(frozen.items);
  }

  // ----- Goal and declaration -----

  ghost predicate SaysCriterion(v: Value, c: Criterion) {
    && Names(v, {"criterion_id", "statement"})
    && Holds(v, "criterion_id", String(c.id)) && Holds(v, "statement", String(c.statement))
  }

  ghost predicate SaysGoal(v: Value, goal: Option<Goal>) {
    if goal.None? then v == Null
    else
      var criteria := At(v, "criteria");
      && Names(v, {"revision", "statement", "criteria"})
      && Holds(v, "revision", Int(goal.value.revision)) && Holds(v, "statement", String(goal.value.statement))
      && criteria.Array? && |criteria.items| == |goal.value.criteria|
      && forall i :: 0 <= i < |criteria.items| ==> SaysCriterion(criteria.items[i], goal.value.criteria[i])
  }

  ghost predicate SaysDeclaration(v: Value, d: Declaration) {
    && Names(v, {"binding_ref", "role_ref", "role_snapshot_digest", "max_rounds", "after_accept"})
    && Holds(v, "binding_ref", String(d.bindingRef)) && Holds(v, "role_ref", String(d.roleRef))
    && Holds(v, "role_snapshot_digest", String(d.roleSnapshotDigest)) && Holds(v, "max_rounds", Int(d.maxRounds))
    && Holds(v, "after_accept", String(match d.afterAccept case Retain => "retain" case Release => "release"))
  }

  lemma CriterionSays(c: Criterion)
    ensures SaysCriterion(CriterionValue(c), c)
  {
  }

  lemma GoalSays(goal: Option<Goal>)
    ensures SaysGoal(GoalValue(goal), goal)
  {
    hide SaysCriterion, CriterionValue;
    if goal.Some? {
      var criteria := goal.value.criteria;
      forall i | 0 <= i < |criteria| ensures SaysCriterion(CriterionValues(criteria)[i], criteria[i]) {
        CriterionSays(criteria[i]);
      }
    }
  }

  lemma DeclarationSays(d: Declaration)
    ensures SaysDeclaration(DeclarationValue(d), d)
  {
  }

  // ----- The package -----

  /** The definition without its type. */
  ghost predicate SaysAction(v: Value, document: map<string, Value>) {
    && v.Object? && "type" !in v.members
    && (forall name :: name in v.members ==> name in document && v.members[name] == document[name])
    && (forall name :: name in document && name != "type" ==> name in v.members)
  }

  ghost predicate SaysAllEvidence(v: Value, declared: seq<Reference>, frozen: seq<Evidence>) {
    && v.Array? && |v.items| == |declared| == |frozen|
    && forall i :: 0 <= i < |frozen| ==> SaysEvidence(v.items[i], declared[i], frozen[i])
  }

  const PACKAGE_NAMES: set<string> :=
    {"schema", "workspace_uuid", "procedure_digest", "session_id", "placement_id", "attempt_id", "delegation", "action",
     "goal", "evidence"}

  ghost predicate SaysIdentity(v: Value, p: Procedure, input: Input) {
    && Names(v, PACKAGE_NAMES)
    && Holds(v, "schema", String("podway.delegation-work-package/v1"))
    && Holds(v, "workspace_uuid", String(input.workspace)) && Holds(v, "procedure_digest", String(p.digest))
    && Holds(v, "session_id", String(input.session)) && Holds(v, "placement_id", String(input.placement))
    && Holds(v, "attempt_id", String(input.attempt))
  }

  ghost predicate SaysContent(v: Value, d: Declaration, action: map<string, Value>, goal: Option<Goal>,
                              evidence: Value) {
    && SaysDeclaration(At(v, "delegation"), d) && SaysAction(At(v, "action"), action)
    && SaysGoal(At(v, "goal"), goal) && At(v, "evidence") == evidence
  }

  /** The package of an input at a placement of this definition. */
  ghost predicate SaysPackage(v: Value, p: Procedure, input: Input, placement: Placement, definition: Definition)
    requires placement.ActionPlacement? && placement.delegation.Some?
  {
    && SaysIdentity(v, p, input)
    && SaysContent(v, placement.delegation.value, definition.document, input.goal, At(v, "evidence"))
    && SaysAllEvidence(At(v, "evidence"), References(placement), input.evidence)
  }

  lemma IdentitySays(p: Procedure, input: Input, d: Declaration, action: map<string, Value>, evidence: seq<Value>)
    ensures SaysIdentity(PackageObject(p, input, d, action, evidence), p, input)
  {
    hide DeclarationValue, GoalValue;
  }

  lemma ContentSays(p: Procedure, input: Input, d: Declaration, document: map<string, Value>, evidence: seq<Value>)
    ensures SaysContent(PackageObject(p, input, d, document - {"type"}, evidence), d, document, input.goal,
                        Array(evidence))
  {
    hide DeclarationValue, GoalValue, SaysDeclaration, SaysGoal;
    DeclarationSays(d);
    GoalSays(input.goal);
    var v := PackageObject(p, input, d, document - {"type"}, evidence);
    assert At(v, "delegation") == DeclarationValue(d);
    assert At(v, "goal") == GoalValue(input.goal);
    assert At(v, "action") == Object(document - {"type"});
  }

  lemma {:induction false} AllEvidenceSays(p: Procedure, declared: seq<Reference>, frozen: seq<Evidence>)
    requires |declared| == |frozen| && EvidenceValues(p, declared, frozen).Ok?
    ensures SaysAllEvidence(Array(EvidenceValues(p, declared, frozen).value), declared, frozen)
  {
    hide EvidenceValue, SaysEvidence;
    if declared != [] {
      EvidenceSays(p, declared[0], frozen[0]);
      AllEvidenceSays(p, declared[1..], frozen[1..]);
      var values := EvidenceValues(p, declared, frozen).value;
      forall i | 0 <= i < |frozen| ensures SaysEvidence(values[i], declared[i], frozen[i]) {
        if i > 0 {
          assert values[i] == values[1..][i - 1] && declared[i] == declared[1..][i - 1]
                 && frozen[i] == frozen[1..][i - 1];
        }
      }
    }
  }

  /** The first placement with the input's identifier and the first definition it uses. */
  ghost predicate Placed(p: Procedure, id: Identifier, placement: Placement, definition: Definition) {
    && IsFirst(p.placements, PlacementId, id, placement)
    && IsFirst(p.definitions, DefinitionId, placement.definition, definition)
  }

  /** Every package that is built says exactly this, at the placement and definition it was built for. */
  lemma PackageSays(p: Procedure, input: Input) returns (placement: Placement, definition: Definition)
    requires PackageValue(p, input).Ok?
    ensures placement.ActionPlacement? && placement.delegation.Some? && definition.Action?
    ensures Placed(p, input.placement, placement, definition)
    ensures SaysPackage(PackageValue(p, input).value, p, input, placement, definition)
  {
    hide EvidenceValues, PackageObject, SaysIdentity, SaysContent, SaysAllEvidence, IsFirst, IsAbsent;
    placement := FindPlacement(p.placements, input.placement).value;
    definition := FindDefinition(p.definitions, placement.definition).value;
    FoundIsFirst(p.placements, PlacementId, input.placement);
    FoundIsFirst(p.definitions, DefinitionId, placement.definition);
    var d := placement.delegation.value;
    var evidence := EvidenceValues(p, References(placement), input.evidence).value;
    IdentitySays(p, input, d, definition.document - {"type"}, evidence);
    ContentSays(p, input, d, definition.document, evidence);
    EvidenceMember(p, input, d, definition.document, evidence);
    AllEvidenceSays(p, References(placement), input.evidence);
  }

  lemma EvidenceMember(p: Procedure, input: Input, d: Declaration, document: map<string, Value>, evidence: seq<Value>)
    requires SaysContent(PackageObject(p, input, d, document - {"type"}, evidence), d, document, input.goal,
                         Array(evidence))
    ensures At(PackageObject(p, input, d, document - {"type"}, evidence), "evidence") == Array(evidence)
  {
    hide PackageObject, SaysDeclaration, SaysGoal, SaysAction;
  }

  /** A digest is taken over the ASCII name of the schema, a line feed and the canonical text. */
  lemma PreimageSays(canonical: seq<Byte>)
    ensures var name, bytes := "podway.delegation-work-package/v1", Preimage(canonical);
            && |bytes| == |name| + 1 + |canonical|
            && (forall i :: 0 <= i < |name| ==> bytes[i] == name[i] as int)
            && bytes[|name|] == 0x0A && bytes[|name| + 1..] == canonical
  {
    hide Encode;
    EncodeAscii(PACKAGE_SCHEMA);
  }

  // ----- Which evidence is taken -----

  /** The items the selector asks for, one by one: those it names, or all of the definition. */
  ghost predicate AsksFor(selector: Reference, definition: Definition, items: seq<EvidenceItem>) {
    match selector.selected
    case Some(ids) => |items| == |ids| && forall i :: 0 <= i < |ids| ==> items[i].id == ids[i]
    case None =>
      |items| == |definition.items| && forall i :: 0 <= i < |items| ==> items[i].id == definition.items[i].id
  }

  ghost predicate Typed(definition: Definition, item: EvidenceItem)
    requires item.Present?
  {
    exists k :: 0 <= k < |definition.items| && definition.items[k].id == item.id
        && definition.items[k].kind == item.valueType
  }

  ghost predicate Fits(p: Procedure, selector: Reference, frozen: Evidence, placement: Placement,
                       definition: Definition) {
    && Placed(p, selector.source, placement, definition)
    && frozen.selector == selector && |frozen.items| <= 128 && AsksFor(selector, definition, frozen.items)
    && (forall i :: 0 <= i < |frozen.items| && frozen.items[i].Present? ==>
          frozen.resolution.Resolved? && Typed(definition, frozen.items[i]))
    && (!frozen.resolution.Unresolved? ==> frozen.resolution.number >= 1)
  }

  ghost predicate Fitting(p: Procedure, selector: Reference, frozen: Evidence) {
    exists placement, definition :: Fits(p, selector, frozen, placement, definition)
  }

  lemma SourceFound(p: Procedure, node: Identifier, placement: Placement, definition: Definition)
    requires Placed(p, node, placement, definition)
    ensures SourceItems(p, node) == Ok(definition.items)
  {
    hide IsFirst, IsAbsent;
    FoundIsFirst(p.placements, PlacementId, node);
    NotAbsent(p.placements, PlacementId, node, placement);
    FirstIsUnique(p.placements, PlacementId, node, placement, FindPlacement(p.placements, node).value);
    FoundIsFirst(p.definitions, DefinitionId, placement.definition);
    NotAbsent(p.definitions, DefinitionId, placement.definition, definition);
    FirstIsUnique(p.definitions, DefinitionId, placement.definition, definition,
                  FindDefinition(p.definitions, placement.definition).value);
  }

  lemma NotAbsent<T(!new)>(entries: seq<T>, key: T -> Identifier, id: Identifier, entry: T)
    requires IsFirst(entries, key, id, entry)
    ensures !IsAbsent(entries, key, id)
  {
    var k :| 0 <= k < |entries| && entries[k] == entry && key(entry) == id && NoneBefore(entries, key, id, k);
  }

  lemma SourceReads(p: Procedure, node: Identifier) returns (placement: Placement, definition: Definition)
    requires SourceItems(p, node).Ok?
    ensures Placed(p, node, placement, definition) && SourceItems(p, node) == Ok(definition.items)
  {
    hide IsFirst, IsAbsent;
    placement := FindPlacement(p.placements, node).value;
    definition := FindDefinition(p.definitions, placement.definition).value;
    FoundIsFirst(p.placements, PlacementId, node);
    FoundIsFirst(p.definitions, DefinitionId, placement.definition);
  }

  lemma AnswersAsks(selector: Reference, definition: Definition, items: seq<EvidenceItem>)
    ensures ItemIds(items) == Expected(selector, definition.items) <==> AsksFor(selector, definition, items)
  {
    var ids, expected := ItemIds(items), Expected(selector, definition.items);
    if ids == expected {
      forall i | 0 <= i < |items| ensures items[i].id == expected[i] { assert ids[i] == expected[i]; }
    }
  }

  lemma TypedIsDeclared(definition: Definition, item: EvidenceItem)
    requires item.Present?
    ensures Typed(definition, item) <==> ItemSpec(item.id, item.valueType) in definition.items
  {
    if Typed(definition, item) {
      var k :| 0 <= k < |definition.items| && definition.items[k].id == item.id
          && definition.items[k].kind == item.valueType;
      assert definition.items[k] == ItemSpec(item.id, item.valueType);
    }
  }

  lemma FitsIsAnswer(p: Procedure, selector: Reference, frozen: Evidence, placement: Placement, definition: Definition)
    requires Placed(p, selector.source, placement, definition)
    ensures Fits(p, selector, frozen, placement, definition) <==> Answers(p, selector, frozen)
  {
    hide Placed, Typed, AsksFor, SourceItems, Expected, ItemIds;
    SourceFound(p, selector.source, placement, definition);
    AnswersAsks(selector, definition, frozen.items);
    forall i | 0 <= i < |frozen.items| && frozen.items[i].Present?
      ensures Typed(definition, frozen.items[i])
              <==> ItemSpec(frozen.items[i].id, frozen.items[i].valueType) in definition.items
    {
      TypedIsDeclared(definition, frozen.items[i]);
    }
  }

  /** Evidence is taken exactly when it fits its selector. */
  lemma EvidenceFits(p: Procedure, selector: Reference, frozen: Evidence)
    ensures EvidenceValue(p, selector, frozen).Ok? <==> Fitting(p, selector, frozen)
  {
    hide EvidenceValue, Answers, Placed;
    EvidenceAccepts(p, selector, frozen);
    if Answers(p, selector, frozen) {
      AnswersHasSource(p, selector, frozen);
      var placement, definition := SourceReads(p, selector.source);
      FitsIsAnswer(p, selector, frozen, placement, definition);
    }
    if placement, definition :| Fits(p, selector, frozen, placement, definition) {
      FitsIsAnswer(p, selector, frozen, placement, definition);
    }
  }

  lemma AnswersHasSource(p: Procedure, selector: Reference, frozen: Evidence)
    requires Answers(p, selector, frozen)
    ensures SourceItems(p, selector.source).Ok?
  {
  }

  // ----- Why a package is refused -----

  ghost predicate NoAction(p: Procedure, id: Identifier) {
    IsAbsent(p.placements, PlacementId, id)
    || exists placement :: IsFirst(p.placements, PlacementId, id, placement) && placement.DecisionPlacement?
  }

  ghost predicate ActionAt(p: Procedure, id: Identifier, placement: Placement) {
    IsFirst(p.placements, PlacementId, id, placement) && placement.ActionPlacement?
  }

  ghost predicate EvidenceFails(p: Procedure, declared: seq<Reference>, frozen: seq<Evidence>) {
    |declared| != |frozen| || exists i :: 0 <= i < |declared| && !Fitting(p, declared[i], frozen[i])
  }

  /** The reasons in the order of the tests, each with its field and text. */
  ghost predicate RefusedAt(p: Procedure, input: Input, placement: Placement, e: PackageError)
    requires placement.ActionPlacement?
  {
    if placement.delegation.None? then
      e == InvalidValue("delegation work package placement", "placement must declare delegation")
    else if IsAbsent(p.definitions, DefinitionId, placement.definition) then
      e == InvalidValue("delegation work package definition", "action definition is missing")
    else if exists d :: IsFirst(p.definitions, DefinitionId, placement.definition, d) && d.Decision? then
      e == InvalidValue("delegation work package definition", "definition must be an action")
    else
      && EvidenceFails(p, References(placement), input.evidence)
      && e == InvalidValue("delegation work package evidence", "frozen evidence does not match declared selectors")
  }

  ghost predicate RefusedFor(p: Procedure, input: Input, e: PackageError) {
    if input.goal.Some? && !p.goalTracking then
      e == InvalidValue("delegation work package goal", "Procedure does not enable goal tracking")
    else if NoAction(p, input.placement) then
      e == InvalidValue("delegation work package placement", "placement must be an action")
    else exists placement :: ActionAt(p, input.placement, placement) && RefusedAt(p, input, placement, e)
  }

  lemma {:induction false} EvidenceErrors(p: Procedure, declared: seq<Reference>, frozen: seq<Evidence>)
    requires |declared| == |frozen|
    ensures var r := EvidenceValues(p, declared, frozen);
            && (r.Err? <==> EvidenceFails(p, declared, frozen))
            && (r.Err? ==> r.error == INVALID_EVIDENCE)
  {
    hide EvidenceValue, Fitting;
    if declared != [] {
      EvidenceFits(p, declared[0], frozen[0]);
      EvidenceError(p, declared[0], frozen[0]);
      EvidenceErrors(p, declared[1..], frozen[1..]);
      if i :| 0 <= i < |declared| && !Fitting(p, declared[i], frozen[i]) {
        if i > 0 { assert declared[i] == declared[1..][i - 1] && frozen[i] == frozen[1..][i - 1]; }
      }
      if i :| 0 <= i < |declared[1..]| && !Fitting(p, declared[1..][i], frozen[1..][i]) {
        assert declared[i + 1] == declared[1..][i] && frozen[i + 1] == frozen[1..][i];
      }
    }
  }

  lemma EvidenceError(p: Procedure, selector: Reference, frozen: Evidence)
    ensures EvidenceValue(p, selector, frozen).Err? ==> EvidenceValue(p, selector, frozen).error == INVALID_EVIDENCE
  {
  }

  /** A package is refused exactly for the first reason that applies. */
  lemma PackageRefused(p: Procedure, input: Input, e: PackageError)
    ensures PackageValue(p, input) == Err(e) <==> RefusedFor(p, input, e)
  {
    hide EvidenceValues, PackageObject, EvidenceFails, FindPlacement, FindDefinition, IsFirst, IsAbsent;
    PlacementLookup(p, input.placement);
    var found := FindPlacement(p.placements, input.placement);
    if found.Some? && found.value.ActionPlacement? {
      assert ActionAt(p, input.placement, found.value);
      DefinitionLookup(p, found.value.definition);
      if |References(found.value)| == |input.evidence| {
        EvidenceErrors(p, References(found.value), input.evidence);
      } else {
        CountFails(p, References(found.value), input.evidence);
      }
    }
  }

  lemma CountFails(p: Procedure, declared: seq<Reference>, frozen: seq<Evidence>)
    requires |declared| != |frozen|
    ensures EvidenceFails(p, declared, frozen)
  {
  }

  lemma PlacementLookup(p: Procedure, id: Identifier)
    ensures var r := FindPlacement(p.placements, id);
            && (r.None? <==> IsAbsent(p.placements, PlacementId, id))
            && (r.Some? ==> IsFirst(p.placements, PlacementId, id, r.value))
            && forall x :: IsFirst(p.placements, PlacementId, id, x) ==> r == Some(x)
  {
    hide IsFirst, IsAbsent;
    FoundIsFirst(p.placements, PlacementId, id);
    forall x | IsFirst(p.placements, PlacementId, id, x) ensures FindPlacement(p.placements, id) == Some(x) {
      NotAbsent(p.placements, PlacementId, id, x);
      FirstIsUnique(p.placements, PlacementId, id, x, FindPlacement(p.placements, id).value);
    }
  }

  lemma DefinitionLookup(p: Procedure, id: Identifier)
    ensures var r := FindDefinition(p.definitions, id);
            && (r.None? <==> IsAbsent(p.definitions, DefinitionId, id))
            && (r.Some? ==> IsFirst(p.definitions, DefinitionId, id, r.value))
            && forall x :: IsFirst(p.definitions, DefinitionId, id, x) ==> r == Some(x)
  {
    hide IsFirst, IsAbsent;
    FoundIsFirst(p.definitions, DefinitionId, id);
    forall x | IsFirst(p.definitions, DefinitionId, id, x) ensures FindDefinition(p.definitions, id) == Some(x) {
      NotAbsent(p.definitions, DefinitionId, id, x);
      FirstIsUnique(p.definitions, DefinitionId, id, x, FindDefinition(p.definitions, id).value);
    }
  }
}
