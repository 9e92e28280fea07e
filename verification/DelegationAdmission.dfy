/**
  Admission is sound: once the charge of a Procedure has passed, no package of it is refused for
  its length, whatever goal and frozen evidence an attempt brings. What is admitted is exact.
  */
module DelegationAdmission {
  import opened Utf8
  import opened CanonicalJson
  import opened CanonicalLength
  import opened Procedure
  import opened Saturation
  import opened DelegationPackage

  // ----- Objects built field by field -----

  lemma EmptyObject()
    ensures Len(Object(map[])) == 2
  {
    ObjectLength(map[]);
  }

  lemma AddField(m: map<string, Value>, k: string, v: Value, soFar: nat, key: nat, value: nat)
    requires Len(Object(m)) <= soFar && |Quoted(k)| <= key && Len(v) <= value
    ensures Len(Object(m[k := v])) <= soFar + key + value + 2
  {
    AddFieldLength(m, k, v);
  }

  lemma OneField(k: string, v: Value, key: nat, value: nat)
    requires |Quoted(k)| <= key && Len(v) <= value
    ensures Len(Object(map[k := v])) <= key + value + 4
  {
    EmptyObject();
    var none: map<string, Value> := map[];
    AddField(none, k, v, 2, key, value);
    assert none[k := v] == map[k := v];
  }

  lemma WordLength(word: string)
    requires PlainText(word)
    ensures Len(String(word)) == |word| + 2
  {
    PlainLength(word);
  }

  // ----- Evidence items -----

  lemma ItemKeys()
    ensures |Quoted("item_id")| == 9 && |Quoted("state")| == 7 && |Quoted("item_revision")| == 15
    ensures |Quoted("value_digest")| == 14 && |Quoted("value_type")| == 12 && |Quoted("size_bytes")| == 12
  {
    hide Quoted;
    PlainLength("item_id");
    PlainLength("state");
    PlainLength("item_revision");
    PlainLength("value_digest");
    PlainLength("value_type");
    PlainLength("size_bytes");
  }

  lemma ItemTypeNameLength(t: ItemType)
    ensures Len(String(ItemTypeName(t))) <= 14
  {
    WordLength(ItemTypeName(t));
  }

  lemma ItemValueLength(item: EvidenceItem)
    ensures Len(ItemValue(item)) <= 285
  {
    hide Len, Quoted;
    ItemKeys();
    IdentifierLength(item.id);
    OneField("item_id", String(item.id), 9, 66);
    var m1 := map["item_id" := String(item.id)];
    match item
    case Missing(_) =>
      WordLength("missing");
      AddField(m1, "state", String("missing"), 79, 7, 9);
    case Present(id, revision, valueDigest, valueType, sizeBytes) =>
      WordLength("present");
      AddField(m1, "state", String("present"), 79, 7, 9);
      var m2 := m1["state" := String("present")];
      NumberLength(revision);
      AddField(m2, "item_revision", Int(revision), 97, 15, 20);
      var m3 := m2["item_revision" := Int(revision)];
      DigestLength(valueDigest);
      AddField(m3, "value_digest", String(valueDigest), 134, 14, 73);
      var m4 := m3["value_digest" := String(valueDigest)];
      ItemTypeNameLength(valueType);
      AddField(m4, "value_type", String(ItemTypeName(valueType)), 223, 12, 14);
      var m5 := m4["value_type" := String(ItemTypeName(valueType))];
      NumberLength(sizeBytes);
      AddField(m5, "size_bytes", Int(sizeBytes), 251, 12, 20);
  }

  // ----- Selectors and evidence -----

  /** `key` for a key of `n` characters. */
  lemma KeyLength(k: string, n: nat)
    requires |k| <= n
    ensures |Quoted(k)| <= 6 * n + 2
  {
    StringAtMostSix(k);
  }

  lemma StringsLength(ids: seq<Identifier>)
    ensures Len(Array(Strings(ids))) <= 2 + 67 * |ids|
  {
    hide Len;
    forall i | 0 <= i < |ids| ensures Len(Strings(ids)[i]) <= 66 {
      IdentifierLength(ids[i]);
    }
    ItemsLengthBound(Strings(ids), 66);
    ArrayLength(Strings(ids));
  }

  lemma ItemValuesLength(items: seq<EvidenceItem>)
    ensures Len(Array(ItemValues(items))) <= 2 + 286 * |items|
  {
    hide Len, ItemValue;
    forall i | 0 <= i < |items| ensures Len(ItemValues(items)[i]) <= 285 {
      ItemValueLength(items[i]);
    }
    ItemsLengthBound(ItemValues(items), 285);
    ArrayLength(ItemValues(items));
  }

  function SelectedCount(selector: Reference): (n: nat) {
    if selector.selected.Some? then |selector.selected.value| else 0
  }

  lemma BoolLength(b: bool)
    ensures Len(Bool(b)) <= 5
  {
  }

  lemma SelectorLength(selector: Reference)
    ensures Len(SelectorValue(selector)) <= 189 + 67 * SelectedCount(selector)
  {
    hide Len, Quoted, Strings;
    KeyLength("node", 4);
    KeyLength("required", 8);
    KeyLength("items", 5);
    IdentifierLength(selector.source);
    BoolLength(selector.required);
    OneField("node", String(selector.source), 26, 66);
    var m := map["node" := String(selector.source)];
    AddField(m, "required", Bool(selector.required), 96, 50, 5);
    if selector.selected.Some? {
      var ids := selector.selected.value;
      StringsLength(ids);
      AddField(m["required" := Bool(selector.required)], "items", Array(Strings(ids)), 153, 32, 2 + 67 * |ids|);
    }
  }

  lemma ResolutionNameLength(r: Resolution)
    ensures Len(String(ResolutionName(r))) <= 12
  {
    WordLength(ResolutionName(r));
  }

  lemma EvidenceObjectLength(selector: Reference, frozen: Evidence)
    ensures Len(Object(EvidenceObject(selector, frozen))) <= 355 + 67 * SelectedCount(selector) + 286 * |frozen.items|
  {
    hide Len, Quoted, SelectorValue, ItemValues, ResolutionName;
    var n := 67 * SelectedCount(selector);
    KeyLength("selector", 8);
    KeyLength("resolution", 10);
    KeyLength("items", 5);
    SelectorLength(selector);
    ResolutionNameLength(frozen.resolution);
    ItemValuesLength(frozen.items);
    OneField("selector", SelectorValue(selector), 50, 189 + n);
    var m1 := map["selector" := SelectorValue(selector)];
    AddField(m1, "resolution", String(ResolutionName(frozen.resolution)), 243 + n, 62, 12);
    var m2 := m1["resolution" := String(ResolutionName(frozen.resolution))];
    AddField(m2, "items", Array(ItemValues(frozen.items)), 319 + n, 32, 2 + 286 * |frozen.items|);
  }

  /** One accepted reference stays within its reserve, with room for a separator. */
  lemma EvidenceLength(p: Procedure, selector: Reference, frozen: Evidence)
    requires EvidenceValue(p, selector, frozen).Ok?
    ensures ReferenceCount(p, selector).Ok?
    ensures Len(EvidenceValue(p, selector, frozen).value) + 1
            <= EVIDENCE_RESERVE + ReferenceCount(p, selector).value * ITEM_RESERVE
  {
    hide Len, Quoted, EvidenceObject, SourceItems;
    var count := ReferenceCount(p, selector).value;
    assert count == |frozen.items| && SelectedCount(selector) <= count;
    EvidenceObjectLength(selector, frozen);
    if !frozen.resolution.Unresolved? {
      var m, soFar := EvidenceObject(selector, frozen), 355 + 353 * count;
      var attempt, number, digest := frozen.resolution.attempt, frozen.resolution.number, frozen.resolution.itemsDigest;
      KeyLength("source_attempt_id", 17);
      KeyLength("source_attempt_number", 21);
      KeyLength("source_items_digest", 19);
      UuidLength(attempt);
      NumberLength(number);
      DigestLength(digest);
      AddField(m, "source_attempt_id", String(attempt), soFar, 104, 38);
      var m1 := m["source_attempt_id" := String(attempt)];
      AddField(m1, "source_attempt_number", Int(number), soFar + 144, 128, 20);
      var m2 := m1["source_attempt_number" := Int(number)];
      AddField(m2, "source_items_digest", String(digest), soFar + 294, 116, 73);
    }
  }

  // ----- The reserves of all references, exactly -----

  function ExactReferences(p: Procedure, references: seq<Reference>): (n: nat) {
    if references == [] then 0
    else
      (if ReferenceCount(p, references[0]).Ok?
       then EVIDENCE_RESERVE + ReferenceCount(p, references[0]).value * ITEM_RESERVE else 0)
      + ExactReferences(p, references[1..])
  }

  /** Every reference says how many items it may bring: it selects some, or its source is known. */
  predicate AllCount(p: Procedure, references: seq<Reference>) {
    references != [] ==> ReferenceCount(p, references[0]).Ok? && AllCount(p, references[1..])
  }

  lemma ReserveStep(exact: nat, count: nat)
    ensures Add(Add(Capped(exact), EVIDENCE_RESERVE), Mul(count, ITEM_RESERVE))
            == Capped(exact + EVIDENCE_RESERVE + count * ITEM_RESERVE)
  {
    hide Add, Capped;
    AddIsExact(exact, EVIDENCE_RESERVE);
    AddIsExact(exact + EVIDENCE_RESERVE, count * ITEM_RESERVE);
  }

  /** Saturation loses nothing: the charge exists when every reference counts, and is the exact sum capped once. */
  lemma {:induction false} ReferencesChargeIsExact(p: Procedure, references: seq<Reference>, exact: nat)
    ensures var charge := ReferencesCharge(p, references, Capped(exact));
            && (charge.Ok? <==> AllCount(p, references))
            && (charge.Ok? ==> charge.value == Capped(exact + ExactReferences(p, references)))
    decreases |references|
  {
    hide ReferenceCount, Capped, Add, Mul;
    if references != [] && ReferenceCount(p, references[0]).Ok? {
      var count := ReferenceCount(p, references[0]).value;
      ReserveStep(exact, count);
      ReferencesChargeIsExact(p, references[1..], exact + EVIDENCE_RESERVE + count * ITEM_RESERVE);
    }
  }

  lemma {:induction false} EvidenceValuesLength(p: Procedure, declared: seq<Reference>, frozen: seq<Evidence>)
    requires |declared| == |frozen| && EvidenceValues(p, declared, frozen).Ok?
    ensures ItemsLength(EvidenceValues(p, declared, frozen).value) <= ExactReferences(p, declared)
    decreases |declared|
  {
    hide Len, EvidenceValue, ReferenceCount;
    if declared != [] {
      EvidenceLength(p, declared[0], frozen[0]);
      EvidenceValuesLength(p, declared[1..], frozen[1..]);
      var v, rest := EvidenceValue(p, declared[0], frozen[0]).value,
          EvidenceValues(p, declared[1..], frozen[1..]).value;
      assert ([v] + rest)[1..] == rest;
    }
  }

  // ----- Goal and declaration -----

  lemma CriterionLength(c: Criterion)
    ensures Len(CriterionValue(c)) <= 2004
  {
    hide Len, Quoted;
    KeyLength("criterion_id", 12);
    KeyLength("statement", 9);
    IdentifierLength(c.id);
    TextLength(c.statement, 300);
    OneField("criterion_id", String(c.id), 74, 66);
    AddField(map["criterion_id" := String(c.id)], "statement", String(c.statement), 144, 56, 1802);
  }

  lemma CriteriaLength(criteria: Criteria)
    ensures Len(Array(CriterionValues(criteria))) <= 2 + 16 * 2005
  {
    hide Len, CriterionValue;
    forall i | 0 <= i < |criteria| ensures Len(CriterionValues(criteria)[i]) <= 2004 {
      CriterionLength(criteria[i]);
    }
    ItemsLengthBound(CriterionValues(criteria), 2004);
    ArrayLength(CriterionValues(criteria));
  }

  lemma NullLength()
    ensures Len(Null) == 4
  {
  }

  lemma GoalLength(goal: Option<Goal>)
    ensures Len(GoalValue(goal)) <= 38_268
  {
    hide Len, Quoted, CriterionValues;
    match goal
    case None => NullLength();
    case Some(g) =>
      KeyLength("revision", 8);
      KeyLength("statement", 9);
      KeyLength("criteria", 8);
      NumberLength(g.revision);
      TextLength(g.statement, 1000);
      CriteriaLength(g.criteria);
      OneField("revision", Int(g.revision), 50, 20);
      var m1 := map["revision" := Int(g.revision)];
      AddField(m1, "statement", String(g.statement), 74, 56, 6002);
      var m2 := m1["statement" := String(g.statement)];
      AddField(m2, "criteria", Array(CriterionValues(g.criteria)), 6134, 50, 32_082);
  }

  lemma DeclarationLength(d: Declaration)
    ensures Len(DeclarationValue(d)) <= 1070
  {
    hide Len, Quoted;
    KeyLength("binding_ref", 11);
    KeyLength("role_ref", 8);
    KeyLength("role_snapshot_digest", 20);
    KeyLength("max_rounds", 10);
    KeyLength("after_accept", 12);
    IdentifierLength(d.bindingRef);
    RoleRefLength(d.roleRef);
    DigestLength(d.roleSnapshotDigest);
    NumberLength(d.maxRounds);
    var accept := if d.afterAccept.Retain? then "retain" else "release";
    WordLength(accept);
    OneField("binding_ref", String(d.bindingRef), 68, 66);
    var m1 := map["binding_ref" := String(d.bindingRef)];
    AddField(m1, "role_ref", String(d.roleRef), 138, 50, 514);
    var m2 := m1["role_ref" := String(d.roleRef)];
    AddField(m2, "role_snapshot_digest", String(d.roleSnapshotDigest), 704, 122, 73);
    var m3 := m2["role_snapshot_digest" := String(d.roleSnapshotDigest)];
    AddField(m3, "max_rounds", Int(d.maxRounds), 901, 62, 20);
    var m4 := m3["max_rounds" := Int(d.maxRounds)];
    AddField(m4, "after_accept", String(accept), 985, 74, 9);
  }

  // ----- The package -----

  lemma PackageLength(p: Procedure, input: Input, d: Declaration, action: map<string, Value>, evidence: seq<Value>)
    ensures Len(PackageObject(p, input, d, action, evidence))
            <= FIXED_RESERVE + Len(Object(action)) + ItemsLength(evidence)
  {
    hide Len, Quoted, GoalValue, DeclarationValue, ItemsLength;
    var a, e := Len(Object(action)), ItemsLength(evidence);
    ArrayLength(evidence);
    PackageKeys();
    TextLength(PACKAGE_SCHEMA, 33);
    UuidLength(input.workspace);
    DigestLength(p.digest);
    UuidLength(input.session);
    IdentifierLength(input.placement);
    UuidLength(input.attempt);
    DeclarationLength(d);
    GoalLength(input.goal);
    OneField("schema", String(PACKAGE_SCHEMA), 38, 200);
    var m1 := map["schema" := String(PACKAGE_SCHEMA)];
    AddField(m1, "workspace_uuid", String(input.workspace), 242, 86, 38);
    var m2 := m1["workspace_uuid" := String(input.workspace)];
    AddField(m2, "procedure_digest", String(p.digest), 368, 98, 73);
    var m3 := m2["procedure_digest" := String(p.digest)];
    AddField(m3, "session_id", String(input.session), 541, 62, 38);
    var m4 := m3["session_id" := String(input.session)];
    AddField(m4, "placement_id", String(input.placement), 643, 74, 66);
    var m5 := m4["placement_id" := String(input.placement)];
    AddField(m5, "attempt_id", String(input.attempt), 785, 62, 38);
    var m6 := m5["attempt_id" := String(input.attempt)];
    AddField(m6, "delegation", DeclarationValue(d), 887, 62, 1070);
    var m7 := m6["delegation" := DeclarationValue(d)];
    AddField(m7, "action", Object(action), 2021, 38, a);
    var m8 := m7["action" := Object(action)];
    AddField(m8, "goal", GoalValue(input.goal), 2061 + a, 26, 38_268);
    var m9 := m8["goal" := GoalValue(input.goal)];
    AddField(m9, "evidence", Array(evidence), 40_357 + a, 50, e + 2);
  }

  lemma PackageKeys()
    ensures |Quoted("schema")| <= 38 && |Quoted("workspace_uuid")| <= 86 && |Quoted("procedure_digest")| <= 98
    ensures |Quoted("session_id")| <= 62 && |Quoted("placement_id")| <= 74 && |Quoted("attempt_id")| <= 62
    ensures |Quoted("delegation")| <= 62 && |Quoted("action")| <= 38 && |Quoted("goal")| <= 26
            && |Quoted("evidence")| <= 50
  {
    hide Quoted;
    KeyLength("schema", 6);
    KeyLength("workspace_uuid", 14);
    KeyLength("procedure_digest", 16);
    KeyLength("session_id", 10);
    KeyLength("placement_id", 12);
    KeyLength("attempt_id", 10);
    KeyLength("delegation", 10);
    KeyLength("action", 6);
    KeyLength("goal", 4);
    KeyLength("evidence", 8);
  }

  lemma {:induction false} AdmittedPlacement(p: Procedure, placements: seq<Placement>, placement: Placement)
    requires BudgetVerdict(p, placements).Ok? && placement in placements
    ensures PlacementVerdict(p, placement).Ok?
  {
    hide PlacementVerdict;
    if placement != placements[0] {
      AdmittedPlacement(p, placements[1..], placement);
    }
  }

  /**
    Once admission has passed, every package that the projection can build has canonical text no
    longer than the charge of its placement, and so within the limit.
    */
  lemma AdmissionIsSound(p: Procedure, input: Input)
    ensures BudgetVerdict(p, p.placements).Ok? && PackageValue(p, input).Ok? ==>
              var charge := PlacementCharge(p, FindPlacement(p.placements, input.placement).value);
              charge.Ok? && Len(PackageValue(p, input).value) <= charge.value <= MAX_PACKAGE_BYTES
  {
    hide Len, PackageObject, EvidenceValues, ReferencesCharge, ExactReferences, ItemsLength, BudgetVerdict;
    if BudgetVerdict(p, p.placements).Err? || PackageValue(p, input).Err? {
      return;
    }
    var placement := FindPlacement(p.placements, input.placement).value;
    AdmittedPlacement(p, p.placements, placement);
    var definition := FindDefinition(p.definitions, placement.definition).value;
    var action := definition.document - {"type"};
    var references := References(placement);
    var evidence := EvidenceValues(p, references, input.evidence).value;
    PackageLength(p, input, placement.delegation.value, action, evidence);
    RemoveFieldLength(definition.document, "type");
    EvidenceValuesLength(p, references, input.evidence);
    ReferencesChargeIsExact(p, references, Len(Object(definition.document)) + FIXED_RESERVE);
  }

  // ----- Exactly what is admitted -----

  /** The definition is there, every reference counts, and the worst case fits. */
  ghost predicate Affordable(p: Procedure, placement: Placement) {
    var definition := FindDefinition(p.definitions, placement.definition);
    && definition.Some?
    && AllCount(p, References(placement))
    && Len(Object(definition.value.document)) + FIXED_RESERVE + ExactReferences(p, References(placement))
       <= MAX_PACKAGE_BYTES
  }

  lemma PlacementAdmits(p: Procedure, placement: Placement)
    ensures PlacementVerdict(p, placement).Ok? <==> (Delegated(placement) ==> Affordable(p, placement))
  {
    hide Len, ReferencesCharge, ExactReferences, AllCount;
    var definition := FindDefinition(p.definitions, placement.definition);
    if definition.Some? {
      ReferencesChargeIsExact(p, References(placement), Len(Object(definition.value.document)) + FIXED_RESERVE);
    }
  }

  /** A Procedure is admitted exactly when every delegated placement of it is affordable. */
  lemma AdmissionAdmits(p: Procedure)
    ensures BudgetVerdict(p, p.placements).Ok?
            <==> forall i :: 0 <= i < |p.placements| && Delegated(p.placements[i]) ==> Affordable(p, p.placements[i])
  {
    AllPlacementsAdmit(p, p.placements);
  }

  lemma {:induction false} AllPlacementsAdmit(p: Procedure, placements: seq<Placement>)
    ensures BudgetVerdict(p, placements).Ok?
            <==> forall i :: 0 <= i < |placements| && Delegated(placements[i]) ==> Affordable(p, placements[i])
  {
    hide PlacementVerdict, Affordable, Delegated;
    if placements != [] {
      PlacementAdmits(p, placements[0]);
      AllPlacementsAdmit(p, placements[1..]);
      if BudgetVerdict(p, placements).Ok? {
        forall i | 0 <= i < |placements| && Delegated(placements[i]) ensures Affordable(p, placements[i]) {
          if i > 0 { assert placements[i] == placements[1..][i - 1]; }
        }
      }
    }
  }
}
