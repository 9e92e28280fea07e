/**
  The delegation work package: the charge that admits a Procedure, and the projection that builds
  a package for one attempt and refuses it when it is too long.
  */
module DelegationPackage {
  import opened Utf8
  import opened CanonicalJson
  import opened CanonicalLength
  import opened Procedure
  import opened Saturation
  import CanonicalPrinters

  const MAX_PACKAGE_BYTES: nat := 950_000
  const FIXED_RESERVE: nat := 53_000
  const EVIDENCE_RESERVE: nat := 1_500
  const ITEM_RESERVE: nat := 400
  const MAX_ITEMS: nat := 128

  datatype PackageError =
    | InvalidValue(field: string, reason: string)
    | OutOfBounds(field: string, maximum: nat, actual: nat)

  datatype Result<+T> = Ok(value: T) | Err(error: PackageError)

  const INVALID_EVIDENCE :=
    InvalidValue("delegation work package evidence", "frozen evidence does not match declared selectors")
  const DEFINITION_MISSING :=
    InvalidValue("delegation work package definition", "action definition is missing")

  // ----- Runtime input -----

  datatype EvidenceItem =
    | Missing(id: Identifier)
    | Present(id: Identifier, revision: U64, valueDigest: Digest, valueType: ItemType, sizeBytes: U64)

  datatype Resolution =
    | Resolved(attempt: Uuid, number: U64, itemsDigest: Digest)
    | Skipped(attempt: Uuid, number: U64, itemsDigest: Digest)
    | Unresolved

  datatype Evidence = Evidence(selector: Reference, resolution: Resolution, items: seq<EvidenceItem>)

  datatype Criterion = Criterion(id: Identifier, statement: CriterionStatement)

  /** One to sixteen criteria. */
  type Criteria = c: seq<Criterion> | 1 <= |c| <= 16 witness [Criterion("c", "c")]

  datatype Goal = Goal(revision: U64, statement: GoalStatement, criteria: Criteria)

  datatype Input = Input(
    workspace: Uuid, session: Uuid, placement: Identifier, attempt: Uuid, goal: Option<Goal>, evidence: seq<Evidence>)

  // ----- Admission -----

  function SourceItems(p: Procedure, node: Identifier): (r: Result<seq<ItemSpec>>) {
    match FindPlacement(p.placements, node)
    case None => Err(INVALID_EVIDENCE)
    case Some(placement) =>
      match FindDefinition(p.definitions, placement.definition)
      case None => Err(INVALID_EVIDENCE)
      case Some(definition) => Ok(definition.items)
  }

  /** How many items one reference may bring into a package. */
  function ReferenceCount(p: Procedure, reference: Reference): (r: Result<nat>) {
    match reference.selected
    case Some(ids) => Ok(|ids|)
    case None =>
      match SourceItems(p, reference.source)
      case Ok(items) => Ok(|items|)
      case Err(error) => Err(error)
  }

  /** Adds the charge of each reference, in order, saturating. */
  function ReferencesCharge(p: Procedure, references: seq<Reference>, charge: nat): (r: Result<nat>)
    decreases |references|
  {
    if references == [] then
      Ok(charge)
    else
      match ReferenceCount(p, references[0])
      case Err(error) => Err(error)
      case Ok(count) =>
        ReferencesCharge(p, references[1..], Add(Add(charge, EVIDENCE_RESERVE), Mul(count, ITEM_RESERVE)))
  }

  predicate Delegated(placement: Placement) {
    placement.ActionPlacement? && placement.delegation.Some?
  }

  /** The admission charge of one delegated placement. */
  ghost function PlacementCharge(p: Procedure, placement: Placement): (r: Result<nat>) {
    match FindDefinition(p.definitions, placement.definition)
    case None => Err(DEFINITION_MISSING)
    case Some(definition) =>
      ReferencesCharge(p, References(placement), Add(Len(Object(definition.document)), FIXED_RESERVE))
  }

  ghost function PlacementVerdict(p: Procedure, placement: Placement): (r: Result<()>) {
    if !Delegated(placement) then Ok(())
    else
      match PlacementCharge(p, placement)
      case Err(error) => Err(error)
      case Ok(charge) =>
        if charge > MAX_PACKAGE_BYTES then
          Err(OutOfBounds("delegation work package worst-case JSON bytes", MAX_PACKAGE_BYTES, charge))
        else
          Ok(())
  }

  /** The first refusal in placement order. */
  ghost function BudgetVerdict(p: Procedure, placements: seq<Placement>): (r: Result<()>) {
    if placements == [] then Ok(())
    else if PlacementVerdict(p, placements[0]).Err? then PlacementVerdict(p, placements[0])
    else BudgetVerdict(p, placements[1..])
  }

  method ValidateDelegationPackageBudget(p: Procedure) returns (r: Result<()>)
    ensures r == BudgetVerdict(p, p.placements)
  {
    hide PlacementCharge;
    assert p.placements[0..] == p.placements;
    for i := 0 to |p.placements|
      invariant BudgetVerdict(p, p.placements[i..]) == BudgetVerdict(p, p.placements)
    {
      assert p.placements[i..][1..] == p.placements[i + 1..];
      var placement := p.placements[i];
      if Delegated(placement) {
        var charge := ChargePlacement(p, placement);
        if charge.Err? {
          return Err(charge.error);
        }
        if charge.value > MAX_PACKAGE_BYTES {
          return Err(OutOfBounds("delegation work package worst-case JSON bytes", MAX_PACKAGE_BYTES, charge.value));
        }
      }
    }
    r := Ok(());
  }

  method ChargePlacement(p: Procedure, placement: Placement) returns (r: Result<nat>)
    ensures r == PlacementCharge(p, placement)
  {
    hide Canonical;
    var definition := FindDefinition(p.definitions, placement.definition);
    if definition.None? {
      return Err(DEFINITION_MISSING);
    }
    var _, bytes := CanonicalPrinters.CanonicalJsonBytes(Object(definition.value.document));
    var charge := Add(|bytes|, FIXED_RESERVE);
    ghost var initial := charge;
    var references := References(placement);
    assert references[0..] == references;
    for i := 0 to |references|
      invariant ReferencesCharge(p, references[i..], charge) == ReferencesCharge(p, references, initial)
    {
      assert references[i..][1..] == references[i + 1..];
      var count := ReferenceCount(p, references[i]);
      if count.Err? {
        return Err(count.error);
      }
      charge := Add(Add(charge, EVIDENCE_RESERVE), Mul(count.value, ITEM_RESERVE));
    }
    r := Ok(charge);
  }

  // ----- Projection -----

  function ItemValue(item: EvidenceItem): (v: Value) {
    match item
    case Missing(id) => Object(map["item_id" := String(id)]["state" := String("missing")])
    case Present(id, revision, valueDigest, valueType, sizeBytes) =>
      Object(map["item_id" := String(id)]["state" := String("present")]["item_revision" := Int(revision)]
             ["value_digest" := String(valueDigest)]["value_type" := String(ItemTypeName(valueType))]
             ["size_bytes" := Int(sizeBytes)])
  }

  function Strings(ids: seq<string>): (items: seq<Value>) {
    seq(|ids|, i requires 0 <= i < |ids| => String(ids[i]))
  }

  function ItemValues(items: seq<EvidenceItem>): (r: seq<Value>) {
    seq(|items|, i requires 0 <= i < |items| => ItemValue(items[i]))
  }

  function SelectorValue(selector: Reference): (v: Value) {
    var fields := map["node" := String(selector.source)]["required" := Bool(selector.required)];
    match selector.selected
    case None => Object(fields)
    case Some(ids) => Object(fields["items" := Array(Strings(ids))])
  }

  function ResolutionName(r: Resolution): (s: string) {
    match r
    case Resolved(_, _, _) => "resolved"
    case Skipped(_, _, _) => "skipped"
    case Unresolved => "unresolved"
  }

  function Expected(selector: Reference, source: seq<ItemSpec>): (ids: seq<Identifier>) {
    match selector.selected
    case Some(ids) => ids
    case None => seq(|source|, i requires 0 <= i < |source| => source[i].id)
  }

  predicate Declared(source: seq<ItemSpec>, item: EvidenceItem) {
    item.Present? ==> ItemSpec(item.id, item.valueType) in source
  }

  predicate EvidenceMatches(selector: Reference, frozen: Evidence, source: seq<ItemSpec>) {
    var expected := Expected(selector, source);
    && |expected| == |frozen.items|
    && (forall i :: 0 <= i < |expected| ==> expected[i] == frozen.items[i].id)
    && forall i :: 0 <= i < |frozen.items| ==> Declared(source, frozen.items[i])
  }

  function EvidenceObject(selector: Reference, frozen: Evidence): (m: map<string, Value>) {
    map["selector" := SelectorValue(selector)]["resolution" := String(ResolutionName(frozen.resolution))]
       ["items" := Array(ItemValues(frozen.items))]
  }

  /** The projected fields; a source attempt that exists is named. */
  function EvidenceMembers(selector: Reference, frozen: Evidence): (m: map<string, Value>) {
    var m := EvidenceObject(selector, frozen);
    if frozen.resolution.Unresolved? then m
    else
      m["source_attempt_id" := String(frozen.resolution.attempt)]
       ["source_attempt_number" := Int(frozen.resolution.number)]
       ["source_items_digest" := String(frozen.resolution.itemsDigest)]
  }

  function EvidenceValue(p: Procedure, selector: Reference, frozen: Evidence): (r: Result<Value>) {
    if selector != frozen.selector
       || (!frozen.resolution.Resolved? && exists i :: 0 <= i < |frozen.items| && frozen.items[i].Present?)
       || |frozen.items| > MAX_ITEMS then
      Err(INVALID_EVIDENCE)
    else
      match SourceItems(p, selector.source)
      case Err(error) => Err(error)
      case Ok(source) =>
        if !EvidenceMatches(selector, frozen, source) then
          Err(INVALID_EVIDENCE)
        else if !frozen.resolution.Unresolved? && frozen.resolution.number < 1 then
          Err(INVALID_EVIDENCE)
        else
          Ok(Object(EvidenceMembers(selector, frozen)))
  }

  function EvidenceValues(p: Procedure, declared: seq<Reference>, frozen: seq<Evidence>): (r: Result<seq<Value>>)
    requires |declared| == |frozen|
  {
    if declared == [] then
      Ok([])
    else
      match EvidenceValue(p, declared[0], frozen[0])
      case Err(error) => Err(error)
      case Ok(v) =>
        match EvidenceValues(p, declared[1..], frozen[1..])
        case Err(error) => Err(error)
        case Ok(rest) => Ok([v] + rest)
  }

  function CriterionValue(c: Criterion): (v: Value) {
    Object(map["criterion_id" := String(c.id)]["statement" := String(c.statement)])
  }

  function CriterionValues(criteria: seq<Criterion>): (r: seq<Value>) {
    seq(|criteria|, i requires 0 <= i < |criteria| => CriterionValue(criteria[i]))
  }

  function GoalValue(goal: Option<Goal>): (v: Value) {
    match goal
    case None => Null
    case Some(g) =>
      Object(map["revision" := Int(g.revision)]["statement" := String(g.statement)]
             ["criteria" := Array(CriterionValues(g.criteria))])
  }

  function DeclarationValue(d: Declaration): (v: Value) {
    Object(map["binding_ref" := String(d.bindingRef)]["role_ref" := String(d.roleRef)]
           ["role_snapshot_digest" := String(d.roleSnapshotDigest)]["max_rounds" := Int(d.maxRounds)]
           ["after_accept" := String(if d.afterAccept.Retain? then "retain" else "release")])
  }

  const PACKAGE_SCHEMA := "podway.delegation-work-package/v1"

  function PackageObject(p: Procedure, input: Input, d: Declaration, action: map<string, Value>,
                         evidence: seq<Value>): (v: Value) {
    Object(map["schema" := String(PACKAGE_SCHEMA)]["workspace_uuid" := String(input.workspace)]
           ["procedure_digest" := String(p.digest)]["session_id" := String(input.session)]
           ["placement_id" := String(input.placement)]["attempt_id" := String(input.attempt)]
           ["delegation" := DeclarationValue(d)]["action" := Object(action)]
           ["goal" := GoalValue(input.goal)]["evidence" := Array(evidence)])
  }

  /** The package as a value; everything but the final length test of the projection. */
  function PackageValue(p: Procedure, input: Input): (r: Result<Value>) {
    if input.goal.Some? && !p.goalTracking then
      Err(InvalidValue("delegation work package goal", "Procedure does not enable goal tracking"))
    else
      match FindPlacement(p.placements, input.placement)
      case Some(ActionPlacement(id, definitionId, evidence, delegation)) =>
        var placement := ActionPlacement(id, definitionId, evidence, delegation);
        if delegation.None? then
          Err(InvalidValue("delegation work package placement", "placement must declare delegation"))
        else
          (match FindDefinition(p.definitions, definitionId)
           case None => Err(DEFINITION_MISSING)
           case Some(definition) =>
             if !definition.Action? then
               Err(InvalidValue("delegation work package definition", "definition must be an action"))
             else if |References(placement)| != |input.evidence| then
               Err(INVALID_EVIDENCE)
             else
               match EvidenceValues(p, References(placement), input.evidence)
               case Err(error) => Err(error)
               case Ok(values) =>
                 Ok(PackageObject(p, input, delegation.value, definition.document - {"type"}, values)))
      case _ => Err(InvalidValue("delegation work package placement", "placement must be an action"))
  }
}
