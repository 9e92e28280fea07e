/**
  The part of a parsed Procedure v2 that delegation packages and the `next` budget look at:
  placements, the definitions they use, the evidence they read back.
  */
module Procedure {
  import opened Utf8
  import opened CanonicalJson
  import opened CanonicalLength
  import opened Saturation

  // ----- Bounded text -----

  predicate LowerOrDigit(c: char) {
    'a' <= c <= 'z' || '0' <= c <= '9'
  }

  /** Lower-case kebab case, 1 to 64 ASCII bytes. */
  predicate IsIdentifier(s: string) {
    && 1 <= |s| <= 64
    && 'a' <= s[0] <= 'z'
    && (forall i :: 0 <= i < |s| ==> LowerOrDigit(s[i]) || s[i] == '-')
    && s[|s| - 1] != '-'
    && (forall i :: 0 < i < |s| ==> !(s[i - 1] == '-' && s[i] == '-'))
  }

  type Identifier = s: string | IsIdentifier(s) witness "a"

  predicate HexChar(c: char) {
    '0' <= c <= '9' || 'a' <= c <= 'f'
  }

  /** Canonical lower-case UUID text. */
  predicate IsUuid(s: string) {
    |s| == 36 && forall i :: 0 <= i < 36 ==> if i in {8, 13, 18, 23} then s[i] == '-' else HexChar(s[i])
  }

  type Uuid = s: string | IsUuid(s) witness "00000000-0000-0000-0000-000000000000"

  const DIGEST_PREFIX := "sha256:"

  /** `sha256:` and 64 lower-case hexadecimal digits. */
  predicate IsDigest(s: string) {
    |s| == 71 && s[..7] == DIGEST_PREFIX && forall i :: 7 <= i < 71 ==> HexChar(s[i])
  }

  function SomeDigest(): (s: string)
    ensures IsDigest(s)
  {
    DIGEST_PREFIX + seq(64, _ => '0')
  }

  type Digest = s: string | IsDigest(s) ghost witness SomeDigest()

  /** Text of at most `maximum` characters. */
  predicate TextWithin(s: string, maximum: nat) {
    1 <= |s| <= maximum
  }

  type GoalStatement = s: string | TextWithin(s, 1000) witness "g"
  type CriterionStatement = s: string | TextWithin(s, 300) witness "c"

  /** At most 256 bytes of UTF-8 without control characters. */
  predicate IsRoleRef(s: string) {
    && 1 <= |Encode(s)| <= 256
    && forall i :: 0 <= i < |s| ==> s[i] as int >= 0x20 && !(0x7F <= s[i] as int < 0xA0)
  }

  function SomeRole(): (s: string)
    ensures IsRoleRef(s)
  {
    EncodeAscii("r");
    "r"
  }

  type RoleRef = s: string | IsRoleRef(s) witness SomeRole()

  // ----- Lengths of bounded text in canonical JSON -----

  lemma IdentifierLength(s: Identifier)
    ensures Len(String(s)) == |s| + 2 <= 66
  {
    PlainLength(s);
  }

  lemma UuidLength(s: Uuid)
    ensures Len(String(s)) == 38
  {
    forall i | 0 <= i < |s| ensures PlainChar(s[i]) {}
    PlainLength(s);
  }

  lemma DigestLength(s: Digest)
    ensures Len(String(s)) == 73
  {
    forall i | 0 <= i < |s| ensures PlainChar(s[i]) {
      if i < 7 { assert s[i] == DIGEST_PREFIX[i]; }
    }
    PlainLength(s);
  }

  lemma RoleRefLength(s: RoleRef)
    ensures Len(String(s)) <= 514
  {
    EscapeAtMostDoubles(s);
  }

  lemma TextLength(s: string, maximum: nat)
    requires |s| <= maximum
    ensures Len(String(s)) <= 6 * maximum + 2
  {
    StringAtMostSix(s);
  }

  lemma NumberLength(n: U64)
    ensures Len(Int(n)) <= 20
  {
    IntegerLength(n);
  }

  // ----- Structure -----

  datatype ItemType = Confirm | Text | Choice | Integer | List | Artifact | CheckResult

  function ItemTypeName(t: ItemType): (s: string) {
    match t
    case Confirm => "confirm"
    case Text => "text"
    case Choice => "choice"
    case Integer => "integer"
    case List => "list"
    case Artifact => "artifact"
    case CheckResult => "check_result"
  }

  datatype ItemSpec = ItemSpec(id: Identifier, kind: ItemType)

  /** The JSON projection of a definition: an object without floating-point numbers. */
  type Document = m: map<string, Value> | IntegersOnly(Object(m))

  datatype Definition =
    | Action(id: Identifier, items: seq<ItemSpec>, document: Document)
    | Decision(id: Identifier, items: seq<ItemSpec>, document: Document, assessment: bool)

  /** One declared evidence reference; no selection means every item of the source. */
  datatype Reference = Reference(source: Identifier, required: bool, selected: Option<seq<Identifier>>)

  datatype AfterAccept = Retain | Release

  datatype Declaration = Declaration(
    bindingRef: Identifier, roleRef: RoleRef, roleSnapshotDigest: Digest, maxRounds: Rounds, afterAccept: AfterAccept)

  type Rounds = n: nat | 1 <= n <= 32 witness 1

  datatype Placement =
    | ActionPlacement(id: Identifier, definition: Identifier, evidence: Option<seq<Reference>>,
                      delegation: Option<Declaration>)
    | DecisionPlacement(id: Identifier, definition: Identifier, evidence: Option<seq<Reference>>)

  /** The declared evidence references, none if nothing is declared. */
  function References(placement: Placement): (r: seq<Reference>) {
    if placement.evidence.Some? then placement.evidence.value else []
  }

  datatype Procedure = Procedure(placements: seq<Placement>, definitions: seq<Definition>, goalTracking: bool,
                                 digest: Digest)

  // ----- Lookup by identifier -----

  /** The first entry with this identifier. */
  function FindFirst<T>(entries: seq<T>, key: T -> Identifier, id: Identifier): (r: Option<T>)
    ensures r.Some? ==> r.value in entries && key(r.value) == id
  {
    if entries == [] then None
    else if key(entries[0]) == id then Some(entries[0])
    else FindFirst(entries[1..], key, id)
  }

  ghost predicate IsFirst<T(!new)>(entries: seq<T>, key: T -> Identifier, id: Identifier, entry: T) {
    exists k :: 0 <= k < |entries| && entries[k] == entry && key(entry) == id && NoneBefore(entries, key, id, k)
  }

  ghost predicate NoneBefore<T(!new)>(entries: seq<T>, key: T -> Identifier, id: Identifier, k: nat)
    requires k <= |entries|
  {
    forall j :: 0 <= j < k ==> key(entries[j]) != id
  }

  ghost predicate IsAbsent<T(!new)>(entries: seq<T>, key: T -> Identifier, id: Identifier) {
    NoneBefore(entries, key, id, |entries|)
  }

  /** The lookup gives the first match, and nothing exactly when there is none. */
  lemma {:induction false} FoundIsFirst<T(!new)>(entries: seq<T>, key: T -> Identifier, id: Identifier)
    ensures var r := FindFirst(entries, key, id);
            if r.Some? then IsFirst(entries, key, id, r.value) && !IsAbsent(entries, key, id)
            else IsAbsent(entries, key, id)
  {
    if entries != [] {
      if key(entries[0]) == id {
        assert NoneBefore(entries, key, id, 0);
      } else {
        var rest := entries[1..];
        FoundIsFirst(rest, key, id);
        var r := FindFirst(rest, key, id);
        if r.Some? {
          var k :| 0 <= k < |rest| && rest[k] == r.value && key(r.value) == id && NoneBefore(rest, key, id, k);
          NoneBeforeShift(entries, key, id, k);
          assert entries[k + 1] == r.value;
        } else {
          NoneBeforeShift(entries, key, id, |rest|);
        }
      }
    }
  }

  lemma NoneBeforeShift<T(!new)>(entries: seq<T>, key: T -> Identifier, id: Identifier, k: nat)
    requires entries != [] && key(entries[0]) != id && k <= |entries[1..]| && NoneBefore(entries[1..], key, id, k)
    ensures NoneBefore(entries, key, id, k + 1)
  {
    forall j | 0 <= j < k + 1 ensures key(entries[j]) != id {
      if j > 0 { assert entries[j] == entries[1..][j - 1]; }
    }
  }

  /** There is at most one first match. */
  lemma FirstIsUnique<T(!new)>(entries: seq<T>, key: T -> Identifier, id: Identifier, a: T, b: T)
    requires IsFirst(entries, key, id, a) && IsFirst(entries, key, id, b)
    ensures a == b
  {
    var i :| 0 <= i < |entries| && entries[i] == a && key(a) == id && NoneBefore(entries, key, id, i);
    var j :| 0 <= j < |entries| && entries[j] == b && key(b) == id && NoneBefore(entries, key, id, j);
    assert !(i < j) && !(j < i);
  }

  function PlacementId(placement: Placement): (id: Identifier) {
    placement.id
  }

  function DefinitionId(definition: Definition): (id: Identifier) {
    definition.id
  }

  function ItemId(item: ItemSpec): (id: Identifier) {
    item.id
  }

  function FindPlacement(placements: seq<Placement>, id: Identifier): (r: Option<Placement>)
    ensures r.Some? ==> r.value in placements && r.value.id == id
  {
    FindFirst(placements, PlacementId, id)
  }

  function FindDefinition(definitions: seq<Definition>, id: Identifier): (r: Option<Definition>)
    ensures r.Some? ==> r.value in definitions && r.value.id == id
  {
    FindFirst(definitions, DefinitionId, id)
  }

  function FindItem(items: seq<ItemSpec>, id: Identifier): (r: Option<ItemSpec>)
    ensures r.Some? ==> r.value in items && r.value.id == id
  {
    FindFirst(items, ItemId, id)
  }
}
