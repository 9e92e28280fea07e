/**
  The bounded walk over one decoded document, as the JSON reader and the YAML visitor perform it:
  every value is a node, nodes are counted in document order against a depth and a node limit, and
  a mapping refuses a repeated key.
  */
module DocumentWalk {
  import opened CanonicalJson

  datatype ConfigError =
    | InvalidDocument(reason: string)
    | NonCanonicalNumber
    | DuplicateKey(key: string)
    | InputTooDeep(maximum: nat, actual: nat)
    | InputTooComplex(maximum: nat, actual: nat)
    | InputTooLarge(maximum: nat, actual: nat)

  datatype Limits = Limits(maxBytes: nat, maxDepth: nat, maxNodes: nat)

  type ScalarValue = v: Value | !v.Array? && !v.Object? witness Null

  /**
    A decoded document as a stream of events would describe it: entries keep their order, and a
    repeated key is still there. `Refused` is a scalar that is rejected once it has been counted
    (a number that is no 64-bit integer, an undecodable string, a binary YAML scalar).
    */
  datatype Doc =
    | Scalar(value: ScalarValue)
    | Refused(error: ConfigError)
    | Sequence(items: Docs)
    | Mapping(entries: Entries)

  datatype Docs = NoDocs | MoreDocs(head: Doc, tail: Docs)
  datatype Entries = NoEntries | MoreEntries(key: Key, value: Doc, rest: Entries)
  datatype Key = Name(name: string) | BadKey(error: ConfigError)

  datatype Verdict = Accepted(value: Value, nodes: nat) | Rejected(error: ConfigError)
  datatype ItemsVerdict = AcceptedItems(items: seq<Value>, nodes: nat) | RejectedItems(error: ConfigError)
  datatype EntriesVerdict =
    | AcceptedEntries(members: map<string, Value>, nodes: nat)
    | RejectedEntries(error: ConfigError)

  // ----- The JSON reader's walk -----

  function Walk(d: Doc, depth: nat, nodes: nat, limits: Limits): (r: Verdict) {
    if depth > limits.maxDepth then
      Rejected(InputTooDeep(limits.maxDepth, depth))
    else if nodes + 1 > limits.maxNodes then
      Rejected(InputTooComplex(limits.maxNodes, nodes + 1))
    else
      match d
      case Scalar(v) => Accepted(v, nodes + 1)
      case Refused(error) => Rejected(error)
      case Sequence(items) =>
        (match WalkItems(items, depth + 1, nodes + 1, limits, [])
         case AcceptedItems(values, n) => Accepted(Array(values), n)
         case RejectedItems(error) => Rejected(error))
      case Mapping(entries) =>
        match WalkEntries(entries, depth + 1, nodes + 1, limits, map[])
        case AcceptedEntries(members, n) => Accepted(Object(members), n)
        case RejectedEntries(error) => Rejected(error)
  }

  function WalkItems(items: Docs, depth: nat, nodes: nat, limits: Limits, done: seq<Value>): (r: ItemsVerdict) {
    match items
    case NoDocs => AcceptedItems(done, nodes)
    case MoreDocs(head, tail) =>
      match Walk(head, depth, nodes, limits)
      case Rejected(error) => RejectedItems(error)
      case Accepted(v, n) => WalkItems(tail, depth, n, limits, done + [v])
  }

  function WalkEntries(entries: Entries, depth: nat, nodes: nat, limits: Limits,
                       done: map<string, Value>): (r: EntriesVerdict) {
    match entries
    case NoEntries => AcceptedEntries(done, nodes)
    case MoreEntries(key, value, rest) =>
      if key.BadKey? then
        RejectedEntries(key.error)
      else if key.name in done then
        RejectedEntries(DuplicateKey(key.name))
      else
        match Walk(value, depth, nodes, limits)
        case Rejected(error) => RejectedEntries(error)
        case Accepted(v, n) => WalkEntries(rest, depth, n, limits, done[key.name := v])
  }

  // ----- Exactly which documents are accepted -----

  function Max(a: nat, b: nat): (r: nat) {
    if a > b then a else b
  }

  /** Nodes of the tree; keys are not nodes. */
  function Size(d: Doc): (n: nat)
    ensures n >= 1
  {
    match d
    case Sequence(items) => 1 + ItemsSize(items)
    case Mapping(entries) => 1 + EntriesSize(entries)
    case _ => 1
  }

  function ItemsSize(items: Docs): (n: nat) {
    match items
    case NoDocs => 0
    case MoreDocs(head, tail) => Size(head) + ItemsSize(tail)
  }

  function EntriesSize(entries: Entries): (n: nat) {
    match entries
    case NoEntries => 0
    case MoreEntries(_, value, rest) => Size(value) + EntriesSize(rest)
  }

  /** Levels of the tree; a scalar and an empty collection have one. */
  function Height(d: Doc): (n: nat)
    ensures n >= 1
  {
    match d
    case Sequence(items) => 1 + ItemsHeight(items)
    case Mapping(entries) => 1 + EntriesHeight(entries)
    case _ => 1
  }

  function ItemsHeight(items: Docs): (n: nat) {
    match items
    case NoDocs => 0
    case MoreDocs(head, tail) => Max(Height(head), ItemsHeight(tail))
  }

  function EntriesHeight(entries: Entries): (n: nat) {
    match entries
    case NoEntries => 0
    case MoreEntries(_, value, rest) => Max(Height(value), EntriesHeight(rest))
  }

  /** Nothing in the document is refused on its own, and no mapping repeats a key. */
  predicate WellFormed(d: Doc) {
    match d
    case Scalar(_) => true
    case Refused(_) => false
    case Sequence(items) => WellFormedItems(items)
    case Mapping(entries) => WellFormedEntries(entries, {})
  }

  predicate WellFormedItems(items: Docs) {
    items.MoreDocs? ==> WellFormed(items.head) && WellFormedItems(items.tail)
  }

  predicate WellFormedEntries(entries: Entries, seen: set<string>) {
    entries.MoreEntries? ==>
      entries.key.Name? && entries.key.name !in seen && WellFormed(entries.value)
      && WellFormedEntries(entries.rest, seen + {entries.key.name})
  }

  /** The value a document denotes. */
  function Meaning(d: Doc): (v: Value)
    requires WellFormed(d)
  {
    match d
    case Scalar(v) => v
    case Sequence(items) => Array(ItemsMeaning(items, []))
    case Mapping(entries) =>
      var none: map<string, Value> := map[];
      assert none.Keys == {};
      Object(EntriesMeaning(entries, none))
  }

  function ItemsMeaning(items: Docs, done: seq<Value>): (r: seq<Value>)
    requires WellFormedItems(items)
  {
    match items
    case NoDocs => done
    case MoreDocs(head, tail) => ItemsMeaning(tail, done + [Meaning(head)])
  }

  function EntriesMeaning(entries: Entries, done: map<string, Value>): (r: map<string, Value>)
    requires WellFormedEntries(entries, done.Keys)
  {
    match entries
    case NoEntries => done
    case MoreEntries(key, value, rest) =>
      var more := done[key.name := Meaning(value)];
      assert more.Keys == done.Keys + {key.name};
      EntriesMeaning(rest, more)
  }

  predicate WithinLimits(d: Doc, depth: nat, nodes: nat, limits: Limits) {
    depth + Height(d) <= limits.maxDepth + 1 && nodes + Size(d) <= limits.maxNodes
  }

  /**
    The walk accepts exactly the well-formed documents whose height and node count are within the
    limits; the value is the document's meaning and the counter ends at its node count.
    */
  lemma {:induction false} WalkAccepts(d: Doc, depth: nat, nodes: nat, limits: Limits)
    ensures Walk(d, depth, nodes, limits).Accepted? <==> WellFormed(d) && WithinLimits(d, depth, nodes, limits)
    ensures Walk(d, depth, nodes, limits).Accepted? ==>
              Walk(d, depth, nodes, limits) == Accepted(Meaning(d), nodes + Size(d))
  {
    match d
    case Scalar(_) =>
    case Refused(_) =>
    case Sequence(items) =>
      if depth <= limits.maxDepth && nodes + 1 <= limits.maxNodes {
        WalkItemsAccepts(items, depth + 1, nodes + 1, limits, []);
      }
    case Mapping(entries) =>
      if depth <= limits.maxDepth && nodes + 1 <= limits.maxNodes {
        var none: map<string, Value> := map[];
        assert none.Keys == {};
        WalkEntriesAccepts(entries, depth + 1, nodes + 1, limits, none);
      }
  }

  lemma {:induction false} WalkItemsAccepts(items: Docs, depth: nat, nodes: nat, limits: Limits, done: seq<Value>)
    requires 0 < depth <= limits.maxDepth + 1 && nodes <= limits.maxNodes
    ensures var r := WalkItems(items, depth, nodes, limits, done);
            && (r.AcceptedItems? <==>
                  WellFormedItems(items) && depth + ItemsHeight(items) <= limits.maxDepth + 1
                  && nodes + ItemsSize(items) <= limits.maxNodes)
            && (r.AcceptedItems? ==> r == AcceptedItems(ItemsMeaning(items, done), nodes + ItemsSize(items)))
  {
    if items.MoreDocs? {
      WalkAccepts(items.head, depth, nodes, limits);
      var first := Walk(items.head, depth, nodes, limits);
      if first.Accepted? {
        WalkItemsAccepts(items.tail, depth, first.nodes, limits, done + [first.value]);
      }
    }
  }

  lemma {:induction false} WalkEntriesAccepts(entries: Entries, depth: nat, nodes: nat, limits: Limits,
                                              done: map<string, Value>)
    requires 0 < depth <= limits.maxDepth + 1 && nodes <= limits.maxNodes
    ensures var r := WalkEntries(entries, depth, nodes, limits, done);
            && (r.AcceptedEntries? <==>
                  WellFormedEntries(entries, done.Keys) && depth + EntriesHeight(entries) <= limits.maxDepth + 1
                  && nodes + EntriesSize(entries) <= limits.maxNodes)
            && (r.AcceptedEntries? ==>
                  r == AcceptedEntries(EntriesMeaning(entries, done), nodes + EntriesSize(entries)))
  {
    if entries.MoreEntries? && entries.key.Name? && entries.key.name !in done {
      WalkAccepts(entries.value, depth, nodes, limits);
      var first := Walk(entries.value, depth, nodes, limits);
      if first.Accepted? {
        var more := done[entries.key.name := first.value];
        assert more.Keys == done.Keys + {entries.key.name};
        WalkEntriesAccepts(entries.rest, depth, first.nodes, limits, more);
      }
    }
  }
}
