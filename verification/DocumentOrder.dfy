/**
  The bounded walk read flat: a document as the list of its nodes and bad keys in document order,
  and one pass over that list. The recursive walk stops at the same place with the same error, and
  an error about a limit always reports the first number past it.
  */
module DocumentOrder {
  import opened Utf8
  import opened CanonicalJson
  import opened DocumentWalk

  // ----- Document order -----

  /** A node at its depth, refused on its own or not, or a key that cannot be used. */
  datatype Event = Node(depth: nat, refusal: Option<ConfigError>) | BadKeyAt(error: ConfigError)

  function Events(d: Doc, depth: nat): (r: seq<Event>) {
    match d
    case Scalar(_) => [Node(depth, None)]
    case Refused(error) => [Node(depth, Some(error))]
    case Sequence(items) => [Node(depth, None)] + ItemEvents(items, depth + 1)
    case Mapping(entries) => [Node(depth, None)] + EntryEvents(entries, depth + 1, {})
  }

  function ItemEvents(items: Docs, depth: nat): (r: seq<Event>) {
    match items
    case NoDocs => []
    case MoreDocs(head, tail) => Events(head, depth) + ItemEvents(tail, depth)
  }

  function EntryEvents(entries: Entries, depth: nat, seen: set<string>): (r: seq<Event>) {
    match entries
    case NoEntries => []
    case MoreEntries(BadKey(error), value, rest) =>
      [BadKeyAt(error)] + (Events(value, depth) + EntryEvents(rest, depth, seen))
    case MoreEntries(Name(name), value, rest) =>
      (if name in seen then [BadKeyAt(DuplicateKey(name))] else [])
      + (Events(value, depth) + EntryEvents(rest, depth, seen + {name}))
  }

  datatype Pass = Through(nodes: nat) | StoppedBy(error: ConfigError)

  /** One pass with a counter; it stops at the first event that is refused. */
  function FirstRefusal(events: seq<Event>, nodes: nat, limits: Limits): (r: Pass) {
    if events == [] then Through(nodes)
    else
      match events[0]
      case BadKeyAt(error) => StoppedBy(error)
      case Node(depth, refusal) =>
        if depth > limits.maxDepth then StoppedBy(InputTooDeep(limits.maxDepth, depth))
        else if nodes + 1 > limits.maxNodes then StoppedBy(InputTooComplex(limits.maxNodes, nodes + 1))
        else if refusal.Some? then StoppedBy(refusal.value)
        else FirstRefusal(events[1..], nodes + 1, limits)
  }

  lemma {:induction false} PassAppends(a: seq<Event>, b: seq<Event>, nodes: nat, limits: Limits)
    ensures var r := FirstRefusal(a, nodes, limits);
            FirstRefusal(a + b, nodes, limits) == if r.StoppedBy? then r else FirstRefusal(b, r.nodes, limits)
    decreases |a|
  {
    if a == [] {
      assert a + b == b;
    } else {
      assert (a + b)[1..] == a[1..] + b;
      if a[0].Node? { PassAppends(a[1..], b, nodes + 1, limits); }
    }
  }

  function PassOf(v: Verdict): (r: Pass) {
    match v
    case Accepted(_, nodes) => Through(nodes)
    case Rejected(error) => StoppedBy(error)
  }

  /** The recursive walk is the flat pass in document order. */
  lemma {:induction false} WalkIsPass(d: Doc, depth: nat, nodes: nat, limits: Limits)
    ensures PassOf(Walk(d, depth, nodes, limits)) == FirstRefusal(Events(d, depth), nodes, limits)
    decreases d
  {
    if depth <= limits.maxDepth && nodes + 1 <= limits.maxNodes {
      match d
      case Sequence(items) =>
        WalkItemsIsPass(items, depth + 1, nodes + 1, limits, []);
        assert Events(d, depth)[1..] == ItemEvents(items, depth + 1);
      case Mapping(entries) =>
        WalkEntriesIsPass(entries, depth + 1, nodes + 1, limits, map[], {});
        assert Events(d, depth)[1..] == EntryEvents(entries, depth + 1, {});
      case _ =>
    }
  }

  lemma {:induction false} WalkItemsIsPass(items: Docs, depth: nat, nodes: nat, limits: Limits, done: seq<Value>)
    ensures FirstRefusal(ItemEvents(items, depth), nodes, limits)
            == match WalkItems(items, depth, nodes, limits, done)
               case AcceptedItems(_, n) => Through(n)
               case RejectedItems(error) => StoppedBy(error)
    decreases items
  {
    hide Walk, Events, FirstRefusal;
    match items
    case NoDocs => NothingRefused(nodes, limits);
    case MoreDocs(head, tail) =>
      WalkIsPass(head, depth, nodes, limits);
      PassAppends(Events(head, depth), ItemEvents(tail, depth), nodes, limits);
      var first := Walk(head, depth, nodes, limits);
      if first.Accepted? { WalkItemsIsPass(tail, depth, first.nodes, limits, done + [first.value]); }
  }

  lemma NothingRefused(nodes: nat, limits: Limits)
    ensures FirstRefusal([], nodes, limits) == Through(nodes)
  {
  }

  lemma {:induction false} WalkEntriesIsPass(
    entries: Entries, depth: nat, nodes: nat, limits: Limits, done: map<string, Value>, seen: set<string>)
    requires seen == done.Keys
    ensures FirstRefusal(EntryEvents(entries, depth, seen), nodes, limits)
            == match WalkEntries(entries, depth, nodes, limits, done)
               case AcceptedEntries(_, n) => Through(n)
               case RejectedEntries(error) => StoppedBy(error)
    decreases entries
  {
    hide Walk, Events;
    if entries.MoreEntries? && entries.key.Name? && entries.key.name !in seen {
      var name, value, rest := entries.key.name, entries.value, entries.rest;
      WalkIsPass(value, depth, nodes, limits);
      var later := EntryEvents(rest, depth, seen + {name});
      PassAppends(Events(value, depth), later, nodes, limits);
      assert [] + (Events(value, depth) + later) == Events(value, depth) + later;
      var first := Walk(value, depth, nodes, limits);
      if first.Accepted? {
        var more := done[name := first.value];
        assert more.Keys == seen + {name};
        WalkEntriesIsPass(rest, depth, first.nodes, limits, more, seen + {name});
      }
    }
  }

  // ----- What a limit error says -----

  predicate LimitError(e: ConfigError) {
    e.InputTooDeep? || e.InputTooComplex?
  }

  /** Nothing in the document carries an error about limits of its own. */
  predicate OwnRefusals(d: Doc) {
    match d
    case Scalar(_) => true
    case Refused(error) => !LimitError(error)
    case Sequence(items) => OwnItemRefusals(items)
    case Mapping(entries) => OwnEntryRefusals(entries)
  }

  predicate OwnItemRefusals(items: Docs) {
    items.MoreDocs? ==> OwnRefusals(items.head) && OwnItemRefusals(items.tail)
  }

  predicate OwnEntryRefusals(entries: Entries) {
    entries.MoreEntries? ==>
      (entries.key.BadKey? ==> !LimitError(entries.key.error)) && OwnRefusals(entries.value)
          && OwnEntryRefusals(entries.rest)
  }

  /**
    The error is about depth and the document really is one level too deep, or about size and really
    one node too large.
    */
  ghost predicate Truthful(e: ConfigError, levels: nat, nodes: nat, limits: Limits) {
    && (e.InputTooDeep? ==> e == InputTooDeep(limits.maxDepth, limits.maxDepth + 1) && levels > limits.maxDepth + 1)
    && (e.InputTooComplex? ==> e == InputTooComplex(limits.maxNodes, limits.maxNodes + 1) && nodes > limits.maxNodes)
  }

  /** A limit error names the limit and the first number past it, and the document does exceed that limit. */
  lemma {:induction false} LimitErrorsAreTruthful(d: Doc, depth: nat, nodes: nat, limits: Limits)
    requires OwnRefusals(d) && depth <= limits.maxDepth + 1 && nodes <= limits.maxNodes
    ensures var r := Walk(d, depth, nodes, limits);
            r.Rejected? ==> Truthful(r.error, depth + Height(d), nodes + Size(d), limits)
    decreases d
  {
    hide WalkItems, WalkEntries, ItemsHeight, EntriesHeight, ItemsSize, EntriesSize, OwnItemRefusals, OwnEntryRefusals;
    if depth <= limits.maxDepth && nodes + 1 <= limits.maxNodes {
      match d
      case Sequence(items) => ItemErrorsAreTruthful(items, depth + 1, nodes + 1, limits, []);
      case Mapping(entries) => EntryErrorsAreTruthful(entries, depth + 1, nodes + 1, limits, map[]);
      case _ =>
    }
  }

  lemma {:induction false} ItemErrorsAreTruthful(items: Docs, depth: nat, nodes: nat, limits: Limits, done: seq<Value>)
    requires OwnItemRefusals(items) && depth <= limits.maxDepth + 1 && nodes <= limits.maxNodes
    ensures var r := WalkItems(items, depth, nodes, limits, done);
            r.RejectedItems? ==> Truthful(r.error, depth + ItemsHeight(items), nodes + ItemsSize(items), limits)
    decreases items
  {
    hide Walk, Height, Size, OwnRefusals;
    if items.MoreDocs? {
      LimitErrorsAreTruthful(items.head, depth, nodes, limits);
      WalkAccepts(items.head, depth, nodes, limits);
      var first := Walk(items.head, depth, nodes, limits);
      if first.Accepted? { ItemErrorsAreTruthful(items.tail, depth, first.nodes, limits, done + [first.value]); }
    }
  }

  lemma {:induction false} EntryErrorsAreTruthful(entries: Entries, depth: nat, nodes: nat, limits: Limits,
                                                  done: map<string, Value>)
    requires OwnEntryRefusals(entries) && depth <= limits.maxDepth + 1 && nodes <= limits.maxNodes
    ensures var r := WalkEntries(entries, depth, nodes, limits, done);
            r.RejectedEntries? ==> Truthful(r.error, depth + EntriesHeight(entries), nodes + EntriesSize(entries),
                                            limits)
    decreases entries
  {
    hide Walk, Height, Size, OwnRefusals;
    if entries.MoreEntries? && entries.key.Name? && entries.key.name !in done {
      LimitErrorsAreTruthful(entries.value, depth, nodes, limits);
      WalkAccepts(entries.value, depth, nodes, limits);
      var first := Walk(entries.value, depth, nodes, limits);
      if first.Accepted? {
        EntryErrorsAreTruthful(entries.rest, depth, first.nodes, limits, done[entries.key.name := first.value]);
      }
    }
  }
}
