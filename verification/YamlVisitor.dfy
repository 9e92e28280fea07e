/**
  The bounded YAML visitor beside the JSON reader's walk: two walkers over the same decoded tree,
  whose verdicts have to agree. What YAML refuses before the visit is in YamlAdmission.dfy.
  */
module YamlVisitor {
  import opened CanonicalJson
  import opened DocumentWalk
  import opened Saturation

  const NULL_REFUSED := InvalidDocument("explicit null is not allowed by Procedure document")

  datatype Visit = Counted(nodes: nat) | Stopped(error: ConfigError)

  // ----- What the visitor computes -----

  function VisitDoc(d: Doc, depth: nat, nodes: nat, limits: Limits): (r: Visit) {
    if depth > limits.maxDepth then
      Stopped(InputTooDeep(limits.maxDepth, depth))
    else if Add(nodes, 1) > limits.maxNodes then
      Stopped(InputTooComplex(limits.maxNodes, Add(nodes, 1)))
    else
      match d
      case Scalar(v) => if v.Null? then Stopped(NULL_REFUSED) else Counted(Add(nodes, 1))
      case Refused(error) => Stopped(error)
      case Sequence(items) => VisitItems(items, Add(depth, 1), Add(nodes, 1), limits)
      case Mapping(entries) => VisitEntries(entries, Add(depth, 1), Add(nodes, 1), limits, {})
  }

  function VisitItems(items: Docs, depth: nat, nodes: nat, limits: Limits): (r: Visit) {
    match items
    case NoDocs => Counted(nodes)
    case MoreDocs(head, tail) =>
      match VisitDoc(head, depth, nodes, limits)
      case Stopped(error) => Stopped(error)
      case Counted(n) => VisitItems(tail, depth, n, limits)
  }

  function VisitEntries(entries: Entries, depth: nat, nodes: nat, limits: Limits, keys: set<string>): (r: Visit) {
    match entries
    case NoEntries => Counted(nodes)
    case MoreEntries(key, value, rest) =>
      if key.BadKey? then
        Stopped(key.error)
      else if key.name in keys then
        Stopped(DuplicateKey(key.name))
      else
        match VisitDoc(value, depth, nodes, limits)
        case Stopped(error) => Stopped(error)
        case Counted(n) => VisitEntries(rest, depth, n, limits, keys + {key.name})
  }

  // ----- The visitor: a shared counter, moved by recursive visits -----

  class BoundedYamlVisitor {
    const limits: Limits
    var nodes: nat

    constructor (limits: Limits)
      ensures this.limits == limits && nodes == 0
    {
      this.limits := limits;
      nodes := 0;
    }

    /** The visit's outcome and the new counter are what the specification says. */
    ghost predicate Agrees(spec: Visit, r: Visit)
      reads this
    {
      r == spec && (r.Counted? ==> nodes == r.nodes)
    }

    method CountNode(depth: nat) returns (r: Visit)
      modifies this
      ensures r == if depth > limits.maxDepth then Stopped(InputTooDeep(limits.maxDepth, depth))
                   else if Add(old(nodes), 1) > limits.maxNodes then
                     Stopped(InputTooComplex(limits.maxNodes, Add(old(nodes), 1)))
                   else Counted(Add(old(nodes), 1))
      ensures nodes == if r.Counted? then r.nodes else old(nodes)
    {
      if depth > limits.maxDepth {
        return Stopped(InputTooDeep(limits.maxDepth, depth));
      }
      var actual := Add(nodes, 1);
      if actual > limits.maxNodes {
        return Stopped(InputTooComplex(limits.maxNodes, actual));
      }
      nodes := actual;
      r := Counted(nodes);
    }

    method Visit(d: Doc, depth: nat) returns (r: Visit)
      modifies this
      ensures Agrees(VisitDoc(d, depth, old(nodes), limits), r)
      decreases d, 1
    {
      r := CountNode(depth);
      if r.Stopped? {
        return;
      }
      match d
      case Scalar(v) => if v.Null? { r := Stopped(NULL_REFUSED); }
      case Refused(error) => r := Stopped(error);
      case Sequence(items) => r := VisitSequence(items, Add(depth, 1));
      case Mapping(entries) => r := VisitMapping(entries, Add(depth, 1));
    }

    method VisitSequence(items: Docs, depth: nat) returns (r: Visit)
      modifies this
      ensures Agrees(VisitItems(items, depth, old(nodes), limits), r)
      decreases items, 0
    {
      var left := items;
      while left.MoreDocs?
        invariant left == items || left < items
        invariant VisitItems(left, depth, nodes, limits) == VisitItems(items, depth, old(nodes), limits)
        decreases left
      {
        r := Visit(left.head, depth);
        if r.Stopped? {
          return;
        }
        left := left.tail;
      }
      r := Counted(nodes);
    }

    method VisitMapping(entries: Entries, depth: nat) returns (r: Visit)
      modifies this
      ensures Agrees(VisitEntries(entries, depth, old(nodes), limits, {}), r)
      decreases entries, 0
    {
      var left, keys := entries, {};
      while left.MoreEntries?
        invariant left == entries || left < entries
        invariant VisitEntries(left, depth, nodes, limits, keys) == VisitEntries(entries, depth, old(nodes), limits, {})
        decreases left
      {
        if left.key.BadKey? {
          return Stopped(left.key.error);
        }
        if left.key.name in keys {
          return Stopped(DuplicateKey(left.key.name));
        }
        keys := keys + {left.key.name};
        r := Visit(left.value, depth);
        if r.Stopped? {
          return;
        }
        left := left.rest;
      }
      r := Counted(nodes);
    }
  }

  // ----- The two walks agree -----

  /** No null anywhere in the document. */
  predicate NoNull(d: Doc) {
    match d
    case Scalar(v) => !v.Null?
    case Refused(_) => true
    case Sequence(items) => NoNullItems(items)
    case Mapping(entries) => NoNullEntries(entries)
  }

  predicate NoNullItems(items: Docs) {
    items.MoreDocs? ==> NoNull(items.head) && NoNullItems(items.tail)
  }

  predicate NoNullEntries(entries: Entries) {
    entries.MoreEntries? ==> NoNull(entries.value) && NoNullEntries(entries.rest)
  }

  function Counting(v: Verdict): (r: Visit) {
    match v
    case Accepted(_, nodes) => Counted(nodes)
    case Rejected(error) => Stopped(error)
  }

  predicate BelowMachineMaximum(limits: Limits) {
    limits.maxDepth < U64_MAX && limits.maxNodes < U64_MAX
  }

  /**
    On one document without nulls the JSON walk and the YAML visit give one verdict: the same
    count, or the same refusal at the same node with the same depth, count or key.
    */
  lemma {:induction false} WalksAgree(d: Doc, depth: nat, nodes: nat, limits: Limits)
    requires BelowMachineMaximum(limits) && nodes <= limits.maxNodes && NoNull(d)
    ensures VisitDoc(d, depth, nodes, limits) == Counting(Walk(d, depth, nodes, limits))
  {
    if depth <= limits.maxDepth && nodes + 1 <= limits.maxNodes {
      match d
      case Scalar(_) =>
      case Refused(_) =>
      case Sequence(items) => WalkItemsAgree(items, depth + 1, nodes + 1, limits, []);
      case Mapping(entries) =>
        var none: map<string, Value> := map[];
        assert none.Keys == {};
        WalkEntriesAgree(entries, depth + 1, nodes + 1, limits, none);
    }
  }

  lemma {:induction false} WalkItemsAgree(items: Docs, depth: nat, nodes: nat, limits: Limits, done: seq<Value>)
    requires BelowMachineMaximum(limits) && nodes <= limits.maxNodes && NoNullItems(items)
    ensures VisitItems(items, depth, nodes, limits)
            == match WalkItems(items, depth, nodes, limits, done)
               case AcceptedItems(_, n) => Counted(n)
               case RejectedItems(error) => Stopped(error)
  {
    if items.MoreDocs? {
      WalksAgree(items.head, depth, nodes, limits);
      WalkAccepts(items.head, depth, nodes, limits);
      var first := Walk(items.head, depth, nodes, limits);
      if first.Accepted? {
        WalkItemsAgree(items.tail, depth, first.nodes, limits, done + [first.value]);
      }
    }
  }

  lemma {:induction false} WalkEntriesAgree(entries: Entries, depth: nat, nodes: nat, limits: Limits,
                                            done: map<string, Value>)
    requires BelowMachineMaximum(limits) && nodes <= limits.maxNodes && NoNullEntries(entries)
    ensures VisitEntries(entries, depth, nodes, limits, done.Keys)
            == match WalkEntries(entries, depth, nodes, limits, done)
               case AcceptedEntries(_, n) => Counted(n)
               case RejectedEntries(error) => Stopped(error)
  {
    if entries.MoreEntries? && entries.key.Name? && entries.key.name !in done {
      WalksAgree(entries.value, depth, nodes, limits);
      WalkAccepts(entries.value, depth, nodes, limits);
      var first := Walk(entries.value, depth, nodes, limits);
      if first.Accepted? {
        var more := done[entries.key.name := first.value];
        assert more.Keys == done.Keys + {entries.key.name};
        WalkEntriesAgree(entries.rest, depth, first.nodes, limits, more);
      }
    }
  }

  // ----- Admission agrees on every document, nulls included -----

  /** `reject_nulls`, which the JSON side runs over the finished value. */
  predicate RejectNullsPasses(v: Value) {
    match v
    case Null => false
    case Array(items) => forall i :: 0 <= i < |items| ==> RejectNullsPasses(items[i])
    case Object(members) => forall k :: k in members ==> RejectNullsPasses(members[k])
    case _ => true
  }

  lemma {:induction false} NullsSurvive(d: Doc)
    requires WellFormed(d)
    ensures RejectNullsPasses(Meaning(d)) <==> NoNull(d)
  {
    match d
    case Scalar(_) =>
    case Sequence(items) => ItemNullsSurvive(items, []);
    case Mapping(entries) =>
      var none: map<string, Value> := map[];
      assert none.Keys == {};
      EntryNullsSurvive(entries, none);
  }

  lemma {:induction false} ItemNullsSurvive(items: Docs, done: seq<Value>)
    requires WellFormedItems(items)
    ensures RejectNullsPasses(Array(ItemsMeaning(items, done)))
            <==> RejectNullsPasses(Array(done)) && NoNullItems(items)
  {
    if items.MoreDocs? {
      NullsSurvive(items.head);
      var v := Meaning(items.head);
      ItemNullsSurvive(items.tail, done + [v]);
      assert (done + [v])[|done|] == v;
      assert forall i :: 0 <= i < |done| ==> (done + [v])[i] == done[i];
      assert RejectNullsPasses(Array(done + [v])) <==> RejectNullsPasses(Array(done)) && RejectNullsPasses(v);
    }
  }

  lemma {:induction false} EntryNullsSurvive(entries: Entries, done: map<string, Value>)
    requires WellFormedEntries(entries, done.Keys)
    ensures RejectNullsPasses(Object(EntriesMeaning(entries, done)))
            <==> RejectNullsPasses(Object(done)) && NoNullEntries(entries)
  {
    if entries.MoreEntries? {
      NullsSurvive(entries.value);
      var key, v := entries.key.name, Meaning(entries.value);
      var more := done[key := v];
      assert more.Keys == done.Keys + {key};
      EntryNullsSurvive(entries.rest, more);
      assert forall k :: k in done ==> more[k] == done[k];
      assert more[key] == v;
      assert RejectNullsPasses(Object(more)) <==> RejectNullsPasses(Object(done)) && RejectNullsPasses(v);
    }
  }

  lemma {:induction false} VisitStopsAtNull(d: Doc, depth: nat, nodes: nat, limits: Limits)
    requires !NoNull(d)
    ensures VisitDoc(d, depth, nodes, limits).Stopped?
  {
    match d
    case Scalar(_) =>
    case Sequence(items) => ItemsVisitStops(items, Add(depth, 1), Add(nodes, 1), limits);
    case Mapping(entries) => EntriesVisitStops(entries, Add(depth, 1), Add(nodes, 1), limits, {});
  }

  lemma {:induction false} ItemsVisitStops(items: Docs, depth: nat, nodes: nat, limits: Limits)
    requires !NoNullItems(items)
    ensures VisitItems(items, depth, nodes, limits).Stopped?
  {
    var first := VisitDoc(items.head, depth, nodes, limits);
    if !NoNull(items.head) {
      VisitStopsAtNull(items.head, depth, nodes, limits);
    } else if first.Counted? {
      ItemsVisitStops(items.tail, depth, first.nodes, limits);
    }
  }

  lemma {:induction false} EntriesVisitStops(entries: Entries, depth: nat, nodes: nat, limits: Limits,
                                             keys: set<string>)
    requires !NoNullEntries(entries)
    ensures VisitEntries(entries, depth, nodes, limits, keys).Stopped?
  {
    var first := VisitDoc(entries.value, depth, nodes, limits);
    if !NoNull(entries.value) {
      VisitStopsAtNull(entries.value, depth, nodes, limits);
    } else if first.Counted? && entries.key.Name? {
      EntriesVisitStops(entries.rest, depth, first.nodes, limits, keys + {entries.key.name});
    }
  }

  /**
    The two walkers admit the same trees, nulls or not: the JSON walk followed by `reject_nulls`
    accepts exactly what the YAML visit counts through.
    */
  lemma WalkersAdmitAlike(d: Doc, limits: Limits)
    requires BelowMachineMaximum(limits)
    ensures (Walk(d, 1, 0, limits).Accepted? && RejectNullsPasses(Walk(d, 1, 0, limits).value))
            <==> VisitDoc(d, 1, 0, limits).Counted?
  {
    WalkAccepts(d, 1, 0, limits);
    if NoNull(d) {
      WalksAgree(d, 1, 0, limits);
    } else {
      VisitStopsAtNull(d, 1, 0, limits);
    }
    if WellFormed(d) {
      NullsSurvive(d);
    }
  }
}
