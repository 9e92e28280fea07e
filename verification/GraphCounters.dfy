/**
  The graph-wide counter array: the admission bound, computed from identifier lengths alone, and
  the array the daemon prints.
  */
module GraphCounters {
  import opened CanonicalJson
  import opened CanonicalLength
  import opened Procedure
  import opened Saturation
  import DelegationAdmission

  const MAX_GRAPH_COUNTER_FIXED_BYTES: nat := 103

  datatype Counter = Counter(node: Identifier, attempts: U64, reworks: U64)

  function CounterValue(c: Counter): (v: Value) {
    Object(map["graph_node_id" := String(c.node), "attempt_count" := Int(c.attempts),
               "rework_traversal_count" := Int(c.reworks)])
  }

  function CounterValues(counters: seq<Counter>): (r: seq<Value>)
    ensures |r| == |counters|
    ensures forall i :: 0 <= i < |counters| ==> r[i] == CounterValue(counters[i])
  {
    seq(|counters|, i requires 0 <= i < |counters| => CounterValue(counters[i]))
  }

  function NodeLengths(counters: seq<Counter>): (r: seq<nat>)
    ensures |r| == |counters|
    ensures forall i :: 0 <= i < |counters| ==> r[i] == |counters[i].node|
  {
    seq(|counters|, i requires 0 <= i < |counters| => |counters[i].node|)
  }

  /** One counter and one separator for each identifier. */
  ghost function ElementBytes(lengths: seq<nat>): (n: nat) {
    if lengths == [] then 0 else MAX_GRAPH_COUNTER_FIXED_BYTES + lengths[0] + 1 + ElementBytes(lengths[1..])
  }

  /** The bound before saturation: brackets, elements, and a separator between elements only. */
  ghost function ExactArrayBytes(lengths: seq<nat>): (n: nat) {
    2 + ElementBytes(lengths) - (if lengths == [] then 0 else 1)
  }

  lemma {:induction false} ElementBytesAppend(lengths: seq<nat>, last: nat)
    ensures ElementBytes(lengths + [last]) == ElementBytes(lengths) + MAX_GRAPH_COUNTER_FIXED_BYTES + last + 1
  {
    if lengths != [] {
      ElementBytesAppend(lengths[1..], last);
      assert (lengths + [last])[1..] == lengths[1..] + [last];
    }
  }

  /** The saturating accumulation is the exact bound, capped. */
  method MaximumGraphCounterArrayBytes(lengths: seq<nat>) returns (bytes: nat)
    ensures bytes == Capped(ExactArrayBytes(lengths))
  {
    hide ExactArrayBytes, Capped, Add;
    bytes := 2;
    var count := 0;
    assert lengths[..0] == [];
    EmptyBound();
    for i := 0 to |lengths|
      invariant count == Capped(i)
      invariant bytes == Capped(ExactArrayBytes(lengths[..i]))
    {
      StepBound(lengths[..i], lengths[i]);
      assert lengths[..i + 1] == lengths[..i] + [lengths[i]];
      if count != 0 {
        bytes := Add(bytes, 1);
      }
      bytes := Add(Add(bytes, MAX_GRAPH_COUNTER_FIXED_BYTES), lengths[i]);
      count := Add(count, 1);
    }
    assert lengths[..|lengths|] == lengths;
  }

  lemma EmptyBound()
    ensures Capped(ExactArrayBytes([])) == 2 && Capped(0) == 0
  {
  }

  lemma StepBound(lengths: seq<nat>, last: nat)
    ensures var before := Capped(ExactArrayBytes(lengths));
            && Add(Add(if Capped(|lengths|) != 0 then Add(before, 1) else before, MAX_GRAPH_COUNTER_FIXED_BYTES), last)
               == Capped(ExactArrayBytes(lengths + [last]))
            && Add(Capped(|lengths|), 1) == Capped(|lengths| + 1)
  {
    hide Capped, Add, ElementBytes;
    ElementBytesAppend(lengths, last);
    var e := ExactArrayBytes(lengths);
    AddIsExact(|lengths|, 1);
    assert Capped(|lengths|) != 0 <==> |lengths| != 0 by { NonzeroCap(|lengths|); }
    if |lengths| == 0 { NoElements(lengths); }
    var e1 := if |lengths| != 0 then e + 1 else e;
    AddIsExact(e, 1);
    AddIsExact(e1, MAX_GRAPH_COUNTER_FIXED_BYTES);
    AddIsExact(e1 + MAX_GRAPH_COUNTER_FIXED_BYTES, last);
  }

  lemma NonzeroCap(n: nat)
    ensures Capped(n) != 0 <==> n != 0
  {
  }

  lemma NoElements(lengths: seq<nat>)
    requires lengths == []
    ensures ElementBytes(lengths) == 0
  {
  }

  // ----- The printed array -----

  lemma CounterNames()
    ensures |Quoted("graph_node_id")| == 15 && |Quoted("attempt_count")| == 15
            && |Quoted("rework_traversal_count")| == 24
  {
    hide Quoted;
    PlainLength("graph_node_id");
    PlainLength("attempt_count");
    PlainLength("rework_traversal_count");
  }

  lemma CounterLength(c: Counter)
    ensures Len(CounterValue(c)) == 63 + |c.node| + Len(Int(c.attempts)) + Len(Int(c.reworks))
  {
    hide Len, Quoted;
    CounterNames();
    IdentifierLength(c.node);
    DelegationAdmission.EmptyObject();
    var m0: map<string, Value> := map[];
    var m1 := m0["graph_node_id" := String(c.node)];
    var m2 := m1["attempt_count" := Int(c.attempts)];
    AddFieldLength(m0, "graph_node_id", String(c.node));
    AddFieldLength(m1, "attempt_count", Int(c.attempts));
    AddFieldLength(m2, "rework_traversal_count", Int(c.reworks));
    assert CounterValue(c) == Object(m2["rework_traversal_count" := Int(c.reworks)]);
  }

  /** Both counts are written with all twenty digits a `u64` can have. */
  ghost predicate Widest(c: Counter) {
    Len(Int(c.attempts)) == 20 && Len(Int(c.reworks)) == 20
  }

  lemma {:induction false} ElementsFit(counters: seq<Counter>)
    ensures ItemsLength(CounterValues(counters)) <= ElementBytes(NodeLengths(counters))
    ensures ItemsLength(CounterValues(counters)) == ElementBytes(NodeLengths(counters))
            <==> forall i :: 0 <= i < |counters| ==> Widest(counters[i])
  {
    hide Len, CounterValue;
    if counters != [] {
      var c, rest := counters[0], counters[1..];
      CounterLength(c);
      NumberLength(c.attempts);
      NumberLength(c.reworks);
      ElementsFit(rest);
      assert CounterValues(counters)[1..] == CounterValues(rest);
      assert NodeLengths(counters)[1..] == NodeLengths(rest);
      assert (forall i :: 0 <= i < |counters| ==> Widest(counters[i]))
          <==> Widest(c) && forall i :: 0 <= i < |rest| ==> Widest(rest[i]) by { SplitForall(counters); }
    }
  }

  lemma SplitForall(counters: seq<Counter>)
    requires counters != []
    ensures (forall i :: 0 <= i < |counters| ==> Widest(counters[i]))
            <==> Widest(counters[0]) && forall i :: 0 <= i < |counters[1..]| ==> Widest(counters[1..][i])
  {
    hide Widest;
    if Widest(counters[0]) && forall i :: 0 <= i < |counters[1..]| ==> Widest(counters[1..][i]) {
      forall i | 0 <= i < |counters| ensures Widest(counters[i]) {
        if i > 0 { assert counters[i] == counters[1..][i - 1]; }
      }
    }
  }

  /** The bound covers every array of counters, and is attained exactly when every count is at its widest. */
  lemma CounterArrayFits(counters: seq<Counter>)
    ensures Len(Array(CounterValues(counters))) <= ExactArrayBytes(NodeLengths(counters))
    ensures Len(Array(CounterValues(counters))) == ExactArrayBytes(NodeLengths(counters))
            <==> forall i :: 0 <= i < |counters| ==> Widest(counters[i])
  {
    hide Len, Widest;
    ElementsFit(counters);
    ArrayLength(CounterValues(counters));
  }
}
