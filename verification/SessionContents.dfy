/**
  What the members of a response that come from the running session say: its goal, its place in the
  graph, its blockers, its counters and the delegation projection.
  */
module SessionContents {
  import opened Utf8
  import opened CanonicalJson
  import opened JsonMembers
  import opened Procedure
  import opened DelegationPackage
  import opened TariffInstances
  import opened DecisionRecordSize
  import opened GraphCounters
  import opened RuntimeMembers
  import opened EvidenceContents

  // ----- The goal -----

  predicate StatusWord(s: Option<CriterionStatus>, word: string) {
    if s.Some? then CriterionWord(s.value, word) else word == "unassessed"
  }

  ghost predicate SaysCriterionState(v: Value, c: Criterion, s: Option<CriterionStatus>) {
    && Names(v, {"criterion_id", "statement", "status"})
    && Holds(v, "criterion_id", String(c.id)) && Holds(v, "statement", String(c.statement))
    && At(v, "status").String? && StatusWord(s, At(v, "status").text)
  }

  ghost predicate SaysOutcome(v: Value, name: string, outcome: Option<GoalOutcome>) {
    if outcome.None? then Lacks(v, name) else At(v, name).String? && GoalWord(outcome.value, At(v, name).text)
  }

  ghost predicate SaysGoal(v: Value, g: GoalView) {
    var criteria := At(v, "criteria");
    && Holds(v, "revision", Int(g.goal.revision)) && Holds(v, "statement", String(g.goal.statement))
    && criteria.Array? && |criteria.items| == |g.goal.criteria|
    && (forall i :: 0 <= i < |g.goal.criteria| ==>
          SaysCriterionState(criteria.items[i], g.goal.criteria[i], g.status(g.goal.criteria[i].id)))
    && (if g.applicability.None? then Lacks(v, "assessment_mode")
        else Holds(v, "assessment_mode", String(if g.applicability.value then "applicability" else "assessment")))
    && SaysOutcome(v, "determined_outcome", g.determined)
  }

  lemma CriterionStateSays(c: Criterion, g: GoalView)
    ensures SaysCriterionState(DisplayedCriterion(c, g), c, g.status(c.id))
  {
    hide IsIdentifier;
  }

  lemma GoalSays(g: GoalView)
    ensures SaysGoal(Object(DisplayedGoal(g)), g)
  {
    hide SaysCriterionState, DisplayedCriterion, IsIdentifier;
    var criteria := g.goal.criteria;
    forall i | 0 <= i < |criteria|
      ensures SaysCriterionState(DisplayedCriteria(criteria, g)[i], criteria[i], g.status(criteria[i].id))
    {
      CriterionStateSays(criteria[i], g);
    }
  }

  /** A goal is shown, with its revision, exactly if one is defined. */
  ghost predicate SaysGoalMembers(v: Value, goal: Option<GoalView>, latest: Option<GoalOutcome>) {
    && Holds(v, "goal_defined", Bool(goal.Some?))
    && if goal.None? then Lacks(v, "goal_revision") && Lacks(v, "goal") && Lacks(v, "latest_goal_outcome")
       else
         && Holds(v, "goal_revision", Int(goal.value.goal.revision)) && SaysGoal(At(v, "goal"), goal.value)
         && SaysOutcome(v, "latest_goal_outcome", latest)
  }

  lemma GoalMembersSay(goal: Option<GoalView>, latest: Option<GoalOutcome>)
    ensures SaysGoalMembers(Object(GoalMembers(goal, latest)), goal, latest)
  {
    hide DisplayedGoal, SaysGoal;
    if goal.Some? { GoalSays(goal.value); }
  }

  // ----- The place -----

  ghost predicate SaysNode(v: Value, p: Place) {
    && Names(v, {"node_definition_id", "graph_node_id", "node_type"})
    && Holds(v, "node_definition_id", String(p.definition)) && Holds(v, "graph_node_id", String(p.node))
    && Holds(v, "node_type", String(if p.decision then "decision" else "action"))
  }

  ghost predicate SaysAttempt(v: Value, p: Place) {
    && Names(v, {"attempt_id", "attempt_number"})
    && Holds(v, "attempt_id", String(p.attempt)) && Holds(v, "attempt_number", Int(p.number))
  }

  ghost predicate SaysReadiness(v: Value, p: Place) {
    && Names(v, {"items_satisfied", "unblocked", "goal_ready", "can_advance"})
    && Holds(v, "items_satisfied", Bool(p.itemsSatisfied)) && Holds(v, "unblocked", Bool(p.unblocked))
    && Holds(v, "goal_ready", Bool(p.goalReady)) && Holds(v, "can_advance", Bool(p.canAdvance))
  }

  ghost predicate SaysPlace(v: Value, p: Place) {
    && Holds(v, "schema", String("podway.next-result/v5"))
       && Holds(v, "procedure_schema", String("podway.procedure/v2"))
    && Holds(v, "procedure_digest", String(p.digest)) && Holds(v, "trace_length", Int(p.trace))
    && Holds(v, "revision", Int(p.revision))
    && SaysNode(At(v, "node"), p) && SaysAttempt(At(v, "attempt"), p) && SaysReadiness(At(v, "readiness"), p)
  }

  lemma NodeSays(p: Place)
    ensures SaysNode(Object(NodeFields(p)), p)
  {
    hide IsIdentifier, IsUuid;
  }

  lemma AttemptSays(p: Place)
    ensures SaysAttempt(Object(AttemptIdentity(p)), p)
  {
    hide IsIdentifier, IsUuid;
  }

  lemma ReadinessSays(p: Place)
    ensures SaysReadiness(Object(ReadinessFields(p)), p)
  {
    hide IsIdentifier, IsUuid;
  }

  lemma PlaceOf(m: map<string, Value>, p: Place)
    requires Extends(m, SchemaMembers(p)) && Extends(m, PlaceMembers(p))
    ensures SaysPlace(Object(m), p)
  {
    hide IsDigest, Extends, Holds, At, NodeFields, AttemptIdentity, ReadinessFields, SaysNode, SaysAttempt,
         SaysReadiness;
    var schema, place := SchemaMembers(p), PlaceMembers(p);
    StillHolds(m, schema, "schema");
    StillHolds(m, schema, "procedure_schema");
    StillHolds(m, schema, "procedure_digest");
    StillHolds(m, schema, "trace_length");
    StillHolds(m, schema, "revision");
    StillHolds(m, place, "node");
    StillHolds(m, place, "attempt");
    StillHolds(m, place, "readiness");
    NodeSays(p);
    AttemptSays(p);
    ReadinessSays(p);
  }

  // ----- Blockers and totals -----

  ghost predicate SaysBlocker(v: Value, b: Blocker) {
    && Names(v, {"blocker_id", "reason", "created_at"})
    && Holds(v, "blocker_id", String(b.id)) && Holds(v, "reason", String(b.reason))
    && Holds(v, "created_at", String(b.createdAt))
  }

  ghost predicate SaysBlockers(v: Value, blockers: seq<Blocker>) {
    v.Array? && |v.items| == |blockers| && forall i :: 0 <= i < |blockers| ==> SaysBlocker(v.items[i], blockers[i])
  }

  lemma BlockersSay(blockers: seq<Blocker>)
    ensures SaysBlockers(Array(BlockerValues(blockers)), blockers)
  {
    hide IsUuid;
  }

  ghost predicate SaysWindows(v: Value, w: Windows) {
    && Holds(v, "missing_required_items_truncated", Bool(w.missingCut))
    && Holds(v, "blockers_total", Int(w.blockersTotal)) && Holds(v, "blockers_truncated", Bool(w.blockersCut))
    && SaysBlockers(At(v, "blockers"), w.blockers)
    && Holds(v, "readback_items_total", Int(w.itemsTotal)) && Holds(v, "readback_items_truncated", Bool(false))
    && Holds(v, "suggestions_total", Int(w.suggestionsTotal)) && Holds(v, "suggestions_truncated", Bool(false))
  }

  lemma WindowsOf(m: map<string, Value>, w: Windows)
    requires Extends(m, CountMembers(w)) && Extends(m, TailMembers(w))
    ensures SaysWindows(Object(m), w)
  {
    hide Extends, Holds, At, BlockerValues, SaysBlockers;
    var counts, tail := CountMembers(w), TailMembers(w);
    StillHolds(m, counts, "missing_required_items_truncated");
    StillHolds(m, counts, "blockers_total");
    StillHolds(m, counts, "blockers_truncated");
    StillHolds(m, counts, "readback_items_total");
    StillHolds(m, tail, "readback_items_truncated");
    StillHolds(m, tail, "suggestions_total");
    StillHolds(m, tail, "suggestions_truncated");
    StillHolds(m, tail, "blockers");
    BlockersSay(w.blockers);
  }

  // ----- Counters -----

  ghost predicate SaysCounter(v: Value, c: Counter) {
    && Names(v, {"graph_node_id", "attempt_count", "rework_traversal_count"})
    && Holds(v, "graph_node_id", String(c.node)) && Holds(v, "attempt_count", Int(c.attempts))
    && Holds(v, "rework_traversal_count", Int(c.reworks))
  }

  ghost predicate SaysCounters(v: Value, counters: seq<Counter>) {
    v.Array? && |v.items| == |counters| && forall i :: 0 <= i < |counters| ==> SaysCounter(v.items[i], counters[i])
  }

  lemma CountersSay(counters: seq<Counter>)
    ensures SaysCounters(Array(CounterValues(counters)), counters)
  {
    hide IsIdentifier;
  }

  // ----- Delegation -----

  ghost predicate SaysReceipt(v: Value, receipt: Option<Receipt>) {
    match receipt
    case None => v == Null
    case Some(r) =>
      && Names(v, {"receipt_id", "attempt_id", "package_digest", "result_digest", "accepted_at"})
      && Holds(v, "receipt_id", String(r.id)) && Holds(v, "attempt_id", String(r.attempt))
      && Holds(v, "package_digest", String(r.package)) && Holds(v, "result_digest", String(r.result))
      && Holds(v, "accepted_at", String(r.acceptedAt))
  }

  ghost predicate SaysWords(v: Value, state: string, reason: string, action: string) {
    Holds(v, "state", String(state)) && Holds(v, "reason", String(reason))
        && Holds(v, "safe_next_action", String(action))
  }

  const ACCEPTED_TEXT := "Changing an accepted item makes the receipt stale; complete while its item state is current."
  const STALE_TEXT := "The acceptance is stale. Retry or rework for a fresh attempt; do not redispatch automatically."
  const AWAITING_TEXT := "Finish all items and corrections before acceptance; later item edits require a fresh attempt."

  ghost predicate SaysDelegation(v: Value, d: Delegation) {
    match d
    case Direct =>
      SaysWords(v, "not_applicable", "direct_placement", "continue_direct") && Lacks(v, "guidance")
          && Lacks(v, "receipt")
    case Accepted(receipt) =>
      && SaysWords(v, "accepted", "current_receipt", "complete") && SaysReceipt(At(v, "receipt"), receipt)
      && Holds(v, "guidance", String(ACCEPTED_TEXT))
    case Stale(packageChanged, receipt) =>
      && SaysWords(v, "stale_acceptance", if packageChanged then "package_changed" else "items_changed",
                   "retry_or_rework")
      && SaysReceipt(At(v, "receipt"), receipt) && Holds(v, "guidance", String(STALE_TEXT))
    case Awaiting(itemsSatisfied, blocked) =>
      && Lacks(v, "receipt") && Holds(v, "guidance", String(AWAITING_TEXT))
      && (if !itemsSatisfied then SaysWords(v, "awaiting_acceptance", "items_incomplete", "record_items")
          else if blocked then SaysWords(v, "awaiting_acceptance", "blockers_open", "clear_blockers")
          else SaysWords(v, "awaiting_acceptance", "receipt_required", "accept"))
  }

  lemma ReceiptSays(receipt: Option<Receipt>)
    ensures SaysReceipt(ReceiptValue(receipt), receipt)
  {
    hide IsUuid, IsDigest;
  }

  lemma DelegationSays(d: Delegation)
    ensures SaysDelegation(Object(DelegationFields(d)), d)
  {
    hide ReceiptValue, SaysReceipt;
    if d.Accepted? || d.Stale? { ReceiptSays(d.receipt); }
  }
}
