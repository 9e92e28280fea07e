/**
  What a complete `session.next` result says, member by member: every part keeps in the whole what
  it says alone, because no two parts share a name.
  */
module ResultContents {
  import opened Utf8
  import opened CanonicalJson
  import opened JsonMembers
  import opened DecisionRecordSize
  import opened ReadbackSize
  import opened EvidenceSurface
  import opened GraphCounters
  import opened StaticGuidance
  import opened StaticMembers
  import opened StaticPrint
  import opened Suggestions
  import opened RuntimeMembers
  import opened NextResponse
  import opened EvidenceContents
  import opened StaticContents
  import opened SuggestionContents
  import opened SessionContents

  // ----- Names -----

  const STATIC_NAMES: set<string> := COMMON_NAMES + GUIDE_NAMES + DISPOSITION_NAMES
  const COMMAND_NAMES: set<string> := {"allowed_actions", "suggestions"}
  const EVIDENCE_NAMES: set<string> := {"references", "readback"}
  const GOAL_NAMES: set<string> := {"goal_defined", "goal_revision", "goal", "latest_goal_outcome"}
  const SCHEMA_NAMES: set<string> := {"schema", "procedure_schema", "procedure_digest", "trace_length", "revision"}
  const PLACE_NAMES: set<string> := {"node", "attempt", "readiness"}
  const COUNT_NAMES: set<string> :=
    {"missing_required_items_truncated", "blockers_total", "blockers_truncated", "readback_items_total"}
  const TAIL_NAMES: set<string> := {"readback_items_truncated", "suggestions_total", "suggestions_truncated",
                                    "blockers"}
  const SESSION_NAMES: set<string> := GOAL_NAMES + SCHEMA_NAMES + PLACE_NAMES + COUNT_NAMES + TAIL_NAMES
  const MIDDLE_NAMES: set<string> := COMMAND_NAMES + EVIDENCE_NAMES + {"counters"} + {"delegation"}

  lemma SessionNamesApart()
    ensures GOAL_NAMES !! SCHEMA_NAMES && GOAL_NAMES + SCHEMA_NAMES !! PLACE_NAMES
    ensures GOAL_NAMES + SCHEMA_NAMES + PLACE_NAMES !! COUNT_NAMES
    ensures GOAL_NAMES + SCHEMA_NAMES + PLACE_NAMES + COUNT_NAMES !! TAIL_NAMES
  {
  }

  lemma MiddleNamesApart()
    ensures COMMAND_NAMES !! EVIDENCE_NAMES && COMMAND_NAMES + EVIDENCE_NAMES !! {"counters"}
    ensures COMMAND_NAMES + EVIDENCE_NAMES + {"counters"} !! {"delegation"}
  {
  }

  lemma StaticApart()
    ensures STATIC_NAMES !! MIDDLE_NAMES
  {
  }

  lemma StaticSessionApart()
    ensures STATIC_NAMES !! SESSION_NAMES
  {
    CommonApart();
    GuideApart();
    DispositionApart();
  }

  lemma CommonApart()
    ensures COMMON_NAMES !! SESSION_NAMES
  {
  }

  lemma GuideApart()
    ensures GUIDE_NAMES !! SESSION_NAMES
  {
    GuidePlaceApart();
    GuideCountApart();
  }

  lemma GuidePlaceApart()
    ensures GUIDE_NAMES !! GOAL_NAMES + SCHEMA_NAMES + PLACE_NAMES
  {
  }

  lemma GuideCountApart()
    ensures GUIDE_NAMES !! COUNT_NAMES + TAIL_NAMES
  {
  }

  lemma DispositionApart()
    ensures DISPOSITION_NAMES !! SESSION_NAMES
  {
  }

  lemma MiddleSessionApart()
    ensures MIDDLE_NAMES !! SESSION_NAMES
  {
    MiddlePlaceApart();
    MiddleCountApart();
  }

  lemma MiddlePlaceApart()
    ensures MIDDLE_NAMES !! GOAL_NAMES + SCHEMA_NAMES + PLACE_NAMES
  {
  }

  lemma MiddleCountApart()
    ensures MIDDLE_NAMES !! COUNT_NAMES + TAIL_NAMES
  {
  }

  // ----- The session's own members -----

  lemma GoalMemberKeys(goal: Option<GoalView>, latest: Option<GoalOutcome>)
    ensures GoalMembers(goal, latest).Keys <= GOAL_NAMES
  {
    hide DisplayedGoal;
  }

  lemma SessionKeys(r: Runtime)
    ensures SchemaMembers(r.place).Keys == SCHEMA_NAMES && PlaceMembers(r.place).Keys == PLACE_NAMES
    ensures CountMembers(r.windows).Keys == COUNT_NAMES && TailMembers(r.windows).Keys == TAIL_NAMES
  {
    hide NodeFields, AttemptIdentity, ReadinessFields, BlockerValues;
  }

  lemma SessionParts(r: Runtime)
    ensures var m := SessionMembers(r);
            && Extends(m, SchemaMembers(r.place)) && Extends(m, PlaceMembers(r.place))
            && Extends(m, CountMembers(r.windows)) && Extends(m, TailMembers(r.windows))
            && Agrees(Object(GoalMembers(r.goal, r.latest)), Object(m), GOAL_NAMES)
            && m.Keys <= SESSION_NAMES
  {
    hide GoalMembers, SchemaMembers, PlaceMembers, CountMembers, TailMembers, Extends, Agrees;
    var a, b, c := GoalMembers(r.goal, r.latest), SchemaMembers(r.place), PlaceMembers(r.place);
    var d, e := CountMembers(r.windows), TailMembers(r.windows);
    GoalMemberKeys(r.goal, r.latest);
    SessionKeys(r);
    SessionNamesApart();
    PartsOfSix(a, b, c, d, e, map[]);
    assert SessionMembers(r) == a + b + c + d + e + map[];
    var rest := b + c + d + e;
    assert SessionMembers(r) == a + rest;
    MergeAgrees(a, rest, GOAL_NAMES, SCHEMA_NAMES + PLACE_NAMES + COUNT_NAMES + TAIL_NAMES);
  }

  lemma GoalLifts(v: Value, w: Value, goal: Option<GoalView>, latest: Option<GoalOutcome>)
    requires SaysGoalMembers(v, goal, latest) && Agrees(v, w, GOAL_NAMES)
    ensures SaysGoalMembers(w, goal, latest)
  {
    hide Agrees, At, Holds, Lacks, SaysGoal, GoalWord;
    SameAt(v, w, GOAL_NAMES, "goal_defined");
    SameAt(v, w, GOAL_NAMES, "goal_revision");
    SameAt(v, w, GOAL_NAMES, "goal");
    SameAt(v, w, GOAL_NAMES, "latest_goal_outcome");
  }

  ghost predicate SaysSession(v: Value, r: Runtime) {
    SaysGoalMembers(v, r.goal, r.latest) && SaysPlace(v, r.place) && SaysWindows(v, r.windows)
  }

  // ----- The whole -----

  lemma MiddleKeys(s: Static, session: Session)
    requires RecordsValid(session.readbacks)
    ensures CommandMembers(s, session.view).Keys == COMMAND_NAMES
            && EvidenceMembers(session.readbacks).Keys == EVIDENCE_NAMES
    ensures DelegationMembers(s, session.delegation).Keys <= {"delegation"}
  {
    hide HintValues, AllHints, Cut, MetadataValues, ReadbackValues, DelegationFields, ValidRecord;
  }

  function Middle(s: Static, session: Session): (m: map<string, Value>)
    requires RecordsValid(session.readbacks)
  {
    CommandMembers(s, session.view) + EvidenceMembers(session.readbacks)
    + map["counters" := Array(CounterValues(session.counters))] + DelegationMembers(s, session.delegation)
  }

  lemma MiddleParts(s: Static, session: Session)
    requires RecordsValid(session.readbacks)
    ensures var m := Middle(s, session);
            && Extends(m, CommandMembers(s, session.view)) && Extends(m, EvidenceMembers(session.readbacks))
            && Extends(m, map["counters" := Array(CounterValues(session.counters))])
            && Extends(m, DelegationMembers(s, session.delegation))
            && m.Keys <= MIDDLE_NAMES && ("delegation" in m <==> s.delegated)
  {
    hide CommandMembers, EvidenceMembers, CounterValues, Extends, ValidRecord, DelegationFields;
    var a, b := CommandMembers(s, session.view), EvidenceMembers(session.readbacks);
    var c, d := map["counters" := Array(CounterValues(session.counters))], DelegationMembers(s, session.delegation);
    MiddleKeys(s, session);
    MiddleNamesApart();
    PartsOfSix(a, b, c, d, map[], map[]);
    assert Middle(s, session) == a + b + c + d + map[] + map[];
  }

  /** The result in three parts that share no name. */
  lemma ResultParts(s: Static, session: Session)
    requires RecordsValid(session.readbacks)
    ensures var m := NextResult(s, session);
            && Agrees(Object(ContentFields(s, session.view)), Object(m), STATIC_NAMES)
            && Agrees(Object(Middle(s, session)), Object(m), MIDDLE_NAMES)
            && Agrees(Object(SessionMembers(session.runtime)), Object(m), SESSION_NAMES)
            && Extends(m, Middle(s, session)) && Extends(m, SessionMembers(session.runtime))
            && m.Keys <= STATIC_NAMES + MIDDLE_NAMES + SESSION_NAMES
  {
    hide ContentFields, Middle, SessionMembers, Extends, Agrees, ValidRecord, NextResult;
    var a, b, c := ContentFields(s, session.view), Middle(s, session), SessionMembers(session.runtime);
    SameResult(s, session);
    ContentSays(s, session.view);
    MiddleParts(s, session);
    SessionParts(session.runtime);
    StaticApart();
    StaticSessionApart();
    MiddleSessionApart();
    ThreeParts(a, b, c, STATIC_NAMES, MIDDLE_NAMES, SESSION_NAMES);
  }

  lemma SameResult(s: Static, session: Session)
    requires RecordsValid(session.readbacks)
    ensures NextResult(s, session) == ContentFields(s, session.view) + Middle(s, session)
            + SessionMembers(session.runtime)
  {
    hide ContentFields, CommandMembers, EvidenceMembers, DelegationMembers, SessionMembers, CounterValues, ValidRecord;
  }

  // ----- What it says -----

  lemma ContentLifts(v: Value, w: Value, s: Static, view: View)
    requires SaysContent(v, s, view) && Agrees(v, w, STATIC_NAMES)
    ensures SaysContent(w, s, view)
  {
    hide Agrees, SaysCommon, SaysGuide, SaysDisposition;
    FewerNames(v, w, STATIC_NAMES, COMMON_NAMES);
    FewerNames(v, w, STATIC_NAMES, GUIDE_NAMES);
    FewerNames(v, w, STATIC_NAMES, DISPOSITION_NAMES);
    CommonLifts(v, w, s, view);
    StaticContents.GuideLifts(v, w, s.guide, view);
    DispositionLifts(v, w, s.guide);
  }

  lemma FewerNames(v: Value, w: Value, names: set<string>, fewer: set<string>)
    requires Agrees(v, w, names) && fewer <= names
    ensures Agrees(v, w, fewer)
  {
  }

  ghost predicate SaysMiddle(v: Value, s: Static, session: Session)
    requires RecordsValid(session.readbacks)
  {
    && SaysTexts(At(v, "allowed_actions"), session.view.actions)
    && SaysSuggestions(At(v, "suggestions"), s, session.view)
    && SaysReferences(At(v, "references"), session.readbacks) && SaysReadbacks(At(v, "readback"), session.readbacks)
    && SaysCounters(At(v, "counters"), session.counters)
    && (if s.delegated then SaysDelegation(At(v, "delegation"), session.delegation) else Lacks(v, "delegation"))
  }

  ghost predicate AllItemsValid(rs: seq<Readback>) {
    forall i :: 0 <= i < |rs| ==> AllValid(rs[i].items)
  }

  lemma CommandsOf(m: map<string, Value>, s: Static, view: View)
    requires Extends(m, CommandMembers(s, view))
    ensures SaysTexts(At(Object(m), "allowed_actions"), view.actions)
    ensures SaysSuggestions(At(Object(m), "suggestions"), s, view)
  {
    hide Extends, HintValues, AllHints, Cut, SaysSuggestions;
    StillHolds(m, CommandMembers(s, view), "allowed_actions");
    StillHolds(m, CommandMembers(s, view), "suggestions");
    SuggestionsSay(s, view);
  }

  lemma EvidenceOf(m: map<string, Value>, rs: seq<Readback>)
    requires RecordsValid(rs) && AllItemsValid(rs) && Extends(m, EvidenceMembers(rs))
    ensures SaysReferences(At(Object(m), "references"), rs) && SaysReadbacks(At(Object(m), "readback"), rs)
  {
    hide Extends, MetadataValues, ReadbackValues, SaysReferences, SaysReadbacks, ValidRecord, AllValid;
    StillHolds(m, EvidenceMembers(rs), "references");
    StillHolds(m, EvidenceMembers(rs), "readback");
    ReferencesSay(rs);
    ReadbacksSay(rs);
  }

  lemma CountersOf(m: map<string, Value>, counters: seq<Counter>)
    requires Extends(m, map["counters" := Array(CounterValues(counters))])
    ensures SaysCounters(At(Object(m), "counters"), counters)
  {
    hide Extends, CounterValues, SaysCounters;
    StillHolds(m, map["counters" := Array(CounterValues(counters))], "counters");
    CountersSay(counters);
  }

  lemma DelegationOf(m: map<string, Value>, s: Static, d: Delegation)
    requires Extends(m, DelegationMembers(s, d)) && ("delegation" in m <==> s.delegated)
    ensures if s.delegated then SaysDelegation(At(Object(m), "delegation"), d) else Lacks(Object(m), "delegation")
  {
    hide Extends, DelegationFields, SaysDelegation;
    if s.delegated {
      StillHolds(m, DelegationMembers(s, d), "delegation");
      DelegationSays(d);
    }
  }

  lemma MiddleOf(m: map<string, Value>, s: Static, session: Session)
    requires RecordsValid(session.readbacks) && AllItemsValid(session.readbacks)
    requires Extends(m, Middle(s, session)) && ("delegation" in m <==> "delegation" in Middle(s, session))
    ensures SaysMiddle(Object(m), s, session)
  {
    hide Extends, Middle, CommandMembers, EvidenceMembers, DelegationMembers, CounterValues, SaysTexts,
         SaysSuggestions, SaysReferences, SaysReadbacks, SaysCounters, SaysDelegation, ValidRecord, AllItemsValid, At,
         Lacks;
    var middle := Middle(s, session);
    MiddleParts(s, session);
    ExtendsFurther(m, middle, CommandMembers(s, session.view));
    ExtendsFurther(m, middle, EvidenceMembers(session.readbacks));
    ExtendsFurther(m, middle, map["counters" := Array(CounterValues(session.counters))]);
    ExtendsFurther(m, middle, DelegationMembers(s, session.delegation));
    CommandsOf(m, s, session.view);
    EvidenceOf(m, session.readbacks);
    CountersOf(m, session.counters);
    DelegationOf(m, s, session.delegation);
  }

  lemma SessionOf(m: map<string, Value>, r: Runtime)
    requires Extends(m, SessionMembers(r)) && Agrees(Object(SessionMembers(r)), Object(m), SESSION_NAMES)
    ensures SaysSession(Object(m), r)
  {
    hide Extends, Agrees, SessionMembers, GoalMembers, SchemaMembers, PlaceMembers, CountMembers, TailMembers,
         SaysGoalMembers, SaysPlace, SaysWindows;
    var part := SessionMembers(r);
    SessionParts(r);
    ExtendsFurther(m, part, SchemaMembers(r.place));
    ExtendsFurther(m, part, PlaceMembers(r.place));
    ExtendsFurther(m, part, CountMembers(r.windows));
    ExtendsFurther(m, part, TailMembers(r.windows));
    PlaceOf(m, r.place);
    WindowsOf(m, r.windows);
    GoalMembersSay(r.goal, r.latest);
    GoalIsSession();
    AgreesFurther(Object(GoalMembers(r.goal, r.latest)), Object(part), Object(m), GOAL_NAMES, SESSION_NAMES);
    GoalLifts(Object(GoalMembers(r.goal, r.latest)), Object(m), r.goal, r.latest);
  }

  lemma GoalIsSession()
    ensures GOAL_NAMES <= SESSION_NAMES
  {
  }

  ghost predicate SaysResult(v: Value, s: Static, session: Session)
    requires RecordsValid(session.readbacks)
  {
    SaysContent(v, s, session.view) && SaysMiddle(v, s, session) && SaysSession(v, session.runtime)
  }

  function AllNames(): (names: set<string>) {
    STATIC_NAMES + MIDDLE_NAMES + SESSION_NAMES
  }

  ghost predicate SaysAll(m: map<string, Value>, s: Static, session: Session) {
    RecordsValid(session.readbacks) && SaysResult(Object(m), s, session) && m.Keys <= AllNames()
  }

  /** Every member of a result is what the placement and the session give for it, and there are no others. */
  lemma ResultSays(s: Static, session: Session, m: map<string, Value>)
    requires Gives(s, session, m) && AllItemsValid(session.readbacks)
    ensures SaysAll(m, s, session)
  {
    hide NextResult, Extends, Agrees, ContentFields, Middle, SessionMembers, SaysContent, SaysMiddle, SaysSession,
         ValidRecord, AllItemsValid;
    ResultParts(s, session);
    ContentSays(s, session.view);
    ContentLifts(Object(ContentFields(s, session.view)), Object(m), s, session.view);
    SameAt(Object(Middle(s, session)), Object(m), MIDDLE_NAMES, "delegation");
    MiddleOf(m, s, session);
    SessionOf(m, session.runtime);
  }

  // ----- Two counts -----

  lemma CommandsExtend(s: Static, session: Session, m: map<string, Value>)
    requires Gives(s, session, m)
    ensures Extends(m, CommandMembers(s, session.view))
  {
    hide NextResult, Extends, Agrees, Middle, ContentFields, SessionMembers, ValidRecord, CommandMembers;
    ResultParts(s, session);
    MiddleParts(s, session);
    ExtendsFurther(m, Middle(s, session), CommandMembers(s, session.view));
  }

  lemma SuggestionsMember(s: Static, session: Session, m: map<string, Value>)
    requires Gives(s, session, m)
    ensures At(Object(m), "suggestions") == Array(HintValues(Cut(AllHints(s, session.view))))
  {
    hide Gives, Extends, HintValues, AllHints, Cut;
    CommandsExtend(s, session, m);
    StillHolds(m, CommandMembers(s, session.view), "suggestions");
  }

  lemma ContentAgrees(s: Static, session: Session, m: map<string, Value>)
    requires Gives(s, session, m)
    ensures Agrees(Object(ContentFields(s, session.view)), Object(m), STATIC_NAMES)
  {
    hide NextResult, Extends, Agrees, Middle, ContentFields, SessionMembers, ValidRecord;
    ResultParts(s, session);
  }

  lemma MissingCountMember(s: Static, session: Session, m: map<string, Value>)
    requires Gives(s, session, m)
    ensures At(Object(m), "missing_required_item_count") == Int(|MissingValues(s.items, session.view)|)
  {
    hide Gives, Agrees, ContentFields, MissingValues, At;
    ContentAgrees(s, session, m);
    MissingCountPart(s, session.view);
    StaticHasCount();
    SameAt(Object(ContentFields(s, session.view)), Object(m), STATIC_NAMES, "missing_required_item_count");
  }

  lemma StaticHasCount()
    ensures "missing_required_item_count" in STATIC_NAMES
  {
  }

  lemma MissingCountPart(s: Static, view: View)
    ensures At(Object(ContentFields(s, view)), "missing_required_item_count") == Int(|MissingValues(s.items, view)|)
  {
    hide MissingValues, Kept, Window, GuideFields, DispositionFields;
    GuideNames(s.guide, view);
    DispositionNames(s.guide);
    CountIsCommon();
  }

  lemma CountIsCommon()
    ensures "missing_required_item_count" !in GUIDE_NAMES && "missing_required_item_count" !in DISPOSITION_NAMES
  {
  }
}
