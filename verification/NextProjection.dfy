/**
  From the state of a session to its `session.next` result: evidence read back with its previews,
  windows cut, and one result that says exactly what the state holds and fits the frame.
  */
module NextProjection {
  import opened Utf8
  import opened CanonicalJson
  import opened CanonicalLength
  import opened JsonMembers
  import opened Procedure
  import opened Saturation
  import opened NextBudget
  import opened EvidenceBudget
  import opened DecisionRecordSize
  import opened ReadbackSize
  import opened EvidenceSurface
  import opened GraphCounters
  import opened StaticGuidance
  import opened StaticMembers
  import opened Suggestions
  import opened RuntimeMembers
  import opened NextResponse
  import opened EvidenceContents
  import opened StaticContents
  import opened SuggestionContents
  import opened SessionContents
  import opened ResultContents

  // ----- The state of a session -----

  function RecordedItems(recalls: seq<Recall>): (n: nat) {
    if recalls == [] then 0 else |recalls[0].candidates| + RecordedItems(recalls[1..])
  }

  lemma {:induction false} AllItemsAreRecorded(rs: seq<Readback>, recalls: seq<Recall>)
    requires |rs| == |recalls| && forall i :: 0 <= i < |rs| ==> ReadsBack(rs[i], recalls[i])
    ensures AllItems(rs) == RecordedItems(recalls)
  {
    if rs != [] {
      AllItemsAreRecorded(rs[1..], recalls[1..]);
    }
  }

  /** What a session holds before windows are cut and previews are handed out. */
  datatype State = State(
    view: View, recalls: seq<Recall>, blockers: seq<Blocker>, counters: seq<Counter>, delegation: Delegation,
    goal: Option<GoalView>, latest: Option<GoalOutcome>, place: Place)

  /** It runs this placement: one counter for each node, and records of the declared references. */
  ghost predicate Runs(p: Procedure, placement: Placement, state: State) {
    && ValidView(state.view)
    && AllRecorded(p, References(placement), state.recalls) && RecordedItems(state.recalls) <= U64_MAX
    && NodeLengths(state.counters) == PlacementLengths(p.placements)
    && |state.blockers| <= U64_MAX
  }

  /** The longest prefix of the open blockers that the window holds. */
  ghost predicate IsBlockerWindow(shown: seq<Blocker>, blockers: seq<Blocker>) {
    && shown <= blockers
    && Len(Array(BlockerValues(shown))) <= 49_152
    && (|shown| < |blockers| ==> Len(Array(BlockerValues(blockers[..|shown| + 1]))) > 49_152)
  }

  /** Totals count everything, and a window says that it was cut exactly when it was. */
  ghost predicate CountsOut(s: Static, state: State, w: Windows) {
    && w.missingCut == (|MissingValues(s.items, state.view)| > MAX_MISSING_ITEM_WINDOW)
    && IsBlockerWindow(w.blockers, state.blockers)
    && w.blockersTotal == |state.blockers| && w.blockersCut == (|w.blockers| < |state.blockers|)
    && w.itemsTotal == RecordedItems(state.recalls)
    && w.suggestionsTotal == |Cut(AllHints(s, state.view))|
  }

  /** The session is the state with its evidence read back and its windows cut; nothing else changes. */
  ghost predicate Carries(s: Static, state: State, session: Session) {
    && session.view == state.view && session.counters == state.counters && session.delegation == state.delegation
    && session.runtime.goal == state.goal && session.runtime.latest == state.latest
    && session.runtime.place == state.place
    && |session.readbacks| == |state.recalls|
    && (forall i :: 0 <= i < |state.recalls| ==> ReadsBack(session.readbacks[i], state.recalls[i]))
    && CountsOut(s, state, session.runtime.windows)
  }

  // ----- What its result has to say -----

  /** The totals count everything that was recorded, however much of it is shown. */
  ghost predicate SaysTotals(v: Value, state: State) {
    && Holds(v, "blockers_total", Int(|state.blockers|))
    && Holds(v, "readback_items_total", Int(RecordedItems(state.recalls)))
    && Holds(v, "readback_items_truncated", Bool(false))
    && At(v, "suggestions").Array? && Holds(v, "suggestions_total", Int(|At(v, "suggestions").items|))
    && Holds(v, "suggestions_truncated", Bool(false))
    && At(v, "missing_required_item_count").Int?
    && Holds(v, "missing_required_items_truncated", Bool(At(v, "missing_required_item_count").number > 64))
  }

  /** As many of the newest blockers as 49,152 bytes hold. */
  ghost predicate SaysBlockerWindow(v: Value, blockers: seq<Blocker>) {
    exists shown ::
      && IsBlockerWindow(shown, blockers) && SaysBlockers(At(v, "blockers"), shown)
      && Holds(v, "blockers_truncated", Bool(|shown| < |blockers|))
  }

  /** Readbacks of what was recorded, with previews of the first 32 items that ask for one. */
  ghost predicate ReadsAll(rs: seq<Readback>, placement: Placement, recalls: seq<Recall>) {
    && |rs| == |recalls| && (forall i :: 0 <= i < |rs| ==> ReadsBack(rs[i], recalls[i]))
    && SlotsInOrder(References(placement), recalls, rs) && RecordsValid(rs)
  }

  ghost predicate SaysEvidence(v: Value, placement: Placement, recalls: seq<Recall>) {
    exists rs ::
      ReadsAll(rs, placement, recalls)
      && SaysReferences(At(v, "references"), rs) && SaysReadbacks(At(v, "readback"), rs)
  }

  ghost predicate SaysCommands(v: Value, s: Static, state: State) {
    && SaysTexts(At(v, "allowed_actions"), state.view.actions) && SaysSuggestions(At(v, "suggestions"), s, state.view)
    && SaysCounters(At(v, "counters"), state.counters)
    && (if s.delegated then SaysDelegation(At(v, "delegation"), state.delegation) else Lacks(v, "delegation"))
  }

  /** Every member of the result, from the placement and the state alone. */
  ghost predicate SaysState(result: map<string, Value>, placement: Placement, s: Static, state: State) {
    var v := Object(result);
    && SaysContent(v, s, state.view) && SaysCommands(v, s, state)
    && SaysGoalMembers(v, state.goal, state.latest) && SaysPlace(v, state.place)
    && SaysTotals(v, state) && SaysBlockerWindow(v, state.blockers)
    && SaysEvidence(v, placement, state.recalls)
    && result.Keys <= AllNames()
  }

  method ReadEvidence(p: Procedure, placement: Placement, recalls: seq<Recall>) returns (rs: seq<Readback>)
    requires AllRecorded(p, References(placement), recalls)
    ensures |rs| == |recalls| && forall i :: 0 <= i < |rs| ==> ReadsBack(rs[i], recalls[i])
    ensures AllBelong(p, References(placement), rs) && AllPreviews(rs) <= MAX_EVIDENCE_PREVIEW_SLOTS
    ensures SlotsInOrder(References(placement), recalls, rs)
  {
    hide ReadsBack, InOrder, Resolve, RecordedAt;
    if placement.evidence.None? {
      rs := [];
    } else {
      rs := PrintEvidence(p, placement, recalls);
    }
  }

  method CutWindows(s: Static, state: State) returns (w: Windows)
    requires ValidView(state.view) && |state.blockers| <= U64_MAX && RecordedItems(state.recalls) <= U64_MAX
    ensures CountsOut(s, state, w)
  {
    hide Len, ValidView, BlockerValues, AllHints, MissingValues, RecordedItems;
    var blockers, truncated := BlockerWindow(state.blockers);
    var hints := Suggest(s, state.view);
    w := Windows(|MissingValues(s.items, state.view)| > MAX_MISSING_ITEM_WINDOW, blockers, |state.blockers|, truncated,
                 RecordedItems(state.recalls), |hints|);
  }

  lemma {:induction false} ItemsAreValid(p: Procedure, references: seq<Reference>, rs: seq<Readback>)
    requires AllBelong(p, references, rs)
    ensures AllItemsValid(rs)
  {
    hide Resolve, ValidRecord, AllValid;
    if rs != [] {
      ItemsAreValid(p, references[1..], rs[1..]);
      forall i | 0 <= i < |rs| ensures AllValid(rs[i].items) {
        if i > 0 { assert rs[i] == rs[1..][i - 1]; }
      }
    }
  }

  lemma WindowFits(s: Static, state: State, w: Windows)
    requires CountsOut(s, state, w)
    ensures Len(Array(BlockerValues(w.blockers))) <= BLOCKER_WINDOW_BYTES_MAX
    ensures w.itemsTotal == RecordedItems(state.recalls)
  {
    hide Len, BlockerValues, AllHints, MissingValues, RecordedItems;
  }

  // ----- The result says it -----

  lemma TotalsSay(s: Static, state: State, session: Session, m: map<string, Value>)
    requires Carries(s, state, session) && Gives(s, session, m) && SaysWindows(Object(m), session.runtime.windows)
    ensures SaysTotals(Object(m), state) && SaysBlockerWindow(Object(m), state.blockers)
  {
    hide Gives, ReadsBack, HintValues, AllHints, Cut, MissingValues, RecordedItems, IsBlockerWindow, SaysBlockers;
    SuggestionsMember(s, session, m);
    HintValueAt(Cut(AllHints(s, state.view)));
    MissingCountMember(s, session, m);
  }

  /** The parts of the result that the state decides at once. */
  lemma CommandsSay(s: Static, state: State, session: Session, m: map<string, Value>)
    requires Carries(s, state, session) && SaysAll(m, s, session)
    ensures var v := Object(m);
            && SaysContent(v, s, state.view) && SaysCommands(v, s, state)
               && SaysGoalMembers(v, state.goal, state.latest)
            && SaysPlace(v, state.place) && SaysWindows(v, session.runtime.windows) && m.Keys <= AllNames()
  {
    hide RecordsValid, CountsOut, SaysContent, SaysTexts, SaysSuggestions, SaysReferences, SaysReadbacks, SaysCounters,
         SaysDelegation, SaysGoalMembers, SaysPlace, SaysWindows, At, Lacks, ReadsBack, AllNames;
  }

  lemma EvidenceSays(placement: Placement, s: Static, state: State, session: Session, m: map<string, Value>)
    requires ReadsAll(session.readbacks, placement, state.recalls) && SaysAll(m, s, session)
    ensures SaysEvidence(Object(m), placement, state.recalls)
  {
    hide RecordsValid, ReadsAll, SaysContent, SaysSession, SaysTexts, SaysSuggestions, SaysReferences, SaysReadbacks,
         SaysCounters, SaysDelegation, At, Lacks, AllNames;
    AreValid(session.readbacks, placement, state.recalls);
    var v := Object(m);
    assert SaysReferences(At(v, "references"), session.readbacks)
           && SaysReadbacks(At(v, "readback"), session.readbacks);
  }

  lemma AreValid(rs: seq<Readback>, placement: Placement, recalls: seq<Recall>)
    requires ReadsAll(rs, placement, recalls)
    ensures RecordsValid(rs)
  {
  }

  lemma StateSays(placement: Placement, s: Static, state: State, session: Session, m: map<string, Value>)
    requires Carries(s, state, session) && Gives(s, session, m) && SaysAll(m, s, session)
    requires ReadsAll(session.readbacks, placement, state.recalls)
    ensures SaysState(m, placement, s, state)
  {
    hide Carries, Gives, SaysAll, ReadsAll, SaysContent, SaysCommands, SaysGoalMembers, SaysPlace, SaysWindows,
         SaysTotals, SaysBlockerWindow, SaysEvidence, AllNames;
    CommandsSay(s, state, session, m);
    TotalsSay(s, state, session, m);
    EvidenceSays(placement, s, state, session, m);
  }

  /**
    `project_running_next`: evidence with its previews, the blocker window and the suggestions, in
    one result. It fits the frame whenever its placement passed the observation test.
    */
  method ProjectNext(p: Procedure, placement: Placement, s: Static, state: State)
    returns (session: Session, result: map<string, Value>)
    requires Runs(p, placement, state) && |s.items| <= MAX_ITEMS_PER_DEFINITION
    ensures Projects(p, placement, session) && Gives(s, session, result)
    ensures Carries(s, state, session) && session.runtime.windows.itemsTotal == AllItems(session.readbacks)
    ensures SaysState(result, placement, s, state)
    ensures Observable(p, placement, s) ==> Len(Object(result)) <= 1_041_000
  {
    hide Len, NextResult, RecordsValid, ValidView, AllBelong, AllRecorded, ReadsBack, Observable, BlockerValues,
         AllItems, RecordedItems, CountsOut, SaysAll, SaysState, AllItemsValid, SlotsInOrder;
    var rs := ReadEvidence(p, placement, state.recalls);
    var windows := CutWindows(s, state);
    WindowFits(s, state, windows);
    AllItemsAreRecorded(rs, state.recalls);
    session := Session(state.view, rs, state.counters, state.delegation,
                       Runtime(state.goal, state.latest, state.place, windows));
    ObservedResultFits(p, placement, s, session);
    RecordsAreValid(p, References(placement), rs);
    ValidReadbacks(rs);
    ItemsAreValid(p, References(placement), rs);
    result := NextResult(s, session);
    ResultSays(s, session, result);
    StateSays(placement, s, state, session, result);
  }
}
