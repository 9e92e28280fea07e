/**
  Suggestions and criterion results as `session.next` prints them, against what the budget charges
  for them.
  */
module TariffInstances {
  import opened Utf8
  import opened CanonicalJson
  import opened CanonicalLength
  import opened Procedure
  import opened NextBudget
  import opened Saturation
  import opened TariffCoverage
  import opened DelegationAdmission

  // ----- Suggestions -----

  function Texts(texts: seq<string>): (r: seq<Value>)
    ensures |r| == |texts|
    ensures forall i :: 0 <= i < |texts| ==> r[i] == String(texts[i])
  {
    seq(|texts|, i requires 0 <= i < |texts| => String(texts[i]))
  }

  /** One suggested command line as the response prints it; the executable's name always comes first. */
  function SuggestionValue(command: string, argv: seq<string>, itemId: Option<string>): (v: Value) {
    var m := map["command" := String(command), "argv" := Array(Texts(["podway"] + argv))];
    Object(if itemId.Some? then m["item_id" := String(itemId.value)] else m)
  }

  ghost function ArgumentsPrice(argv: seq<string>): (n: nat) {
    if argv == [] then 0 else ARRAY_ELEMENT_OVERHEAD + STRING_BYTE_FACTOR * |argv[0]| + ArgumentsPrice(argv[1..])
  }

  lemma {:induction false} TextsPrice(texts: seq<string>)
    ensures ItemsPrice(Texts(texts)) == ArgumentsPrice(texts)
  {
    if texts != [] {
      TextsPrice(texts[1..]);
      assert Texts(texts)[1..] == Texts(texts[1..]);
    }
  }

  lemma SuggestionNames()
    ensures |Quoted("command")| == 9 && |Quoted("argv")| == 6 && |Quoted("item_id")| == 9
  {
    hide Quoted;
    PlainLength("command");
    PlainLength("argv");
    PlainLength("item_id");
  }

  /** The exact price of a suggestion, of which the charge is the saturated form. */
  lemma SuggestionPrice(command: string, argv: seq<string>, itemId: Option<string>)
    ensures var v := SuggestionValue(command, argv, itemId);
            && Printable(v)
            && Price(v) == 2 * FIELD_OVERHEAD + 6 * |command| + 44 + ArgumentsPrice(argv)
                           + (if itemId.Some? then FIELD_OVERHEAD + 6 * |itemId.value| else 0)
  {
    hide Price, Quoted;
    SuggestionNames();
    var arguments := Array(Texts(["podway"] + argv));
    assert Price(arguments) == 44 + ArgumentsPrice(argv) by { PodwayPrice(argv); }
    var none: map<string, Value> := map[];
    NoFieldsPrice();
    PriceSetting(none, "command", String(command));
    PriceSetting(none["command" := String(command)], "argv", arguments);
    var m := map["command" := String(command), "argv" := arguments];
    assert m == none["command" := String(command)]["argv" := arguments];
    assert Printable(arguments);
    assert Printable(Object(m));
    StringPrice(command);
    if itemId.Some? {
      PriceSetting(m, "item_id", String(itemId.value));
      StringPrice(itemId.value);
    }
  }

  lemma StringPrice(s: string)
    ensures Price(String(s)) == 6 * |s|
  {
  }

  lemma PodwayPrice(argv: seq<string>)
    ensures Price(Array(Texts(["podway"] + argv))) == 44 + ArgumentsPrice(argv)
  {
    TextsPrice(["podway"] + argv);
    assert (["podway"] + argv)[1..] == argv;
  }

  /**
    The charge of a suggestion is the saturated price of the suggestion itself and of its place in
    the array.
    */
  method Suggestion(command: string, argv: seq<string>, itemId: Option<string>) returns (charge: nat)
    ensures charge == Capped(ARRAY_ELEMENT_OVERHEAD + Price(SuggestionValue(command, argv, itemId)))
  {
    hide Price, SuggestionValue, Add, Capped, StringField, ArrayString;
    assert ARRAY_ELEMENT_OVERHEAD == Capped(8) && FIELD_OVERHEAD == Capped(64) by { SmallCaps(); }
    charge := ARRAY_ELEMENT_OVERHEAD;
    charge := Add(charge, StringField(|command|));
    FieldCharge(8, |command|);
    charge := Add(charge, FIELD_OVERHEAD);
    AddIsExact(72 + 6 * |command|, 64);
    charge := Add(charge, ArrayString(|"podway"|));
    ElementCharge(136 + 6 * |command|, 6);
    ghost var fixed := 180 + 6 * |command|;
    assert argv[..0] == [];
    for i := 0 to |argv|
      invariant charge == Capped(fixed + ArgumentsPrice(argv[..i]))
    {
      charge := Add(charge, ArrayString(|argv[i]|));
      ElementCharge(fixed + ArgumentsPrice(argv[..i]), |argv[i]|);
      assert argv[..i + 1] == argv[..i] + [argv[i]];
      ArgumentsPriceAppend(argv[..i], argv[i]);
    }
    assert argv[..|argv|] == argv;
    if itemId.Some? {
      charge := Add(charge, StringField(|itemId.value|));
      FieldCharge(fixed + ArgumentsPrice(argv), |itemId.value|);
    }
    SuggestionPrice(command, argv, itemId);
  }

  lemma SmallCaps()
    ensures Capped(8) == 8 && Capped(64) == 64
  {
  }

  lemma FieldCharge(exact: nat, characters: nat)
    ensures Add(Capped(exact), StringField(characters)) == Capped(exact + 64 + 6 * characters)
  {
  }

  lemma ElementCharge(exact: nat, characters: nat)
    ensures Add(Capped(exact), ArrayString(characters)) == Capped(exact + 8 + 6 * characters)
  {
  }

  lemma {:induction false} ArgumentsPriceAppend(argv: seq<string>, last: string)
    ensures ArgumentsPrice(argv + [last]) == ArgumentsPrice(argv) + 8 + 6 * |last|
  {
    if argv != [] {
      ArgumentsPriceAppend(argv[1..], last);
      assert (argv + [last])[1..] == argv[1..] + [last];
    }
  }

  /** However long the arguments, the printed suggestion and its separator stay within the unsaturated charge. */
  lemma SuggestionCovered(command: string, argv: seq<string>, itemId: Option<string>)
    ensures var v := SuggestionValue(command, argv, itemId); Len(v) + 1 <= ARRAY_ELEMENT_OVERHEAD + Price(v)
  {
    hide Price, SuggestionValue, Len;
    SuggestionPrice(command, argv, itemId);
    TariffCovers(SuggestionValue(command, argv, itemId));
  }

  // ----- Criterion results -----

  datatype CriterionStatus = Satisfied | Unsatisfied | NotApplicable

  function StatusName(s: CriterionStatus): (r: string) {
    match s
    case Satisfied => "satisfied"
    case Unsatisfied => "unsatisfied"
    case NotApplicable => "not_applicable"
  }

  datatype Citation = Evidence(node: Identifier) | Item(item: Identifier)

  function CitationValue(c: Citation): (v: Value) {
    match c
    case Evidence(node) => Object(map["reference_graph_node_id" := String(node)])
    case Item(item) => Object(map["local_item_id" := String(item)])
  }

  type Reason = s: string | TextWithin(s, 2_000) witness "r"

  datatype CriterionResult = CriterionResult(
    criterionId: Identifier, status: CriterionStatus, reason: Reason, citations: seq<Citation>)

  /** At most four citations, and none where the criterion does not apply. */
  ghost predicate ValidResult(r: CriterionResult) {
    && |r.citations| <= MAX_CITATIONS_PER_CRITERION
    && (r.status == NotApplicable ==> r.citations == [])
  }

  function CitationValues(citations: seq<Citation>): (r: seq<Value>)
    ensures |r| == |citations|
    ensures forall i :: 0 <= i < |citations| ==> r[i] == CitationValue(citations[i])
  {
    seq(|citations|, i requires 0 <= i < |citations| => CitationValue(citations[i]))
  }

  function ResultValue(r: CriterionResult): (v: Value) {
    Object(map["criterion_id" := String(r.criterionId), "status" := String(StatusName(r.status)),
               "reason" := String(r.reason), "citations" := Array(CitationValues(r.citations))])
  }

  lemma CitationPrice(c: Citation)
    ensures Printable(CitationValue(c)) && Price(CitationValue(c)) <= 448
  {
    hide Price, Quoted;
    match c
    case Evidence(node) =>
      PlainLength("reference_graph_node_id");
      StringPrice(node);
      FirstField("reference_graph_node_id", String(node), 384);
    case Item(item) =>
      PlainLength("local_item_id");
      StringPrice(item);
      FirstField("local_item_id", String(item), 384);
  }

  lemma CitationsPrice(citations: seq<Citation>)
    ensures Printable(Array(CitationValues(citations))) && Price(Array(CitationValues(citations))) <= 456 * |citations|
  {
    var values := CitationValues(citations);
    forall i | 0 <= i < |values| ensures Printable(values[i]) && Price(values[i]) <= 448 {
      CitationPrice(citations[i]);
    }
    hide Price;
    ItemsPriceBound(values, 448);
    ArrayPrice(values);
  }

  lemma ArrayPrice(items: seq<Value>)
    ensures Price(Array(items)) == ItemsPrice(items)
  {
  }

  lemma ResultNames()
    ensures |Quoted("criterion_id")| == 14 && |Quoted("status")| == 8 && |Quoted("reason")| == 8
            && |Quoted("citations")| == 11
  {
    hide Quoted;
    PlainLength("criterion_id");
    PlainLength("status");
    PlainLength("reason");
    PlainLength("citations");
  }

  lemma ResultPrice(r: CriterionResult)
    ensures Printable(ResultValue(r))
    ensures Price(ResultValue(r)) <= 12_640 + 6 * |StatusName(r.status)| + 456 * |r.citations|
  {
    hide Price, Quoted, StatusName;
    ResultNames();
    StringPrice(r.criterionId);
    StringPrice(StatusName(r.status));
    StringPrice(r.reason);
    CitationsPrice(r.citations);
    var m1 := map["criterion_id" := String(r.criterionId)];
    FirstField("criterion_id", String(r.criterionId), 384);
    var s := 6 * |StatusName(r.status)|;
    PutField(m1, "status", String(StatusName(r.status)), 448, s);
    var m2 := m1["status" := String(StatusName(r.status))];
    PutField(m2, "reason", String(r.reason), 512 + s, 12_000);
    var m3 := m2["reason" := String(r.reason)];
    PutField(m3, "citations", Array(CitationValues(r.citations)), 12_576 + s, 456 * |r.citations|);
    assert ResultValue(r) == Object(m3["citations" := Array(CitationValues(r.citations))]);
  }

  /**
    Every valid criterion result costs at most its charge, `not_applicable` included: its name is
    longer than the charged `unsatisfied`, but it cites nothing.
    */
  lemma CriterionResultCovered(r: CriterionResult)
    requires ValidResult(r)
    ensures ARRAY_ELEMENT_OVERHEAD + Price(ResultValue(r)) <= CriterionResultCharge()
    ensures Len(ResultValue(r)) + 1 <= CriterionResultCharge()
  {
    hide Price, Len, ResultValue, CriterionResultCharge;
    PinnedCriterion();
    ResultPrice(r);
    TariffCovers(ResultValue(r));
  }

  lemma CitationLength(c: Citation)
    ensures Len(CitationValue(c)) <= 95
  {
    hide Len, Quoted, IsIdentifier;
    match c
    case Evidence(node) =>
      PlainLength("reference_graph_node_id");
      IdentifierLength(node);
      OneField("reference_graph_node_id", String(node), 25, 66);
    case Item(item) =>
      PlainLength("local_item_id");
      IdentifierLength(item);
      OneField("local_item_id", String(item), 15, 66);
  }

  lemma CitationsLength(citations: seq<Citation>)
    ensures Len(Array(CitationValues(citations))) <= 2 + 96 * |citations|
  {
    hide Len, CitationValue;
    var values := CitationValues(citations);
    forall i | 0 <= i < |values| ensures Len(values[i]) <= 95 {
      CitationLength(citations[i]);
    }
    ItemsLengthBound(values, 95);
    ArrayLength(values);
  }

  lemma StatusLength(s: CriterionStatus)
    ensures Len(String(StatusName(s))) <= 16
  {
    WordLength(StatusName(s));
  }

  /** In bytes every result with at most four citations prints within the charge, whatever its status. */
  lemma CriterionResultPrints(r: CriterionResult)
    requires |r.citations| <= MAX_CITATIONS_PER_CRITERION
    ensures Len(ResultValue(r)) + 1 <= CriterionResultCharge()
  {
    hide Len, Quoted, StatusName, CitationValues, CriterionResultCharge, IsIdentifier;
    PinnedCriterion();
    ResultNames();
    IdentifierLength(r.criterionId);
    StatusLength(r.status);
    TextLength(r.reason, 2_000);
    CitationsLength(r.citations);
    var citations := Array(CitationValues(r.citations));
    OneField("criterion_id", String(r.criterionId), 14, 66);
    var m1 := map["criterion_id" := String(r.criterionId)];
    AddField(m1, "status", String(StatusName(r.status)), 84, 8, 16);
    var m2 := m1["status" := String(StatusName(r.status))];
    AddField(m2, "reason", String(r.reason), 110, 8, 12_002);
    var m3 := m2["reason" := String(r.reason)];
    AddField(m3, "citations", citations, 12_122, 11, 386);
    assert ResultValue(r) == Object(m3["citations" := citations]);
  }

  // ----- The price of an inapplicable criterion with citations -----

  function LongestIdentifier(): (id: Identifier) {
    seq(64, _ => 'a')
  }

  function LongestReason(): (reason: Reason) {
    seq(2_000, _ => 'r')
  }

  /** The widest result there would be if `not_applicable` could cite evidence. */
  function CitingInapplicable(): (r: CriterionResult) {
    var citation := Item(LongestIdentifier());
    CriterionResult(LongestIdentifier(), NotApplicable, LongestReason(), [citation, citation, citation, citation])
  }

  lemma LongestCitationPrice()
    ensures Price(CitationValue(Item(LongestIdentifier()))) == 448
  {
    hide Price, LongestIdentifier;
    var none: map<string, Value> := map[];
    NoFieldsPrice();
    var id := String(LongestIdentifier());
    PriceSetting(none, "local_item_id", id);
    assert none["local_item_id" := id] == map["local_item_id" := id];
    StringPrice(LongestIdentifier());
    LongestIdentifierSize();
  }

  lemma LongestIdentifierSize()
    ensures |LongestIdentifier()| == 64 && |LongestReason()| == 2_000
  {
  }

  lemma FourCitationsPrice()
    ensures Price(Array(CitationValues(CitingInapplicable().citations))) == 4 * 456
  {
    hide CitationValue, Price, LongestIdentifier, LongestReason;
    LongestCitationPrice();
    var v := CitationValue(Item(LongestIdentifier()));
    var values := CitationValues(CitingInapplicable().citations);
    assert values == [v, v, v, v];
    ArrayPrice(values);
    assert ItemsPrice([]) == 0 && [v][1..] == [] && [v, v][1..] == [v] && [v, v, v][1..] == [v, v]
           && [v, v, v, v][1..] == [v, v, v];
  }

  /** With citations, `not_applicable` would be priced 18 higher than is charged; printed, it would fit. */
  lemma CitingInapplicableIsPricedHigher()
    ensures !ValidResult(CitingInapplicable())
    ensures ARRAY_ELEMENT_OVERHEAD + Price(ResultValue(CitingInapplicable())) == CriterionResultCharge() + 18
  {
    hide Price, CitationValues, LongestIdentifier, LongestReason, CriterionResultCharge;
    PinnedCriterion();
    FourCitationsPrice();
    LongestIdentifierSize();
    var r := CitingInapplicable();
    StringPrice(r.criterionId);
    StringPrice("not_applicable");
    StringPrice(r.reason);
    var m0: map<string, Value> := map[];
    NoFieldsPrice();
    var m1 := m0["criterion_id" := String(r.criterionId)];
    PriceSetting(m0, "criterion_id", String(r.criterionId));
    var m2 := m1["status" := String("not_applicable")];
    PriceSetting(m1, "status", String("not_applicable"));
    var m3 := m2["reason" := String(r.reason)];
    PriceSetting(m2, "reason", String(r.reason));
    var citations := Array(CitationValues(r.citations));
    PriceSetting(m3, "citations", citations);
    assert ResultValue(r) == Object(m3["citations" := citations]);
  }
}
