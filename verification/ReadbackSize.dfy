/**
  The items of a readback as the daemon prints them: which part of a recorded value a preview shows,
  how the response's preview slots are handed out, and how long an item becomes.
  */
module ReadbackSize {
  import opened Utf8
  import opened CanonicalJson
  import opened CanonicalLength
  import opened Procedure
  import opened Saturation
  import opened NextBudget
  import opened EvidenceBudget
  import opened BudgetTheorems
  import opened DelegationAdmission
  import TariffCoverage
  import TariffInstances

  // ----- A second tariff: whole values in a preview slot -----

  const NUMBER_BYTES: nat := 20

  /** The daemon's charge for a projected value: names are priced like text, with eight bytes a member or element. */
  ghost function Projected(v: Value): (n: nat)
    decreases v, 1
  {
    match v
    case String(s) => STRING_BYTE_FACTOR * |s|
    case Array(items) => ProjectedItems(items)
    case Object(_) => Total(ProjectedFields(v))
    case _ => NUMBER_BYTES
  }

  ghost function ProjectedItems(items: seq<Value>): (n: nat)
    decreases items, 0
  {
    if items == [] then 0 else ARRAY_ELEMENT_OVERHEAD + Projected(items[0]) + ProjectedItems(items[1..])
  }

  ghost function ProjectedFields(v: Value): (w: map<string, nat>)
    requires v.Object?
    ensures w.Keys == v.members.Keys
    decreases v, 0
  {
    map k | k in v.members :: ARRAY_ELEMENT_OVERHEAD + STRING_BYTE_FACTOR * |k| + Projected(v.members[k])
  }

  /** For every value with 64-bit integers, whatever its names, compact text is within the charge and two delimiters. */
  lemma {:induction false} ProjectedCovers(v: Value)
    requires IntegersOnly(v)
    ensures Len(v) <= Projected(v) + 2
    decreases v, 1
  {
    match v
    case Int(n) => IntegerLength(n);
    case String(s) => StringAtMostSix(s);
    case Array(items) =>
      ProjectedItemsCover(items);
      ArrayLength(items);
    case Object(members) =>
      forall k | k in members ensures FieldWeights(members)[k] <= ProjectedFields(v)[k] {
        ProjectedCovers(members[k]);
        StringAtMostSix(k);
      }
      TariffCoverage.TotalDominates(FieldWeights(members), ProjectedFields(v));
      ObjectLength(members);
    case _ =>
  }

  lemma {:induction false} ProjectedItemsCover(items: seq<Value>)
    requires forall i :: 0 <= i < |items| ==> IntegersOnly(items[i])
    ensures ItemsLength(items) <= ProjectedItems(items)
    decreases items, 0
  {
    hide Len, Projected;
    if items != [] {
      ProjectedCovers(items[0]);
      ProjectedItemsCover(items[1..]);
    }
  }

  // ----- Previews -----

  const MAX_PREVIEW_SCALARS: nat := 938

  datatype CheckOutcome = Pass | Fail | Inconclusive

  function OutcomeText(o: CheckOutcome): (s: string) {
    match o
    case Pass => "pass"
    case Fail => "fail"
    case Inconclusive => "inconclusive"
  }

  type WholeValue = v: Value | IntegersOnly(v) witness Null

  /**
    A recorded value: text and lists are cut, a check result has its own short form, the rest is
    shown whole or not at all.
    */
  datatype Recorded =
    | RecordedText(text: string)
    | RecordedList(entries: seq<string>)
    | RecordedCheck(operation: Identifier, outcome: CheckOutcome, operationDigest: Digest, inputDigest: Digest,
                    outputDigest: Digest)
    | RecordedWhole(value: WholeValue)

  function EntriesCost(entries: seq<string>): (n: nat) {
    if entries == [] then 0 else ARRAY_ELEMENT_OVERHEAD + STRING_BYTE_FACTOR * |entries[0]| + EntriesCost(entries[1..])
  }

  lemma {:induction false} EntriesCostAppend(entries: seq<string>, last: string)
    ensures EntriesCost(entries + [last]) == EntriesCost(entries) + ARRAY_ELEMENT_OVERHEAD + STRING_BYTE_FACTOR * |last|
  {
    if entries != [] {
      EntriesCostAppend(entries[1..], last);
      assert (entries + [last])[1..] == entries[1..] + [last];
    }
  }

  lemma {:induction false} EntriesCostGrows(entries: seq<string>, a: nat, b: nat)
    requires a <= b <= |entries|
    ensures EntriesCost(entries[..a]) <= EntriesCost(entries[..b])
    decreases b
  {
    if a < b {
      EntriesCostGrows(entries, a, b - 1);
      assert entries[..b] == entries[..b - 1] + [entries[b - 1]];
      EntriesCostAppend(entries[..b - 1], entries[b - 1]);
    }
  }

  /** The whole entries that fit one preview slot, and no entry more. */
  ghost predicate IsPreviewEnd(entries: seq<string>, end: nat) {
    && end <= |entries|
    && EntriesCost(entries[..end]) <= MAX_EVIDENCE_PREVIEW_BYTES
    && (end < |entries| ==> EntriesCost(entries[..end + 1]) > MAX_EVIDENCE_PREVIEW_BYTES)
  }

  /** The plan's loop finds the longest run of whole entries that fits the slot. */
  method ListPreviewEnd(entries: seq<string>) returns (end: nat)
    ensures IsPreviewEnd(entries, end)
  {
    var charged := 0;
    end := 0;
    assert entries[..0] == [];
    while end < |entries|
      invariant end <= |entries| && charged == EntriesCost(entries[..end]) <= MAX_EVIDENCE_PREVIEW_BYTES
    {
      var cost := ARRAY_ELEMENT_OVERHEAD + |entries[end]| * STRING_BYTE_FACTOR;
      assert entries[..end + 1] == entries[..end] + [entries[end]];
      EntriesCostAppend(entries[..end], entries[end]);
      if charged + cost > MAX_EVIDENCE_PREVIEW_BYTES {
        return;
      }
      charged := charged + cost;
      end := end + 1;
    }
  }

  /** There is only one such end. */
  lemma PreviewEndIsUnique(entries: seq<string>, a: nat, b: nat)
    requires IsPreviewEnd(entries, a) && IsPreviewEnd(entries, b)
    ensures a == b
  {
    if a < b {
      EntriesCostGrows(entries, a + 1, b);
    } else if b < a {
      EntriesCostGrows(entries, b + 1, a);
    }
  }

  function CheckPreview(v: Recorded): (r: Value)
    requires v.RecordedCheck?
  {
    Object(map["operation_id" := String(v.operation), "outcome" := String(OutcomeText(v.outcome)),
               "operation_digest" := String(v.operationDigest),
               "input_basis" := Object(map["digest" := String(v.inputDigest)]),
               "output_digest" := String(v.outputDigest)])
  }

  /** What a preview shows of a value. A list may show nothing, and a whole value may be too large. */
  ghost predicate Shows(value: Recorded, payload: Value, truncated: bool) {
    match value
    case RecordedText(text) =>
      var end := Min(|text|, MAX_PREVIEW_SCALARS);
      0 < end && payload == String(text[..end]) && truncated == (end < |text|)
    case RecordedList(entries) =>
      exists end :: 0 < end && IsPreviewEnd(entries, end) && payload == Array(TariffInstances.Texts(entries[..end]))
                    && truncated == (end < |entries|)
    case RecordedCheck(_, _, _, _, _) => payload == CheckPreview(value) && !truncated
    case RecordedWhole(v) => Projected(v) <= MAX_EVIDENCE_PREVIEW_BYTES && payload == v && !truncated
  }

  lemma {:induction false} TextsProjected(texts: seq<string>)
    ensures ProjectedItems(TariffInstances.Texts(texts)) == EntriesCost(texts)
  {
    if texts != [] {
      TextsProjected(texts[1..]);
      assert TariffInstances.Texts(texts)[1..] == TariffInstances.Texts(texts[1..]);
    }
  }

  /** Every payload fits its slot and two delimiters. */
  lemma PayloadFits(value: Recorded, payload: Value, truncated: bool)
    requires Shows(value, payload, truncated)
    ensures Len(payload) <= MAX_EVIDENCE_PREVIEW_BYTES + 2
  {
    match value
    case RecordedText(text) => StringAtMostSix(text[..Min(|text|, MAX_PREVIEW_SCALARS)]);
    case RecordedList(entries) =>
      var end :| 0 < end && IsPreviewEnd(entries, end) && payload == Array(TariffInstances.Texts(entries[..end]))
                 && truncated == (end < |entries|);
      TextsProjected(entries[..end]);
      ProjectedCovers(payload);
    case RecordedCheck(_, _, _, _, _) => CheckFits(value);
    case RecordedWhole(v) => ProjectedCovers(v);
  }

  lemma CheckFits(value: Recorded)
    requires value.RecordedCheck?
    ensures Len(CheckPreview(value)) <= 1_200
  {
    hide Len, Quoted, IsIdentifier, IsDigest;
    KeyLength("operation_id", 12);
    KeyLength("outcome", 7);
    KeyLength("operation_digest", 16);
    KeyLength("input_basis", 11);
    KeyLength("digest", 6);
    KeyLength("output_digest", 13);
    IdentifierLength(value.operation);
    WordLength(OutcomeText(value.outcome));
    DigestLength(value.operationDigest);
    DigestLength(value.inputDigest);
    DigestLength(value.outputDigest);
    var basis := Object(map["digest" := String(value.inputDigest)]);
    OneField("digest", String(value.inputDigest), 38, 73);
    OneField("operation_id", String(value.operation), 74, 66);
    var m1 := map["operation_id" := String(value.operation)];
    AddField(m1, "outcome", String(OutcomeText(value.outcome)), 144, 44, 14);
    var m2 := m1["outcome" := String(OutcomeText(value.outcome))];
    AddField(m2, "operation_digest", String(value.operationDigest), 204, 98, 73);
    var m3 := m2["operation_digest" := String(value.operationDigest)];
    AddField(m3, "input_basis", basis, 377, 68, 115);
    var m4 := m3["input_basis" := basis];
    AddField(m4, "output_digest", String(value.outputDigest), 562, 80, 73);
    assert CheckPreview(value) == Object(m4["output_digest" := String(value.outputDigest)]);
  }

  // ----- Items -----

  /** An unpadded base64url text: no character of it is escaped. */
  type Token = s: string | PlainText(s) && |s| <= 256

  datatype RecordedItem = RecordedItem(
    id: Identifier, kind: ItemType, revision: U64, digest: Digest, totalSize: U64, value: Recorded, token: Token)

  function SizeUnit(value: Recorded): (s: string) {
    match value
    case RecordedText(_) => "scalars"
    case RecordedList(_) => "entries"
    case RecordedCheck(_, _, _, _, _) => "bytes"
    case RecordedWhole(_) => "value"
  }

  function ItemFields(item: RecordedItem): (m: map<string, Value>) {
    map["item_id" := String(item.id), "type" := String(ItemTypeName(item.kind)), "revision" := Int(item.revision),
        "value_digest" := String(item.digest), "total_size" := Int(item.totalSize),
            "size_unit" := String(SizeUnit(item.value))]
  }

  /** An item with a preview: the payload, whether it was cut, and where to go on if it was. */
  function PreviewFields(item: RecordedItem, payload: Value, truncated: bool): (m: map<string, Value>) {
    var m := ItemFields(item)["preview" := payload]["preview_truncated" := Bool(truncated)];
    if truncated then m["next_page_token" := String(item.token)] else m
  }

  lemma ItemFieldsLength(item: RecordedItem)
    ensures Len(Object(ItemFields(item))) <= 528
  {
    hide Len, Quoted, IsIdentifier, IsDigest;
    KeyLength("item_id", 7);
    KeyLength("type", 4);
    KeyLength("revision", 8);
    KeyLength("value_digest", 12);
    KeyLength("total_size", 10);
    KeyLength("size_unit", 9);
    IdentifierLength(item.id);
    ItemTypeNameLength(item.kind);
    NumberLength(item.revision);
    DigestLength(item.digest);
    NumberLength(item.totalSize);
    WordLength(SizeUnit(item.value));
    OneField("item_id", String(item.id), 44, 66);
    var m1 := map["item_id" := String(item.id)];
    AddField(m1, "type", String(ItemTypeName(item.kind)), 114, 26, 14);
    var m2 := m1["type" := String(ItemTypeName(item.kind))];
    AddField(m2, "revision", Int(item.revision), 156, 50, 20);
    var m3 := m2["revision" := Int(item.revision)];
    AddField(m3, "value_digest", String(item.digest), 228, 74, 73);
    var m4 := m3["value_digest" := String(item.digest)];
    AddField(m4, "total_size", Int(item.totalSize), 377, 62, 20);
    var m5 := m4["total_size" := Int(item.totalSize)];
    AddField(m5, "size_unit", String(SizeUnit(item.value)), 461, 56, 9);
    assert ItemFields(item) == m5["size_unit" := String(SizeUnit(item.value))];
  }

  lemma PreviewFieldsLength(item: RecordedItem, payload: Value, truncated: bool)
    requires Shows(item.value, payload, truncated)
    ensures Len(Object(PreviewFields(item, payload, truncated))) <= 6_667
  {
    hide Len, Quoted, Shows, ItemFields;
    ItemFieldsLength(item);
    PayloadFits(item.value, payload, truncated);
    KeyLength("preview", 7);
    KeyLength("preview_truncated", 17);
    KeyLength("next_page_token", 15);
    BoolLength(truncated);
    WordLength(item.token);
    var m := ItemFields(item);
    AddField(m, "preview", payload, 528, 44, 5_630);
    var m1 := m["preview" := payload];
    AddField(m1, "preview_truncated", Bool(truncated), 6_204, 104, 5);
    var m2 := m1["preview_truncated" := Bool(truncated)];
    if truncated {
      AddField(m2, "next_page_token", String(item.token), 6_315, 92, 258);
    }
  }

  /** One item of a readback prints as metadata only, or with a preview of its value. */
  datatype PrintedItem = Plain(item: RecordedItem) | Previewed(item: RecordedItem, payload: Value, truncated: bool)

  ghost predicate ValidItem(i: PrintedItem) {
    i.Previewed? ==> Shows(i.item.value, i.payload, i.truncated)
  }

  function PrintedValue(i: PrintedItem): (v: Value) {
    match i
    case Plain(item) => Object(ItemFields(item))
    case Previewed(item, payload, truncated) => Object(PreviewFields(item, payload, truncated))
  }

  function PrintedValues(items: seq<PrintedItem>): (r: seq<Value>)
    ensures |r| == |items|
    ensures forall i :: 0 <= i < |items| ==> r[i] == PrintedValue(items[i])
  {
    seq(|items|, i requires 0 <= i < |items| => PrintedValue(items[i]))
  }

  function Previews(items: seq<PrintedItem>): (n: nat)
    ensures n <= |items|
  {
    if items == [] then 0 else (if items[0].Previewed? then 1 else 0) + Previews(items[1..])
  }

  lemma {:induction false} PreviewsAppend(items: seq<PrintedItem>, last: PrintedItem)
    ensures Previews(items + [last]) == Previews(items) + (if last.Previewed? then 1 else 0)
  {
    if items != [] {
      PreviewsAppend(items[1..], last);
      assert (items + [last])[1..] == items[1..] + [last];
    }
  }

  /** A recorded item and what a preview of it would show, if anything. */
  datatype Candidate = Candidate(item: RecordedItem, plan: Option<(Value, bool)>)

  /** There is something to show: not an empty text, not a list whose first entry is too large, not a value that is. */
  ghost predicate Earns(value: Recorded) {
    match value
    case RecordedText(text) => text != ""
    case RecordedList(entries) => entries != [] && 8 + 6 * |entries[0]| <= 5_628
    case RecordedCheck(_, _, _, _, _) => true
    case RecordedWhole(v) => Projected(v) <= 5_628
  }

  /** The plan is made exactly if there is something to show. */
  ghost predicate ValidCandidate(c: Candidate) {
    && (c.plan.Some? <==> Earns(c.item.value))
    && (c.plan.Some? ==> Shows(c.item.value, c.plan.value.0, c.plan.value.1))
  }

  ghost predicate AllCandidates(candidates: seq<Candidate>) {
    forall i :: 0 <= i < |candidates| ==> ValidCandidate(candidates[i])
  }

  /** The printed items are the recorded ones, one by one. */
  ghost predicate Prints(items: seq<PrintedItem>, candidates: seq<Candidate>) {
    |items| == |candidates| && forall i :: 0 <= i < |items| ==> items[i].item == candidates[i].item
  }

  function Planned(candidates: seq<Candidate>): (n: nat) {
    if candidates == [] then 0 else (if candidates[0].plan.Some? then 1 else 0) + Planned(candidates[1..])
  }

  lemma {:induction false} PlannedAppend(candidates: seq<Candidate>, last: Candidate)
    ensures Planned(candidates + [last]) == Planned(candidates) + (if last.plan.Some? then 1 else 0)
  {
    if candidates != [] {
      PlannedAppend(candidates[1..], last);
      assert (candidates + [last])[1..] == candidates[1..] + [last];
    }
  }

  /** The item shows its plan if it has a slot, and nothing otherwise. */
  predicate PrintedAs(i: PrintedItem, c: Candidate, slot: bool) {
    if slot && c.plan.Some? then i == Previewed(c.item, c.plan.value.0, c.plan.value.1) else i == Plain(c.item)
  }

  /** Slots go to the plans in order until there is none left. */
  ghost predicate InOrder(items: seq<PrintedItem>, candidates: seq<Candidate>, explicit: bool, slots: int) {
    && |items| == |candidates|
    && forall i :: 0 <= i < |items| ==> PrintedAs(items[i], candidates[i], explicit && Planned(candidates[..i]) < slots)
  }

  /**
    The items of one readback, with previews while slots remain: each preview takes one slot, only
    items selected by name get one, and they get it in order.
    */
  method PrintItems(candidates: seq<Candidate>, explicit: bool, slots: nat) returns (items: seq<PrintedItem>, left: nat)
    requires AllCandidates(candidates)
    ensures Prints(items, candidates) && AllValid(items)
    ensures Previews(items) + left == slots
    ensures Previews(items) > 0 ==> explicit
    ensures InOrder(items, candidates, explicit, slots)
    ensures left == if explicit && Planned(candidates) < slots then slots - Planned(candidates)
                    else if explicit then 0 else slots
  {
    hide Shows, Planned, Earns;
    items, left := [], slots;
    assert candidates[..0] == [] && Planned([]) == 0 by { NothingPlanned(); }
    for n := 0 to |candidates|
      invariant |items| == n && Previews(items) + left == slots
      invariant forall i :: 0 <= i < n ==> items[i].item == candidates[i].item && ValidItem(items[i])
      invariant Previews(items) > 0 ==> explicit
      invariant left == if explicit && Planned(candidates[..n]) < slots then slots - Planned(candidates[..n])
                        else if explicit then 0 else slots
      invariant forall i :: 0 <= i < n ==>
                  PrintedAs(items[i], candidates[i], explicit && Planned(candidates[..i]) < slots)
    {
      var c := candidates[n];
      var printed := Plain(c.item);
      if explicit && left > 0 && c.plan.Some? {
        left := left - 1;
        printed := Previewed(c.item, c.plan.value.0, c.plan.value.1);
      }
      PreviewsAppend(items, printed);
      assert candidates[..n + 1] == candidates[..n] + [c];
      PlannedAppend(candidates[..n], c);
      items := items + [printed];
    }
    assert candidates[..|candidates|] == candidates;
  }

  lemma NothingPlanned()
    ensures Planned([]) == 0
  {
  }

  ghost predicate AllValid(items: seq<PrintedItem>) {
    forall i :: 0 <= i < |items| ==> ValidItem(items[i])
  }

  ghost function TotalPreviews(printed: seq<seq<PrintedItem>>): (n: nat) {
    if printed == [] then 0 else Previews(printed[0]) + TotalPreviews(printed[1..])
  }

  lemma {:induction false} TotalPreviewsAppend(printed: seq<seq<PrintedItem>>, last: seq<PrintedItem>)
    ensures TotalPreviews(printed + [last]) == TotalPreviews(printed) + Previews(last)
  {
    if printed != [] {
      TotalPreviewsAppend(printed[1..], last);
      assert (printed + [last])[1..] == printed[1..] + [last];
    }
  }

  /** Plans of the first `n` groups that can ask for a slot. */
  function PlannedBefore(groups: seq<(seq<Candidate>, bool)>, n: nat): (r: nat)
    requires n <= |groups|
  {
    if n == 0 then 0 else PlannedBefore(groups, n - 1) + (if groups[n - 1].1 then Planned(groups[n - 1].0) else 0)
  }

  lemma NoGroupPlanned(groups: seq<(seq<Candidate>, bool)>)
    ensures PlannedBefore(groups, 0) == 0 && TotalPreviews([]) == 0
  {
  }

  lemma PlannedStep(groups: seq<(seq<Candidate>, bool)>, n: nat)
    requires n < |groups|
    ensures PlannedBefore(groups, n + 1)
            == PlannedBefore(groups, n) + if groups[n].1 then Planned(groups[n].0) else 0
  {
    hide Planned;
  }

  /** All readbacks of one response share 32 slots in order, however many items ask for one. */
  method PrintReadbacks(groups: seq<(seq<Candidate>, bool)>) returns (printed: seq<seq<PrintedItem>>)
    requires forall g :: 0 <= g < |groups| ==> AllCandidates(groups[g].0)
    ensures |printed| == |groups| && TotalPreviews(printed) <= MAX_EVIDENCE_PREVIEW_SLOTS
    ensures forall g :: 0 <= g < |groups| ==>
              Prints(printed[g], groups[g].0) && (Previews(printed[g]) > 0 ==> groups[g].1)
    ensures forall g :: 0 <= g < |groups| ==> AllValid(printed[g])
    ensures forall g :: 0 <= g < |groups| ==>
              InOrder(printed[g], groups[g].0, groups[g].1, 32 - PlannedBefore(groups, g))
  {
    hide Previews, AllCandidates, AllValid, Prints, InOrder, Planned, PlannedBefore, TotalPreviews;
    var left := MAX_EVIDENCE_PREVIEW_SLOTS;
    printed := [];
    NoGroupPlanned(groups);
    for n := 0 to |groups|
      invariant |printed| == n && TotalPreviews(printed) + left == MAX_EVIDENCE_PREVIEW_SLOTS
      invariant left == if PlannedBefore(groups, n) < 32 then 32 - PlannedBefore(groups, n) else 0
      invariant forall g :: 0 <= g < n ==> Prints(printed[g], groups[g].0) && (Previews(printed[g]) > 0 ==> groups[g].1)
      invariant forall g :: 0 <= g < n ==> AllValid(printed[g])
      invariant forall g :: 0 <= g < n ==> InOrder(printed[g], groups[g].0, groups[g].1, 32 - PlannedBefore(groups, g))
    {
      var items;
      ghost var slots := left;
      PlannedStep(groups, n);
      items, left := PrintItems(groups[n].0, groups[n].1, left);
      InOrderBelow(items, groups[n].0, groups[n].1, slots, 32 - PlannedBefore(groups, n));
      TotalPreviewsAppend(printed, items);
      printed := printed + [items];
    }
  }

  lemma InOrderBelow(items: seq<PrintedItem>, candidates: seq<Candidate>, explicit: bool, slots: nat, exact: int)
    requires InOrder(items, candidates, explicit, slots) && slots == if exact > 0 then exact else 0
    ensures InOrder(items, candidates, explicit, exact)
  {
    hide Planned;
  }

  /** What one preview slot and its token are charged. */
  const SLOT_CHARGE: nat := 5_628 + 1_600

  /** What an item and a preview of it print at most, separators included. */
  const ITEM_BYTES: nat := 529
  const PREVIEW_BYTES: nat := 6_139

  lemma LeastItemCharge(item: ItemSpec)
    ensures ReadbackItemCharge(item) >= 1_377
  {
    hide ReadbackItemCharge;
    ReadbackItemBound(item);
    assert |ItemTypeName(item.kind)| >= 4;
  }

  lemma {:induction false} LeastItemsCharge(items: seq<ItemSpec>)
    ensures ItemsCharge(items) >= 1_377 * |items|
  {
    hide ReadbackItemCharge;
    if items != [] {
      LeastItemCharge(items[0]);
      LeastItemsCharge(items[1..]);
    }
  }

  lemma PrintedItemLength(i: PrintedItem)
    requires ValidItem(i)
    ensures Len(PrintedValue(i)) + 1 <= ITEM_BYTES + (if i.Previewed? then PREVIEW_BYTES else 0)
  {
    hide Len, ItemFields, PreviewFields;
    match i
    case Plain(item) => ItemFieldsLength(item);
    case Previewed(item, payload, truncated) => PreviewFieldsLength(item, payload, truncated);
  }

  lemma {:induction false} PrintedItemsLength(items: seq<PrintedItem>)
    requires AllValid(items)
    ensures ItemsLength(PrintedValues(items)) <= ITEM_BYTES * |items| + PREVIEW_BYTES * Previews(items)
  {
    hide Len, PrintedValue, ValidItem;
    if items != [] {
      PrintedItemLength(items[0]);
      PrintedItemsLength(items[1..]);
      assert PrintedValues(items)[1..] == PrintedValues(items[1..]);
    }
  }
}
