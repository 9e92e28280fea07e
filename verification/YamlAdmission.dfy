/**
  One document in its two source forms. The YAML form passes a preflight over its plain scalars
  before the visitor sees it, and that pass takes signed 64-bit integers only; the JSON reader goes
  up to the largest unsigned one. Between the two lies everything on which the forms disagree.
  */
module YamlAdmission {
  import opened Utf8
  import opened CanonicalJson
  import opened Decimal
  import opened DocumentWalk
  import opened JsonGrammar
  import opened JsonReader
  import opened JsonReaderProofs
  import opened JsonDocument
  import opened ProcedureDocument
  import opened Saturation
  import opened YamlVisitor
  import CanonicalRoundTrip

  // ----- The preflight -----

  /**
    What the preflight says of a plain number. An integer that reached the tree was written in some
    spelling; only its canonical one can pass, so that is the one to ask about.
    */
  predicate PlainNumberPasses(v: ScalarValue) {
    match v
    case Int(n) => IsCanonicalI64(Spell(n))
    case Float => false
    case _ => true
  }

  predicate PreflightPasses(d: Doc) {
    match d
    case Scalar(v) => PlainNumberPasses(v)
    case Refused(error) => !error.NonCanonicalNumber?
    case Sequence(items) => PreflightItems(items)
    case Mapping(entries) => PreflightEntries(entries)
  }

  predicate PreflightItems(items: Docs) {
    items.MoreDocs? ==> PreflightPasses(items.head) && PreflightItems(items.tail)
  }

  predicate PreflightEntries(entries: Entries) {
    entries.MoreEntries? ==> PreflightPasses(entries.value) && PreflightEntries(entries.rest)
  }

  /** The YAML path on a decoded tree: the preflight first, then the bounded visit. */
  function YamlVerdict(d: Doc, limits: Limits): (r: Visit) {
    if !PreflightPasses(d) then Stopped(NonCanonicalNumber) else VisitDoc(d, 1, 0, limits)
  }

  /** The JSON path on a decoded tree: the bounded walk first, then the refusal of nulls. */
  predicate JsonAdmits(d: Doc, limits: Limits) {
    Walk(d, 1, 0, limits).Accepted? && RejectNullsPasses(Walk(d, 1, 0, limits).value)
  }

  // ----- Numbers of a value -----

  /** Every number of the value is an integer in the range. */
  predicate NumbersWithin(v: Value, low: int, high: int) {
    match v
    case Int(n) => low <= n <= high
    case Float => false
    case Array(items) => forall i :: 0 <= i < |items| ==> NumbersWithin(items[i], low, high)
    case Object(members) => forall k :: k in members ==> NumbersWithin(members[k], low, high)
    case _ => true
  }

  lemma SignedSpelling(n: int)
    ensures IsCanonicalI64(Spell(n)) <==> I64_MIN <= n <= I64_MAX
  {
    hide IsCanonicalI64, Spell;
    CanonicalI64Spellings(Spell(n));
    if m :| ParsesAsI64(m) && Spell(n) == Spell(m) {
      SpellReads(n);
      SpellReads(m);
    }
  }

  /** A well-formed tree passes the preflight exactly when every number of its value is a signed 64-bit integer. */
  lemma {:induction false} PreflightIsSigned(d: Doc)
    requires WellFormed(d)
    ensures PreflightPasses(d) <==> NumbersWithin(Meaning(d), I64_MIN, I64_MAX)
    decreases d
  {
    hide IsCanonicalI64;
    match d
    case Scalar(v) => if v.Int? { SignedSpelling(v.number); }
    case Sequence(items) => ItemsAreSigned(items, []);
    case Mapping(entries) =>
      var none: map<string, Value> := map[];
      assert none.Keys == {};
      EntriesAreSigned(entries, none);
  }

  lemma {:induction false} ItemsAreSigned(items: Docs, done: seq<Value>)
    requires WellFormedItems(items)
    ensures NumbersWithin(Array(ItemsMeaning(items, done)), I64_MIN, I64_MAX)
            <==> NumbersWithin(Array(done), I64_MIN, I64_MAX) && PreflightItems(items)
    decreases items
  {
    if items.MoreDocs? {
      PreflightIsSigned(items.head);
      var v := Meaning(items.head);
      ItemsAreSigned(items.tail, done + [v]);
      assert (done + [v])[|done|] == v;
      assert forall i :: 0 <= i < |done| ==> (done + [v])[i] == done[i];
      assert NumbersWithin(Array(done + [v]), I64_MIN, I64_MAX)
          <==> NumbersWithin(Array(done), I64_MIN, I64_MAX) && NumbersWithin(v, I64_MIN, I64_MAX);
    }
  }

  lemma {:induction false} EntriesAreSigned(entries: Entries, done: map<string, Value>)
    requires WellFormedEntries(entries, done.Keys)
    ensures NumbersWithin(Object(EntriesMeaning(entries, done)), I64_MIN, I64_MAX)
            <==> NumbersWithin(Object(done), I64_MIN, I64_MAX) && PreflightEntries(entries)
    decreases entries
  {
    if entries.MoreEntries? {
      PreflightIsSigned(entries.value);
      var key, v := entries.key.name, Meaning(entries.value);
      var more := done[key := v];
      assert more.Keys == done.Keys + {key};
      EntriesAreSigned(entries.rest, more);
      assert forall k :: k in done ==> more[k] == done[k];
      assert more[key] == v;
      assert NumbersWithin(Object(more), I64_MIN, I64_MAX)
          <==> NumbersWithin(Object(done), I64_MIN, I64_MAX) && NumbersWithin(v, I64_MIN, I64_MAX);
    }
  }

  // ----- Where the two forms agree -----

  /**
    A document is admitted from its YAML form exactly when it is admitted from its JSON form and
    no number of it lies beyond the signed range.
    */
  lemma AdmissionAgrees(d: Doc, limits: Limits)
    requires BelowMachineMaximum(limits)
    ensures YamlVerdict(d, limits).Counted?
            <==> JsonAdmits(d, limits) && NumbersWithin(Walk(d, 1, 0, limits).value, I64_MIN, I64_MAX)
  {
    hide Walk, VisitDoc, WellFormed, Meaning, Height, Size, PreflightPasses, RejectNullsPasses, NumbersWithin;
    WalkersAdmitAlike(d, limits);
    WalkAccepts(d, 1, 0, limits);
    if WellFormed(d) {
      PreflightIsSigned(d);
    }
  }

  // ----- JSON texts -----

  /** Every number that the JSON reader takes is a 64-bit integer, signed or unsigned. */
  lemma {:induction false} TextIntegers(t: Text)
    requires WellFormed(DocOf(t))
    ensures IntegersOnly(Meaning(DocOf(t)))
    decreases t
  {
    hide StringMeaning;
    match t
    case ArrayText(_, elements) => ElementIntegers(elements, []);
    case ObjectText(_, members) =>
      var none: map<string, Value> := map[];
      assert none.Keys == {};
      MemberIntegers(members, none);
    case _ =>
  }

  lemma {:induction false} ElementIntegers(e: Elements, done: seq<Value>)
    requires WellFormedItems(DocsOf(e)) && forall i :: 0 <= i < |done| ==> IntegersOnly(done[i])
    ensures IntegersOnly(Array(ItemsMeaning(DocsOf(e), done)))
    decreases e
  {
    hide DocOf, WellFormed, Meaning;
    TextIntegers(e.value);
    var more := done + [Meaning(DocOf(e.value))];
    if e.MoreElements? {
      ElementIntegers(e.rest, more);
    } else {
      assert ItemsMeaning(DocsOf(e), done) == more;
    }
  }

  lemma {:induction false} MemberIntegers(m: Members, done: map<string, Value>)
    requires WellFormedEntries(EntriesOf(m), done.Keys) && forall k :: k in done ==> IntegersOnly(done[k])
    ensures IntegersOnly(Object(EntriesMeaning(EntriesOf(m), done)))
    decreases m
  {
    hide DocOf, WellFormed, Meaning, StringMeaning;
    var entries := EntriesOf(m);
    TextIntegers(m.member.value);
    var more := done[entries.key.name := Meaning(entries.value)];
    assert more.Keys == done.Keys + {entries.key.name};
    if m.MoreMembers? {
      MemberIntegers(m.rest, more);
    } else {
      assert EntriesMeaning(entries, done) == more;
    }
  }

  /**
    For every JSON text within the byte limit: its tree is admitted from YAML exactly when the text
    is decoded and its value, whose numbers reach from -2^63 to 2^64 - 1, stays within the signed
    range.
    */
  lemma TextAdmissionAgrees(before: Whitespace, t: Text, after: Whitespace, limits: Limits)
    requires BelowMachineMaximum(limits) && |before + TextThen(t, after)| <= limits.maxBytes
    ensures var r := DecodedDocument(before + TextThen(t, after), limits);
            && (r.Ok? ==> IntegersOnly(r.value))
            && (YamlVerdict(DocOf(t), limits).Counted? <==> r.Ok? && NumbersWithin(r.value, I64_MIN, I64_MAX))
  {
    hide Walk, WellFormed, Meaning, Height, Size, ReadDocument, TextThen, DocOf, Decode, YamlVerdict,
         RejectNullsPasses, NumbersWithin, IntegersOnly;
    var text := before + TextThen(t, after);
    DocumentVerdict(before, t, after, limits);
    AdmissionAgrees(DocOf(t), limits);
    WalkAccepts(DocOf(t), 1, 0, limits);
    if ReadDocument(text, limits).Ok? {
      AcceptedIsUtf8(text, limits);
      TextIntegers(t);
    }
  }

  /** The smallest integer on which the forms disagree: 2^63 is decoded from JSON and refused from YAML. */
  lemma UnsignedIntegerIsRefused(limits: Limits)
    requires limits.maxBytes >= 19 && limits.maxDepth >= 1 && limits.maxNodes >= 1
    ensures var n := I64_MAX + 1;
            && DecodedDocument(Spell(n), limits) == Ok(Int(n))
            && YamlVerdict(Scalar(Int(n)), limits) == Stopped(NonCanonicalNumber)
  {
    hide IsCanonicalI64, ReadDocument, Spell, Decode;
    var n := I64_MAX + 1;
    SignedSpelling(n);
    CanonicalRoundTrip.CanonicalRoundTrips(Int(n), limits);
    AcceptedIsUtf8(Spell(n), limits);
    assert |Spell(n)| <= 19 by { NineteenDigits(n); }
  }

  lemma NineteenDigits(n: int)
    requires 0 <= n < 10_000_000_000_000_000_000
    ensures |Spell(n)| <= 19
  {
    assert Power10(4) == 10_000;
    assert Power10(8) == 100_000_000;
    assert Power10(12) == 1_000_000_000_000;
    assert Power10(16) == 10_000_000_000_000_000;
    assert Power10(19) == 10_000_000_000_000_000_000;
    DigitsLength(n, 19);
  }
}
