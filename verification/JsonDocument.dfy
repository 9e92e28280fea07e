/**
  The reader on whole documents: which byte sequences it accepts and what it returns, what its
  errors say, and the spellings of integers that it and the YAML preflight admit.
  */
module JsonDocument {
  import opened Utf8
  import opened CanonicalJson
  import opened Decimal
  import opened JsonGrammar
  import opened DocumentWalk
  import opened JsonReader
  import opened JsonReaderProofs
  import opened JsonReaderSoundness
  import opened DocumentOrder

  function ResultOf(v: Verdict): (r: Result<Value>) {
    match v
    case Accepted(value, _) => Ok(value)
    case Rejected(error) => Err(error)
  }

  /**
    On every JSON text of RFC 8259, white space before and behind included, the reader's answer is
    the verdict of the bounded walk over the tree: the same value, or the first refusal in
    document order with the same depth, count or key.
    */
  lemma DocumentVerdict(before: Whitespace, t: Text, after: Whitespace, limits: Limits)
    ensures ReadDocument(before + TextThen(t, after), limits) == ResultOf(Walk(DocOf(t), 1, 0, limits))
  {
    hide TextThen, ReadValue, Walk, DocOf;
    TextLeads(t, after);
    SkipPast(before, TextThen(t, after));
    assert Follows(t, after);
    ReadsValue(t, after, 1, 0, limits);
    assert after + [] == after;
    SkipPast(after, []);
  }

  ghost predicate Denotes(s: seq<Byte>, v: Value, limits: Limits) {
    exists before: Whitespace, t: Text, after: Whitespace ::
      s == before + TextThen(t, after) && WellFormed(DocOf(t)) && WithinLimits(DocOf(t), 1, 0, limits)
      && v == Meaning(DocOf(t))
  }

  /**
    The reader accepts exactly the JSON texts that denote a value: strings decodable, integers in
    canonical spelling and range, no key repeated at any level, height and node count within the
    limits. It returns the value denoted.
    */
  lemma DocumentAccepts(s: seq<Byte>, limits: Limits, v: Value)
    ensures ReadDocument(s, limits) == Ok(v) <==> Denotes(s, v, limits)
  {
    hide TextThen, ReadValue, Walk, DocOf, Meaning, WellFormed, Height, Size;
    if ReadDocument(s, limits) == Ok(v) {
      var before, t, after := DocumentWasText(s, limits);
      DocumentVerdict(before, t, after, limits);
      WalkAccepts(DocOf(t), 1, 0, limits);
    }
    if Denotes(s, v, limits) {
      var before: Whitespace, t: Text, after: Whitespace :|
        s == before + TextThen(t, after) && WellFormed(DocOf(t)) && WithinLimits(DocOf(t), 1, 0, limits)
        && v == Meaning(DocOf(t));
      DocumentVerdict(before, t, after, limits);
      WalkAccepts(DocOf(t), 1, 0, limits);
    }
  }

  lemma DocumentWasText(s: seq<Byte>, limits: Limits) returns (before: Whitespace, t: Text, after: Whitespace)
    requires ReadDocument(s, limits).Ok?
    ensures s == before + TextThen(t, after)
  {
    hide TextThen, ReadValue;
    before := SkippedWhitespace(s);
    t := ValueWasText(SkipWhitespace(s), 1, 0, limits);
    var rest := ReadValue(SkipWhitespace(s), 1, 0, limits).rest;
    after := SkippedWhitespace(rest);
    assert after + [] == after;
  }

  // ----- Errors -----

  lemma {:induction false} TextRefusals(t: Text)
    ensures OwnRefusals(DocOf(t))
    decreases t
  {
    hide StringMeaning, IntegerDoc;
    match t
    case NumberText(n) => NumberRefusals(n);
    case ArrayText(_, elements) => ElementRefusals(elements);
    case ObjectText(_, members) => MemberRefusals(members);
    case _ =>
  }

  lemma NumberRefusals(n: Number)
    ensures OwnRefusals(NumberDoc(n))
  {
  }

  lemma {:induction false} ElementRefusals(e: Elements)
    ensures OwnItemRefusals(DocsOf(e))
    decreases e
  {
    hide DocOf, OwnRefusals;
    TextRefusals(e.value);
    if e.MoreElements? { ElementRefusals(e.rest); }
  }

  lemma {:induction false} MemberRefusals(m: Members)
    ensures OwnEntryRefusals(EntriesOf(m))
    decreases m
  {
    hide DocOf, OwnRefusals, StringMeaning;
    TextRefusals(m.member.value);
    if m.MoreMembers? { MemberRefusals(m.rest); }
  }

  /**
    On every JSON text, an error is the first refusal in document order; if it is about depth or
    nodes, the text exceeds that limit and the error reports the first number past it.
    */
  lemma DocumentErrors(before: Whitespace, t: Text, after: Whitespace, limits: Limits)
    requires ReadDocument(before + TextThen(t, after), limits).Err?
    ensures var e := ReadDocument(before + TextThen(t, after), limits).error;
            && FirstRefusal(Events(DocOf(t), 1), 0, limits) == StoppedBy(e)
            && Truthful(e, 1 + Height(DocOf(t)), Size(DocOf(t)), limits)
  {
    hide ReadDocument, TextThen, Walk, DocOf, Height, Size, Events, FirstRefusal;
    DocumentVerdict(before, t, after, limits);
    WalkIsPass(DocOf(t), 1, 0, limits);
    TextRefusals(t);
    LimitErrorsAreTruthful(DocOf(t), 1, 0, limits);
  }

  // ----- Integers -----

  /** The reader takes exactly the canonical spellings of the integers from -2^63 to 2^64 - 1. */
  lemma IntegerSpellings(text: seq<Byte>, n: int)
    requires IntegerText(text)
    ensures IntegerDoc(text) == Scalar(Int(n)) <==> text == Spell(n) && CanonicalInteger(n)
  {
    SpellingIsUnique(text);
    SpellReads(n);
    if text[0] == MINUS {
      assert IntegerValue(text) <= 0;
    } else {
      assert IntegerValue(text) >= 0;
    }
  }

  /** `str::parse::<i64>`: an optional sign, digits, and a value in range. */
  predicate ParseI64(value: seq<Byte>) {
    var digits := if value != [] && (value[0] == MINUS || value[0] == 43) then value[1..] else value;
    && digits != []
    && AllDigits(digits)
    && ParsesAsI64(if value[0] == MINUS then 0 - DigitsValue(digits) else DigitsValue(digits))
  }

  /** `is_canonical_i64`, the admission rule for plain YAML integers. */
  predicate IsCanonicalI64(value: seq<Byte>) {
    var digits := if value != [] && value[0] == MINUS then value[1..] else value;
    && digits != []
    && (digits == [ZERO] || (IsDigit(digits[0]) && digits[0] != ZERO && AllDigits(digits)))
    && value != NEGATIVE_ZERO
    && ParseI64(value)
  }

  /** It accepts exactly the canonical spellings of the values of `i64`. */
  lemma CanonicalI64Spellings(value: seq<Byte>)
    ensures IsCanonicalI64(value) <==> exists n :: ParsesAsI64(n) && value == Spell(n)
  {
    if IsCanonicalI64(value) {
      assert IntegerText(value);
      SpellingIsUnique(value);
      assert ParsesAsI64(IntegerValue(value)) && value == Spell(IntegerValue(value));
    }
    if n :| ParsesAsI64(n) && value == Spell(n) {
      SpellReads(n);
    }
  }
}
