/**
  The reader on grammatical texts: whatever may follow the text of a tree, the reader stops where
  the text ends with the verdict of the bounded walk over the tree.
  */
module JsonReaderProofs {
  import opened Utf8
  import opened CanonicalJson
  import opened Decimal
  import opened JsonGrammar
  import opened JsonStrings
  import opened DocumentWalk
  import opened JsonReader

  // ----- The document a tree describes -----

  function NumberDoc(n: Number): (d: Doc) {
    if PlainInteger(n) then IntegerDoc(IntegerPart(n)) else Refused(NonCanonicalNumber)
  }

  function KeyOf(chars: seq<StringChar>): (key: Key) {
    var text := StringMeaning(chars);
    if text.Some? then Name(text.value) else BadKey(UNDECODABLE)
  }

  function DocOf(t: Text): (d: Doc) {
    match t
    case NullWord => Scalar(Null)
    case TrueWord => Scalar(Bool(true))
    case FalseWord => Scalar(Bool(false))
    case NumberText(n) => NumberDoc(n)
    case StringText(chars) =>
      var text := StringMeaning(chars);
      if text.Some? then Scalar(String(text.value)) else Refused(UNDECODABLE)
    case EmptyArray(_) => Sequence(NoDocs)
    case ArrayText(_, elements) => Sequence(DocsOf(elements))
    case EmptyObject(_) => Mapping(NoEntries)
    case ObjectText(_, members) => Mapping(EntriesOf(members))
  }

  function DocsOf(e: Elements): (d: Docs) {
    match e
    case LastElement(value, _) => MoreDocs(DocOf(value), NoDocs)
    case MoreElements(value, _, _, rest) => MoreDocs(DocOf(value), DocsOf(rest))
  }

  function EntriesOf(m: Members): (d: Entries) {
    match m
    case LastMember(member) => MoreEntries(KeyOf(member.key), DocOf(member.value), NoEntries)
    case MoreMembers(member, _, rest) => MoreEntries(KeyOf(member.key), DocOf(member.value), EntriesOf(rest))
  }

  function After(v: Verdict, rest: seq<Byte>): (r: Read<Value>) {
    match v
    case Accepted(value, nodes) => Done(value, rest, nodes)
    case Rejected(error) => Fail(error)
  }

  function AfterItems(v: ItemsVerdict, rest: seq<Byte>): (r: Read<Value>) {
    match v
    case AcceptedItems(items, nodes) => Done(Array(items), rest, nodes)
    case RejectedItems(error) => Fail(error)
  }

  function AfterEntries(v: EntriesVerdict, rest: seq<Byte>): (r: Read<Value>) {
    match v
    case AcceptedEntries(members, nodes) => Done(Object(members), rest, nodes)
    case RejectedEntries(error) => Fail(error)
  }

  /** What may follow a value inside a document: nothing, or a structural byte, or white space. */
  predicate Ends(rest: seq<Byte>) {
    rest == [] || NumberDelimiter(rest[0])
  }

  /** What the reader checks behind this particular value. */
  predicate Follows(t: Text, rest: seq<Byte>) {
    rest == []
    || match t
       case NumberText(_) => NumberDelimiter(rest[0])
       case NullWord | TrueWord | FalseWord => !WordByte(rest[0])
       case _ => true
  }

  // ----- White space, strings and numbers -----

  lemma {:induction false} SkipPast(w: Whitespace, s: seq<Byte>)
    requires s == [] || !IsWhitespace(s[0])
    ensures SkipWhitespace(w + s) == s
    decreases |w|
  {
    if w == [] {
      assert w + s == s;
    } else {
      var tail: Whitespace := w[1..];
      assert (w + s)[1..] == tail + s;
      SkipPast(tail, s);
    }
  }

  lemma ReadsString(chars: seq<StringChar>, rest: seq<Byte>, nodes: nat)
    ensures StartsWith(StringThen(chars, rest), QUOTE)
    ensures ReadString(StringThen(chars, rest), nodes)
            == match StringMeaning(chars) case Some(text) => Done(text, rest, nodes) case None => Fail(UNDECODABLE)
  {
    hide ScanString, DecodeBody, StringBytes, StringMeaning;
    var s := StringThen(chars, rest);
    var body := StringBytes(chars);
    assert s[1..] == body + ([QUOTE] + rest);
    ScanFindsClosingQuote(chars, rest);
    assert s[1..][..|body|] == body;
    assert s[1..][|body| + 1..] == rest;
    DecodeIsMeaning(chars);
  }

  lemma {:induction false} SkipsDigits(digits: seq<Byte>, rest: seq<Byte>)
    requires AllDigits(digits)
    requires rest == [] || !IsDigit(rest[0])
    ensures SkipDigits(digits + rest) == rest
  {
    if digits == [] {
      assert digits + rest == rest;
    } else {
      assert (digits + rest)[1..] == digits[1..] + rest;
      SkipsDigits(digits[1..], rest);
    }
  }

  lemma SkipsInteger(digits: seq<Byte>, rest: seq<Byte>)
    requires PlainDigits(digits)
    requires rest == [] || !IsDigit(rest[0])
    ensures SkipInteger(digits + rest) == Done((), rest, 0)
  {
    assert (digits + rest)[1..] == digits[1..] + rest;
    SkipsDigits(digits[1..], rest);
    if digits[0] == ZERO {
      assert digits[1..] + rest == rest;
    }
  }

  lemma ReadsInteger(integer: seq<Byte>, tail: seq<Byte>, nodes: nat)
    requires IntegerText(integer)
    requires tail == [] || !IsDigit(tail[0])
    ensures ReadNumber(integer + tail, nodes) == FinishNumber(integer, tail, nodes)
  {
    hide SkipInteger, IntegerDoc;
    var s := integer + tail;
    var digits := if integer[0] == MINUS then integer[1..] else integer;
    assert (if s[0] == MINUS then s[1..] else s) == digits + tail;
    SkipsInteger(digits, tail);
    assert s[..|s| - |tail|] == integer;
  }

  predicate PlainInteger(n: Number) {
    n.fraction.NoFraction? && n.exponent.NoExponent?
  }

  lemma TailLeads(n: Number, rest: seq<Byte>)
    ensures PlainInteger(n) ==> NumberTail(n) + rest == rest
    ensures !PlainInteger(n) ==> NumberTail(n) + rest != [] && (NumberTail(n) + rest)[0] in [46, 101, 69]
  {
  }

  lemma ReadsNumber(n: Number, rest: seq<Byte>, nodes: nat)
    requires Ends(rest)
    ensures ReadNumber(IntegerPart(n) + (NumberTail(n) + rest), nodes)
            == match NumberDoc(n) case Scalar(v) => Done(v, rest, nodes) case _ => Fail(NonCanonicalNumber)
  {
    hide ReadNumber, IntegerDoc, IntegerPart, NumberTail;
    TailLeads(n, rest);
    ReadsInteger(IntegerPart(n), NumberTail(n) + rest, nodes);
  }

  // ----- Every text of the grammar is read as the walk over its tree -----

  /** Bytes that start a value: none of them is white space or closes a collection. */
  predicate ValueLeads(b: Byte) {
    b in [OPEN_OBJECT, OPEN_ARRAY, QUOTE, 116, 102, 110, MINUS] || IsDigit(b)
  }

  lemma TextLeads(t: Text, rest: seq<Byte>)
    ensures TextThen(t, rest) != [] && ValueLeads(TextThen(t, rest)[0])
  {
  }

  lemma ElementsLead(e: Elements, rest: seq<Byte>)
    ensures ElementsThen(e, rest) != [] && ValueLeads(ElementsThen(e, rest)[0])
  {
    match e
    case LastElement(value, after) => TextLeads(value, after + ([CLOSE_ARRAY] + rest));
    case MoreElements(value, after, before, more) =>
      TextLeads(value, after + ([COMMA] + (before + ElementsThen(more, rest))));
  }

  lemma MembersLead(m: Members, rest: seq<Byte>)
    ensures MembersThen(m, rest) != [] && MembersThen(m, rest)[0] == QUOTE
  {
  }

  /** Behind a value come white space and a structural byte. */
  lemma StructureFollows(w: Whitespace, b: Byte, rest: seq<Byte>)
    requires NumberDelimiter(b) && !IsWhitespace(b)
    ensures Ends(w + ([b] + rest))
    ensures SkipWhitespace(w + ([b] + rest)) == [b] + rest
    ensures ([b] + rest)[1..] == rest
  {
    SkipPast(w, [b] + rest);
    if w != [] {
      assert (w + ([b] + rest))[0] == w[0];
    } else {
      assert w + ([b] + rest) == [b] + rest;
    }
  }

  lemma {:induction false} ReadsValue(t: Text, rest: seq<Byte>, depth: nat, nodes: nat, limits: Limits)
    requires Follows(t, rest)
    ensures ReadValue(TextThen(t, rest), depth, nodes, limits) == After(Walk(DocOf(t), depth, nodes, limits), rest)
    decreases t, 1
  {
    hide ReadNumber, ReadObject, ReadArray, ReadLiteral, ReadString, StringThen, StringMeaning, WalkItems, WalkEntries;
    if depth <= limits.maxDepth && nodes + 1 <= limits.maxNodes {
      match t
      case NumberText(n) => ReadsNumberValue(n, rest, depth, nodes, limits);
      case StringText(chars) => ReadsString(chars, rest, nodes + 1);
      case ArrayText(_, _) | EmptyArray(_) => ReadsArray(t, rest, depth, nodes, limits);
      case ObjectText(_, _) | EmptyObject(_) => ReadsObject(t, rest, depth, nodes, limits);
      case _ => ReadsWord(t, rest, depth, nodes, limits);
    }
  }

  lemma ReadsWord(t: Text, rest: seq<Byte>, depth: nat, nodes: nat, limits: Limits)
    requires t.NullWord? || t.TrueWord? || t.FalseWord?
    requires Follows(t, rest)
    requires depth <= limits.maxDepth && nodes + 1 <= limits.maxNodes
    ensures ReadValue(TextThen(t, rest), depth, nodes, limits) == After(Walk(DocOf(t), depth, nodes, limits), rest)
  {
    var word := match t case NullWord => NULL_TEXT case TrueWord => TRUE_TEXT case _ => FALSE_TEXT;
    assert TextThen(t, rest)[|word|..] == rest;
  }

  lemma ReadsNumberValue(n: Number, rest: seq<Byte>, depth: nat, nodes: nat, limits: Limits)
    requires Ends(rest)
    requires depth <= limits.maxDepth && nodes + 1 <= limits.maxNodes
    ensures ReadValue(TextThen(NumberText(n), rest), depth, nodes, limits)
            == After(Walk(NumberDoc(n), depth, nodes, limits), rest)
  {
    NumberDispatch(IntegerPart(n) + (NumberTail(n) + rest), depth, nodes, limits);
    ReadsNumber(n, rest, nodes + 1);
  }

  lemma NumberDispatch(s: seq<Byte>, depth: nat, nodes: nat, limits: Limits)
    requires s != [] && (s[0] == MINUS || IsDigit(s[0]))
    requires depth <= limits.maxDepth && nodes + 1 <= limits.maxNodes
    ensures ReadValue(s, depth, nodes, limits) == ReadNumber(s, nodes + 1)
  {
    hide ReadNumber, ReadObject, ReadArray, ReadLiteral, ReadString;
  }

  lemma {:induction false} ReadsArray(t: Text, rest: seq<Byte>, depth: nat, nodes: nat, limits: Limits)
    requires t.ArrayText? || t.EmptyArray?
    requires depth <= limits.maxDepth && nodes + 1 <= limits.maxNodes
    ensures ReadValue(TextThen(t, rest), depth, nodes, limits) == After(Walk(DocOf(t), depth, nodes, limits), rest)
    decreases t, 0
  {
    hide ElementsThen, ReadElements, SkipWhitespace, DocsOf;
    if t.EmptyArray? {
      OpensCollection(OPEN_ARRAY, t.pad, [CLOSE_ARRAY] + rest);
    } else {
      ElementsLead(t.elements, rest);
      OpensCollection(OPEN_ARRAY, t.pad, ElementsThen(t.elements, rest));
      ReadsElements(t.elements, rest, depth, nodes + 1, limits, []);
    }
  }

  lemma {:induction false} ReadsObject(t: Text, rest: seq<Byte>, depth: nat, nodes: nat, limits: Limits)
    requires t.ObjectText? || t.EmptyObject?
    requires depth <= limits.maxDepth && nodes + 1 <= limits.maxNodes
    ensures ReadValue(TextThen(t, rest), depth, nodes, limits) == After(Walk(DocOf(t), depth, nodes, limits), rest)
    decreases t, 0
  {
    hide MembersThen, ReadMembers, SkipWhitespace, EntriesOf;
    if t.EmptyObject? {
      OpensCollection(OPEN_OBJECT, t.pad, [CLOSE_OBJECT] + rest);
    } else {
      MembersLead(t.members, rest);
      OpensCollection(OPEN_OBJECT, t.pad, MembersThen(t.members, rest));
      ReadsMembers(t.members, rest, depth, nodes + 1, limits, map[]);
    }
  }

  lemma OpensCollection(open: Byte, pad: Whitespace, inner: seq<Byte>)
    requires inner == [] || !IsWhitespace(inner[0])
    ensures ([open] + (pad + inner))[1..] == pad + inner
    ensures SkipWhitespace(pad + inner) == inner
  {
    SkipPast(pad, inner);
  }

  lemma {:induction false} ReadsElements(e: Elements, rest: seq<Byte>, depth: nat, nodes: nat, limits: Limits,
                                         done: seq<Value>)
    ensures ReadElements(ElementsThen(e, rest), depth, nodes, limits, done)
            == AfterItems(WalkItems(DocsOf(e), depth + 1, nodes, limits, done), rest)
    decreases e, 1
  {
    hide ReadValue, TextThen, Walk, DocOf, SkipWhitespace;
    match e
    case LastElement(value, after) =>
      StructureFollows(after, CLOSE_ARRAY, rest);
      ReadsValue(value, after + ([CLOSE_ARRAY] + rest), depth + 1, nodes, limits);
    case MoreElements(value, after, before, more) =>
      var tail := before + ElementsThen(more, rest);
      StructureFollows(after, COMMA, tail);
      ReadsValue(value, after + ([COMMA] + tail), depth + 1, nodes, limits);
      var first := Walk(DocOf(value), depth + 1, nodes, limits);
      if first.Accepted? {
        ElementsLead(more, rest);
        SkipPast(before, ElementsThen(more, rest));
        ReadsElements(more, rest, depth, first.nodes, limits, done + [first.value]);
      }
  }

  lemma {:induction false} ReadsMembers(m: Members, rest: seq<Byte>, depth: nat, nodes: nat, limits: Limits,
                                        done: map<string, Value>)
    ensures ReadMembers(MembersThen(m, rest), depth, nodes, limits, done)
            == AfterEntries(WalkEntries(EntriesOf(m), depth + 1, nodes, limits, done), rest)
    decreases m, 1
  {
    hide ReadMembers, MemberThen, Walk, DocOf, SkipWhitespace, KeyOf;
    match m
    case LastMember(member) =>
      ReadsMember(member, CLOSE_OBJECT, rest, depth, nodes, limits, done);
    case MoreMembers(member, before, more) =>
      var tail := before + MembersThen(more, rest);
      ReadsMember(member, COMMA, tail, depth, nodes, limits, done);
      var key, first := KeyOf(member.key), Walk(DocOf(member.value), depth + 1, nodes, limits);
      if key.Name? && key.name !in done && first.Accepted? {
        MembersLead(more, rest);
        SkipPast(before, MembersThen(more, rest));
        ReadsMembers(more, rest, depth, first.nodes, limits, done[key.name := first.value]);
      }
  }

  lemma ReadsKey(m: Member, rest: seq<Byte>, nodes: nat, done: map<string, Value>)
    ensures ReadKey(MemberThen(m, rest), nodes, done)
            == match KeyOf(m.key)
               case BadKey(error) => Fail(error)
               case Name(key) =>
                 if key in done then Fail(DuplicateKey(key)) else Done(key, TextThen(m.value, m.after + rest), nodes)
  {
    hide ReadString, TextThen, SkipWhitespace, StringMeaning;
    var value := TextThen(m.value, m.after + rest);
    TextLeads(m.value, m.after + rest);
    ColonFollows(m.beforeColon, m.afterColon, value);
    ReadsString(m.key, m.beforeColon + ([COLON] + (m.afterColon + value)), nodes);
  }

  lemma ColonFollows(before: Whitespace, after: Whitespace, value: seq<Byte>)
    requires value != [] && !IsWhitespace(value[0])
    ensures SkipWhitespace(before + ([COLON] + (after + value))) == [COLON] + (after + value)
    ensures SkipWhitespace(([COLON] + (after + value))[1..]) == value
  {
    SkipPast(before, [COLON] + (after + value));
    assert ([COLON] + (after + value))[1..] == after + value;
    SkipPast(after, value);
  }

  /** One member: where reading stops and why, or what is left behind it. */
  lemma {:induction false} ReadsMember(m: Member, b: Byte, rest: seq<Byte>, depth: nat, nodes: nat, limits: Limits,
                                       done: map<string, Value>)
    requires b == CLOSE_OBJECT || b == COMMA
    ensures var s := MemberThen(m, [b] + rest);
            var key, first := KeyOf(m.key), Walk(DocOf(m.value), depth + 1, nodes, limits);
            ReadMembers(s, depth, nodes, limits, done)
            == if key.BadKey? then Fail(key.error)
               else if key.name in done then Fail(DuplicateKey(key.name))
               else if first.Rejected? then Fail(first.error)
               else if b == CLOSE_OBJECT then Done(Object(done[key.name := first.value]), rest, first.nodes)
               else ReadMembers(SkipWhitespace(rest), depth, first.nodes, limits, done[key.name := first.value])
    decreases m, 0
  {
    hide ReadKey, TextThen, Walk, DocOf, SkipWhitespace, ReadValue, KeyOf, MemberThen;
    ReadsKey(m, [b] + rest, nodes, done);
    StructureFollows(m.after, b, rest);
    ReadsValue(m.value, m.after + ([b] + rest), depth + 1, nodes, limits);
  }
}
