/**
  What an error of the JSON reader says about the input, for every byte sequence.

  A `Partial` is the part of a JSON value that has been read when reading stops: the collections
  that are still open, the complete elements and members in front, and the place inside. Reading
  ends in an error exactly when there is such a part, everything in front of the place is fine, and
  the bytes at the place are no continuation; the error names what was found there.
  */
module JsonFaults {
  import opened Utf8
  import opened CanonicalJson
  import opened Decimal
  import opened JsonGrammar
  import opened JsonStrings
  import opened DocumentWalk
  import opened JsonReader
  import opened JsonReaderProofs
  import opened JsonReaderSoundness

  // ----- Faulty tokens -----

  predicate Blank(b: Byte) {
    b == 0x20 || b == 0x09 || b == 0x0A || b == 0x0D
  }

  /** The quote at `i` ends the string that starts with the quote at 0. */
  predicate Closes(s: seq<Byte>, i: nat)
    requires 0 < i < |s|
  {
    s[i] == 0x22 && !EscapedAt(s, 1, i)
  }

  /** Up to `i` the string is not ended and has no control character. */
  predicate OpenUntil(s: seq<Byte>, i: nat)
    requires i <= |s|
  {
    forall j :: 0 < j < i ==> s[j] >= 0x20 && !Closes(s, j)
  }

  ghost predicate DenotesText(body: seq<Byte>) {
    exists chars :: StringBytes(chars) == body && StringMeaning(chars).Some?
  }

  ghost predicate ControlAt(s: seq<Byte>, i: nat) {
    0 < i < |s| && OpenUntil(s, i) && s[i] < 0x20
  }

  ghost predicate ClosedAt(s: seq<Byte>, i: nat) {
    0 < i < |s| && OpenUntil(s, i) && Closes(s, i)
  }

  /** `s` starts with a quote. */
  ghost predicate StringFault(s: seq<Byte>, e: ConfigError) {
    || (e == InvalidDocument("unterminated JSON string") && OpenUntil(s, |s|))
    || (e == InvalidDocument("control character in JSON string") && exists i: nat :: ControlAt(s, i))
    || (e == InvalidDocument("undecodable JSON string") && exists i: nat :: ClosedAt(s, i) && !DenotesText(s[1..i]))
  }

  predicate WordLetter(b: Byte) {
    0x30 <= b <= 0x39 || 0x41 <= b <= 0x5A || 0x61 <= b <= 0x7A || b == 0x5F
  }

  /** The word stands at the front and is not continued. */
  predicate WordAt(s: seq<Byte>, word: seq<Byte>) {
    word <= s && (|s| > |word| ==> !WordLetter(s[|word|]))
  }

  /** `s` starts with the first letter of one of the three words. */
  ghost predicate WordFault(s: seq<Byte>, e: ConfigError) {
    && e == InvalidDocument("invalid JSON literal")
    && !WordAt(s, [0x74, 0x72, 0x75, 0x65])
    && !WordAt(s, [0x66, 0x61, 0x6C, 0x73, 0x65])
    && !WordAt(s, [0x6E, 0x75, 0x6C, 0x6C])
  }

  predicate Delimits(b: Byte) {
    b == 0x2C || b == 0x5D || b == 0x7D || Blank(b)
  }

  predicate Continues(b: Byte) {
    b == 0x2E || b == 0x65 || b == 0x45
  }

  /** The longest integer at the front has `k` bytes. */
  predicate IntegerAt(s: seq<Byte>, k: nat) {
    0 < k <= |s| && IntegerText(s[..k]) && (k < |s| ==> !IsDigit(s[k]))
  }

  /** Not the spelling of an integer from -2^63 to 2^64 - 1. */
  predicate OutOfRange(integer: seq<Byte>)
    requires IntegerText(integer)
  {
    integer == [0x2D, 0x30] || !(-0x8000_0000_0000_0000 <= IntegerValue(integer) <= 0xFFFF_FFFF_FFFF_FFFF)
  }

  ghost predicate NotCanonical(s: seq<Byte>, k: nat) {
    && IntegerAt(s, k)
    && (if k < |s| && Continues(s[k]) then true else (k < |s| ==> Delimits(s[k])) && OutOfRange(s[..k]))
  }

  ghost predicate Runs(s: seq<Byte>, k: nat) {
    IntegerAt(s, k) && k < |s| && !Continues(s[k]) && !Delimits(s[k])
  }

  /** `s` starts with a minus sign or a digit. */
  ghost predicate NumberFault(s: seq<Byte>, e: ConfigError)
    requires s != []
  {
    var digits := if s[0] == 0x2D then s[1..] else s;
    || (e == NonCanonicalNumber && exists k: nat :: NotCanonical(s, k))
    || (e == InvalidDocument("incomplete JSON number") && digits == [])
    || (e == InvalidDocument("leading zero in JSON number") && |digits| > 1 && digits[0] == 0x30 && IsDigit(digits[1]))
    || (e == InvalidDocument("invalid JSON number")
        && ((digits != [] && !IsDigit(digits[0])) || exists k: nat :: Runs(s, k)))
  }

  /** No value starts here, or a scalar that is no value. */
  ghost predicate TokenFault(s: seq<Byte>, e: ConfigError) {
    if s == [] then e == InvalidDocument("expected a JSON value")
    else if s[0] == 0x22 then StringFault(s, e)
    else if s[0] == 0x74 || s[0] == 0x66 || s[0] == 0x6E then WordFault(s, e)
    else if s[0] == 0x2D || IsDigit(s[0]) then NumberFault(s, e)
    else s[0] != 0x7B && s[0] != 0x5B && e == InvalidDocument("expected a JSON value")
  }

  // ----- The part that was read -----

  datatype Partial =
    | Stop
    | InArray(pad: Whitespace, elements: PartialElements)
    | InObject(pad: Whitespace, members: PartialMembers)

  datatype PartialElements =
    | ElementStops(value: Partial)
    | AfterElement(complete: Text, after: Whitespace)
    | NextElement(complete: Text, after: Whitespace, before: Whitespace, rest: PartialElements)

  datatype PartialMembers =
    | KeyStops
    | AfterKey(key: seq<StringChar>)
    | BeforeColon(key: seq<StringChar>, beforeColon: Whitespace)
    | ValueStops(key: seq<StringChar>, beforeColon: Whitespace, afterColon: Whitespace, value: Partial)
    | AfterMember(complete: Member)
    | NextMember(complete: Member, before: Whitespace, rest: PartialMembers)

  function PartThen(p: Partial, rest: seq<Byte>): (bytes: seq<Byte>) {
    match p
    case Stop => rest
    case InArray(pad, elements) => [0x5B] + (pad + PartElementsThen(elements, rest))
    case InObject(pad, members) => [0x7B] + (pad + PartMembersThen(members, rest))
  }

  function PartElementsThen(e: PartialElements, rest: seq<Byte>): (bytes: seq<Byte>) {
    match e
    case ElementStops(value) => PartThen(value, rest)
    case AfterElement(value, after) => TextThen(value, after + rest)
    case NextElement(value, after, before, more) =>
      TextThen(value, after + ([0x2C] + (before + PartElementsThen(more, rest))))
  }

  function PartMembersThen(m: PartialMembers, rest: seq<Byte>): (bytes: seq<Byte>) {
    match m
    case KeyStops => rest
    case AfterKey(key) => StringThen(key, rest)
    case BeforeColon(key, beforeColon) => StringThen(key, beforeColon + rest)
    case ValueStops(key, beforeColon, afterColon, value) =>
      StringThen(key, beforeColon + ([0x3A] + (afterColon + PartThen(value, rest))))
    case AfterMember(member) => MemberThen(member, rest)
    case NextMember(member, before, more) => MemberThen(member, [0x2C] + (before + PartMembersThen(more, rest)))
  }

  predicate StartsBlank(s: seq<Byte>) {
    s != [] && Blank(s[0])
  }

  /** A complete value in front: nothing in it is refused, and it stays within the limits. */
  ghost predicate Fine(t: Text, depth: nat, nodes: nat, limits: Limits) {
    WellFormed(DocOf(t)) && WithinLimits(DocOf(t), depth, nodes, limits)
  }

  ghost predicate NewKey(key: seq<StringChar>, seen: set<string>) {
    StringMeaning(key).Some? && StringMeaning(key).value !in seen
  }

  /** With `nodes` values counted before it, reading this part stops in front of `rest` with the error. */
  ghost predicate StopsAt(p: Partial, rest: seq<Byte>, depth: nat, nodes: nat, limits: Limits, e: ConfigError) {
    match p
    case Stop =>
      && !StartsBlank(rest)
      && (if depth > limits.maxDepth then depth == limits.maxDepth + 1 && e == InputTooDeep(limits.maxDepth, depth)
          else if nodes >= limits.maxNodes then
            nodes == limits.maxNodes && e == InputTooComplex(limits.maxNodes, nodes + 1)
          else TokenFault(rest, e))
    case InArray(_, elements) =>
      && depth <= limits.maxDepth && nodes < limits.maxNodes
      && !StartsWith(PartElementsThen(elements, rest), 0x5D)
      && ElementsStopAt(elements, rest, depth + 1, nodes + 1, limits, e)
    case InObject(_, members) =>
      && depth <= limits.maxDepth && nodes < limits.maxNodes
      && !StartsWith(PartMembersThen(members, rest), 0x7D)
      && MembersStopAt(members, rest, depth + 1, nodes + 1, {}, limits, e)
  }

  ghost predicate ElementsStopAt(
    p: PartialElements, rest: seq<Byte>, depth: nat, nodes: nat, limits: Limits, e: ConfigError)
  {
    match p
    case ElementStops(value) => StopsAt(value, rest, depth, nodes, limits, e)
    case AfterElement(value, after) =>
      && Fine(value, depth, nodes, limits) && Follows(value, after + rest)
      && !StartsBlank(rest) && !StartsWith(rest, 0x2C) && !StartsWith(rest, 0x5D)
      && e == InvalidDocument("invalid JSON syntax")
    case NextElement(value, after, before, more) =>
      && Fine(value, depth, nodes, limits)
      && ElementsStopAt(more, rest, depth, nodes + Size(DocOf(value)), limits, e)
  }

  /** `seen` are the keys of the members in front. */
  ghost predicate MembersStopAt(
    p: PartialMembers, rest: seq<Byte>, depth: nat, nodes: nat, seen: set<string>, limits: Limits, e: ConfigError)
  {
    match p
    case KeyStops =>
      && !StartsBlank(rest)
      && (if StartsWith(rest, 0x22) then StringFault(rest, e)
          else e == InvalidDocument("JSON object keys must be strings"))
    case AfterKey(key) =>
      StringMeaning(key).Some? && StringMeaning(key).value in seen && e == DuplicateKey(StringMeaning(key).value)
    case BeforeColon(key, _) =>
      && NewKey(key, seen) && !StartsBlank(rest) && !StartsWith(rest, 0x3A)
      && e == InvalidDocument("invalid JSON syntax")
    case ValueStops(key, _, _, value) => NewKey(key, seen) && StopsAt(value, rest, depth, nodes, limits, e)
    case AfterMember(member) =>
      && NewKey(member.key, seen) && Fine(member.value, depth, nodes, limits)
         && Follows(member.value, member.after + rest)
      && !StartsBlank(rest) && !StartsWith(rest, 0x2C) && !StartsWith(rest, 0x7D)
      && e == InvalidDocument("invalid JSON syntax")
    case NextMember(member, _, more) =>
      && NewKey(member.key, seen) && Fine(member.value, depth, nodes, limits)
      && MembersStopAt(more, rest, depth, nodes + Size(DocOf(member.value)), seen + {StringMeaning(member.key).value},
                       limits, e)
  }

  // ----- Strings -----

  lemma {:induction false} ScanMeans(s: seq<Byte>, i: nat)
    requires 0 < i <= |s| && OpenUntil(s, i)
    ensures match ScanString(s[i..], EscapedAt(s, 1, i))
            case Closed(at) => ClosedAt(s, i + at)
            case ControlCharacter => exists j: nat :: ControlAt(s, j)
            case Unterminated => OpenUntil(s, |s|)
    decreases |s| - i
  {
    hide ScanString, EscapedAt;
    if i == |s| {
      ScanEnds(s, 1);
    } else {
      ScanStep(s, 1, i);
      if s[i] == QUOTE && !EscapedAt(s, 1, i) {
        assert ClosedAt(s, i);
      } else if s[i] < 0x20 {
        assert ControlAt(s, i);
      } else {
        ScanMeans(s, i + 1);
      }
    }
  }

  lemma Undecodable(body: seq<Byte>)
    ensures DecodeBody(body).None? <==> !DenotesText(body)
  {
    hide DecodeBody, StringBytes, StringMeaning;
    if DecodeBody(body).Some? {
      var chars := DecodedIsGrammatical(body);
      DecodeIsMeaning(chars);
    }
    if chars :| StringBytes(chars) == body && StringMeaning(chars).Some? {
      DecodeIsMeaning(chars);
    }
  }

  /** Reading a string fails exactly with the fault of its bytes. */
  lemma StringFaults(s: seq<Byte>, nodes: nat, e: ConfigError)
    requires StartsWith(s, QUOTE)
    ensures ReadString(s, nodes) == Fail(e) <==> StringFault(s, e)
  {
    hide ScanString, DecodeBody, EscapedAt, DenotesText;
    ScanStarts(s, 1);
    ScanMeans(s, 1);
    match ScanString(s[1..], false)
    case Closed(at) =>
      assert s[1..][..at] == s[1..at + 1];
      Undecodable(s[1..at + 1]);
    case ControlCharacter =>
    case Unterminated =>
  }

  // ----- Numbers and words -----

  lemma IntegerEnd(s: seq<Byte>, j: nat, k: nat)
    requires IntegerAt(s, j) && IntegerAt(s, k)
    ensures j == k
  {
    if j < k {
      IntegerDigit(s, j, k);
    } else if k < j {
      IntegerDigit(s, k, j);
    }
  }

  lemma IntegerDigit(s: seq<Byte>, j: nat, k: nat)
    requires 0 < j < k && IntegerAt(s, k)
    ensures IsDigit(s[j])
  {
    var integer := s[..k];
    if integer[0] == MINUS {
      assert integer[j] == integer[1..][j - 1];
    }
  }

  /** The integer part that was skipped is the longest integer at the front. */
  lemma SkippedInteger(s: seq<Byte>, unsigned: seq<Byte>, k: nat)
    requires s != [] && unsigned == (if s[0] == MINUS then s[1..] else s)
    requires SkipInteger(unsigned).Done? && k == |s| - |SkipInteger(unsigned).rest|
    ensures IntegerAt(s, k) && s[k..] == SkipInteger(unsigned).rest
  {
    hide SkipDigits;
    var rest := SkipInteger(unsigned).rest;
    IntegerTextLeads(s, rest);
    if rest != [] { SkipsToNoDigit(unsigned); }
  }

  lemma SkipsToNoDigit(unsigned: seq<Byte>)
    requires SkipInteger(unsigned).Done? && SkipInteger(unsigned).rest != []
    ensures !IsDigit(SkipInteger(unsigned).rest[0])
  {
  }

  lemma SkipIntegerFails(unsigned: seq<Byte>)
    requires unsigned != []
    ensures SkipInteger(unsigned).Fail? <==>
              (unsigned[0] == 0x30 && |unsigned| > 1 && IsDigit(unsigned[1])) || !IsDigit(unsigned[0])
    ensures SkipInteger(unsigned).Fail? ==>
              SkipInteger(unsigned).error
              == InvalidDocument(if IsDigit(unsigned[0]) then "leading zero in JSON number" else "invalid JSON number")
  {
    hide SkipDigits;
  }

  /** An integer at the front starts with a digit behind its sign, and a zero is not followed by one. */
  lemma IntegerStarts(s: seq<Byte>, digits: seq<Byte>, k: nat)
    requires IntegerAt(s, k) && digits == (if s[0] == 0x2D then s[1..] else s)
    ensures digits != [] && IsDigit(digits[0]) && !(|digits| > 1 && digits[0] == 0x30 && IsDigit(digits[1]))
  {
    var integer := s[..k];
    if s[0] == 0x2D {
      assert integer[1..] == digits[..k - 1];
    } else {
      assert integer == digits[..k];
    }
  }

  lemma FinishFaults(s: seq<Byte>, k: nat, nodes: nat, e: ConfigError)
    requires IntegerAt(s, k)
    ensures FinishNumber(s[..k], s[k..], nodes) == Fail(e)
            <==> ((e == NonCanonicalNumber && NotCanonical(s, k))
                  || (e == InvalidDocument("invalid JSON number") && Runs(s, k)))
  {
    hide IntegerAt;
    IntegerIsText(s, k);
    if k < |s| { assert s[k..][0] == s[k]; }
  }

  lemma IntegerIsText(s: seq<Byte>, k: nat)
    requires IntegerAt(s, k)
    ensures 0 < k <= |s| && IntegerText(s[..k])
    ensures s[..k][0] != MINUS ==> IntegerValue(s[..k]) >= 0
    ensures s[..k][0] == MINUS ==> IntegerValue(s[..k]) <= 0
  {
  }

  lemma NumberFaults(s: seq<Byte>, nodes: nat, e: ConfigError)
    requires s != [] && (s[0] == MINUS || IsDigit(s[0]))
    ensures ReadNumber(s, nodes) == Fail(e) <==> NumberFault(s, e)
  {
    hide SkipInteger, FinishNumber, NotCanonical, Runs, IntegerAt, ReadNumber;
    var unsigned := if s[0] == MINUS then s[1..] else s;
    if unsigned == [] {
      ReadNumberFails(s, unsigned, nodes);
      NoInteger(s, unsigned);
    } else {
      SkipIntegerFails(unsigned);
      if SkipInteger(unsigned).Fail? {
        ReadNumberFails(s, unsigned, nodes);
        NoInteger(s, unsigned);
      } else {
        var rest := SkipInteger(unsigned).rest;
        var k := |s| - |rest|;
        SkippedInteger(s, unsigned, k);
        ReadNumberFinishes(s, unsigned, rest, nodes);
        FinishFaults(s, k, nodes, e);
        OnlyEnd(s, k);
      }
    }
  }

  lemma NoInteger(s: seq<Byte>, digits: seq<Byte>)
    requires s != [] && digits == (if s[0] == 0x2D then s[1..] else s)
    requires digits == [] || !IsDigit(digits[0]) || (|digits| > 1 && digits[0] == 0x30 && IsDigit(digits[1]))
    ensures forall k: nat :: !NotCanonical(s, k) && !Runs(s, k)
  {
    forall k: nat ensures !IntegerAt(s, k) {
      if IntegerAt(s, k) { IntegerStarts(s, digits, k); }
    }
  }

  lemma OnlyEnd(s: seq<Byte>, k: nat)
    requires IntegerAt(s, k)
    ensures forall j: nat :: (NotCanonical(s, j) ==> NotCanonical(s, k)) && (Runs(s, j) ==> Runs(s, k))
  {
    forall j: nat | IntegerAt(s, j) ensures j == k { IntegerEnd(s, j, k); }
  }

  lemma WordFaults(s: seq<Byte>, word: seq<Byte>, v: Value, nodes: nat, e: ConfigError)
    requires word in [TRUE_TEXT, FALSE_TEXT, NULL_TEXT] && s != [] && s[0] == word[0]
    ensures ReadLiteral(s, word, v, nodes) == Fail(e) <==> WordFault(s, e)
  {
    if word <= s { assert s[0] == word[0]; }
  }

  /** A value that is no collection, within the limits, fails exactly with the fault of its token. */
  lemma TokenFaults(s: seq<Byte>, depth: nat, nodes: nat, limits: Limits, e: ConfigError)
    requires depth <= limits.maxDepth && nodes < limits.maxNodes
    requires s == [] || (s[0] != OPEN_ARRAY && s[0] != OPEN_OBJECT)
    ensures ReadValue(s, depth, nodes, limits) == Fail(e) <==> TokenFault(s, e)
  {
    hide ReadNumber, ReadString, ReadLiteral, ReadArray, ReadObject, StringFault, NumberFault, WordFault;
    if s != [] {
      if s[0] == QUOTE {
        StringFaults(s, nodes + 1, e);
      } else if s[0] == 0x74 {
        WordFaults(s, TRUE_TEXT, Bool(true), nodes + 1, e);
      } else if s[0] == 0x66 {
        WordFaults(s, FALSE_TEXT, Bool(false), nodes + 1, e);
      } else if s[0] == 0x6E {
        WordFaults(s, NULL_TEXT, Null, nodes + 1, e);
      } else if s[0] == MINUS || IsDigit(s[0]) {
        NumberFaults(s, nodes + 1, e);
      }
    }
  }

  // ----- Every failure is explained by the part that was read -----

  lemma CompleteValue(s: seq<Byte>, depth: nat, nodes: nat, limits: Limits) returns (t: Text)
    requires ReadValue(s, depth, nodes, limits).Done?
    ensures var r := ReadValue(s, depth, nodes, limits);
            s == TextThen(t, r.rest) && Follows(t, r.rest) && Fine(t, depth, nodes, limits)
            && r.nodes == nodes + Size(DocOf(t)) <= limits.maxNodes
  {
    hide ReadValue, TextThen, Walk, DocOf, WellFormed, Height, Size, Follows;
    t := ValueWasText(s, depth, nodes, limits);
    ReadsValue(t, ReadValue(s, depth, nodes, limits).rest, depth, nodes, limits);
    WalkAccepts(DocOf(t), depth, nodes, limits);
  }

  lemma SkipsBlanks(s: seq<Byte>)
    ensures !StartsBlank(SkipWhitespace(s))
  {
  }

  lemma {:induction false} ValueStopped(s: seq<Byte>, depth: nat, nodes: nat, limits: Limits)
    returns (p: Partial, rest: seq<Byte>)
    requires ReadValue(s, depth, nodes, limits).Fail? && !StartsBlank(s)
    requires depth <= limits.maxDepth + 1 && nodes <= limits.maxNodes
    ensures s == PartThen(p, rest)
    ensures StopsAt(p, rest, depth, nodes, limits, ReadValue(s, depth, nodes, limits).error)
    decreases |s|, 1
  {
    hide TokenFault, SkipWhitespace, ReadElements, ReadMembers;
    p, rest := Stop, s;
    if depth <= limits.maxDepth && nodes < limits.maxNodes {
      if StartsWith(s, OPEN_ARRAY) {
        var pad := Opened(s);
        var inner := SkipWhitespace(s[1..]);
        SkipsBlanks(s[1..]);
        var elements;
        elements, rest := ElementsStopped(inner, depth, nodes + 1, limits, []);
        p := InArray(pad, elements);
      } else if StartsWith(s, OPEN_OBJECT) {
        var pad := Opened(s);
        var inner := SkipWhitespace(s[1..]);
        SkipsBlanks(s[1..]);
        var none: map<string, Value> := map[];
        assert none.Keys == {};
        var members;
        members, rest := MembersStopped(inner, depth, nodes + 1, limits, none);
        p := InObject(pad, members);
      } else {
        TokenFaults(s, depth, nodes, limits, ReadValue(s, depth, nodes, limits).error);
      }
    }
  }

  lemma {:induction false} ElementsStopped(s: seq<Byte>, depth: nat, nodes: nat, limits: Limits, done: seq<Value>)
    returns (p: PartialElements, rest: seq<Byte>)
    requires ReadElements(s, depth, nodes, limits, done).Fail? && !StartsBlank(s)
    requires depth <= limits.maxDepth && nodes <= limits.maxNodes
    ensures s == PartElementsThen(p, rest)
    ensures ElementsStopAt(p, rest, depth + 1, nodes, limits, ReadElements(s, depth, nodes, limits, done).error)
    decreases |s|, 2
  {
    hide ReadValue, TextThen, StopsAt, SkipWhitespace, Fine, Follows, DocOf, Size;
    var first := ReadValue(s, depth + 1, nodes, limits);
    if first.Fail? {
      var value;
      value, rest := ValueStopped(s, depth + 1, nodes, limits);
      p := ElementStops(value);
    } else {
      var value := CompleteValue(s, depth + 1, nodes, limits);
      var after := SkippedWhitespace(first.rest);
      var next := SkipWhitespace(first.rest);
      SkipsBlanks(first.rest);
      if StartsWith(next, COMMA) {
        var before := SkippedWhitespace(next[1..]);
        SkipsBlanks(next[1..]);
        var more;
        more, rest := ElementsStopped(SkipWhitespace(next[1..]), depth, first.nodes, limits, done + [first.value]);
        p := NextElement(value, after, before, more);
        assert next == [COMMA] + next[1..];
      } else {
        p, rest := AfterElement(value, after), next;
      }
    }
  }

  lemma KeyStopped(s: seq<Byte>, nodes: nat, done: map<string, Value>) returns (p: PartialMembers, rest: seq<Byte>)
    requires ReadKey(s, nodes, done).Fail? && !StartsBlank(s)
    ensures s == PartMembersThen(p, rest)
    ensures forall depth: nat, n: nat, limits ::
              MembersStopAt(p, rest, depth, n, done.Keys, limits, ReadKey(s, nodes, done).error)
  {
    hide ReadString, StringFault, SkipWhitespace, StringMeaning, StringThen;
    p, rest := KeyStops, s;
    if StartsWith(s, QUOTE) {
      var read := ReadString(s, nodes);
      if read.Fail? {
        StringFaults(s, nodes, read.error);
      } else {
        var key := StringWasText(s, nodes);
        ReadsString(key, read.rest, nodes);
        if read.value in done {
          p, rest := AfterKey(key), read.rest;
        } else {
          var before := SkippedWhitespace(read.rest);
          SkipsBlanks(read.rest);
          p, rest := BeforeColon(key, before), SkipWhitespace(read.rest);
        }
      }
    }
  }

  lemma KeyRead(s: seq<Byte>, nodes: nat, done: map<string, Value>)
    returns (key: seq<StringChar>, before: Whitespace, after: Whitespace)
    requires ReadKey(s, nodes, done).Done?
    ensures s == StringThen(key, before + ([COLON] + (after + ReadKey(s, nodes, done).rest)))
    ensures NewKey(key, done.Keys) && StringMeaning(key).value == ReadKey(s, nodes, done).value
    ensures !StartsBlank(ReadKey(s, nodes, done).rest)
  {
    hide SkipWhitespace, StringMeaning, ReadString, StringThen;
    key := StringWasText(s, nodes);
    var afterKey := ReadString(s, nodes).rest;
    ReadsString(key, afterKey, nodes);
    before := SkippedWhitespace(afterKey);
    var colon := SkipWhitespace(afterKey);
    assert colon == [COLON] + colon[1..];
    after := SkippedWhitespace(colon[1..]);
    SkipsBlanks(colon[1..]);
  }

  lemma {:induction false} MembersStopped(
    s: seq<Byte>, depth: nat, nodes: nat, limits: Limits, done: map<string, Value>)
    returns (p: PartialMembers, rest: seq<Byte>)
    requires ReadMembers(s, depth, nodes, limits, done).Fail? && !StartsBlank(s)
    requires depth <= limits.maxDepth && nodes <= limits.maxNodes
    ensures s == PartMembersThen(p, rest)
    ensures MembersStopAt(p, rest, depth + 1, nodes, done.Keys, limits,
                          ReadMembers(s, depth, nodes, limits, done).error)
    decreases |s|, 2
  {
    hide ReadValue, ReadKey, TextThen, StopsAt, SkipWhitespace, Fine, Follows, DocOf, Size, StringMeaning, StringThen;
    var named := ReadKey(s, nodes, done);
    if named.Fail? {
      p, rest := KeyStopped(s, nodes, done);
      return;
    }
    var key, beforeColon, afterColon := KeyRead(s, nodes, done);
    var first := ReadValue(named.rest, depth + 1, nodes, limits);
    if first.Fail? {
      var value;
      value, rest := ValueStopped(named.rest, depth + 1, nodes, limits);
      p := ValueStops(key, beforeColon, afterColon, value);
      return;
    }
    var value := CompleteValue(named.rest, depth + 1, nodes, limits);
    var after := SkippedWhitespace(first.rest);
    var next := SkipWhitespace(first.rest);
    SkipsBlanks(first.rest);
    var member := Member(key, beforeColon, afterColon, value, after);
    if StartsWith(next, COMMA) {
      var before := SkippedWhitespace(next[1..]);
      SkipsBlanks(next[1..]);
      var more;
      var known := done[named.value := first.value];
      assert known.Keys == done.Keys + {named.value};
      more, rest := MembersStopped(SkipWhitespace(next[1..]), depth, first.nodes, limits, known);
      p := NextMember(member, before, more);
      assert next == [COMMA] + next[1..];
    } else {
      p, rest := AfterMember(member), next;
    }
  }

  // ----- Every part that stops is read up to its fault -----

  lemma {:induction false} PartLeads(p: Partial, rest: seq<Byte>, depth: nat, nodes: nat, limits: Limits,
                                     e: ConfigError)
    requires StopsAt(p, rest, depth, nodes, limits, e)
    ensures !StartsBlank(PartThen(p, rest))
  {
  }

  lemma TextIsNotBlank(t: Text, rest: seq<Byte>)
    ensures !StartsBlank(TextThen(t, rest))
  {
    hide TextThen;
    TextLeads(t, rest);
  }

  lemma PartElementsLead(
    p: PartialElements, rest: seq<Byte>, depth: nat, nodes: nat, limits: Limits, e: ConfigError)
    requires ElementsStopAt(p, rest, depth, nodes, limits, e)
    ensures !StartsBlank(PartElementsThen(p, rest))
  {
    hide StopsAt, TextThen, PartThen;
    match p
    case ElementStops(value) => PartLeads(value, rest, depth, nodes, limits, e);
    case AfterElement(value, after) => TextIsNotBlank(value, after + rest);
    case NextElement(value, after, before, more) =>
      TextIsNotBlank(value, after + ([0x2C] + (before + PartElementsThen(more, rest))));
  }

  lemma PartMembersLead(
    p: PartialMembers, rest: seq<Byte>, depth: nat, nodes: nat, seen: set<string>, limits: Limits, e: ConfigError)
    requires MembersStopAt(p, rest, depth, nodes, seen, limits, e)
    ensures !StartsBlank(PartMembersThen(p, rest))
  {
  }

  lemma FineIsAccepted(t: Text, depth: nat, nodes: nat, limits: Limits)
    requires Fine(t, depth, nodes, limits)
    ensures var r := Walk(DocOf(t), depth, nodes, limits); r.Accepted? && r.nodes == nodes + Size(DocOf(t))
  {
    WalkAccepts(DocOf(t), depth, nodes, limits);
  }

  lemma {:induction false} ReadsPart(
    p: Partial, rest: seq<Byte>, depth: nat, nodes: nat, limits: Limits, e: ConfigError)
    requires StopsAt(p, rest, depth, nodes, limits, e)
    ensures ReadValue(PartThen(p, rest), depth, nodes, limits) == Fail(e)
    decreases p, 0
  {
    hide TokenFault, SkipWhitespace, ReadElements, ReadMembers, ElementsStopAt, MembersStopAt, PartElementsThen,
         PartMembersThen;
    match p
    case Stop =>
      if depth <= limits.maxDepth && nodes < limits.maxNodes {
        FaultIsNoCollection(rest, e);
        TokenFaults(rest, depth, nodes, limits, e);
      }
    case InArray(pad, elements) =>
      PartElementsLead(elements, rest, depth + 1, nodes + 1, limits, e);
      OpensCollection(OPEN_ARRAY, pad, PartElementsThen(elements, rest));
      ReadsPartElements(elements, rest, depth, nodes + 1, limits, [], e);
    case InObject(pad, members) =>
      PartMembersLead(members, rest, depth + 1, nodes + 1, {}, limits, e);
      OpensCollection(OPEN_OBJECT, pad, PartMembersThen(members, rest));
      var none: map<string, Value> := map[];
      assert none.Keys == {};
      ReadsPartMembers(members, rest, depth, nodes + 1, limits, none, e);
  }

  lemma FaultIsNoCollection(s: seq<Byte>, e: ConfigError)
    requires TokenFault(s, e)
    ensures s == [] || (s[0] != OPEN_ARRAY && s[0] != OPEN_OBJECT)
  {
  }

  lemma {:induction false} ReadsPartElements(
    p: PartialElements, rest: seq<Byte>, depth: nat, nodes: nat, limits: Limits, done: seq<Value>, e: ConfigError)
    requires ElementsStopAt(p, rest, depth + 1, nodes, limits, e)
    ensures ReadElements(PartElementsThen(p, rest), depth, nodes, limits, done) == Fail(e)
    decreases p, 0
  {
    hide ReadValue, TextThen, StopsAt, SkipWhitespace, Fine, DocOf, Size, Walk, PartThen;
    match p
    case ElementStops(value) => ReadsPart(value, rest, depth + 1, nodes, limits, e);
    case AfterElement(value, after) =>
      FineIsAccepted(value, depth + 1, nodes, limits);
      ReadsValue(value, after + rest, depth + 1, nodes, limits);
      SkipPast(after, rest);
    case NextElement(value, after, before, more) =>
      var tail := before + PartElementsThen(more, rest);
      FineIsAccepted(value, depth + 1, nodes, limits);
      StructureFollows(after, COMMA, tail);
      ReadsValue(value, after + ([COMMA] + tail), depth + 1, nodes, limits);
      var first := Walk(DocOf(value), depth + 1, nodes, limits);
      PartElementsLead(more, rest, depth + 1, first.nodes, limits, e);
      SkipPast(before, PartElementsThen(more, rest));
      ReadsPartElements(more, rest, depth, first.nodes, limits, done + [first.value], e);
  }

  lemma {:induction false} ReadsPartMembers(
    p: PartialMembers, rest: seq<Byte>, depth: nat, nodes: nat, limits: Limits, done: map<string, Value>,
    e: ConfigError)
    requires MembersStopAt(p, rest, depth + 1, nodes, done.Keys, limits, e)
    ensures ReadMembers(PartMembersThen(p, rest), depth, nodes, limits, done) == Fail(e)
    decreases p, 0
  {
    hide ReadMembers, TextThen, StopsAt, SkipWhitespace, Fine, DocOf, Size, Walk, PartThen, StringMeaning, ReadValue,
         MemberThen, ReadKey;
    match p
    case KeyStops | AfterKey(_) | BeforeColon(_, _) => ReadsPartKey(p, rest, depth, nodes, limits, done, e);
    case ValueStops(key, beforeColon, afterColon, value) =>
      ReadsPart(value, rest, depth + 1, nodes, limits, e);
      PartLeads(value, rest, depth + 1, nodes, limits, e);
      ReadsPartValue(key, beforeColon, afterColon, PartThen(value, rest), depth, nodes, limits, done, e);
    case AfterMember(member) => ReadsLastMember(member, rest, depth, nodes, limits, done);
    case NextMember(member, before, more) =>
      var tail := before + PartMembersThen(more, rest);
      ReadsMember(member, COMMA, tail, depth, nodes, limits, done);
      FineIsAccepted(member.value, depth + 1, nodes, limits);
      var key, first := StringMeaning(member.key).value, Walk(DocOf(member.value), depth + 1, nodes, limits);
      var known := done[key := first.value];
      assert known.Keys == done.Keys + {key};
      PartMembersLead(more, rest, depth + 1, first.nodes, known.Keys, limits, e);
      SkipPast(before, PartMembersThen(more, rest));
      ReadsPartMembers(more, rest, depth, first.nodes, limits, known, e);
  }

  lemma ReadsPartKey(
    p: PartialMembers, rest: seq<Byte>, depth: nat, nodes: nat, limits: Limits, done: map<string, Value>,
    e: ConfigError)
    requires p.KeyStops? || p.AfterKey? || p.BeforeColon?
    requires MembersStopAt(p, rest, depth + 1, nodes, done.Keys, limits, e)
    ensures ReadMembers(PartMembersThen(p, rest), depth, nodes, limits, done) == Fail(e)
  {
    hide ReadString, SkipWhitespace, ReadValue, StringMeaning, StringFault;
    match p
    case KeyStops => if StartsWith(rest, QUOTE) { StringFaults(rest, nodes, e); }
    case AfterKey(key) => ReadsString(key, rest, nodes);
    case BeforeColon(key, before) =>
      ReadsString(key, before + rest, nodes);
      SkipPast(before, rest);
  }

  lemma ReadsPartValue(
    key: seq<StringChar>, before: Whitespace, after: Whitespace, value: seq<Byte>, depth: nat, nodes: nat,
    limits: Limits, done: map<string, Value>, e: ConfigError)
    requires NewKey(key, done.Keys) && !StartsBlank(value) && ReadValue(value, depth + 1, nodes, limits) == Fail(e)
    ensures ReadMembers(StringThen(key, before + ([COLON] + (after + value))), depth, nodes, limits, done) == Fail(e)
  {
    hide ReadString, SkipWhitespace, ReadValue, StringMeaning, StringThen;
    ReadsString(key, before + ([COLON] + (after + value)), nodes);
    SkipPast(before, [COLON] + (after + value));
    assert ([COLON] + (after + value))[1..] == after + value;
    SkipPast(after, value);
  }

  lemma ReadsLastMember(
    m: Member, rest: seq<Byte>, depth: nat, nodes: nat, limits: Limits, done: map<string, Value>)
    requires NewKey(m.key, done.Keys) && Fine(m.value, depth + 1, nodes, limits) && Follows(m.value, m.after + rest)
    requires !StartsBlank(rest) && !StartsWith(rest, COMMA) && !StartsWith(rest, CLOSE_OBJECT)
    ensures ReadMembers(MemberThen(m, rest), depth, nodes, limits, done) == Fail(InvalidDocument("invalid JSON syntax"))
  {
    hide ReadKey, TextThen, Walk, DocOf, SkipWhitespace, ReadValue, MemberThen, Fine, StringMeaning, Follows;
    ReadsKey(m, rest, nodes, done);
    FineIsAccepted(m.value, depth + 1, nodes, limits);
    ReadsValue(m.value, m.after + rest, depth + 1, nodes, limits);
    SkipPast(m.after, rest);
  }

  // ----- Whole documents -----

  /** Reading stops inside the value, or behind a complete one that is not the end. */
  ghost predicate Refuses(s: seq<Byte>, limits: Limits, e: ConfigError) {
    || (exists before: Whitespace, p: Partial, rest: seq<Byte> ::
          s == before + PartThen(p, rest) && StopsAt(p, rest, 1, 0, limits, e))
    || (exists before: Whitespace, t: Text, after: Whitespace, rest: seq<Byte> ::
          s == before + TextThen(t, after + rest) && Trails(t, after, rest, limits, e))
  }

  ghost predicate Trails(t: Text, after: Whitespace, rest: seq<Byte>, limits: Limits, e: ConfigError) {
    && Fine(t, 1, 0, limits) && Follows(t, after + rest) && rest != [] && !StartsBlank(rest)
    && e == InvalidDocument("trailing data after JSON document")
  }

  lemma ErrorsAreExplained(s: seq<Byte>, limits: Limits)
    requires ReadDocument(s, limits).Err?
    ensures Refuses(s, limits, ReadDocument(s, limits).error)
  {
    hide ReadValue, StopsAt, Fine, Follows, TextThen, PartThen, SkipWhitespace;
    var before := SkippedWhitespace(s);
    var start := SkipWhitespace(s);
    SkipsBlanks(s);
    var read := ReadValue(start, 1, 0, limits);
    if read.Fail? {
      var p, rest := ValueStopped(start, 1, 0, limits);
      assert s == before + PartThen(p, rest);
    } else {
      var t := CompleteValue(start, 1, 0, limits);
      var after := SkippedWhitespace(read.rest);
      SkipsBlanks(read.rest);
      assert Trails(t, after, SkipWhitespace(read.rest), limits, ReadDocument(s, limits).error);
    }
  }

  lemma ExplainedErrors(s: seq<Byte>, limits: Limits, e: ConfigError)
    requires Refuses(s, limits, e)
    ensures ReadDocument(s, limits) == Err(e)
  {
    hide ReadValue, StopsAt, Fine, Follows, TextThen, PartThen, SkipWhitespace, DocOf, Walk;
    if before: Whitespace, p: Partial, rest: seq<Byte> :|
      s == before + PartThen(p, rest) && StopsAt(p, rest, 1, 0, limits, e)
    {
      PartLeads(p, rest, 1, 0, limits, e);
      SkipPast(before, PartThen(p, rest));
      ReadsPart(p, rest, 1, 0, limits, e);
    } else {
      var before: Whitespace, t: Text, after: Whitespace, rest: seq<Byte> :|
        s == before + TextThen(t, after + rest) && Trails(t, after, rest, limits, e);
      TextIsNotBlank(t, after + rest);
      SkipPast(before, TextThen(t, after + rest));
      FineIsAccepted(t, 1, 0, limits);
      ReadsValue(t, after + rest, 1, 0, limits);
      SkipPast(after, rest);
    }
  }

  /** For every input: reading fails with this error exactly if the bytes give this reason. */
  lemma DocumentFails(s: seq<Byte>, limits: Limits, e: ConfigError)
    ensures ReadDocument(s, limits) == Err(e) <==> Refuses(s, limits, e)
  {
    hide ReadDocument, Refuses;
    if ReadDocument(s, limits) == Err(e) {
      ErrorsAreExplained(s, limits);
    }
    if Refuses(s, limits, e) {
      ExplainedErrors(s, limits, e);
    }
  }
}
