/**
  What the reader accepts is a JSON text: the tree is rebuilt from the run. Together with the
  exactness of JsonReaderProofs.dfy this settles the reader on every input.
  */
module JsonReaderSoundness {
  import opened Utf8
  import opened CanonicalJson
  import opened Decimal
  import opened JsonGrammar
  import opened JsonStrings
  import opened DocumentWalk
  import opened JsonReader
  import opened JsonReaderProofs

  lemma {:induction false} SkippedWhitespace(s: seq<Byte>) returns (w: Whitespace)
    ensures s == w + SkipWhitespace(s)
  {
    if s != [] && IsWhitespace(s[0]) {
      var tail := SkippedWhitespace(s[1..]);
      w := [s[0]] + tail;
      assert s == [s[0]] + s[1..];
    } else {
      w := [];
    }
  }

  lemma StringWasText(s: seq<Byte>, nodes: nat) returns (chars: seq<StringChar>)
    requires StartsWith(s, QUOTE) && ReadString(s, nodes).Done?
    ensures s == StringThen(chars, ReadString(s, nodes).rest)
  {
    hide ScanString, DecodeBody, StringBytes;
    var body := s[1..];
    var at := ScanString(body, false).at;
    chars := DecodedIsGrammatical(body[..at]);
    assert body == body[..at] + ([QUOTE] + body[at + 1..]);
    assert s == [QUOTE] + body;
  }

  lemma NumberWasText(s: seq<Byte>, nodes: nat) returns (n: Number)
    requires s != [] && ReadNumber(s, nodes).Done?
    ensures s == TextThen(NumberText(n), ReadNumber(s, nodes).rest)
    ensures Follows(NumberText(n), ReadNumber(s, nodes).rest)
  {
    hide SkipInteger, IntegerDoc, TextThen;
    var unsigned := if s[0] == MINUS then s[1..] else s;
    var rest := SkipInteger(unsigned).rest;
    IntegerTextLeads(s, rest);
    assert FinishNumber(s[..|s| - |rest|], rest, nodes).Done?;
    n := IntegerTree(s[..|s| - |rest|]);
    NumberFrom(s, n, rest);
  }

  lemma NumberFrom(s: seq<Byte>, n: Number, rest: seq<Byte>)
    requires |rest| <= |s| && rest == s[|s| - |rest|..]
    requires PlainInteger(n) && IntegerPart(n) == s[..|s| - |rest|]
    ensures s == TextThen(NumberText(n), rest)
  {
    TailLeads(n, rest);
    assert s == s[..|s| - |rest|] + s[|s| - |rest|..];
  }

  lemma IntegerTree(integer: seq<Byte>) returns (n: Number)
    requires IntegerText(integer)
    ensures PlainInteger(n) && IntegerPart(n) == integer
  {
    if integer[0] == MINUS {
      n := Number(true, integer[1..], NoFraction, NoExponent);
      assert integer == [MINUS] + integer[1..];
    } else {
      n := Number(false, integer, NoFraction, NoExponent);
    }
  }

  lemma WordWasText(s: seq<Byte>, t: Text, word: seq<Byte>, v: Value, nodes: nat)
    requires (t == NullWord && word == NULL_TEXT) || (t == TrueWord && word == TRUE_TEXT)
             || (t == FalseWord && word == FALSE_TEXT)
    requires ReadLiteral(s, word, v, nodes).Done?
    ensures s == TextThen(t, ReadLiteral(s, word, v, nodes).rest)
    ensures Follows(t, ReadLiteral(s, word, v, nodes).rest)
  {
    assert s == word + s[|word|..];
  }

  lemma {:induction false} ValueWasText(s: seq<Byte>, depth: nat, nodes: nat, limits: Limits) returns (t: Text)
    requires ReadValue(s, depth, nodes, limits).Done?
    ensures s == TextThen(t, ReadValue(s, depth, nodes, limits).rest)
    ensures Follows(t, ReadValue(s, depth, nodes, limits).rest)
    decreases |s|, 0
  {
    if s[0] == OPEN_OBJECT {
      t := ObjectWasText(s, depth, nodes, limits);
    } else if s[0] == OPEN_ARRAY {
      t := ArrayWasText(s, depth, nodes, limits);
    } else if s[0] == QUOTE {
      var chars := StringWasText(s, nodes + 1);
      t := StringText(chars);
    } else if s[0] == TRUE_TEXT[0] {
      t := TrueWord;
      WordWasText(s, t, TRUE_TEXT, Bool(true), nodes + 1);
    } else if s[0] == FALSE_TEXT[0] {
      t := FalseWord;
      WordWasText(s, t, FALSE_TEXT, Bool(false), nodes + 1);
    } else if s[0] == NULL_TEXT[0] {
      t := NullWord;
      WordWasText(s, t, NULL_TEXT, Null, nodes + 1);
    } else {
      var n := NumberWasText(s, nodes + 1);
      t := NumberText(n);
    }
  }

  lemma Opened(s: seq<Byte>) returns (pad: Whitespace)
    requires s != []
    ensures s == [s[0]] + (pad + SkipWhitespace(s[1..]))
  {
    pad := SkippedWhitespace(s[1..]);
    assert s == [s[0]] + s[1..];
  }

  lemma {:induction false} ArrayWasText(s: seq<Byte>, depth: nat, nodes: nat, limits: Limits) returns (t: Text)
    requires StartsWith(s, OPEN_ARRAY) && ReadValue(s, depth, nodes, limits).Done?
    ensures (t.ArrayText? || t.EmptyArray?) && s == TextThen(t, ReadValue(s, depth, nodes, limits).rest)
    decreases |s| - 1, 3
  {
    var pad := Opened(s);
    var inner := SkipWhitespace(s[1..]);
    if StartsWith(inner, CLOSE_ARRAY) {
      t := EmptyArray(pad);
      assert inner == [CLOSE_ARRAY] + inner[1..];
    } else {
      var elements := ElementsWereText(inner, depth, nodes + 1, limits, []);
      t := ArrayText(pad, elements);
    }
  }

  lemma ObjectFrom(s: seq<Byte>, pad: Whitespace, inner: seq<Byte>, members: Members, rest: seq<Byte>)
    requires s == [OPEN_OBJECT] + (pad + inner) && inner == MembersThen(members, rest)
    ensures s == TextThen(ObjectText(pad, members), rest)
  {
  }

  lemma ObjectDispatch(s: seq<Byte>, depth: nat, nodes: nat, limits: Limits)
    requires StartsWith(s, OPEN_OBJECT)
    requires depth <= limits.maxDepth && nodes + 1 <= limits.maxNodes
    ensures var inner := SkipWhitespace(s[1..]);
            ReadValue(s, depth, nodes, limits)
            == if StartsWith(inner, CLOSE_OBJECT) then Done(Object(map[]), inner[1..], nodes + 1)
               else ReadMembers(inner, depth, nodes + 1, limits, map[])
  {
  }

  lemma {:induction false} ObjectWasText(s: seq<Byte>, depth: nat, nodes: nat, limits: Limits) returns (t: Text)
    requires StartsWith(s, OPEN_OBJECT) && ReadValue(s, depth, nodes, limits).Done?
    ensures (t.ObjectText? || t.EmptyObject?) && s == TextThen(t, ReadValue(s, depth, nodes, limits).rest)
    decreases |s| - 1, 3
  {
    hide MembersThen, ReadMembers, SkipWhitespace;
    var pad := Opened(s);
    var inner := SkipWhitespace(s[1..]);
    ObjectDispatch(s, depth, nodes, limits);
    if StartsWith(inner, CLOSE_OBJECT) {
      t := EmptyObject(pad);
      assert inner == [CLOSE_OBJECT] + inner[1..];
    } else {
      var members := MembersWereText(inner, depth, nodes + 1, limits, map[]);
      t := ObjectText(pad, members);
      ObjectFrom(s, pad, inner, members, ReadMembers(inner, depth, nodes + 1, limits, map[]).rest);
    }
  }

  lemma {:induction false} ElementsWereText(s: seq<Byte>, depth: nat, nodes: nat, limits: Limits, done: seq<Value>)
    returns (e: Elements)
    requires ReadElements(s, depth, nodes, limits, done).Done?
    ensures s == ElementsThen(e, ReadElements(s, depth, nodes, limits, done).rest)
    decreases |s|, 1
  {
    hide TextThen, ReadValue, SkipWhitespace;
    var value := ValueWasText(s, depth + 1, nodes, limits);
    var first := ReadValue(s, depth + 1, nodes, limits);
    var after := SkippedWhitespace(first.rest);
    var next := SkipWhitespace(first.rest);
    if StartsWith(next, CLOSE_ARRAY) {
      e := LastElement(value, after);
      assert next == [CLOSE_ARRAY] + next[1..];
    } else {
      var before := SkippedWhitespace(next[1..]);
      var more := ElementsWereText(SkipWhitespace(next[1..]), depth, first.nodes, limits, done + [first.value]);
      e := MoreElements(value, after, before, more);
      assert next == [COMMA] + next[1..];
    }
  }

  lemma KeyWasText(s: seq<Byte>, nodes: nat, done: map<string, Value>)
    returns (key: seq<StringChar>, before: Whitespace, after: Whitespace)
    requires ReadKey(s, nodes, done).Done?
    ensures s == StringThen(key, before + ([COLON] + (after + ReadKey(s, nodes, done).rest)))
  {
    key := StringWasText(s, nodes);
    var afterKey := ReadString(s, nodes).rest;
    before := SkippedWhitespace(afterKey);
    var colon := SkipWhitespace(afterKey);
    assert colon == [COLON] + colon[1..];
    after := SkippedWhitespace(colon[1..]);
  }

  lemma {:induction false} MemberWasText(s: seq<Byte>, depth: nat, nodes: nat, limits: Limits, done: map<string, Value>)
    returns (m: Member)
    requires ReadKey(s, nodes, done).Done?
    requires ReadValue(ReadKey(s, nodes, done).rest, depth + 1, nodes, limits).Done?
    ensures s == MemberThen(m, SkipWhitespace(ReadValue(ReadKey(s, nodes, done).rest, depth + 1, nodes, limits).rest))
    decreases |s|, 1
  {
    var key, beforeColon, afterColon := KeyWasText(s, nodes, done);
    var named := ReadKey(s, nodes, done);
    var value := ValueWasText(named.rest, depth + 1, nodes, limits);
    var after := SkippedWhitespace(ReadValue(named.rest, depth + 1, nodes, limits).rest);
    m := Member(key, beforeColon, afterColon, value, after);
  }

  lemma {:induction false} MembersWereText(
    s: seq<Byte>, depth: nat, nodes: nat, limits: Limits, done: map<string, Value>)
    returns (m: Members)
    requires ReadMembers(s, depth, nodes, limits, done).Done?
    ensures s == MembersThen(m, ReadMembers(s, depth, nodes, limits, done).rest)
    decreases |s|, 2
  {
    hide TextThen, MemberThen, ReadValue, ReadKey, SkipWhitespace;
    var member := MemberWasText(s, depth, nodes, limits, done);
    var named := ReadKey(s, nodes, done);
    var first := ReadValue(named.rest, depth + 1, nodes, limits);
    var next := SkipWhitespace(first.rest);
    if StartsWith(next, CLOSE_OBJECT) {
      m := LastMember(member);
      assert next == [CLOSE_OBJECT] + next[1..];
    } else {
      var before := SkippedWhitespace(next[1..]);
      var more := MembersWereText(SkipWhitespace(next[1..]), depth, first.nodes, limits,
                                  done[named.value := first.value]);
      m := MoreMembers(member, before, more);
      assert next == [COMMA] + next[1..];
    }
  }
}
