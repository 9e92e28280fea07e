/**
  The end-to-end runner's reader of one exact test: output arrives in blocks of any size, is cut
  into lines of bounded length, and must hold exactly one passing test result.
  */
module ExactRun {
  import opened Utf8

  const NEWLINE: Byte := 0x0A
  const LINE_BOUND: nat := 65_536
  const BLOCK_BOUND: nat := 65_536
  const RESULT_PREFIX := "test result:"

  /** What the reader takes from Python: lossy decoding, stripping and the pattern of a single pass. */
  datatype Host = Host(decode: seq<Byte> -> string, strip: string -> string, passes: string -> bool)

  datatype Failure = LineTooLong | MultipleResults

  /** What has been printed and collected. */
  datatype Tally = Tally(printed: seq<string>, results: seq<string>)

  /** The reading goes on with an unfinished line, or a failure has ended it. */
  datatype Progress = Reading(tally: Tally, pending: seq<Byte>) | Failed(tally: Tally, failure: Failure)

  const NO_LINES := Tally([], [])

  // ----- The whole stream at once -----

  /** The position of the first newline, or the length. */
  function LineEnd(s: seq<Byte>): (k: nat)
    ensures k <= |s| && NEWLINE !in s[..k] && (k < |s| ==> s[k] == NEWLINE)
    ensures k == |s| <==> NEWLINE !in s
  {
    if s == [] || s[0] == NEWLINE then 0
    else
      var k := LineEnd(s[1..]) + 1;
      assert s[..k] == [s[0]] + s[1..][..k - 1];
      assert s == [s[0]] + s[1..];
      k
  }

  predicate IsResult(host: Host, line: seq<Byte>) {
    RESULT_PREFIX <= host.decode(line)
  }

  /** Reading one complete line; nothing is pending after it. */
  function TakeLine(host: Host, t: Tally, line: seq<Byte>): (r: Progress)
    ensures r.Reading? ==> r.pending == []
  {
    if |line| > LINE_BOUND then Failed(t, LineTooLong)
    else
      var printed := t.printed + [host.decode(line)];
      if !IsResult(host, line) then Reading(Tally(printed, t.results), [])
      else
        var results := t.results + [host.strip(host.decode(line))];
        if |results| > 1 then Failed(Tally(printed, results), MultipleResults) else Reading(Tally(printed, results), [])
  }

  /** Reading everything that is pending. */
  function Scan(host: Host, t: Tally, pending: seq<Byte>): (r: Progress)
    decreases |pending|
  {
    var k := LineEnd(pending);
    if k == |pending| then
      if k > LINE_BOUND then Failed(t, LineTooLong) else Reading(t, pending)
    else
      var q := TakeLine(host, t, pending[..k]);
      if q.Failed? then q else Scan(host, q.tally, pending[k + 1..])
  }

  // ----- Any blocks -----

  /** The stream that blocks make up; an empty block is the end of it. */
  function Received(blocks: seq<seq<Byte>>): (s: seq<Byte>) {
    if blocks == [] || blocks[0] == [] then [] else blocks[0] + Received(blocks[1..])
  }

  lemma {:induction false} LineEndAppend(a: seq<Byte>, b: seq<Byte>)
    ensures if LineEnd(a) < |a| then LineEnd(a + b) == LineEnd(a) else LineEnd(a + b) >= |a|
  {
    if a != [] && a[0] != NEWLINE {
      assert (a + b)[1..] == a[1..] + b;
      LineEndAppend(a[1..], b);
    }
  }

  /** What more bytes add to a reading. */
  function Continue(host: Host, p: Progress, more: seq<Byte>): (r: Progress) {
    if p.Failed? then p else Scan(host, p.tally, p.pending + more)
  }

  /**
    Reading in two parts: what more bytes add to a stream is what they add to the unfinished line,
    and a failure is final.
    */
  lemma {:induction false} ScanAppend(host: Host, t: Tally, pending: seq<Byte>, more: seq<Byte>)
    ensures Scan(host, t, pending + more) == Continue(host, Scan(host, t, pending), more)
    decreases |pending|
  {
    hide TakeLine, LineEnd;
    var k, whole := LineEnd(pending), pending + more;
    LineEndAppend(pending, more);
    if k < |pending| {
      assert whole[..k] == pending[..k];
      assert whole[k + 1..] == pending[k + 1..] + more;
      var q := TakeLine(host, t, pending[..k]);
      if q.Reading? {
        ScanAppend(host, q.tally, pending[k + 1..], more);
      }
    } else if k > LINE_BOUND {
      LongLineFails(host, t, whole);
    }
  }

  lemma LongLineFails(host: Host, t: Tally, pending: seq<Byte>)
    requires LineEnd(pending) > LINE_BOUND
    ensures Scan(host, t, pending) == Failed(t, LineTooLong)
  {
  }

  /** The inner loop: every complete line that is pending. */
  method DrainLines(host: Host, t: Tally, received: seq<Byte>) returns (r: Progress)
    ensures r == Scan(host, t, received)
  {
    hide TakeLine, LineEnd;
    var printed, results, pending := t.printed, t.results, received;
    while NEWLINE in pending
      invariant Scan(host, t, received) == Scan(host, Tally(printed, results), pending)
      decreases |pending|
    {
      var k := LineEnd(pending);
      var raw := pending[..k];
      ghost var step := LineStep(host, Tally(printed, results), raw);
      pending := pending[k + 1..];
      if |raw| > LINE_BOUND {
        return Failed(Tally(printed, results), LineTooLong);
      }
      var line := host.decode(raw);
      printed := printed + [line];
      if RESULT_PREFIX <= line {
        results := results + [host.strip(line)];
        if |results| > 1 {
          return Failed(Tally(printed, results), MultipleResults);
        }
      }
    }
    if |pending| > LINE_BOUND {
      return Failed(Tally(printed, results), LineTooLong);
    }
    return Reading(Tally(printed, results), pending);
  }

  lemma LineStep(host: Host, t: Tally, line: seq<Byte>) returns (r: Progress)
    ensures r == TakeLine(host, t, line)
    ensures |line| > LINE_BOUND ==> r == Failed(t, LineTooLong)
    ensures |line| <= LINE_BOUND ==>
              var printed := t.printed + [host.decode(line)];
              if RESULT_PREFIX <= host.decode(line) then
                var results := t.results + [host.strip(host.decode(line))];
                r == if |results| > 1 then Failed(Tally(printed, results), MultipleResults)
                    else Reading(Tally(printed, results), [])
              else r == Reading(Tally(printed, t.results), [])
  {
    r := TakeLine(host, t, line);
  }

  /**
    The outer loop. However the stream is cut into blocks, the outcome is that of scanning the
    whole stream at once; with blocks as large as the reader asks for, never more than two bounds
    of bytes are held.
    */
  method ReadBlocks(host: Host, blocks: seq<seq<Byte>>) returns (r: Progress, ghost peak: nat)
    ensures r == Scan(host, NO_LINES, Received(blocks))
    ensures (forall i :: 0 <= i < |blocks| ==> |blocks[i]| <= BLOCK_BOUND) ==> peak <= LINE_BOUND + BLOCK_BOUND
  {
    hide Scan;
    var tally, pending := NO_LINES, [];
    peak := 0;
    assert blocks[0..] == blocks && [] + Received(blocks) == Received(blocks);
    for i := 0 to |blocks|
      invariant Scan(host, tally, pending + Received(blocks[i..])) == Scan(host, NO_LINES, Received(blocks))
      invariant |pending| <= LINE_BOUND && NEWLINE !in pending
      invariant (forall j :: 0 <= j < |blocks| ==> |blocks[j]| <= BLOCK_BOUND) ==> peak <= LINE_BOUND + BLOCK_BOUND
    {
      var block := blocks[i];
      if block == [] {
        break;
      }
      ghost var rest := Received(blocks[i + 1..]);
      assert blocks[i..][1..] == blocks[i + 1..];
      assert pending + Received(blocks[i..]) == (pending + block) + rest;
      pending := pending + block;
      peak := if |pending| > peak then |pending| else peak;
      ScanAppend(host, tally, pending, rest);
      r := DrainLines(host, tally, pending);
      if r.Failed? {
        return;
      }
      ScanKeepsBound(host, tally, pending);
      tally, pending := r.tally, r.pending;
    }
    assert pending + [] == pending;
    NothingToScan(host, tally, pending);
    r := Reading(tally, pending);
  }

  lemma NothingToScan(host: Host, t: Tally, pending: seq<Byte>)
    requires |pending| <= LINE_BOUND && NEWLINE !in pending
    ensures Scan(host, t, pending) == Reading(t, pending)
  {
  }

  lemma {:induction false} ScanKeepsBound(host: Host, t: Tally, pending: seq<Byte>)
    ensures var r := Scan(host, t, pending); r.Reading? ==> |r.pending| <= LINE_BOUND && NEWLINE !in r.pending
    decreases |pending|
  {
    hide TakeLine;
    var k := LineEnd(pending);
    if k < |pending| {
      var q := TakeLine(host, t, pending[..k]);
      if q.Reading? { ScanKeepsBound(host, q.tally, pending[k + 1..]); }
    }
  }

  // ----- Lines and the verdict -----

  /** The lines of a stream that a newline ends. */
  function Lines(s: seq<Byte>): (lines: seq<seq<Byte>>)
    decreases |s|
  {
    var k := LineEnd(s);
    if k == |s| then [] else [s[..k]] + Lines(s[k + 1..])
  }

  /** What follows the last newline. */
  function Tail(s: seq<Byte>): (tail: seq<Byte>)
    decreases |s|
  {
    var k := LineEnd(s);
    if k == |s| then s else Tail(s[k + 1..])
  }

  function Unlines(lines: seq<seq<Byte>>): (s: seq<Byte>) {
    if lines == [] then [] else lines[0] + [NEWLINE] + Unlines(lines[1..])
  }

  /** Cutting loses nothing, and no line holds a newline. */
  lemma {:induction false} LinesRebuild(s: seq<Byte>)
    ensures Unlines(Lines(s)) + Tail(s) == s
    ensures NoNewlines(Lines(s)) && NEWLINE !in Tail(s)
    decreases |s|
  {
    hide LineEnd, Unlines, NoNewlines;
    var k := LineEnd(s);
    if k < |s| {
      var line, rest := s[..k], s[k + 1..];
      LinesRebuild(rest);
      UnlinesStep(line, Lines(rest));
      NoNewlinesStep(line, Lines(rest));
      Rejoin(line, Unlines(Lines(rest)), Tail(rest));
      CutAt(s, k);
    } else {
      UnlinesNothing();
    }
  }

  ghost predicate NoNewlines(lines: seq<seq<Byte>>) {
    forall i :: 0 <= i < |lines| ==> NEWLINE !in lines[i]
  }

  lemma NoNewlinesStep(line: seq<Byte>, lines: seq<seq<Byte>>)
    requires NEWLINE !in line && NoNewlines(lines)
    ensures NoNewlines([line] + lines)
  {
  }

  lemma CutAt(s: seq<Byte>, k: nat)
    requires k < |s| && s[k] == NEWLINE
    ensures s == s[..k] + [NEWLINE] + s[k + 1..]
  {
  }

  lemma UnlinesNothing()
    ensures Unlines([]) == [] && NoNewlines([])
  {
  }

  lemma UnlinesStep(line: seq<Byte>, lines: seq<seq<Byte>>)
    ensures Unlines([line] + lines) == line + [NEWLINE] + Unlines(lines)
  {
    assert ([line] + lines)[1..] == lines;
  }

  lemma Rejoin(line: seq<Byte>, middle: seq<Byte>, tail: seq<Byte>)
    ensures line + [NEWLINE] + middle + tail == line + [NEWLINE] + (middle + tail)
  {
  }

  ghost predicate AllShort(lines: seq<seq<Byte>>) {
    forall i :: 0 <= i < |lines| ==> |lines[i]| <= LINE_BOUND
  }

  function Decoded(host: Host, lines: seq<seq<Byte>>): (r: seq<string>) {
    if lines == [] then [] else [host.decode(lines[0])] + Decoded(host, lines[1..])
  }

  function ResultLines(host: Host, lines: seq<seq<Byte>>): (r: seq<string>) {
    if lines == [] then []
    else (if IsResult(host, lines[0]) then [host.strip(host.decode(lines[0]))] else []) + ResultLines(host, lines[1..])
  }

  /** A stream is read to its end exactly when no line is too long and at most one is a result. */
  lemma {:induction false} ScanAccepts(host: Host, t: Tally, s: seq<Byte>)
    requires |t.results| <= 1
    ensures var lines, r := Lines(s), Scan(host, t, s);
            && (r.Reading? <==> AllShort(lines) && |Tail(s)| <= LINE_BOUND
                                && |t.results| + |ResultLines(host, lines)| <= 1)
            && (r.Reading? ==> r == Reading(Tally(t.printed + Decoded(host, lines),
                                                  t.results + ResultLines(host, lines)), Tail(s)))
    decreases |s|
  {
    hide TakeLine, LineEnd, AllShort, Decoded, ResultLines;
    var k := LineEnd(s);
    if k == |s| {
      NoLines(host, t);
    } else {
      var line, rest := s[..k], s[k + 1..];
      var lines := Lines(rest);
      assert Lines(s) == [line] + lines;
      AllShortSplits([line] + lines);
      assert ([line] + lines)[1..] == lines;
      LineTally(host, t, line, lines);
      var q := TakeLine(host, t, line);
      if q.Reading? {
        ScanAccepts(host, q.tally, rest);
      }
    }
  }

  lemma NoLines(host: Host, t: Tally)
    ensures AllShort([]) && ResultLines(host, []) == []
    ensures t.printed + Decoded(host, []) == t.printed && t.results + ResultLines(host, []) == t.results
  {
  }

  /** One line's share of the tally. */
  lemma LineTally(host: Host, t: Tally, line: seq<Byte>, lines: seq<seq<Byte>>)
    requires |t.results| <= 1
    ensures var q, results := TakeLine(host, t, line), ResultLines(host, [line] + lines);
            && (q.Failed? ==> |line| > LINE_BOUND || |t.results| + |results| > 1)
            && (q.Reading? ==> |line| <= LINE_BOUND && |q.tally.results| <= 1
                               && q.tally.printed + Decoded(host, lines) == t.printed + Decoded(host, [line] + lines)
                               && q.tally.results + ResultLines(host, lines) == t.results + results
                               && |q.tally.results| + |ResultLines(host, lines)| == |t.results| + |results|)
  {
    hide IsResult;
    assert ([line] + lines)[1..] == lines;
  }

  /** A tally after some more lines. */
  ghost predicate Extends(host: Host, t: Tally, lines: seq<seq<Byte>>, r: Tally) {
    r.printed == t.printed + Decoded(host, lines) && r.results == t.results + ResultLines(host, lines)
  }

  lemma ExtendsStep(host: Host, t: Tally, line: seq<Byte>, lines: seq<seq<Byte>>, r: Tally)
    requires |t.results| <= 1 && TakeLine(host, t, line).Reading?
    requires Extends(host, TakeLine(host, t, line).tally, lines, r)
    ensures Extends(host, t, [line] + lines, r)
  {
    hide TakeLine, Decoded, ResultLines;
    LineTally(host, t, line, lines);
  }

  /**
    A failure is the first one there is: `n` lines of bounded length come before the line that is
    too long, or end with the second result.
    */
  lemma {:induction false} FirstFailure(host: Host, t: Tally, s: seq<Byte>) returns (n: nat)
    requires |t.results| <= 1 && Scan(host, t, s).Failed?
    ensures var lines, r := Lines(s), Scan(host, t, s);
            && n <= |lines| && AllShort(lines[..n]) && Extends(host, t, lines[..n], r.tally)
            && (r.failure == LineTooLong ==>
                  |r.tally.results| <= 1 && (if n < |lines| then |lines[n]| > LINE_BOUND else |Tail(s)| > LINE_BOUND))
            && (r.failure == MultipleResults ==> n > 0 && |r.tally.results| == 2 && IsResult(host, lines[n - 1]))
    decreases |s|
  {
    hide TakeLine, LineEnd, AllShort, Extends, IsResult;
    var k := LineEnd(s);
    n := 0;
    assert Lines(s)[..0] == [];
    NothingMore(host, t);
    if k < |s| {
      var line, rest := s[..k], s[k + 1..];
      assert Lines(s) == [line] + Lines(rest);
      assert Lines(s)[..1] == [line];
      FailingLine(host, t, line);
      var q := TakeLine(host, t, line);
      if q.Reading? {
        var m := FirstFailure(host, q.tally, rest);
        n := m + 1;
        assert Lines(s)[..n] == [line] + Lines(rest)[..m];
        ExtendsStep(host, t, line, Lines(rest)[..m], Scan(host, t, s).tally);
        AllShortSplits([line] + Lines(rest)[..m]);
        assert ([line] + Lines(rest)[..m])[1..] == Lines(rest)[..m];
      } else if q.failure == MultipleResults {
        n := 1;
      }
    }
  }

  lemma NothingMore(host: Host, t: Tally)
    ensures AllShort([]) && Extends(host, t, [], t)
  {
  }

  lemma FailingLine(host: Host, t: Tally, line: seq<Byte>)
    requires |t.results| <= 1
    ensures var q := TakeLine(host, t, line);
            && (q.Reading? ==> |line| <= LINE_BOUND && |q.tally.results| <= 1)
            && (q == Failed(q.tally, LineTooLong) ==> |line| > LINE_BOUND && q.tally == t)
            && (q == Failed(q.tally, MultipleResults) ==>
                  AllShort([line]) && |q.tally.results| == 2 && IsResult(host, line)
                      && Extends(host, t, [line], q.tally))
  {
  }

  lemma AllShortSplits(lines: seq<seq<Byte>>)
    requires lines != []
    ensures AllShort(lines) <==> |lines[0]| <= LINE_BOUND && AllShort(lines[1..])
  {
    if |lines[0]| <= LINE_BOUND && AllShort(lines[1..]) {
      forall i | 0 <= i < |lines| ensures |lines[i]| <= LINE_BOUND {
        if i > 0 { assert lines[i] == lines[1..][i - 1]; }
      }
    }
  }

  datatype Verdict = Passed | Refused(failure: Failure) | ExitCode(code: int) | NotOnePass

  /** What a stream and an exit code come to. */
  ghost predicate OnePass(host: Host, stream: seq<Byte>) {
    var results := ResultLines(host, Lines(stream));
    AllShort(Lines(stream)) && |Tail(stream)| <= LINE_BOUND && |results| == 1 && host.passes(results[0])
  }

  /**
    The runner passes exactly when the child exits with zero and its output, whatever the blocks,
    holds one terminated result line, a passing one, and no line over the bound.
    */
  method RunExact(host: Host, blocks: seq<seq<Byte>>, code: int) returns (v: Verdict, printed: seq<string>)
    ensures v == Passed <==> code == 0 && OnePass(host, Received(blocks))
    ensures var r := Scan(host, NO_LINES, Received(blocks));
            && (v.Refused? <==> r.Failed?) && (v.Refused? ==> v == Refused(r.failure))
            && printed == r.tally.printed + (if r.Failed? || r.pending == [] then [] else [host.decode(r.pending)])
    ensures v.ExitCode? ==> v.code == code
    ensures v.ExitCode? <==> code != 0 && Scan(host, NO_LINES, Received(blocks)).Reading?
  {
    hide Scan, Lines, Tail, AllShort, ResultLines;
    ScanAccepts(host, NO_LINES, Received(blocks));
    var r, _ := ReadBlocks(host, blocks);
    printed := r.tally.printed;
    if r.Failed? {
      return Refused(r.failure), printed;
    }
    if r.pending != [] {
      printed := printed + [host.decode(r.pending)];
    }
    if code != 0 {
      return ExitCode(code), printed;
    }
    var results := r.tally.results;
    assert [] + ResultLines(host, Lines(Received(blocks))) == ResultLines(host, Lines(Received(blocks)));
    if |results| != 1 || !host.passes(results[0]) {
      return NotOnePass, printed;
    }
    v := Passed;
  }

  // ----- The verdict in terms of the bytes -----

  /** Lines, each followed by a newline byte. */
  function Terminated(lines: seq<seq<Byte>>): (s: seq<Byte>) {
    if lines == [] then [] else lines[0] + [0x0A] + Terminated(lines[1..])
  }

  /** A stream is these terminated lines and this unterminated rest. */
  ghost predicate IsCut(stream: seq<Byte>, lines: seq<seq<Byte>>, rest: seq<Byte>) {
    && stream == Terminated(lines) + rest && 0x0A !in rest
    && (forall i :: 0 <= i < |lines| ==> 0x0A !in lines[i])
  }

  lemma LineEndIsFirst(line: seq<Byte>, rest: seq<Byte>)
    requires 0x0A !in line
    ensures LineEnd(line + [0x0A] + rest) == |line|
  {
    var s := line + [0x0A] + rest;
    assert s[|line|] == 0x0A && s[..|line|] == line;
    assert forall i :: 0 <= i < |line| ==> s[i] == line[i];
  }

  /** There is one way to cut a stream, and the reader's lines are it. */
  lemma {:induction false} CutIsUnique(stream: seq<Byte>, lines: seq<seq<Byte>>, rest: seq<Byte>)
    requires IsCut(stream, lines, rest)
    ensures Lines(stream) == lines && Tail(stream) == rest
    decreases |lines|
  {
    hide LineEnd;
    if lines == [] {
      assert stream == rest;
      NoLineIn(stream);
    } else {
      var line, more := lines[0], Terminated(lines[1..]) + rest;
      assert stream == line + [0x0A] + more;
      LineEndIsFirst(line, more);
      assert stream[..|line|] == line && stream[|line| + 1..] == more;
      CutIsUnique(more, lines[1..], rest);
      assert [line] + lines[1..] == lines;
    }
  }

  lemma {:induction false} TerminatedLines(lines: seq<seq<Byte>>)
    ensures Terminated(lines) == Unlines(lines)
  {
    if lines != [] {
      TerminatedLines(lines[1..]);
    }
  }

  /** Every stream can be cut. */
  lemma CutExists(stream: seq<Byte>)
    ensures IsCut(stream, Lines(stream), Tail(stream))
  {
    hide Lines, Tail, Unlines, Terminated;
    LinesRebuild(stream);
    TerminatedLines(Lines(stream));
  }

  /** The text of a line the runner takes for a result. */
  ghost predicate Reports(host: Host, line: seq<Byte>) {
    "test result:" <= host.decode(line)
  }

  /** The only line that reports a result, if there is exactly one. */
  ghost predicate OnlyReport(host: Host, lines: seq<seq<Byte>>, k: nat) {
    k < |lines| && forall i :: 0 <= i < |lines| ==> (Reports(host, lines[i]) <==> i == k)
  }

  ghost predicate HasOnlyReport(host: Host, lines: seq<seq<Byte>>) {
    exists k: nat :: OnlyReport(host, lines, k)
  }

  lemma {:induction false} NoReports(host: Host, lines: seq<seq<Byte>>)
    ensures ResultLines(host, lines) == [] <==> forall i :: 0 <= i < |lines| ==> !Reports(host, lines[i])
  {
    if lines != [] {
      var rest := lines[1..];
      NoReports(host, rest);
      hide Reports, IsResult;
      if ResultLines(host, lines) == [] {
        forall i | 0 <= i < |lines| ensures !Reports(host, lines[i]) {
          SameReport(host, lines[0]);
          if i > 0 { assert lines[i] == rest[i - 1]; }
        }
      } else {
        SameReport(host, lines[0]);
        assert forall i :: 0 <= i < |rest| ==> rest[i] == lines[i + 1];
      }
    }
  }

  lemma SameReport(host: Host, line: seq<Byte>)
    ensures IsResult(host, line) <==> Reports(host, line)
  {
  }

  /** One collected result is the stripped text of the only reporting line. */
  lemma {:induction false} OneReport(host: Host, lines: seq<seq<Byte>>, k: nat)
    requires OnlyReport(host, lines, k)
    ensures ResultLines(host, lines) == [host.strip(host.decode(lines[k]))]
    decreases |lines|
  {
    hide Reports, IsResult;
    SameReport(host, lines[0]);
    var rest := lines[1..];
    assert forall i :: 0 <= i < |rest| ==> rest[i] == lines[i + 1];
    if k == 0 {
      NoReports(host, rest);
    } else {
      assert OnlyReport(host, rest, k - 1) by {
        forall i | 0 <= i < |rest| ensures Reports(host, rest[i]) <==> i == k - 1 {
          assert rest[i] == lines[i + 1];
        }
      }
      OneReport(host, rest, k - 1);
    }
  }

  lemma {:induction false} ReportIsFound(host: Host, lines: seq<seq<Byte>>) returns (k: nat)
    requires |ResultLines(host, lines)| == 1
    ensures OnlyReport(host, lines, k)
    decreases |lines|
  {
    hide Reports, IsResult;
    SameReport(host, lines[0]);
    var rest := lines[1..];
    assert forall i :: 0 < i < |lines| ==> lines[i] == rest[i - 1];
    if IsResult(host, lines[0]) {
      k := 0;
      assert ResultLines(host, rest) == [];
      NoReports(host, rest);
    } else {
      var j := ReportIsFound(host, rest);
      k := j + 1;
    }
  }

  /**
    What a pass says about the bytes: however they are cut into lines, none is over 65,536 bytes, and
    exactly one terminated line starts with `test result:`, and its stripped text is a pass.
    */
  lemma PassMeans(host: Host, stream: seq<Byte>, lines: seq<seq<Byte>>, rest: seq<Byte>)
    requires IsCut(stream, lines, rest)
    ensures OnePass(host, stream) <==>
            && (forall i :: 0 <= i < |lines| ==> |lines[i]| <= 65_536) && |rest| <= 65_536
            && exists k: nat :: OnlyReport(host, lines, k) && host.passes(host.strip(host.decode(lines[k])))
  {
    hide Lines, Tail, ResultLines, OnlyReport, IsCut;
    CutIsUnique(stream, lines, rest);
    if |ResultLines(host, lines)| == 1 {
      var k := ReportIsFound(host, lines);
      ReportAt(host, lines, k);
    }
    forall k: nat | OnlyReport(host, lines, k)
      ensures k < |lines| && ResultLines(host, lines) == [host.strip(host.decode(lines[k]))]
    {
      ReportAt(host, lines, k);
    }
  }

  lemma ReportAt(host: Host, lines: seq<seq<Byte>>, k: nat)
    requires OnlyReport(host, lines, k)
    ensures k < |lines| && ResultLines(host, lines) == [host.strip(host.decode(lines[k]))]
  {
    OneReport(host, lines, k);
  }

  lemma {:induction false} DecodedEach(host: Host, lines: seq<seq<Byte>>)
    ensures |Decoded(host, lines)| == |lines|
    ensures forall i :: 0 <= i < |lines| ==> Decoded(host, lines)[i] == host.decode(lines[i])
  {
    if lines != [] {
      DecodedEach(host, lines[1..]);
    }
  }

  /** A stream read to its end: every line of it is printed decoded and in order, and its rest is left. */
  lemma PrintedMeans(host: Host, stream: seq<Byte>, lines: seq<seq<Byte>>, rest: seq<Byte>)
    requires IsCut(stream, lines, rest) && Scan(host, NO_LINES, stream).Reading?
    ensures var r := Scan(host, NO_LINES, stream);
            && r.pending == rest && |r.tally.printed| == |lines|
            && forall i :: 0 <= i < |lines| ==> r.tally.printed[i] == host.decode(lines[i])
  {
    hide Scan, Lines, Tail, Decoded, ResultLines, AllShort, IsCut;
    CutIsUnique(stream, lines, rest);
    ScanAccepts(host, NO_LINES, stream);
    DecodedEach(host, lines);
    assert [] + Decoded(host, lines) == Decoded(host, lines);
  }

  /**
    What a refusal says about the bytes: the first `n` lines are short and printed; a refusal for length
    stops at a longer line, or at a longer rest; one for a second result has just printed that result.
    */
  lemma RefusalMeans(host: Host, stream: seq<Byte>, lines: seq<seq<Byte>>, rest: seq<Byte>) returns (n: nat)
    requires IsCut(stream, lines, rest) && Scan(host, NO_LINES, stream).Failed?
    ensures var r := Scan(host, NO_LINES, stream);
            && n <= |lines| && |r.tally.printed| == n
            && (forall i :: 0 <= i < n ==> |lines[i]| <= 65_536 && r.tally.printed[i] == host.decode(lines[i]))
            && (r.failure == LineTooLong ==> if n < |lines| then |lines[n]| > 65_536 else |rest| > 65_536)
            && (r.failure == MultipleResults ==> n > 0 && Reports(host, lines[n - 1])
                                                 && HasOnlyReport(host, lines[..n - 1]))
  {
    hide Scan, Lines, Tail, Decoded, ResultLines, OnlyReport, IsCut, Reports, IsResult;
    CutIsUnique(stream, lines, rest);
    n := FirstFailure(host, NO_LINES, stream);
    var r := Scan(host, NO_LINES, stream);
    var head := lines[..n];
    DecodedEach(host, head);
    assert [] + Decoded(host, head) == Decoded(host, head) && [] + ResultLines(host, head) == ResultLines(host, head);
    assert forall i :: 0 <= i < n ==> head[i] == lines[i];
    if r.failure == MultipleResults {
      SameReport(host, lines[n - 1]);
      assert head == lines[..n - 1] + [lines[n - 1]];
      LastResult(host, lines[..n - 1], lines[n - 1]);
      var k := ReportIsFound(host, lines[..n - 1]);
    }
  }

  lemma {:induction false} LastResult(host: Host, lines: seq<seq<Byte>>, line: seq<Byte>)
    requires IsResult(host, line)
    ensures |ResultLines(host, lines + [line])| == |ResultLines(host, lines)| + 1
  {
    hide IsResult;
    if lines == [] {
      assert lines + [line] == [line];
      assert [line][1..] == [];
    } else {
      assert (lines + [line])[1..] == lines[1..] + [line];
      LastResult(host, lines[1..], line);
    }
  }

  // ----- A result that is printed and not counted -----

  const RESULT_LINE: seq<Byte> :=
    [116, 101, 115, 116, 32, 114, 101, 115, 117, 108, 116, 58, 32, 111, 107]

  /** A host that reads bytes as characters and takes every result for a pass. */
  function PlainHost(): (host: Host) {
    Host(line => seq(|line|, i requires 0 <= i < |line| => line[i] as char), text => text, _ => true)
  }

  lemma ResultLineDecodes()
    ensures PlainHost().decode(RESULT_LINE) == "test result: ok" && NEWLINE !in RESULT_LINE
  {
    var text := PlainHost().decode(RESULT_LINE);
    assert |text| == 15;
    assert forall i :: 0 <= i < 15 ==> text[i] == "test result: ok"[i];
  }

  /** Without its newline a result line leaves nothing collected and no pass; with the newline it is the one result. */
  lemma ResultNeedsNewline(host: Host, line: seq<Byte>)
    requires IsResult(host, line) && NEWLINE !in line && |line| <= LINE_BOUND
             && host.passes(host.strip(host.decode(line)))
    ensures Scan(host, NO_LINES, line) == Reading(NO_LINES, line)
    ensures !OnePass(host, line) && OnePass(host, line + [NEWLINE])
  {
    hide Scan, IsResult, Lines, Tail;
    NothingToScan(host, NO_LINES, line);
    NoLineIn(line);
    OneLine(line);
    assert ResultLines(host, [line]) == [host.strip(host.decode(line))] + ResultLines(host, []);
  }

  /** The line `test result: ok` at the end of a stream is printed, but it is no result until it is terminated. */
  lemma UnterminatedResultIsNotCounted()
    ensures IsResult(PlainHost(), RESULT_LINE)
    ensures Scan(PlainHost(), NO_LINES, RESULT_LINE) == Reading(NO_LINES, RESULT_LINE)
    ensures !OnePass(PlainHost(), RESULT_LINE) && OnePass(PlainHost(), RESULT_LINE + [NEWLINE])
  {
    hide Scan, OnePass;
    ResultLineDecodes();
    ResultNeedsNewline(PlainHost(), RESULT_LINE);
  }

  lemma NoLineIn(s: seq<Byte>)
    requires NEWLINE !in s
    ensures Lines(s) == [] && Tail(s) == s
  {
  }

  lemma OneLine(s: seq<Byte>)
    requires NEWLINE !in s
    ensures Lines(s + [NEWLINE]) == [s] && Tail(s + [NEWLINE]) == []
  {
    var whole := s + [NEWLINE];
    LineEndAppend(s, [NEWLINE]);
    var k := LineEnd(whole);
    assert k == |s|;
    assert whole[..k] == s && whole[k + 1..] == [];
  }
}
