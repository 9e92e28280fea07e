/**
  The bounded capture of a child process: two pipes are drained as they become ready, each into a
  buffer with a ceiling. The order in which they become ready, and how much each then holds, is
  anything the schedule says.
  */
module PipeCapture {
  import opened Utf8

  datatype Pipe = Stdout | Stderr

  function Limit(p: Pipe): (n: nat) {
    match p
    case Stdout => 1_048_576
    case Stderr => 65_536
  }

  const READ_BLOCK: nat := 65_536

  datatype Reason = Deadline | Ceiling(pipe: Pipe)

  /** Everything the child writes before it closes its ends. */
  datatype Streams = Streams(stdout: seq<Byte>, stderr: seq<Byte>) {
    function Of(p: Pipe): (s: seq<Byte>) {
      match p
      case Stdout => stdout
      case Stderr => stderr
    }
  }

  /** A pipe reported ready, and how many bytes it then holds. */
  datatype Ready = Ready(pipe: Pipe, available: nat)

  datatype PipeState = PipeState(buffer: seq<Byte>, observed: nat, registered: bool)

  datatype State = State(out: PipeState, err: PipeState, stdoutComplete: bool, reason: Option<Reason>) {
    function Of(p: Pipe): (s: PipeState) {
      match p
      case Stdout => out
      case Stderr => err
    }

    function With(p: Pipe, s: PipeState): (r: State)
      ensures r.Of(p) == s && r.stdoutComplete == stdoutComplete && r.reason == reason
      ensures forall q :: q != p ==> r.Of(q) == Of(q)
    {
      match p
      case Stdout => this.(out := s)
      case Stderr => this.(err := s)
    }
  }

  // ----- One read -----

  function Min(a: int, b: int): (r: int) {
    if a < b then a else b
  }

  /** How many bytes a read asks for: a block, but never more than one byte past the ceiling. */
  function Request(p: Pipe, held: nat): (n: int) {
    Min(READ_BLOCK, Limit(p) + 1 - held)
  }

  /** What a read returns: nothing at the end of the stream, otherwise some of what comes next. */
  function Data(stream: seq<Byte>, from: nat, request: int, available: nat): (data: seq<Byte>)
    requires from <= |stream| && request >= 1
    ensures |data| <= request && (data == [] <==> from == |stream|)
    ensures from + |data| <= |stream| && data == stream[from..from + |data|]
  {
    if from == |stream| then []
    else
      var n := Min(Min(if available < 1 then 1 else available, request), |stream| - from);
      stream[from..from + n]
  }

  /** The state a pipe is left in by the bytes read from it. */
  function Absorb(p: Pipe, s: PipeState, data: seq<Byte>): (r: PipeState) {
    var room := Limit(p) - |s.buffer|;
    if data == [] then s.(registered := false)
    else PipeState(s.buffer + (if 0 <= room < |data| then data[..room] else data), s.observed + |data|, s.registered)
  }

  /** Every pipe read so far holds a prefix of its stream within its ceiling. */
  ghost predicate PipeInvariant(streams: Streams, s: State, p: Pipe) {
    var stream, pipe := streams.Of(p), s.Of(p);
    && pipe.observed <= |stream|
    && pipe.observed <= Limit(p) + 1
    && pipe.buffer == stream[..Min(pipe.observed, Limit(p))]
    && (pipe.observed > Limit(p) <==> s.reason == Some(Ceiling(p)))
    && (!pipe.registered ==> pipe.observed == |stream| <= Limit(p))
  }

  ghost predicate Invariant(streams: Streams, s: State) {
    && PipeInvariant(streams, s, Stdout) && PipeInvariant(streams, s, Stderr)
    && (s.stdoutComplete <==> !s.out.registered)
  }

  const START := State(PipeState([], 0, true), PipeState([], 0, true), false, None)

  /** Reading one ready pipe; a pipe that has ended is no longer reported. */
  function ReadStep(streams: Streams, s: State, ready: Ready): (r: State)
    requires s.reason.None? && Invariant(streams, s)
  {
    var p, pipe := ready.pipe, s.Of(ready.pipe);
    if !pipe.registered then s
    else
      var data := Data(streams.Of(p), pipe.observed, Request(p, |pipe.buffer|), ready.available);
      var t := s.With(p, Absorb(p, pipe, data));
      if data == [] then t.(stdoutComplete := s.stdoutComplete || p == Stdout)
      else if |data| > Limit(p) - |pipe.buffer| then t.(reason := Some(Ceiling(p)))
      else t
  }

  /** A read is asked for at least one byte and at most a block, whatever was read before. */
  lemma RequestIsPositive(streams: Streams, s: State, p: Pipe)
    requires s.reason.None? && Invariant(streams, s)
    ensures 1 <= Request(p, |s.Of(p).buffer|) <= READ_BLOCK
    ensures |s.Of(p).buffer| == s.Of(p).observed <= |streams.Of(p)| && s.Of(p).observed <= Limit(p)
  {
    assert PipeInvariant(streams, s, p);
  }

  lemma AbsorbKeepsPrefix(streams: Streams, s: State, p: Pipe, data: seq<Byte>)
    requires s.reason.None? && PipeInvariant(streams, s, p)
    requires var from := s.Of(p).observed;
             from + |data| <= |streams.Of(p)| && data == streams.Of(p)[from..from + |data|]
                 && from + |data| <= Limit(p) + 1
    ensures var r := Absorb(p, s.Of(p), data);
            && r.observed == s.Of(p).observed + |data|
            && r.buffer == streams.Of(p)[..Min(r.observed, Limit(p))]
  {
  }

  /** Every read keeps both pipes' invariants. */
  lemma ReadKeepsInvariant(streams: Streams, s: State, ready: Ready)
    requires s.reason.None? && Invariant(streams, s)
    ensures Invariant(streams, ReadStep(streams, s, ready))
  {
    var p, pipe := ready.pipe, s.Of(ready.pipe);
    if pipe.registered {
      RequestIsPositive(streams, s, p);
      var data := Data(streams.Of(p), pipe.observed, Request(p, |pipe.buffer|), ready.available);
      AbsorbKeepsPrefix(streams, s, p, data);
      var r := ReadStep(streams, s, ready);
      assert PipeInvariant(streams, r, p);
      var q := if p == Stdout then Stderr else Stdout;
      assert PipeInvariant(streams, r, q);
    }
  }

  // ----- Whole runs -----

  /** The pipes of one selection in turn, until one of them passes its ceiling. */
  function Round(streams: Streams, s: State, ready: seq<Ready>): (r: State)
    requires Invariant(streams, s)
    ensures Invariant(streams, r)
    decreases |ready|
  {
    if ready == [] || s.reason.Some? then s
    else
      ReadKeepsInvariant(streams, s, ready[0]);
      Round(streams, ReadStep(streams, s, ready[0]), ready[1..])
  }

  predicate Drained(s: State) {
    !s.out.registered && !s.err.registered
  }

  /** Selections follow each other until both pipes have ended or a reason is found; the deadline may come first. */
  function Run(streams: Streams, s: State, schedule: seq<seq<Ready>>): (r: State)
    requires Invariant(streams, s)
    ensures Invariant(streams, r)
    decreases |schedule|
  {
    if Drained(s) || s.reason.Some? then s
    else if schedule == [] then s.(reason := Some(Deadline))
    else Run(streams, Round(streams, s, schedule[0]), schedule[1..])
  }

  lemma StartIsInvariant(streams: Streams)
    ensures Invariant(streams, START)
  {
    assert PipeInvariant(streams, START, Stdout) && PipeInvariant(streams, START, Stderr);
  }

  lemma DeadlineKeepsInvariant(streams: Streams, s: State)
    requires Invariant(streams, s) && s.reason.None?
    ensures Invariant(streams, s.(reason := Some(Deadline)))
  {
    var r := s.(reason := Some(Deadline));
    assert PipeInvariant(streams, r, Stdout) && PipeInvariant(streams, r, Stderr);
  }

  function Captured(streams: Streams, schedule: seq<seq<Ready>>): (r: State)
    ensures Invariant(streams, r)
  {
    StartIsInvariant(streams);
    Run(streams, START, schedule)
  }

  lemma {:induction false} RunsEnd(streams: Streams, s: State, schedule: seq<seq<Ready>>)
    requires Invariant(streams, s)
    ensures var r := Run(streams, s, schedule); Drained(r) || r.reason.Some?
    decreases |schedule|
  {
    hide Round, Invariant;
    if !Drained(s) && s.reason.None? && schedule != [] {
      RunsEnd(streams, Round(streams, s, schedule[0]), schedule[1..]);
    }
  }

  // ----- What a capture means -----

  predicate Fits(streams: Streams, p: Pipe) {
    |streams.Of(p)| <= Limit(p)
  }

  /** In every run each buffer is a prefix of its stream within its limit, and a complete stdout is all of it. */
  lemma BuffersArePrefixes(streams: Streams, schedule: seq<seq<Ready>>, p: Pipe)
    ensures var pipe := Captured(streams, schedule).Of(p);
            pipe.buffer <= streams.Of(p) && |pipe.buffer| <= Limit(p) && pipe.observed <= Limit(p) + 1
    ensures Captured(streams, schedule).stdoutComplete ==>
              Captured(streams, schedule).out.buffer == streams.stdout && Fits(streams, Stdout)
  {
    hide Captured;
    var r := Captured(streams, schedule);
    assert PipeInvariant(streams, r, p) && PipeInvariant(streams, r, Stdout);
  }

  /** A ceiling means that exactly the limit was kept, one byte more was seen, and only one pipe got there. */
  lemma CeilingIsExact(streams: Streams, schedule: seq<seq<Ready>>, p: Pipe)
    requires Captured(streams, schedule).reason == Some(Ceiling(p))
    ensures var pipe := Captured(streams, schedule).Of(p);
            !Fits(streams, p) && pipe.buffer == streams.Of(p)[..Limit(p)] && pipe.observed == Limit(p) + 1
    ensures forall q :: q != p ==> Captured(streams, schedule).Of(q).observed <= Limit(q)
    ensures p == Stdout ==> !Captured(streams, schedule).stdoutComplete
  {
    hide Captured;
    var r := Captured(streams, schedule);
    assert PipeInvariant(streams, r, p);
    forall q | q != p ensures r.Of(q).observed <= Limit(q) {
      assert PipeInvariant(streams, r, q);
    }
  }

  lemma OwnCeiling(streams: Streams, schedule: seq<seq<Ready>>)
    ensures var reason := Captured(streams, schedule).reason;
            || reason == None || reason == Some(Deadline)
            || (reason == Some(Ceiling(Stdout)) && !Fits(streams, Stdout))
            || (reason == Some(Ceiling(Stderr)) && !Fits(streams, Stderr))
  {
    hide Captured;
    var reason := Captured(streams, schedule).reason;
    if reason.Some? && reason.value.Ceiling? {
      CeilingIsExact(streams, schedule, reason.value.pipe);
      assert reason.value.pipe == Stdout || reason.value.pipe == Stderr;
    }
  }

  /**
    A run the deadline did not cut short finds nothing wrong exactly when both streams fit, and then
    it has them whole.
    */
  lemma CaptureVerdict(streams: Streams, schedule: seq<seq<Ready>>)
    requires Captured(streams, schedule).reason != Some(Deadline)
    ensures var r := Captured(streams, schedule);
            && (r.reason == None <==> Fits(streams, Stdout) && Fits(streams, Stderr))
            && (r.reason == None ==> r.stdoutComplete && r.out.buffer == streams.stdout
                                     && r.err.buffer == streams.stderr)
  {
    StartIsInvariant(streams);
    RunsEnd(streams, START, schedule);
    var r := Captured(streams, schedule);
    OwnCeiling(streams, schedule);
    hide Captured, Run;
    assert PipeInvariant(streams, r, Stdout) && PipeInvariant(streams, r, Stderr);
  }

  /** A run the deadline ended had found no ceiling, and one of its pipes had not ended. */
  lemma {:induction false} DeadlineFindsNothing(streams: Streams, s: State, schedule: seq<seq<Ready>>)
    requires Invariant(streams, s) && s.reason != Some(Deadline)
    ensures var r := Run(streams, s, schedule); r.reason == Some(Deadline) ==> !Drained(r)
    decreases |schedule|
  {
    hide Invariant;
    if !Drained(s) && s.reason.None? && schedule != [] {
      RoundHasNoDeadline(streams, s, schedule[0]);
      DeadlineFindsNothing(streams, Round(streams, s, schedule[0]), schedule[1..]);
    }
  }

  lemma {:induction false} RoundHasNoDeadline(streams: Streams, s: State, ready: seq<Ready>)
    requires Invariant(streams, s) && s.reason != Some(Deadline)
    ensures Round(streams, s, ready).reason != Some(Deadline)
    decreases |ready|
  {
    hide Invariant;
    if ready != [] && s.reason.None? {
      ReadKeepsInvariant(streams, s, ready[0]);
      RoundHasNoDeadline(streams, ReadStep(streams, s, ready[0]), ready[1..]);
    }
  }

  /**
    A capture in bytes, whatever the schedule: stdout is kept up to 1,048,576 bytes and stderr up to
    65,536, each from its start; a ceiling is reported exactly when one byte more was seen; a run ends
    with neither ceiling nor deadline exactly when it saw both streams whole.
    */
  lemma CaptureInBytes(streams: Streams, schedule: seq<seq<Ready>>)
    ensures var r := Captured(streams, schedule);
            && r.out.observed <= |streams.stdout| && r.err.observed <= |streams.stderr|
            && r.out.buffer == streams.stdout[..Min(r.out.observed, 1_048_576)]
            && r.err.buffer == streams.stderr[..Min(r.err.observed, 65_536)]
            && (r.reason == Some(Ceiling(Stdout)) <==> r.out.observed == 1_048_577)
            && (r.reason == Some(Ceiling(Stderr)) <==> r.err.observed == 65_537)
            && (r.reason == None <==> !r.out.registered && !r.err.registered)
            && (!r.out.registered ==> r.out.observed == |streams.stdout| <= 1_048_576)
            && (!r.err.registered ==> r.err.observed == |streams.stderr| <= 65_536)
            && (r.stdoutComplete <==> !r.out.registered)
  {
    StartIsInvariant(streams);
    RunsEnd(streams, START, schedule);
    DeadlineFindsNothing(streams, START, schedule);
    OwnCeiling(streams, schedule);
    var r := Captured(streams, schedule);
    hide Captured, Run;
    assert PipeInvariant(streams, r, Stdout) && PipeInvariant(streams, r, Stderr);
  }

  /** One read, before any ceiling: at most 65,536 bytes, and at most one more than the buffer has room for. */
  lemma RequestInBytes(held: nat)
    ensures Request(Stdout, held) == Min(65_536, 1_048_577 - held)
    ensures Request(Stderr, held) == Min(65_536, 65_537 - held)
  {
  }

  // ----- Interleavings -----

  /** Bytes and ends still to be read, up to the ceilings. */
  function Left(s: State): (n: int) {
    (Limit(Stdout) + 1 - s.out.observed) + (Limit(Stderr) + 1 - s.err.observed)
    + (if s.out.registered then 1 else 0) + (if s.err.registered then 1 else 0)
  }

  /** Every read of a registered pipe brings the end nearer, so no capture reads for ever. */
  lemma ReadMakesProgress(streams: Streams, s: State, ready: Ready)
    requires s.reason.None? && Invariant(streams, s) && s.Of(ready.pipe).registered
    ensures 0 <= Left(ReadStep(streams, s, ready)) < Left(s)
  {
    RequestIsPositive(streams, s, ready.pipe);
    ReadKeepsInvariant(streams, s, ready);
    var r := ReadStep(streams, s, ready);
    assert PipeInvariant(streams, r, Stdout) && PipeInvariant(streams, r, Stderr);
  }

  /** A pipe that outgrows its ceiling can be the first to be found out: it only has to be ready first. */
  lemma {:induction false} CeilingIsReachable(streams: Streams, s: State, p: Pipe) returns (schedule: seq<seq<Ready>>)
    requires Invariant(streams, s) && s.reason.None? && !Fits(streams, p)
    ensures Run(streams, s, schedule).reason == Some(Ceiling(p))
    decreases Limit(p) + 1 - s.Of(p).observed
  {
    assert PipeInvariant(streams, s, p);
    var ready := Ready(p, READ_BLOCK);
    var r := ReadStep(streams, s, ready);
    ReadKeepsInvariant(streams, s, ready);
    ReadMakesProgress(streams, s, ready);
    OnePipeRead(streams, s, ready);
    OneRead(streams, s, ready);
    if r.reason.Some? {
      schedule := [[ready]];
      ReasonStays(streams, r, []);
    } else {
      var rest := CeilingIsReachable(streams, r, p);
      schedule := [[ready]] + rest;
      assert schedule[1..] == rest;
    }
  }

  lemma OneRead(streams: Streams, s: State, ready: Ready)
    requires Invariant(streams, s) && s.reason.None?
    ensures Round(streams, s, [ready]) == ReadStep(streams, s, ready)
  {
    ReadKeepsInvariant(streams, s, ready);
    assert [ready][1..] == [];
  }

  /** A stream that does not fit is not at its end yet, so more of it is seen, and only its own ceiling can be found. */
  lemma OnePipeRead(streams: Streams, s: State, ready: Ready)
    requires Invariant(streams, s) && s.reason.None? && !Fits(streams, ready.pipe)
    ensures var r := ReadStep(streams, s, ready);
            && s.Of(ready.pipe).registered && !Drained(s)
            && r.Of(ready.pipe).observed > s.Of(ready.pipe).observed
            && (r.reason == None || r.reason == Some(Ceiling(ready.pipe)))
  {
    assert PipeInvariant(streams, s, ready.pipe);
    RequestIsPositive(streams, s, ready.pipe);
  }

  lemma ReasonStays(streams: Streams, s: State, schedule: seq<seq<Ready>>)
    requires Invariant(streams, s) && s.reason.Some?
    ensures Run(streams, s, schedule) == s
  {
  }

  lemma SomeInterleaving(streams: Streams, p: Pipe) returns (schedule: seq<seq<Ready>>)
    requires !Fits(streams, p)
    ensures Captured(streams, schedule).reason == Some(Ceiling(p))
  {
    StartIsInvariant(streams);
    schedule := CeilingIsReachable(streams, START, p);
  }

  /**
    Without a deadline the reason is the same for every interleaving unless both streams outgrow
    their ceilings; if they do, each of the two reasons is found by some interleaving.
    */
  lemma ReasonDependsOnInterleaving(streams: Streams, a: seq<seq<Ready>>, b: seq<seq<Ready>>)
    requires Captured(streams, a).reason != Some(Deadline) && Captured(streams, b).reason != Some(Deadline)
    ensures Fits(streams, Stdout) || Fits(streams, Stderr)
            ==> Captured(streams, a).reason == Captured(streams, b).reason
    ensures !Fits(streams, Stdout) && !Fits(streams, Stderr) ==>
              && (exists c :: Captured(streams, c).reason == Some(Ceiling(Stdout)))
              && (exists c :: Captured(streams, c).reason == Some(Ceiling(Stderr)))
  {
    hide Captured, Run, Fits;
    CaptureVerdict(streams, a);
    CaptureVerdict(streams, b);
    OwnCeiling(streams, a);
    OwnCeiling(streams, b);
    if !Fits(streams, Stdout) && !Fits(streams, Stderr) {
      var c := SomeInterleaving(streams, Stdout);
      var d := SomeInterleaving(streams, Stderr);
    }
  }

  /** One byte too many on each pipe: which ceiling is reported is up to the schedule. */
  lemma BothCeilingsOccur() returns (streams: Streams, a: seq<seq<Ready>>, b: seq<seq<Ready>>)
    ensures |streams.stdout| == 1_048_577 && |streams.stderr| == 65_537
    ensures Captured(streams, a).reason == Some(Ceiling(Stdout))
    ensures Captured(streams, b).reason == Some(Ceiling(Stderr))
  {
    streams := Streams(seq(1_048_577, _ => 0), seq(65_537, _ => 0));
    a := SomeInterleaving(streams, Stdout);
    b := SomeInterleaving(streams, Stderr);
  }

  // ----- The loop -----

  /** Every report of a schedule, in order. */
  function Reports(schedule: seq<seq<Ready>>): (reports: seq<Ready>) {
    if schedule == [] then [] else schedule[0] + Reports(schedule[1..])
  }

  /** The same reports, one to a selection. */
  function Singly(reports: seq<Ready>): (schedule: seq<seq<Ready>>) {
    if reports == [] then [] else [[reports[0]]] + Singly(reports[1..])
  }

  lemma {:induction false} NothingLeftToRead(streams: Streams, s: State, ready: seq<Ready>)
    requires Invariant(streams, s) && (Drained(s) || s.reason.Some?)
    ensures Round(streams, s, ready) == s
    decreases |ready|
  {
    hide Invariant;
    if ready != [] && s.reason.None? {
      assert s.Of(ready[0].pipe) == s.out || s.Of(ready[0].pipe) == s.err;
      NothingLeftToRead(streams, s, ready[1..]);
    }
  }

  lemma {:induction false} SinglyAppend(a: seq<Ready>, b: seq<Ready>)
    ensures Singly(a + b) == Singly(a) + Singly(b)
  {
    if a == [] {
      assert a + b == b && Singly(a) + Singly(b) == Singly(b);
    } else {
      assert (a + b)[1..] == a[1..] + b;
      SinglyAppend(a[1..], b);
    }
  }

  lemma {:induction false} RoundSingly(streams: Streams, s: State, ready: seq<Ready>, more: seq<seq<Ready>>)
    requires Invariant(streams, s)
    ensures Run(streams, s, Singly(ready) + more) == Run(streams, Round(streams, s, ready), more)
    decreases |ready|
  {
    hide Invariant, Drained;
    if Drained(s) || s.reason.Some? {
      NothingLeftToRead(streams, s, ready);
    } else if ready == [] {
      assert Singly(ready) + more == more;
    } else {
      var schedule := Singly(ready) + more;
      assert schedule[0] == [ready[0]] && schedule[1..] == Singly(ready[1..]) + more;
      OneRead(streams, s, ready[0]);
      ReadKeepsInvariant(streams, s, ready[0]);
      RoundSingly(streams, ReadStep(streams, s, ready[0]), ready[1..], more);
    }
  }

  /**
    How reports are grouped into selections does not matter: every one of them is read, in order,
    until the run ends.
    */
  lemma {:induction false} EveryReportIsRead(streams: Streams, s: State, schedule: seq<seq<Ready>>)
    requires Invariant(streams, s)
    ensures Run(streams, s, schedule) == Run(streams, s, Singly(Reports(schedule)))
    decreases |schedule|
  {
    hide Invariant, Drained, Round;
    if schedule != [] {
      var rest := Reports(schedule[1..]);
      SinglyAppend(schedule[0], rest);
      RoundSingly(streams, s, schedule[0], Singly(rest));
      if Drained(s) || s.reason.Some? {
        NothingLeftToRead(streams, s, schedule[0]);
      } else {
        EveryReportIsRead(streams, Round(streams, s, schedule[0]), schedule[1..]);
      }
    }
  }

  class Capture {
    const streams: Streams
    var buffers: map<Pipe, seq<Byte>>
    var observed: map<Pipe, nat>
    var registered: set<Pipe>
    var stdoutComplete: bool
    var reason: Option<Reason>

    ghost predicate Valid()
      reads this
    {
      buffers.Keys == {Stdout, Stderr} && observed.Keys == {Stdout, Stderr} && Invariant(streams, View())
    }

    /** The state as a value. */
    ghost function View(): (s: State)
      requires buffers.Keys == {Stdout, Stderr} && observed.Keys == {Stdout, Stderr}
      reads this
    {
      State(PipeState(buffers[Stdout], observed[Stdout], Stdout in registered),
            PipeState(buffers[Stderr], observed[Stderr], Stderr in registered), stdoutComplete, reason)
    }

    constructor (streams: Streams)
      ensures this.streams == streams && Valid() && View() == START
    {
      this.streams := streams;
      buffers := map[Stdout := [], Stderr := []];
      observed := map[Stdout := 0, Stderr := 0];
      registered := {Stdout, Stderr};
      stdoutComplete := false;
      reason := None;
      new;
      StartIsInvariant(streams);
    }

    method Read(ready: Ready)
      requires Valid() && reason.None? && ready.pipe in registered
      modifies this
      ensures Valid() && View() == ReadStep(streams, old(View()), ready)
    {
      hide Invariant, Request, Data, Limit;
      var name := ready.pipe;
      ghost var before := View();
      RequestIsPositive(streams, before, name);
      ReadKeepsInvariant(streams, before, ready);
      var data := Data(streams.Of(name), observed[name], Request(name, |buffers[name]|), ready.available);
      if data == [] {
        registered := registered - {name};
        if name == Stdout {
          stdoutComplete := true;
        }
      } else {
        observed := observed[name := observed[name] + |data|];
        var available := Limit(name) - |buffers[name]|;
        buffers := buffers[name := buffers[name] + if |data| > available then data[..available] else data];
        if |data| > available {
          reason := Some(Ceiling(name));
        }
      }
      assert View() == ReadStep(streams, before, ready);
    }

    method ReadRound(ready: seq<Ready>)
      requires Valid()
      modifies this
      ensures Valid() && View() == Round(streams, old(View()), ready)
    {
      assert ready[0..] == ready;
      for i := 0 to |ready|
        invariant Valid()
        invariant Round(streams, View(), ready[i..]) == Round(streams, old(View()), ready)
      {
        if reason.Some? {
          break;
        }
        assert ready[i..][1..] == ready[i + 1..];
        if ready[i].pipe in registered {
          Read(ready[i]);
        }
      }
    }

    /** The loop follows the schedule to the end of the run. */
    method Drain(schedule: seq<seq<Ready>>)
      requires Valid() && View() == START
      modifies this
      ensures Valid() && View() == Captured(streams, schedule)
    {
      hide Invariant, Round;
      var i := 0;
      assert schedule[0..] == schedule;
      while registered != {} && reason.None?
        invariant Valid() && i <= |schedule|
        invariant Run(streams, View(), schedule[i..]) == Captured(streams, schedule)
        decreases |schedule| - i, reason.None?
      {
        assert !Drained(View()) by {
          var name :| name in registered;
          assert name == Stdout || name == Stderr;
        }
        if i == |schedule| {
          DeadlineKeepsInvariant(streams, View());
          ghost var before := View();
          reason := Some(Deadline);
          assert View() == before.(reason := Some(Deadline));
        } else {
          assert schedule[i..][1..] == schedule[i + 1..];
          ReadRound(schedule[i]);
          i := i + 1;
        }
      }
    }
  }
}
