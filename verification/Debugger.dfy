/** The debugger: a cursor moved over the recorded snapshots of a finished run. */
module Debugger {
  import opened Wrappers

  datatype Path = Path(relative: bool, parents: seq<string>, file: Option<string>)

  datatype Position = Position(path: Path, line: nat, column: nat)

  /** What was recorded before a statement: its place, the depth of the call stack (the anonymous frame
      at the bottom included) and the transaction events so far. */
  datatype Snapshot = Snapshot(position: Position, frames: nat, events: nat)

  type Trace = seq<Snapshot>

  /** The same path, or the same file name when one of them is relative. */
  predicate SamePath(a: Path, b: Path) {
    a == b || (a.file.Some? && a.file == b.file && (a.relative || b.relative))
  }

  // ---------------------------------------------------------------- navigation as a function

  /** The first index at or after `from` with the property, or the length of the trace. */
  function NextIndex(trace: Trace, from: nat, p: Snapshot -> bool): (i: nat)
    requires from <= |trace|
    ensures from <= i <= |trace| && (i < |trace| ==> p(trace[i])) && forall j :: from <= j < i ==> !p(trace[j])
    decreases |trace| - from
  {
    if from == |trace| || p(trace[from]) then from else NextIndex(trace, from + 1, p)
  }

  datatype Command = Continue | StepIn | StepOver | StepOut

  type Breakpoints = map<Path, set<nat>>

  predicate IsBreakpoint(breakpoints: Breakpoints, position: Position) {
    exists path :: path in breakpoints && SamePath(path, position.path) && position.line in breakpoints[path]
  }

  predicate InBounds(trace: Trace, cursor: Option<nat>) {
    cursor.Some? ==> cursor.value < |trace|
  }

  function Resume(cursor: Option<nat>): nat {
    if cursor.Some? then cursor.value + 1 else 0
  }

  function CurrentFrames(trace: Trace, cursor: Option<nat>): nat
    requires InBounds(trace, cursor)
  {
    if cursor.Some? then trace[cursor.value].frames else 0
  }

  /** Where each command may stop. */
  predicate Stops(breakpoints: Breakpoints, frames: nat, command: Command, snapshot: Snapshot) {
    match command
    case Continue => IsBreakpoint(breakpoints, snapshot.position)
    case StepIn => true
    case StepOver => snapshot.frames <= frames
    case StepOut => snapshot.frames < frames
  }

  /** The cursor after a command; none when the run is over. */
  function Move(trace: Trace, breakpoints: Breakpoints, cursor: Option<nat>, command: Command): (r: Option<nat>)
    requires InBounds(trace, cursor)
    ensures InBounds(trace, r)
  {
    var frames := CurrentFrames(trace, cursor);
    var i := NextIndex(trace, Resume(cursor), s => Stops(breakpoints, frames, command, s));
    if i < |trace| then Some(i) else None
  }

  /** The cursors after each of a sequence of commands. */
  function Session(trace: Trace, breakpoints: Breakpoints, cursor: Option<nat>, commands: seq<Command>): (r: seq<Option<nat>>)
    requires InBounds(trace, cursor)
    ensures |r| == |commands|
    decreases |commands|
  {
    if commands == [] then []
    else
      var next := Move(trace, breakpoints, cursor, commands[0]);
      [next] + Session(trace, breakpoints, next, commands[1..])
  }

  /** No finishing stop up to and including the `i`th command. */
  ghost predicate Running(cursors: seq<Option<nat>>, i: nat) {
    i < |cursors| && forall j :: 0 <= j <= i ==> cursors[j].Some?
  }

  /** Until the finishing stop the cursor rises with every command, so no more commands than snapshots
      can pass before it. */
  lemma {:induction false} SessionsFinish(trace: Trace, breakpoints: Breakpoints, cursor: Option<nat>, commands: seq<Command>, i: nat)
    requires InBounds(trace, cursor) && Running(Session(trace, breakpoints, cursor, commands), i)
    ensures var r := Session(trace, breakpoints, cursor, commands);
            Resume(cursor) + i <= r[i].value < |trace|
    decreases |commands|
  {
    hide Move;
    var next := Move(trace, breakpoints, cursor, commands[0]);
    var r := Session(trace, breakpoints, cursor, commands);
    var rest := Session(trace, breakpoints, next, commands[1..]);
    assert r == [next] + rest && r[0] == next;
    MoveRises(trace, breakpoints, cursor, commands[0]);
    if i > 0 {
      assert forall j :: 0 <= j < i ==> rest[j] == r[j + 1];
      SessionsFinish(trace, breakpoints, next, commands[1..], i - 1);
    }
  }

  lemma MoveRises(trace: Trace, breakpoints: Breakpoints, cursor: Option<nat>, command: Command)
    requires InBounds(trace, cursor)
    ensures var next := Move(trace, breakpoints, cursor, command);
            next.Some? ==> Resume(cursor) <= next.value < |trace|
  {
  }

  /** The cursor after a command, from what lies between. */
  lemma MoveIs(trace: Trace, breakpoints: Breakpoints, cursor: nat, command: Command, next: nat)
    requires cursor < next <= |trace|
    requires forall j :: cursor < j < next ==> !Stops(breakpoints, trace[cursor].frames, command, trace[j])
    requires next < |trace| ==> Stops(breakpoints, trace[cursor].frames, command, trace[next])
    ensures Move(trace, breakpoints, Some(cursor), command) == if next < |trace| then Some(next) else None
  {
    hide Stops;
    NextIndexAt(trace, cursor + 1, s => Stops(breakpoints, trace[cursor].frames, command, s), next);
  }

  /** Some breakpoint is set on the line in a file of that path. */
  ghost predicate Set(breakpoints: Breakpoints, position: Position) {
    exists path, line :: path in breakpoints && line in breakpoints[path] && line == position.line
                         && (path == position.path
                             || (path.file.Some? && path.file == position.path.file && (path.relative || position.path.relative)))
  }

  /** Continuing stops at the first recorded place with a breakpoint after the current one, and finishes if
      there is none; stepping in stops at the very next place. */
  lemma ContinueExactly(trace: Trace, breakpoints: Breakpoints, cursor: Option<nat>)
    requires InBounds(trace, cursor)
    ensures var from := if cursor.Some? then cursor.value + 1 else 0;
            var next := Move(trace, breakpoints, cursor, Continue);
            if next.Some? then
              from <= next.value < |trace| && Set(breakpoints, trace[next.value].position)
              && forall j :: from <= j < next.value ==> !Set(breakpoints, trace[j].position)
            else forall j :: from <= j < |trace| ==> !Set(breakpoints, trace[j].position)
    ensures var from := if cursor.Some? then cursor.value + 1 else 0;
            Move(trace, breakpoints, cursor, StepIn) == if from < |trace| then Some(from) else None
  {
    forall j | 0 <= j < |trace| ensures Set(breakpoints, trace[j].position) <==> IsBreakpoint(breakpoints, trace[j].position) {
      BreakpointSet(breakpoints, trace[j].position);
    }
    var frames := CurrentFrames(trace, cursor);
    var p := s => Stops(breakpoints, frames, Continue, s);
    var i := NextIndex(trace, Resume(cursor), p);
    assert forall j :: 0 <= j < |trace| ==> (p(trace[j]) <==> IsBreakpoint(breakpoints, trace[j].position));
    hide IsBreakpoint, Set;
  }

  lemma BreakpointSet(breakpoints: Breakpoints, position: Position)
    ensures Set(breakpoints, position) <==> IsBreakpoint(breakpoints, position)
  {
    if IsBreakpoint(breakpoints, position) {
      var path :| path in breakpoints && SamePath(path, position.path) && position.line in breakpoints[path];
      assert path in breakpoints && position.line in breakpoints[path];
    }
  }

  /** Stepping over passes by what is deeper. */
  lemma StepOverIs(trace: Trace, breakpoints: Breakpoints, cursor: nat, frames: nat, next: nat)
    requires cursor < next <= |trace| && trace[cursor].frames == frames
    requires forall j :: cursor < j < next ==> trace[j].frames > frames
    requires next < |trace| ==> trace[next].frames <= frames
    ensures Move(trace, breakpoints, Some(cursor), StepOver) == if next < |trace| then Some(next) else None
  {
    hide Move;
    MoveIs(trace, breakpoints, cursor, StepOver, next);
  }

  /** Stepping out passes by what is no shallower than the frame left. */
  lemma StepOutIs(trace: Trace, breakpoints: Breakpoints, cursor: nat, frames: nat, next: nat)
    requires cursor < next <= |trace| && trace[cursor].frames == frames + 1
    requires forall j :: cursor < j < next ==> trace[j].frames > frames
    requires next < |trace| ==> trace[next].frames <= frames
    ensures Move(trace, breakpoints, Some(cursor), StepOut) == if next < |trace| then Some(next) else None
  {
    hide Move;
    MoveIs(trace, breakpoints, cursor, StepOut, next);
  }

  lemma {:induction false} NextIndexAt(trace: Trace, from: nat, p: Snapshot -> bool, i: nat)
    requires from <= i <= |trace| && (forall j :: from <= j < i ==> !p(trace[j])) && (i < |trace| ==> p(trace[i]))
    ensures NextIndex(trace, from, p) == i
    decreases i - from
  {
    if from < i { NextIndexAt(trace, from + 1, p, i); }
  }

  // ---------------------------------------------------------------- the session

  datatype Reason = Entry | AtBreakpoint | Step | Exception | Complete

  datatype Stop = Stop(reason: Reason, position: Option<Position>)

  datatype Breakpoint = Breakpoint(line: nat, actualLine: Option<nat>)

  class DebuggerSession {
    const trace: Trace
    const failed: bool
    const timelineLength: nat
    var breakpoints: Breakpoints
    var cursor: Option<nat>

    constructor (trace: Trace, failed: bool, timelineLength: nat)
      ensures this.trace == trace && this.failed == failed && this.timelineLength == timelineLength
      ensures cursor.None? && breakpoints == map[]
    {
      this.trace, this.failed, this.timelineLength := trace, failed, timelineLength;
      breakpoints, cursor := map[], None;
    }

    ghost predicate Valid()
      reads this
    {
      InBounds(trace, cursor)
    }

    /** The stop that reports the cursor. */
    function StopFor(reason: Reason): Stop
      requires Valid()
      reads this
    {
      if cursor.Some? then Stop(reason, Some(trace[cursor.value].position))
      else Stop(if failed then Exception else Complete, None)
    }

    method Start(stopOnEntry: bool) returns (stop: Stop)
      requires Valid() && cursor.None?
      modifies this`cursor
      ensures Valid()
      ensures cursor == if stopOnEntry && trace != [] then Some(0) else Move(trace, breakpoints, None, Continue)
      ensures stop == StopFor(if stopOnEntry then Entry else AtBreakpoint)
    {
      if stopOnEntry && trace != [] {
        cursor := Some(0);
        return StopFor(Entry);
      }
      stop := ContinueExecution();
    }

    method ContinueExecution() returns (stop: Stop)
      requires Valid()
      modifies this`cursor
      ensures Valid() && cursor == Move(trace, breakpoints, old(cursor), Continue)
      ensures stop == StopFor(AtBreakpoint)
      ensures cursor.Some? ==> stop == Stop(AtBreakpoint, Some(trace[cursor.value].position))
      ensures cursor.None? ==> stop == Stop(if failed then Exception else Complete, None)
    {
      MoveToNext(Continue);
      stop := StopFor(AtBreakpoint);
    }

    method StepBy(command: Command) returns (stop: Stop)
      requires Valid() && !command.Continue?
      modifies this`cursor
      ensures Valid() && cursor == Move(trace, breakpoints, old(cursor), command)
      ensures stop == StopFor(Step)
      ensures cursor.Some? ==> stop == Stop(Step, Some(trace[cursor.value].position))
      ensures cursor.None? ==> stop == Stop(if failed then Exception else Complete, None)
    {
      MoveToNext(command);
      stop := StopFor(Step);
    }

    /** Scans forward for the next snapshot at which the command stops. */
    method MoveToNext(command: Command)
      requires Valid()
      modifies this`cursor
      ensures Valid() && cursor == Move(trace, breakpoints, old(cursor), command)
    {
      hide Stops;
      var frames, points := CurrentFrames(trace, cursor), breakpoints;
      ghost var p := s => Stops(points, frames, command, s);
      var i := Resume(cursor);
      ghost var from := i;
      while i < |trace| && !Stops(points, frames, command, trace[i])
        invariant from <= i <= |trace|
        invariant forall j :: from <= j < i ==> !p(trace[j])
      {
        i := i + 1;
      }
      NextIndexAt(trace, from, p, i);
      cursor := if i < |trace| then Some(i) else None;
    }

    /** Each requested line is moved to the nearest recorded line at or below it in the file; requests
        beyond the last one are not verified. */
    method SetBreakpoints(path: Path, requested: seq<nat>) returns (result: seq<Breakpoint>)
      modifies this`breakpoints
      ensures |result| == |requested|
      ensures forall i :: 0 <= i < |result| ==> result[i].line == requested[i] && Snapped(trace, path, requested[i], result[i].actualLine)
      ensures breakpoints == old(breakpoints)[path := AcceptedLines(result)]
    {
      result := [];
      var accepted: set<nat> := {};
      for i := 0 to |requested|
        invariant |result| == i
        invariant forall j :: 0 <= j < i ==> result[j].line == requested[j] && Snapped(trace, path, requested[j], result[j].actualLine)
        invariant accepted == AcceptedLines(result) && breakpoints == old(breakpoints)
      {
        var actual := NearestLine(path, requested[i]);
        AcceptedStep(result, Breakpoint(requested[i], actual));
        result := result + [Breakpoint(requested[i], actual)];
        if actual.Some? {
          accepted := accepted + {actual.value};
        }
      }
      breakpoints := breakpoints[path := accepted];
    }

    method NearestLine(path: Path, line: nat) returns (actual: Option<nat>)
      ensures Snapped(trace, path, line, actual)
    {
      actual := None;
      NothingSnapped(trace[..0], path, line);
      for i := 0 to |trace|
        invariant Snapped(trace[..i], path, line, actual)
      {
        var position := trace[i].position;
        SnappedStep(trace, i, path, line, actual);
        if SamePath(position.path, path) && line <= position.line && (actual.None? || position.line < actual.value) {
          actual := Some(position.line);
        }
      }
      assert trace[..|trace|] == trace;
    }

    /** The number of transaction events visible at the cursor. */
    function VisibleEvents(): (n: nat)
      requires Valid()
      reads this
      ensures n <= timelineLength
    {
      var n := if cursor.Some? then trace[cursor.value].events else timelineLength;
      if n < timelineLength then n else timelineLength
    }
  }

  function AcceptedLines(result: seq<Breakpoint>): set<nat> {
    set i | 0 <= i < |result| && result[i].actualLine.Some? :: result[i].actualLine.value
  }

  lemma AcceptedStep(result: seq<Breakpoint>, next: Breakpoint)
    ensures AcceptedLines(result + [next]) == AcceptedLines(result) + if next.actualLine.Some? then {next.actualLine.value} else {}
  {
    var all := result + [next];
    assert all[|result|] == next && forall j :: 0 <= j < |result| ==> all[j] == result[j];
  }

  ghost predicate Recorded(trace: Trace, path: Path, line: nat) {
    exists i :: 0 <= i < |trace| && SamePath(trace[i].position.path, path) && trace[i].position.line == line
  }

  lemma RecordedStep(trace: Trace, i: nat, path: Path, n: nat)
    requires i < |trace|
    ensures Recorded(trace[..i + 1], path, n) <==>
              Recorded(trace[..i], path, n) || (SamePath(trace[i].position.path, path) && trace[i].position.line == n)
  {
    assert trace[..i + 1][i] == trace[i];
    assert forall j :: 0 <= j < i ==> trace[..i + 1][j] == trace[..i][j];
  }

  lemma NothingSnapped(trace: Trace, path: Path, line: nat)
    requires trace == []
    ensures Snapped(trace, path, line, None)
  {
  }

  /** One more snapshot can only bring the line closer. */
  lemma SnappedStep(trace: Trace, i: nat, path: Path, line: nat, actual: Option<nat>)
    requires i < |trace| && Snapped(trace[..i], path, line, actual)
    ensures var position := trace[i].position;
            var closer := SamePath(position.path, path) && line <= position.line && (actual.None? || position.line < actual.value);
            Snapped(trace[..i + 1], path, line, if closer then Some(position.line) else actual)
  {
    var position := trace[i].position;
    var closer := SamePath(position.path, path) && line <= position.line && (actual.None? || position.line < actual.value);
    var after := if closer then Some(position.line) else actual;
    if after.Some? { RecordedStep(trace, i, path, after.value); }
    var later := trace[..i + 1];
    forall n: nat | Recorded(later, path, n)
      ensures if after.Some? then line <= n ==> after.value <= n else n < line
    {
      RecordedStep(trace, i, path, n);
    }
  }

  /** The least recorded line at or after the requested one, if there is any. */
  ghost predicate Snapped(trace: Trace, path: Path, line: nat, actual: Option<nat>) {
    if actual.Some? then
      Recorded(trace, path, actual.value) && line <= actual.value
      && forall n: nat :: Recorded(trace, path, n) && line <= n ==> actual.value <= n
    else
      forall n: nat :: Recorded(trace, path, n) ==> n < line
  }
}
