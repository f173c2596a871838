/** Stepping follows the call tree of the run. */
module CallTrees {
  import opened Wrappers
  import opened Debugger

  /** What happens in a frame, in order: its statements, and after each the calls it makes. */
  datatype Activity = Statement(position: Position, events: nat) | Call(body: seq<Activity>)

  /** A frame starts with a statement: calls are made by statements. */
  predicate Proper(activities: seq<Activity>)
    decreases activities, 1
  {
    && (activities != [] ==> activities[0].Statement?)
    && ProperCalls(activities)
  }

  predicate ProperCalls(activities: seq<Activity>)
    decreases activities, 0
  {
    activities != [] ==> (activities[0].Call? ==> Proper(activities[0].body)) && ProperCalls(activities[1..])
  }

  /** The snapshots a frame leaves when its statements have this many frames. */
  function Flatten(activities: seq<Activity>, frames: nat): Trace {
    if activities == [] then []
    else
      (match activities[0]
       case Statement(position, events) => [Snapshot(position, frames, events)]
       case Call(body) => Flatten(body, frames + 1))
      + Flatten(activities[1..], frames)
  }

  lemma {:induction false} FlattenSplit(a: seq<Activity>, b: seq<Activity>, frames: nat)
    ensures Flatten(a + b, frames) == Flatten(a, frames) + Flatten(b, frames)
    decreases |a|
  {
    if a == [] {
      assert a + b == b;
    } else {
      assert (a + b)[0] == a[0] && (a + b)[1..] == a[1..] + b;
      FlattenSplit(a[1..], b, frames);
    }
  }

  lemma {:induction false} FlattenDepth(activities: seq<Activity>, frames: nat)
    ensures forall i :: 0 <= i < |Flatten(activities, frames)| ==> Flatten(activities, frames)[i].frames >= frames
    decreases activities
  {
    if activities != [] {
      if activities[0].Call? { FlattenDepth(activities[0].body, frames + 1); }
      FlattenDepth(activities[1..], frames);
    }
  }

  /** The number of calls at the front: those of the statement just before. */
  function LeadingCalls(activities: seq<Activity>): (n: nat)
    ensures n <= |activities| && (forall i :: 0 <= i < n ==> activities[i].Call?)
    ensures n < |activities| ==> activities[n].Statement?
  {
    if activities == [] || activities[0].Statement? then 0 else 1 + LeadingCalls(activities[1..])
  }

  lemma {:induction false} CallsAreDeeper(calls: seq<Activity>, frames: nat)
    requires forall i :: 0 <= i < |calls| ==> calls[i].Call?
    ensures forall i :: 0 <= i < |Flatten(calls, frames)| ==> Flatten(calls, frames)[i].frames > frames
    decreases |calls|
  {
    if calls != [] {
      FlattenDepth(calls[0].body, frames + 1);
      CallsAreDeeper(calls[1..], frames);
    }
  }

  predicate HeadAtMost(trace: Trace, frames: nat) {
    trace != [] ==> trace[0].frames <= frames
  }

  /** A frame within a whole run: what was recorded before it and what after it. */
  datatype Frame = Frame(before: Trace, activities: seq<Activity>, frames: nat, after: Trace)

  function Whole(f: Frame): Trace {
    f.before + Flatten(f.activities, f.frames) + f.after
  }

  /** The run's outermost frame, or the body of a call of such a frame. */
  ghost predicate InRun(program: seq<Activity>, f: Frame, nesting: nat)
    decreases nesting
  {
    if nesting == 0 then f == Frame([], program, 1, [])
    else exists g: Frame, i :: 0 <= i < |g.activities| && g.activities[i].Call?
                        && f == CallFrame(g, i) && InRun(program, g, nesting - 1)
  }

  function CallFrame(g: Frame, i: nat): Frame
    requires i < |g.activities| && g.activities[i].Call?
  {
    Frame(g.before + Flatten(g.activities[..i], g.frames), g.activities[i].body, g.frames + 1,
          Flatten(g.activities[i + 1..], g.frames) + g.after)
  }

  lemma {:induction false} ProperAt(activities: seq<Activity>, i: nat)
    requires ProperCalls(activities) && i < |activities|
    ensures activities[i].Call? ==> Proper(activities[i].body)
    ensures ProperCalls(activities[i + 1..])
    decreases i
  {
    if i > 0 {
      ProperAt(activities[1..], i - 1);
      assert activities[1..][i..] == activities[i + 1..];
    }
  }

  lemma {:induction false} ProperHead(activities: seq<Activity>, frames: nat)
    requires ProperCalls(activities)
    ensures HeadAtMost(Flatten(activities, frames), frames + 1)
    decreases activities
  {
    if activities != [] {
      if activities[0].Call? && activities[0].body != [] {
        assert activities[0].body[0].Statement?;
      } else if activities[0].Call? {
        assert Flatten([], frames + 1) == [];
        ProperHead(activities[1..], frames);
      }
    }
  }

  /** Every frame of a run is a stretch of its trace, and what follows is no deeper. */
  lemma {:induction false} FramesOfRun(program: seq<Activity>, f: Frame, nesting: nat)
    requires Proper(program) && InRun(program, f, nesting)
    ensures Whole(f) == Flatten(program, 1) && Proper(f.activities) && HeadAtMost(f.after, f.frames) && f.frames >= 1
    decreases nesting
  {
    hide Flatten, Proper, ProperCalls;
    if nesting == 0 {
      assert [] + Flatten(program, 1) + [] == Flatten(program, 1);
    } else {
      var g: Frame, i :| 0 <= i < |g.activities| && g.activities[i].Call? && f == CallFrame(g, i) && InRun(program, g, nesting - 1);
      FramesOfRun(program, g, nesting - 1);
      CallFrameWhole(g, i);
      ProperFrame(g, i);
    }
  }

  lemma CallFrameWhole(g: Frame, i: nat)
    requires i < |g.activities| && g.activities[i].Call?
    ensures Whole(CallFrame(g, i)) == Whole(g)
  {
    var call := g.activities[i];
    FlattenCall(call, g.frames);
    hide Flatten;
    assert g.activities == g.activities[..i] + ([call] + g.activities[i + 1..]);
    FlattenSplit(g.activities[..i], [call] + g.activities[i + 1..], g.frames);
    FlattenSplit([call], g.activities[i + 1..], g.frames);
    Regroup(g.before, Flatten(g.activities[..i], g.frames), Flatten(call.body, g.frames + 1), Flatten(g.activities[i + 1..], g.frames), g.after);
  }

  lemma Regroup(a: Trace, x: Trace, y: Trace, z: Trace, b: Trace)
    ensures a + (x + (y + z)) + b == (a + x) + y + (z + b)
  {
  }

  lemma FlattenCall(call: Activity, frames: nat)
    requires call.Call?
    ensures Flatten([call], frames) == Flatten(call.body, frames + 1)
  {
    assert [call][1..] == [];
  }

  lemma ProperFrame(g: Frame, i: nat)
    requires i < |g.activities| && g.activities[i].Call? && Proper(g.activities) && HeadAtMost(g.after, g.frames)
    ensures Proper(g.activities[i].body) && HeadAtMost(CallFrame(g, i).after, g.frames + 1)
  {
    hide Flatten;
    ProperAt(g.activities, i);
    ProperHead(g.activities[i + 1..], g.frames);
  }

  /** The index of a statement's snapshot. */
  function IndexOf(f: Frame, i: nat): nat
    requires i <= |f.activities|
  {
    |f.before| + |Flatten(f.activities[..i], f.frames)|
  }

  lemma StatementIndex(f: Frame, i: nat)
    requires i < |f.activities| && f.activities[i].Statement?
    ensures IndexOf(f, i) < |Whole(f)| && Whole(f)[IndexOf(f, i)].frames == f.frames
    ensures IndexOf(f, i + 1) == IndexOf(f, i) + 1
  {
    var s := f.activities[i];
    assert f.activities == f.activities[..i] + ([s] + f.activities[i + 1..]);
    FlattenSplit(f.activities[..i], [s] + f.activities[i + 1..], f.frames);
    assert ([s] + f.activities[i + 1..])[1..] == f.activities[i + 1..];
    assert f.activities[..i + 1] == f.activities[..i] + [s];
    FlattenSplit(f.activities[..i], [s], f.frames);
    assert [s][1..] == [] && Flatten([], f.frames) == [];
  }

  /** Stepping over a statement skips exactly the snapshots of the calls it makes: it stops at the
      frame's next statement or, past the last one, at whatever was recorded next. */
  lemma StepOverSkipsCalls(program: seq<Activity>, f: Frame, nesting: nat, i: nat, breakpoints: Breakpoints)
    requires Proper(program) && InRun(program, f, nesting) && i < |f.activities| && f.activities[i].Statement?
    ensures IndexOf(f, i) < |Flatten(program, 1)|
    ensures var trace := Flatten(program, 1);
            var next := IndexOf(f, i + 1 + LeadingCalls(f.activities[i + 1..]));
            next <= |trace| && Move(trace, breakpoints, Some(IndexOf(f, i)), StepOver) == if next < |trace| then Some(next) else None
  {
    hide Flatten, LeadingCalls, Move, Proper, InRun;
    FramesOfRun(program, f, nesting);
    StatementIndex(f, i);
    var calls := LeadingCalls(f.activities[i + 1..]);
    CallsBetween(f, i, calls);
    var next := IndexOf(f, i + 1 + calls);
    AfterCalls(f, i + 1 + calls);
    StepOverIs(Whole(f), breakpoints, IndexOf(f, i), f.frames, next);
  }

  lemma CallsBetween(f: Frame, i: nat, calls: nat)
    requires i < |f.activities| && f.activities[i].Statement? && calls == LeadingCalls(f.activities[i + 1..])
    ensures IndexOf(f, i + 1) <= IndexOf(f, i + 1 + calls) <= |Whole(f)| - |f.after|
    ensures forall j :: IndexOf(f, i + 1) <= j < IndexOf(f, i + 1 + calls) ==> Whole(f)[j].frames > f.frames
  {
    hide Flatten, LeadingCalls;
    var k := i + 1 + calls;
    var between := f.activities[i + 1..k];
    assert between == f.activities[i + 1..][..calls];
    CallsAreDeeper(between, f.frames);
    assert f.activities[..k] == f.activities[..i + 1] + between;
    FlattenSplit(f.activities[..i + 1], between, f.frames);
    assert f.activities == f.activities[..k] + f.activities[k..];
    FlattenSplit(f.activities[..k], f.activities[k..], f.frames);
  }

  /** After its calls comes the frame's next statement or the rest of the run. */
  lemma AfterCalls(f: Frame, k: nat)
    requires k <= |f.activities| && (k < |f.activities| ==> f.activities[k].Statement?) && HeadAtMost(f.after, f.frames)
    ensures IndexOf(f, k) <= |Whole(f)|
    ensures IndexOf(f, k) < |Whole(f)| ==> Whole(f)[IndexOf(f, k)].frames <= f.frames
  {
    if k < |f.activities| {
      StatementIndex(f, k);
    } else {
      assert f.activities[..k] == f.activities;
    }
  }

  /** Stepping out of a call, from any statement in it, skips the rest of the call and the calls after
      it: it stops where stepping over the calling statement would have. */
  lemma StepOutReturns(program: seq<Activity>, g: Frame, nesting: nat, c: nat, i: nat, breakpoints: Breakpoints)
    requires Proper(program) && InRun(program, g, nesting) && c < |g.activities| && g.activities[c].Call?
    requires i < |g.activities[c].body| && g.activities[c].body[i].Statement?
    ensures var trace := Flatten(program, 1);
            var f := CallFrame(g, c);
            var next := IndexOf(g, c + 1 + LeadingCalls(g.activities[c + 1..]));
            && IndexOf(f, i) < |trace| && next <= |trace|
            && Move(trace, breakpoints, Some(IndexOf(f, i)), StepOut) == if next < |trace| then Some(next) else None
  {
    hide Flatten, LeadingCalls, Move, Proper, Whole, IndexOf;
    assert InRun(program, CallFrame(g, c), nesting + 1);
    FramesOfRun(program, g, nesting);
    FramesOfRun(program, CallFrame(g, c), nesting + 1);
    StepOutWithin(g, c, i, Flatten(program, 1), breakpoints);
  }

  lemma StepOutWithin(g: Frame, c: nat, i: nat, trace: Trace, breakpoints: Breakpoints)
    requires c < |g.activities| && g.activities[c].Call?
    requires i < |g.activities[c].body| && g.activities[c].body[i].Statement?
    requires trace == Whole(g) == Whole(CallFrame(g, c)) && HeadAtMost(g.after, g.frames)
    ensures var f := CallFrame(g, c);
            var next := IndexOf(g, c + 1 + LeadingCalls(g.activities[c + 1..]));
            && IndexOf(f, i) < |trace| && next <= |trace|
            && Move(trace, breakpoints, Some(IndexOf(f, i)), StepOut) == if next < |trace| then Some(next) else None
  {
    var f := CallFrame(g, c);
    var k := c + 1 + LeadingCalls(g.activities[c + 1..]);
    assert k < |g.activities| ==> g.activities[k] == g.activities[c + 1..][k - c - 1];
    hide Flatten, LeadingCalls, Move, Whole, IndexOf;
    StatementIndex(f, i);
    RestIsDeeper(g, c, i, k);
    AfterCalls(g, k);
    StepOutIs(trace, breakpoints, IndexOf(f, i), g.frames, IndexOf(g, k));
  }

  lemma RestIsDeeper(g: Frame, c: nat, i: nat, k: nat)
    requires c < |g.activities| && g.activities[c].Call? && i < |g.activities[c].body| && g.activities[c].body[i].Statement?
    requires k == c + 1 + LeadingCalls(g.activities[c + 1..])
    ensures IndexOf(CallFrame(g, c), i) + 1 <= IndexOf(g, k) <= |Whole(g)|
    ensures forall j :: IndexOf(CallFrame(g, c), i) < j < IndexOf(g, k) ==> Whole(g)[j].frames > g.frames
  {
    hide Flatten, LeadingCalls;
    CallsFrom(g, c, k);
    BodyFits(g.activities, g.frames, c, k);
    PrefixFits(g.activities[c].body, g.frames + 1, i);
    FrontFits(g.activities[c].body, g.frames + 1, i);
  }

  lemma BodyFits(activities: seq<Activity>, frames: nat, c: nat, k: nat)
    requires c < k <= |activities| && activities[c].Call?
    ensures |Flatten(activities[c].body, frames + 1)| <= |Flatten(activities[c..k], frames)|
  {
    FlattenCall(activities[c], frames);
    assert activities[c..k] == [activities[c]] + activities[c + 1..k];
    FlattenSplit([activities[c]], activities[c + 1..k], frames);
  }

  lemma PrefixFits(body: seq<Activity>, frames: nat, i: nat)
    requires i < |body| && body[i].Statement?
    ensures |Flatten(body[..i + 1], frames)| == |Flatten(body[..i], frames)| + 1
  {
    assert body[..i + 1] == body[..i] + [body[i]];
    FlattenSplit(body[..i], [body[i]], frames);
    assert [body[i]][1..] == [];
  }

  lemma FrontFits(body: seq<Activity>, frames: nat, i: nat)
    requires i < |body|
    ensures |Flatten(body[..i + 1], frames)| <= |Flatten(body, frames)|
  {
    assert body == body[..i + 1] + body[i + 1..];
    FlattenSplit(body[..i + 1], body[i + 1..], frames);
  }

  /** A call and the ones after it are deeper, and they end where the next statement is. */
  lemma CallsFrom(g: Frame, c: nat, k: nat)
    requires c < |g.activities| && g.activities[c].Call? && k == c + 1 + LeadingCalls(g.activities[c + 1..])
    ensures var x, y := Flatten(g.activities[..c], g.frames), Flatten(g.activities[c..k], g.frames);
            && IndexOf(g, k) == |g.before| + |x| + |y| <= |Whole(g)|
            && forall j :: |g.before| + |x| <= j < IndexOf(g, k) ==> Whole(g)[j].frames > g.frames
  {
    var calls := g.activities[c..k];
    assert forall j :: 0 <= j < |calls| ==> calls[j].Call? by {
      assert forall j :: 0 < j < |calls| ==> calls[j] == g.activities[c + 1..][j - 1];
    }
    CallsAreDeeper(calls, g.frames);
    hide Flatten;
    assert g.activities[..k] == g.activities[..c] + calls;
    FlattenSplit(g.activities[..c], calls, g.frames);
    assert g.activities == g.activities[..k] + g.activities[k..];
    FlattenSplit(g.activities[..k], g.activities[k..], g.frames);
  }
}
