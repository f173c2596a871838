/** Paths of initializers. */
module StaticPaths {
  // What the initializers of a class lead to: the path through their uses that the answers select, and the
  // leaf it ends in. The leaf alone decides how the attempt ends and how the class is recorded.

  import opened Wrappers
  import opened StaticInit

  /** A use of a class that was answered, and the machine afterwards. */
  datatype Step = Step(answer: Attempt, after: Machine)

  /** The class accounts for the failure: it is recorded as failed with it, or is being initialized
      further down, or could not start at this depth. */
  ghost predicate AccountsFor(n: Machine, c: nat, error: InitError) {
    c < |n.states| &&
    match n.states[c]
    case Failed(recorded) => error == recorded
    case Initializing => Top(n.stack) != Some(c) && error == Cycle(n.stack[Position(n.stack, c)..] + [c])
    case Uninitialized => |n.stack| == 32 && error == TooDeep
    case Initialized => false
  }

  /** A use answers Ok with the whole lineage ready, or with the failure of the first class of the lineage
      that is not. */
  ghost predicate Answers(k: Classes, m: Machine, c: nat, from: nat, r: Attempt, n: Machine) {
    && c < |k.lineages| && Follows(m, n)
    && if r.Ok? then forall i :: from <= i < |k.lineages[c]| ==> Ready(n.states, n.stack, k.lineages[c][i])
       else exists i :: from <= i < |k.lineages[c]| && AccountsFor(n, k.lineages[c][i], r.error)
                        && forall j :: from <= j < i ==> Ready(n.states, n.stack, k.lineages[c][j])
  }

  /** From the first initializer to a leaf; after each use comes the branch its answer selects. */
  ghost predicate Walks(k: Classes, b: Behaviour, m: Machine, steps: seq<Step>, leaf: Behaviour, n: Machine)
    decreases b
  {
    match b
    case Use(c, onSuccess, onFailure) =>
      && steps != [] && Answers(k, m, c, 0, steps[0].answer, steps[0].after)
      && if steps[0].answer.Ok? then Walks(k, onSuccess, steps[0].after, steps[1..], leaf, n)
         else Walks(k, onFailure, steps[0].after, steps[1..], leaf, n)
    case _ => steps == [] && leaf == b && n == m
  }

  /** The failure of the last use that failed; `before` if none did. */
  predicate LastSeen(steps: seq<Step>, before: InitError, error: InitError) {
    || (error == before && forall i :: 0 <= i < |steps| ==> steps[i].answer.Ok?)
    || exists i :: 0 <= i < |steps| && steps[i].answer == Err(error) && forall j :: i < j < |steps| ==> steps[j].answer.Ok?
  }

  /** What the leaf gives. */
  predicate LeafGives(leaf: Behaviour, steps: seq<Step>, before: InitError, r: Attempt) {
    match leaf
    case Finish => r == Ok(())
    case Raise(tag) => r == Err(Thrown(tag))
    case Rethrow => r.Err? && LastSeen(steps, before, r.error)
    case Use(_, _, _) => false
  }

  ghost predicate EndsBy(k: Classes, b: Behaviour, m: Machine, before: InitError, r: Attempt, n: Machine) {
    exists steps, leaf :: Walks(k, b, m, steps, leaf, n) && LeafGives(leaf, steps, before, r)
  }

  /** The initializers of the class ran from the top of the stack to a leaf that gave just this status. */
  ghost predicate Concluded(k: Classes, c: nat, status: Status) {
    c < |k.bodies| && exists m, r, n ::
      && EndsBy(k, k.bodies[c], m, TooDeep, r, n) && Top(m.stack) == Some(c)
      && status == match r case Ok(_) => Initialized case Err(error) => Failed(error)
  }

  /** Every class that is settled got there by its own initializers. */
  ghost predicate AllConcluded(k: Classes, m: Machine) {
    forall c :: 0 <= c < |m.states| && (m.states[c].Initialized? || m.states[c].Failed?) ==> Concluded(k, c, m.states[c])
  }

  lemma LastSeenMore(first: Step, steps: seq<Step>, before: InitError, error: InitError)
    requires LastSeen(steps, if first.answer.Ok? then before else first.answer.error, error)
    ensures LastSeen([first] + steps, before, error)
  {
    var all := [first] + steps;
    assert forall i :: 0 <= i < |steps| ==> all[i + 1] == steps[i];
    assert forall i :: 0 < i < |all| ==> all[i] == steps[i - 1];
    if i :| 0 <= i < |steps| && steps[i].answer == Err(error) && forall j :: i < j < |steps| ==> steps[j].answer.Ok? {
      assert all[i + 1].answer == Err(error);
    } else if first.answer.Err? {
      assert all[0].answer == Err(error);
    }
  }

  lemma EndsOneMore(k: Classes, b: Behaviour, m: Machine, first: Step, before: InitError, r: Attempt, n: Machine)
    requires b.Use? && Answers(k, m, b.classId, 0, first.answer, first.after)
    requires EndsBy(k, if first.answer.Ok? then b.onSuccess else b.onFailure, first.after,
                    if first.answer.Ok? then before else first.answer.error, r, n)
    ensures EndsBy(k, b, m, before, r, n)
  {
    hide Answers;
    var branch := if first.answer.Ok? then b.onSuccess else b.onFailure;
    var seen := if first.answer.Ok? then before else first.answer.error;
    var steps, leaf :| Walks(k, branch, first.after, steps, leaf, n) && LeafGives(leaf, steps, seen, r);
    var all := [first] + steps;
    assert all[1..] == steps;
    assert Walks(k, b, m, all, leaf, n);
    if leaf.Rethrow? { LastSeenMore(first, steps, before, r.error); }
    assert LeafGives(leaf, all, before, r);
  }

  // ---------------------------------------------------------------- the machine follows the paths

  lemma {:induction false} OneConcludes(k: Classes, m: Machine, c: nat)
    requires ValidClasses(k) && Sound(k, m) && AllConcluded(k, m) && c < |k.bodies| && AncestorsReady(k, c, m.stack, m.states)
    ensures var (n, r) := InitializeOne(k, m, c);
            AllConcluded(k, n) && if r.Ok? then Ready(n.states, n.stack, c) else AccountsFor(n, c, r.error)
    decreases Left(m.states), 1
  {
    SoundDepth(k, m);
    hide Sound, AncestorsReady, LineagePrefix, Concluded;
    if m.states[c].Uninitialized? && |m.stack| < MAX_CLASS_INITIALIZATION_DEPTH {
      assert c in Left(m.states) && Left(Begin(m, c).states) <= Left(m.states) - {c};
      BeginSound(k, m, c);
      BodyConcludes(k, Begin(m, c), k.bodies[c], TooDeep);
      var (after, r) := RunBody(k, Begin(m, c), k.bodies[c], TooDeep);
      BodyRecorded(k, Begin(m, c), c, r, after);
      hide AllConcluded, EndsBy;
      ConclusionRecorded(k, after, c, r);
    } else {
      hide AllConcluded;
    }
  }

  lemma ConclusionRecorded(k: Classes, m: Machine, c: nat, r: Attempt)
    requires AllConcluded(k, m) && c < |m.states| && m.stack != []
    requires Concluded(k, c, if r.Ok? then Initialized else Failed(r.error))
    ensures AllConcluded(k, Conclude(m, c, r))
  {
    hide Concluded;
  }

  lemma BodyRecorded(k: Classes, m: Machine, c: nat, r: Attempt, n: Machine)
    requires c < |k.bodies| && Top(m.stack) == Some(c) && EndsBy(k, k.bodies[c], m, TooDeep, r, n)
    ensures Concluded(k, c, if r.Ok? then Initialized else Failed(r.error))
  {
    hide EndsBy;
  }

  lemma {:induction false} EnsureConcludes(k: Classes, m: Machine, c: nat, i: nat)
    requires ValidClasses(k) && Sound(k, m) && AllConcluded(k, m) && c < |k.bodies| && i <= |k.lineages[c]|
    requires forall j :: 0 <= j < i ==> Ready(m.states, m.stack, k.lineages[c][j])
    ensures var (n, r) := EnsureEach(k, m, k.lineages[c][i..]);
            AllConcluded(k, n) && Answers(k, m, c, i, r, n)
    decreases Left(m.states), 2, |k.lineages[c]| - i
  {
    SoundDepth(k, m);
    hide Sound, LineagePrefix, AllConcluded, AccountsFor, Answers;
    var l := k.lineages[c];
    if i == |l| {
      AnswersRest(k, m, c);
    } else {
      assert l[i..][0] == l[i] && l[i..][1..] == l[i + 1..];
      AncestorsAreReady(k, m, c, i);
      InitializeOneSound(k, m, l[i]);
      OneConcludes(k, m, l[i]);
      var (after, r) := InitializeOne(k, m, l[i]);
      if r.Ok? {
        ReadyKept(m, after, l, i);
        EnsureConcludes(k, after, c, i + 1);
        StillReady(k, m, after, c, i);
      } else {
        AnswersFirst(k, m, c, i, r, after);
      }
    }
  }

  lemma AnswersRest(k: Classes, m: Machine, c: nat)
    requires c < |k.lineages|
    ensures Answers(k, m, c, |k.lineages[c]|, Ok(()), m)
  {
  }

  lemma AnswersFirst(k: Classes, m: Machine, c: nat, i: nat, r: Attempt, n: Machine)
    requires c < |k.lineages| && i < |k.lineages[c]| && Follows(m, n) && r.Err? && AccountsFor(n, k.lineages[c][i], r.error)
    ensures Answers(k, m, c, i, r, n)
  {
    hide AccountsFor, Follows;
  }

  lemma ReadyKept(m: Machine, after: Machine, l: seq<nat>, i: nat)
    requires Follows(m, after) && i < |l| && Ready(after.states, after.stack, l[i])
    requires forall j :: 0 <= j < i ==> Ready(m.states, m.stack, l[j])
    ensures forall j :: 0 <= j <= i ==> Ready(after.states, after.stack, l[j])
  {
    forall j | 0 <= j <= i ensures Ready(after.states, after.stack, l[j]) {
      if j < i { assert Ready(m.states, m.stack, l[j]); }
    }
  }

  /** Of the rest of a lineage and a ready class before it, to all from that class on. */
  lemma StillReady(k: Classes, m: Machine, after: Machine, c: nat, i: nat)
    requires ValidClasses(k) && |after.states| == |k.bodies| && c < |k.lineages| && i < |k.lineages[c]|
    requires Follows(m, after) && Ready(after.states, after.stack, k.lineages[c][i])
    requires var (n, r) := EnsureEach(k, after, k.lineages[c][i + 1..]); Answers(k, after, c, i + 1, r, n)
    ensures var (n, r) := EnsureEach(k, after, k.lineages[c][i + 1..]); Answers(k, m, c, i, r, n)
  {
    hide EnsureEach, AccountsFor, LineagePrefix;
    var (n, r) := EnsureEach(k, after, k.lineages[c][i + 1..]);
    FollowsTransitive(m, after, n);
    assert Ready(n.states, n.stack, k.lineages[c][i]);
    if r.Err? {
      var x :| i + 1 <= x < |k.lineages[c]| && AccountsFor(n, k.lineages[c][x], r.error)
               && forall j :: i + 1 <= j < x ==> Ready(n.states, n.stack, k.lineages[c][j]);
    }
  }

  /** Initializers end as the leaf of their path says, with every class they settle settled so. */
  lemma {:induction false} BodyConcludes(k: Classes, m: Machine, b: Behaviour, last: InitError)
    requires ValidClasses(k) && Sound(k, m) && AllConcluded(k, m) && UsesWithin(b, |k.bodies|)
    ensures var (n, r) := RunBody(k, m, b, last);
            AllConcluded(k, n) && EndsBy(k, b, m, last, r, n)
    decreases Left(m.states), 3, b
  {
    SoundDepth(k, m);
    hide Sound, AllConcluded;
    var (n, r) := RunBody(k, m, b, last);
    if b.Use? {
      var l := k.lineages[b.classId];
      assert l[0..] == l;
      EnsureSound(k, m, b.classId, 0);
      EnsureConcludes(k, m, b.classId, 0);
      var (after, used) := EnsureEach(k, m, l);
      hide EndsBy, Answers, EnsureEach;
      if used.Ok? { BodyConcludes(k, after, b.onSuccess, last); } else { BodyConcludes(k, after, b.onFailure, used.error); }
      EndsOneMore(k, b, m, Step(used, after), last, r, n);
    } else {
      assert Walks(k, b, m, [], b, m) && LeafGives(b, [], last, r);
    }
  }

  /** Over a whole run: the program ends as the leaf of its own path says, and every class is recorded as
      the leaf of its initializers says. */
  lemma RunConcludes(k: Classes, program: Behaviour)
    requires ValidClasses(k) && UsesWithin(program, |k.bodies|)
    ensures var (n, r) := RunBody(k, Initial(k), program, TooDeep);
            EndsBy(k, program, Initial(k), TooDeep, r, n) && AllConcluded(k, n)
  {
    BodyConcludes(k, Initial(k), program, TooDeep);
  }

  /** A class whose initializers throw before any use is recorded as failed by everyone who uses it. */
  lemma ThrowingClassFails(k: Classes, c: nat, tag: int, m: Machine)
    requires ValidClasses(k) && Sound(k, m) && AllConcluded(k, m) && c < |k.bodies| && k.bodies[c] == Raise(tag)
    requires AncestorsReady(k, c, m.stack, m.states) && |m.stack| < 32 && !m.states[c].Initializing?
    ensures var (n, r) := InitializeOne(k, m, c);
            r == Err(Thrown(tag)) && n.states[c] == Failed(Thrown(tag))
  {
    SoundDepth(k, m);
    OneConcludes(k, m, c);
    var (n, r) := InitializeOne(k, m, c);
    if r.Ok? {
      InitializeOneSound(k, m, c);
    }
  }
}
