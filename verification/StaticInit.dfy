/** Lazy, re-entrant static initialization of classes. */
module StaticInit {
  import opened Wrappers

  const MAX_CLASS_INITIALIZATION_DEPTH: nat := 32

  datatype InitError =
    | Cycle(path: seq<nat>)
    | TooDeep
    | Thrown(tag: int)

  datatype Status = Uninitialized | Initializing | Initialized | Failed(error: InitError)

  /** What the static initializers of a class do, as far as classes are concerned: they finish, fail,
      or use a class and go on in one of two ways; catching a failure is going on after it. */
  datatype Behaviour =
    | Finish
    | Rethrow
    | Raise(tag: int)
    | Use(classId: nat, onSuccess: Behaviour, onFailure: Behaviour)

  /** The lineage of every class, base first and ending with the class, and its initializers. */
  datatype Classes = Classes(lineages: seq<seq<nat>>, bodies: seq<Behaviour>)

  /** A body that started: its class, the classes being initialized below it, and all states then. */
  datatype Start = Start(classId: nat, below: seq<nat>, states: seq<Status>)

  datatype Machine = Machine(states: seq<Status>, stack: seq<nat>, starts: seq<Start>)

  type Attempt = Result<(), InitError>

  ghost predicate ValidClasses(k: Classes) {
    && |k.lineages| == |k.bodies|
    && (forall c :: 0 <= c < |k.bodies| ==> UsesWithin(k.bodies[c], |k.bodies|))
    && (forall c :: 0 <= c < |k.lineages| ==> k.lineages[c] != [] && k.lineages[c][|k.lineages[c]| - 1] == c)
    && (forall c, i :: 0 <= c < |k.lineages| && 0 <= i < |k.lineages[c]| ==> k.lineages[c][i] < |k.lineages|)
    && (forall c, i :: 0 <= c < |k.lineages| && 0 <= i < |k.lineages[c]| ==> LineagePrefix(k, c, i))
  }

  /** The lineage of an ancestor is the part of the lineage up to it. */
  ghost predicate LineagePrefix(k: Classes, c: nat, i: nat)
    requires c < |k.lineages| && i < |k.lineages[c]| && k.lineages[c][i] < |k.lineages|
  {
    k.lineages[k.lineages[c][i]] == k.lineages[c][..i + 1]
  }

  predicate UsesWithin(b: Behaviour, n: nat) {
    b.Use? ==> b.classId < n && UsesWithin(b.onSuccess, n) && UsesWithin(b.onFailure, n)
  }

  function Left(states: seq<Status>): set<nat> {
    set c: nat | c < |states| && states[c].Uninitialized?
  }

  function Top(stack: seq<nat>): Option<nat> {
    if stack == [] then None else Some(stack[|stack| - 1])
  }

  /** The position of a class on the stack, or its length. */
  function Position(stack: seq<nat>, c: nat): (i: nat)
    ensures i <= |stack| && (i < |stack| ==> stack[i] == c) && (forall j :: 0 <= j < i ==> stack[j] != c)
  {
    if stack == [] then 0
    else if stack[0] == c then 0
    else
      var rest := Position(stack[1..], c);
      assert forall j :: 0 < j < |stack| ==> stack[j] == stack[1..][j - 1];
      rest + 1
  }

  // ---------------------------------------------------------------- the machine

  function Begin(m: Machine, c: nat): Machine
    requires c < |m.states|
  {
    Machine(m.states[c := Initializing], m.stack + [c], m.starts + [Start(c, m.stack, m.states)])
  }

  function Conclude(m: Machine, c: nat, r: Attempt): Machine
    requires c < |m.states| && m.stack != []
  {
    Machine(m.states[c := if r.Ok? then Initialized else Failed(r.error)], m.stack[..|m.stack| - 1], m.starts)
  }

  function InitializeOne(k: Classes, m: Machine, c: nat): (r: (Machine, Attempt))
    requires ValidClasses(k) && |m.states| == |k.bodies| && c < |k.bodies|
    ensures |r.0.states| == |m.states| && Left(r.0.states) <= Left(m.states) && r.0.stack == m.stack
    decreases Left(m.states), 1
  {
    match m.states[c]
    case Initialized => (m, Ok(()))
    case Failed(error) => (m, Err(error))
    case Initializing =>
      if Top(m.stack) == Some(c) then (m, Ok(()))
      else (m, Err(Cycle(m.stack[Position(m.stack, c)..] + [c])))
    case Uninitialized =>
      if |m.stack| >= MAX_CLASS_INITIALIZATION_DEPTH then (m, Err(TooDeep))
      else
        assert c in Left(m.states) && Left(Begin(m, c).states) <= Left(m.states) - {c};
        var (after, result) := RunBody(k, Begin(m, c), k.bodies[c], TooDeep);
        (Conclude(after, c, result), result)
  }

  /** The classes of a lineage in turn, up to the first that fails. */
  function EnsureEach(k: Classes, m: Machine, cs: seq<nat>): (r: (Machine, Attempt))
    requires ValidClasses(k) && |m.states| == |k.bodies| && forall i :: 0 <= i < |cs| ==> cs[i] < |k.bodies|
    ensures |r.0.states| == |m.states| && Left(r.0.states) <= Left(m.states) && r.0.stack == m.stack
    decreases Left(m.states), 2, |cs|
  {
    if cs == [] then (m, Ok(()))
    else
      var (after, result) := InitializeOne(k, m, cs[0]);
      if result.Err? then (after, result) else EnsureEach(k, after, cs[1..])
  }

  /** The initializers of a class; `last` is the failure last seen. */
  function RunBody(k: Classes, m: Machine, b: Behaviour, last: InitError): (r: (Machine, Attempt))
    requires ValidClasses(k) && |m.states| == |k.bodies| && UsesWithin(b, |k.bodies|)
    ensures |r.0.states| == |m.states| && Left(r.0.states) <= Left(m.states) && r.0.stack == m.stack
    decreases Left(m.states), 3, b
  {
    match b
    case Finish => (m, Ok(()))
    case Rethrow => (m, Err(last))
    case Raise(tag) => (m, Err(Thrown(tag)))
    case Use(c, onSuccess, onFailure) =>
      var (after, result) := EnsureEach(k, m, k.lineages[c]);
      if result.Ok? then RunBody(k, after, onSuccess, last) else RunBody(k, after, onFailure, result.error)
  }

  // ---------------------------------------------------------------- invariants over every run

  ghost predicate Distinct(s: seq<nat>) {
    forall i, j :: 0 <= i < j < |s| ==> s[i] != s[j]
  }

  /** A class is being initialized exactly while it is on the stack, once. */
  ghost predicate StackOk(m: Machine) {
    && Distinct(m.stack) && |m.stack| <= MAX_CLASS_INITIALIZATION_DEPTH
    && (forall i :: 0 <= i < |m.stack| ==> m.stack[i] < |m.states|)
    && (forall c :: 0 <= c < |m.states| ==> (m.states[c].Initializing? <==> c in m.stack))
  }

  /** A class left the uninitialized state exactly when its body started, and no body starts twice. */
  ghost predicate StartsOk(m: Machine) {
    && (forall i, j :: 0 <= i < j < |m.starts| ==> m.starts[i].classId != m.starts[j].classId)
    && (forall i :: 0 <= i < |m.starts| ==> m.starts[i].classId < |m.states|)
    && (forall c :: 0 <= c < |m.states| ==> (!m.states[c].Uninitialized? <==> Started(m, c)))
  }

  ghost predicate Started(m: Machine, c: nat) {
    exists i :: 0 <= i < |m.starts| && m.starts[i].classId == c
  }

  /** `a` is initialized, or is the class whose initializers are running right now. */
  ghost predicate Ready(states: seq<Status>, stack: seq<nat>, a: nat) {
    a < |states| && (states[a].Initialized? || Top(stack) == Some(a))
  }

  /** Every proper ancestor was ready when the body started. */
  ghost predicate AncestorsReady(k: Classes, c: nat, stack: seq<nat>, states: seq<Status>) {
    c < |k.lineages| && forall i :: 0 <= i < |k.lineages[c]| - 1 ==> Ready(states, stack, k.lineages[c][i])
  }

  ghost predicate OrderOk(k: Classes, m: Machine) {
    forall i :: 0 <= i < |m.starts| ==> AncestorsReady(k, m.starts[i].classId, m.starts[i].below, m.starts[i].states)
  }

  ghost predicate Sound(k: Classes, m: Machine) {
    |m.states| == |k.bodies| && StackOk(m) && StartsOk(m) && OrderOk(k, m)
  }

  /** Finished classes stay as they are, running ones stay running, and no start is forgotten. */
  ghost predicate Follows(m: Machine, n: Machine) {
    && |n.states| == |m.states| && n.stack == m.stack && m.starts <= n.starts
    && (forall c :: 0 <= c < |m.states| && !m.states[c].Uninitialized? ==> n.states[c] == m.states[c])
  }

  lemma FollowsTransitive(x: Machine, y: Machine, z: Machine)
    requires Follows(x, y) && Follows(y, z)
    ensures Follows(x, z)
  {
  }

  lemma BeginSound(k: Classes, m: Machine, c: nat)
    requires Sound(k, m) && c < |m.states| && m.states[c].Uninitialized?
    requires |m.stack| < MAX_CLASS_INITIALIZATION_DEPTH && AncestorsReady(k, c, m.stack, m.states)
    ensures Sound(k, Begin(m, c))
  {
    var n := Begin(m, c);
    assert n.stack[|m.stack|] == c && forall i :: 0 <= i < |m.stack| ==> n.stack[i] == m.stack[i];
    assert n.starts[|m.starts|].classId == c;
    forall d | 0 <= d < |n.states|
      ensures !n.states[d].Uninitialized? <==> Started(n, d)
    {
      if Started(m, d) {
        var i :| 0 <= i < |m.starts| && m.starts[i].classId == d;
        assert n.starts[i].classId == d;
      }
    }
  }

  lemma ConcludeSound(k: Classes, m: Machine, c: nat, r: Attempt)
    requires Sound(k, m) && Top(m.stack) == Some(c) && c < |m.states|
    ensures Sound(k, Conclude(m, c, r))
  {
    var n := Conclude(m, c, r);
    assert m.stack == n.stack + [c];
    forall d | 0 <= d < |n.states|
      ensures !n.states[d].Uninitialized? <==> Started(n, d)
    {
      assert Started(n, d) <==> Started(m, d);
    }
  }

  /** How an attempt on one class can end. */
  ghost predicate Explained(m: Machine, n: Machine, c: nat, r: Attempt)
    requires c < |m.states| == |n.states|
  {
    if r.Ok? then Ready(n.states, n.stack, c)
    else
      || n.states[c] == Failed(r.error)
      || (n == m && m.states[c].Initializing? && Top(m.stack) != Some(c)
          && r.error == Cycle(m.stack[Position(m.stack, c)..] + [c]))
      || (n == m && m.states[c].Uninitialized? && |m.stack| == MAX_CLASS_INITIALIZATION_DEPTH && r.error == TooDeep)
  }

  /** One class: every invariant is kept, and a failure is the recorded one, the cycle that closes on
      the stack, or the depth limit. */
  lemma {:induction false} InitializeOneSound(k: Classes, m: Machine, c: nat)
    requires ValidClasses(k) && Sound(k, m) && c < |k.bodies| && AncestorsReady(k, c, m.stack, m.states)
    ensures var (n, r) := InitializeOne(k, m, c);
            Sound(k, n) && Follows(m, n) && Explained(m, n, c, r)
    decreases Left(m.states), 1
  {
    hide Sound, AncestorsReady, LineagePrefix;
    SoundDepth(k, m);
    if m.states[c].Uninitialized? && |m.stack| < MAX_CLASS_INITIALIZATION_DEPTH {
      BeginSound(k, m, c);
      assert c in Left(m.states) && Left(Begin(m, c).states) <= Left(m.states) - {c};
      RunBodySound(k, Begin(m, c), k.bodies[c], TooDeep);
      var (after, r) := RunBody(k, Begin(m, c), k.bodies[c], TooDeep);
      ConcludeSound(k, after, c, r);
      assert (m.stack + [c])[..|m.stack|] == m.stack;
    }
  }

  lemma SoundDepth(k: Classes, m: Machine)
    requires Sound(k, m)
    ensures |m.states| == |k.bodies| && |m.stack| <= MAX_CLASS_INITIALIZATION_DEPTH
  {
  }

  /** From position `i` of a lineage whose earlier classes are ready. */
  lemma {:induction false} EnsureSound(k: Classes, m: Machine, c: nat, i: nat)
    requires ValidClasses(k) && Sound(k, m) && c < |k.bodies| && i <= |k.lineages[c]|
    requires forall j :: 0 <= j < i ==> Ready(m.states, m.stack, k.lineages[c][j])
    ensures var (n, r) := EnsureEach(k, m, k.lineages[c][i..]);
            && Sound(k, n) && Follows(m, n)
            && (r.Ok? ==> forall j :: 0 <= j < |k.lineages[c]| ==> Ready(n.states, n.stack, k.lineages[c][j]))
    decreases Left(m.states), 2, |k.lineages[c]| - i
  {
    hide Sound, LineagePrefix;
    SoundDepth(k, m);
    var l := k.lineages[c];
    if i < |l| {
      assert l[i..][0] == l[i] && l[i..][1..] == l[i + 1..];
      AncestorsAreReady(k, m, c, i);
      InitializeOneSound(k, m, l[i]);
      var (after, r) := InitializeOne(k, m, l[i]);
      if r.Ok? {
        forall j | 0 <= j <= i
          ensures Ready(after.states, after.stack, l[j])
        {
          if j < i { assert Ready(m.states, m.stack, l[j]); }
        }
        EnsureSound(k, after, c, i + 1);
        FollowsTransitive(m, after, EnsureEach(k, after, l[i + 1..]).0);
      }
    }
  }

  lemma AncestorsAreReady(k: Classes, m: Machine, c: nat, i: nat)
    requires ValidClasses(k) && c < |k.lineages| && i < |k.lineages[c]|
    requires forall j :: 0 <= j < i ==> Ready(m.states, m.stack, k.lineages[c][j])
    ensures AncestorsReady(k, k.lineages[c][i], m.stack, m.states)
  {
    assert LineagePrefix(k, c, i);
  }

  /** However initializers use classes, catch failures and fail, the invariants hold throughout. */
  lemma {:induction false} RunBodySound(k: Classes, m: Machine, b: Behaviour, last: InitError)
    requires ValidClasses(k) && Sound(k, m) && UsesWithin(b, |k.bodies|)
    ensures var n := RunBody(k, m, b, last).0;
            Sound(k, n) && Follows(m, n)
    decreases Left(m.states), 3, b
  {
    hide Sound;
    SoundDepth(k, m);
    if b.Use? {
      assert k.lineages[b.classId][0..] == k.lineages[b.classId];
      EnsureSound(k, m, b.classId, 0);
      var (after, r) := EnsureEach(k, m, k.lineages[b.classId]);
      if r.Ok? {
        RunBodySound(k, after, b.onSuccess, last);
        FollowsTransitive(m, after, RunBody(k, after, b.onSuccess, last).0);
      } else {
        RunBodySound(k, after, b.onFailure, r.error);
        FollowsTransitive(m, after, RunBody(k, after, b.onFailure, r.error).0);
      }
    }
  }

  const NO_STARTS: seq<Start> := []

  function Initial(k: Classes): Machine {
    Machine(seq(|k.bodies|, _ => Uninitialized), [], [])
  }

  /** Over a whole run from the start: no class is left running, no body started twice, and every body
      started after its ancestors. */
  lemma RunIsSound(k: Classes, program: Behaviour)
    requires ValidClasses(k) && UsesWithin(program, |k.bodies|)
    ensures var n := RunBody(k, Initial(k), program, TooDeep).0;
            Sound(k, n) && n.stack == [] && forall c :: 0 <= c < |n.states| ==> !n.states[c].Initializing?
  {
    RunBodySound(k, Initial(k), program, TooDeep);
  }

  /** A reported cycle starts and ends at the class, lists each other class once, and all of them are
      still being initialized. */
  lemma CycleIsOnStack(k: Classes, m: Machine, c: nat)
    requires ValidClasses(k) && Sound(k, m) && c < |k.bodies|
    requires m.states[c].Initializing? && Top(m.stack) != Some(c)
    ensures InitializeOne(k, m, c).1.Err? && InitializeOne(k, m, c).1.error.Cycle?
    ensures var path := InitializeOne(k, m, c).1.error.path;
            && |path| >= 3 && path[0] == c == path[|path| - 1]
            && Distinct(path[1..])
            && forall i :: 0 <= i < |path| ==> path[i] in m.stack && m.states[path[i]].Initializing?
  {
    var p := Position(m.stack, c);
    assert c in m.stack && p < |m.stack| && p != |m.stack| - 1;
    var path := m.stack[p..] + [c];
    assert forall i :: 0 <= i < |path| - 1 ==> path[i] == m.stack[p + i];
    assert forall i :: 0 <= i < |path| - 2 ==> path[1..][i] == m.stack[p + 1 + i];
  }

  /** Whatever happened to a class is remembered: asking again changes nothing and answers the same. */
  lemma SettledStaysSettled(k: Classes, m: Machine, c: nat)
    requires ValidClasses(k) && Sound(k, m) && c < |k.bodies| && AncestorsReady(k, c, m.stack, m.states)
    ensures var (n, r) := InitializeOne(k, m, c);
            InitializeOne(k, n, c) == (n, r)
  {
    InitializeOneSound(k, m, c);
    var (n, r) := InitializeOne(k, m, c);
    if r.Ok? {
      if !n.states[c].Initialized? { assert n.stack[|n.stack| - 1] == c && c in n.stack; }
      match r.value case () => {}
      assert InitializeOne(k, n, c) == (n, Ok(()));
    } else if n.states[c] == Failed(r.error) {
      assert InitializeOne(k, n, c) == (n, Err(r.error));
    } else {
      assert n == m;
    }
  }

  // ---------------------------------------------------------------- when nothing fails

  /** The initializers of `c`, while every use succeeds, only use `c` itself and lower-ranked classes,
      and then finish. */
  ghost predicate Orderly(k: Classes, ranks: seq<nat>, b: Behaviour, c: nat)
    requires ValidClasses(k) && |ranks| == |k.bodies| && UsesWithin(b, |k.bodies|) && c < |ranks|
  {
    match b
    case Finish => true
    case Use(d, onSuccess, _) =>
      && (forall i :: 0 <= i < |k.lineages[d]| ==> k.lineages[d][i] == c || ranks[k.lineages[d][i]] < ranks[c])
      && Orderly(k, ranks, onSuccess, c)
    case _ => false
  }

  /** Class dependencies go down in rank, and there are no more ranks than the depth limit allows. */
  ghost predicate Ranked(k: Classes, ranks: seq<nat>) {
    && ValidClasses(k) && |ranks| == |k.bodies|
    && (forall c :: 0 <= c < |ranks| ==> ranks[c] < MAX_CLASS_INITIALIZATION_DEPTH)
    && (forall c, i :: 0 <= c < |k.lineages| && 0 <= i < |k.lineages[c]| - 1 ==> ranks[k.lineages[c][i]] < ranks[c])
    && (forall c :: 0 <= c < |k.bodies| ==> Orderly(k, ranks, k.bodies[c], c))
  }

  ghost predicate Calm(k: Classes, ranks: seq<nat>, m: Machine) {
    && Ranked(k, ranks) && Sound(k, m)
    && (forall c :: 0 <= c < |m.states| ==> !m.states[c].Failed?)
    && (forall i, j :: 0 <= i < j < |m.stack| ==> ranks[m.stack[j]] < ranks[m.stack[i]])
  }

  /** Nothing on the stack, or the class on top of it, or one ranked below that. */
  ghost predicate Below(ranks: seq<nat>, stack: seq<nat>, c: nat)
    requires c < |ranks| && forall i :: 0 <= i < |stack| ==> stack[i] < |ranks|
  {
    stack == [] || Top(stack) == Some(c) || ranks[c] < ranks[stack[|stack| - 1]]
  }

  lemma {:induction false} RanksBoundDepth(k: Classes, ranks: seq<nat>, m: Machine, i: nat)
    requires Calm(k, ranks, m) && i < |m.stack|
    ensures ranks[m.stack[i]] < MAX_CLASS_INITIALIZATION_DEPTH - i
  {
    if i > 0 {
      RanksBoundDepth(k, ranks, m, i - 1);
      assert ranks[m.stack[i]] < ranks[m.stack[i - 1]];
    }
  }

  lemma CalmBegin(k: Classes, ranks: seq<nat>, m: Machine, c: nat)
    requires Calm(k, ranks, m) && c < |m.states| && m.states[c].Uninitialized?
    requires Below(ranks, m.stack, c) && AncestorsReady(k, c, m.stack, m.states)
    ensures |m.stack| < MAX_CLASS_INITIALIZATION_DEPTH && Calm(k, ranks, Begin(m, c))
  {
    if m.stack != [] {
      RanksBoundDepth(k, ranks, m, |m.stack| - 1);
      assert m.stack[|m.stack| - 1] in m.stack;
    }
    BeginSound(k, m, c);
  }

  lemma {:induction false} InitializeOneSucceeds(k: Classes, ranks: seq<nat>, m: Machine, c: nat)
    requires Calm(k, ranks, m) && c < |m.states| && Below(ranks, m.stack, c)
    requires AncestorsReady(k, c, m.stack, m.states)
    ensures var (n, r) := InitializeOne(k, m, c);
            r.Ok? && Calm(k, ranks, n) && Follows(m, n)
    decreases Left(m.states), 1
  {
    hide Sound, AncestorsReady, LineagePrefix;
    StackBounded(k, m);
    InitializeOneSound(k, m, c);
    if m.states[c].Uninitialized? {
      CalmBegin(k, ranks, m, c);
      assert c in Left(m.states) && Left(Begin(m, c).states) <= Left(m.states) - {c};
      RunBodySucceeds(k, ranks, Begin(m, c), k.bodies[c], c, TooDeep);
      var (after, r) := RunBody(k, Begin(m, c), k.bodies[c], TooDeep);
      CalmConclude(k, ranks, m, after, c, r);
    } else if m.states[c].Initializing? {
      RunningIsTop(k, ranks, m, c);
    }
  }

  lemma RunningIsTop(k: Classes, ranks: seq<nat>, m: Machine, c: nat)
    requires Calm(k, ranks, m) && c < |m.states| && m.states[c].Initializing? && Below(ranks, m.stack, c)
    ensures Top(m.stack) == Some(c)
  {
    var i :| 0 <= i < |m.stack| && m.stack[i] == c;
  }

  lemma CalmConclude(k: Classes, ranks: seq<nat>, before: Machine, after: Machine, c: nat, r: Attempt)
    requires Calm(k, ranks, before) && Calm(k, ranks, after) && c < |after.states| == |before.states|
    requires after.stack == before.stack + [c] && r.Ok?
    ensures Calm(k, ranks, Conclude(after, c, r))
  {
    ConcludeSound(k, after, c, r);
  }

  lemma {:induction false} EnsureSucceeds(k: Classes, ranks: seq<nat>, m: Machine, c: nat, i: nat)
    requires Calm(k, ranks, m) && c < |k.bodies| && i <= |k.lineages[c]|
    requires forall j :: 0 <= j < |k.lineages[c]| ==> Below(ranks, m.stack, k.lineages[c][j])
    requires forall j :: 0 <= j < i ==> Ready(m.states, m.stack, k.lineages[c][j])
    ensures var (n, r) := EnsureEach(k, m, k.lineages[c][i..]);
            r.Ok? && Calm(k, ranks, n) && Follows(m, n)
    decreases Left(m.states), 2, |k.lineages[c]| - i
  {
    hide Sound, LineagePrefix;
    var l := k.lineages[c];
    if i < |l| {
      assert l[i..][0] == l[i] && l[i..][1..] == l[i + 1..];
      StackBounded(k, m);
      AncestorsAreReady(k, m, c, i);
      InitializeOneSound(k, m, l[i]);
      InitializeOneSucceeds(k, ranks, m, l[i]);
      var (after, _) := InitializeOne(k, m, l[i]);
      forall j | 0 <= j <= i
        ensures Ready(after.states, after.stack, l[j])
      {
        if j < i { assert Ready(m.states, m.stack, l[j]); }
      }
      EnsureSucceeds(k, ranks, after, c, i + 1);
      FollowsTransitive(m, after, EnsureEach(k, after, l[i + 1..]).0);
    }
  }

  lemma {:induction false} RunBodySucceeds(k: Classes, ranks: seq<nat>, m: Machine, b: Behaviour, c: nat, last: InitError)
    requires Calm(k, ranks, m) && UsesWithin(b, |k.bodies|) && Top(m.stack) == Some(c) && c < |ranks| && Orderly(k, ranks, b, c)
    ensures var (n, r) := RunBody(k, m, b, last);
            r.Ok? && Calm(k, ranks, n) && Follows(m, n)
    decreases Left(m.states), 3, b
  {
    hide Sound, LineagePrefix, AncestorsReady;
    if b.Use? {
      assert k.lineages[b.classId][0..] == k.lineages[b.classId];
      StackBounded(k, m);
      EnsureSucceeds(k, ranks, m, b.classId, 0);
      var (after, _) := EnsureEach(k, m, k.lineages[b.classId]);
      RunBodySucceeds(k, ranks, after, b.onSuccess, c, last);
      FollowsTransitive(m, after, RunBody(k, after, b.onSuccess, last).0);
    }
  }

  lemma StackBounded(k: Classes, m: Machine)
    requires Sound(k, m)
    ensures |m.states| == |k.bodies| && forall i :: 0 <= i < |m.stack| ==> m.stack[i] < |k.bodies|
  {
  }

  /** Programs whose class dependencies descend through at most as many ranks as the depth limit
      never see an initialization fail. */
  lemma RankedNeverFails(k: Classes, ranks: seq<nat>, c: nat)
    requires Ranked(k, ranks) && c < |k.bodies|
    ensures EnsureEach(k, Initial(k), k.lineages[c]).1.Ok?
  {
    assert k.lineages[c][0..] == k.lineages[c];
    EnsureSucceeds(k, ranks, Initial(k), c, 0);
  }

  // ---------------------------------------------------------------- the interpreter's fields

  class StaticInitializer {
    const classes: Classes
    var states: seq<Status>
    var stack: seq<nat>
    ghost var starts: seq<Start>

    constructor (classes: Classes)
      ensures this.classes == classes && Now() == Initial(classes)
    {
      this.classes := classes;
      states := seq(|classes.bodies|, _ => Uninitialized);
      stack, starts := [], [];
    }

    ghost function Now(): Machine
      reads this
    {
      Machine(states, stack, starts)
    }

    ghost predicate Valid()
      reads this
    {
      ValidClasses(classes) && |states| == |classes.bodies|
    }

    /** Initializes the lineage of a class, base first. */
    method EnsureClassInitialized(c: nat) returns (r: Attempt)
      requires Valid() && c < |classes.bodies|
      modifies this
      ensures Valid() && (Now(), r) == EnsureEach(classes, old(Now()), classes.lineages[c])
      decreases Left(states), 2
    {
      var l := classes.lineages[c];
      var i := 0;
      assert l[0..] == l;
      while i < |l|
        invariant 0 <= i <= |l| && Valid() && Left(states) <= old(Left(states))
        invariant EnsureEach(classes, old(Now()), l) == EnsureEach(classes, Now(), l[i..])
      {
        assert l[i..][1..] == l[i + 1..];
        r := InitializeOneClass(l[i]);
        if r.Err? {
          return;
        }
        i := i + 1;
      }
      r := Ok(());
    }

    method InitializeOneClass(c: nat) returns (r: Attempt)
      requires Valid() && c < |classes.bodies|
      modifies this
      ensures Valid() && (Now(), r) == InitializeOne(classes, old(Now()), c)
      decreases Left(states), 1
    {
      match states[c] {
        case Initialized => return Ok(());
        case Failed(error) => return Err(error);
        case Initializing =>
          if Top(stack) == Some(c) {
            return Ok(());
          }
          return Err(Cycle(stack[Position(stack, c)..] + [c]));
        case Uninitialized =>
      }
      if |stack| >= MAX_CLASS_INITIALIZATION_DEPTH {
        return Err(TooDeep);
      }
      ghost var before := Now();
      starts := starts + [Start(c, stack, states)];
      states := states[c := Initializing];
      stack := stack + [c];
      assert Now() == Begin(before, c);
      assert c in Left(before.states) && Left(states) <= Left(before.states) - {c};
      r := InitializeMembers(classes.bodies[c], TooDeep);
      stack := stack[..|stack| - 1];
      states := states[c := if r.Ok? then Initialized else Failed(r.error)];
    }

    method InitializeMembers(b: Behaviour, last: InitError) returns (r: Attempt)
      requires Valid() && UsesWithin(b, |classes.bodies|)
      modifies this
      ensures Valid() && (Now(), r) == RunBody(classes, old(Now()), b, last)
      decreases Left(states), 3, b
    {
      match b
      case Finish => r := Ok(());
      case Rethrow => r := Err(last);
      case Raise(tag) => r := Err(Thrown(tag));
      case Use(c, onSuccess, onFailure) =>
          var used := EnsureClassInitialized(c);
        if used.Ok? {
          r := InitializeMembers(onSuccess, last);
        } else {
          r := InitializeMembers(onFailure, used.error);
        }
    }
  }
}
