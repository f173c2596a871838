/** Constructor chains: which constructors and field initializers run, in what order. */
module Constructors {
  import opened Wrappers
  import opened ClassGraph
  import opened Inheritance
  import opened Lineage

  datatype Delegation = NoDelegation | This(target: nat) | Super(superTarget: Option<nat>)

  datatype Constructor = Constructor(arity: nat, delegation: Delegation)

  /** The superclass of every class and its declared constructors. */
  datatype Classes = Classes(parents: Parents, constructors: seq<seq<Constructor>>)

  datatype Event =
    | Arguments(classId: nat, constructor_: nat)
    | Fields(classId: nat)
    | Body(classId: nat, constructor_: nat)

  // ---------------------------------------------------------------- the delegation check

  predicate TargetsOk(k: seq<Constructor>) {
    forall m :: 0 <= m < |k| && k[m].delegation.This? ==> k[m].delegation.target < |k|
  }

  /** The `this(...)` links among the constructors of one class. */
  function ThisLinks(k: seq<Constructor>): (p: Parents)
    requires TargetsOk(k)
    ensures |p| == |k|
    ensures forall m :: 0 <= m < |k| ==> p[m] == if k[m].delegation.This? then Some(k[m].delegation.target) else None
  {
    seq(|k|, m requires 0 <= m < |k| => if k[m].delegation.This? then Some(k[m].delegation.target) else None)
  }

  /** Follows the links from every constructor and rejects the class when one is met twice: exactly
      when some `this(...)` chain is cyclic, and the constructor reported lies on the cycle. */
  method ValidateDelegation(k: seq<Constructor>) returns (r: Result<(), nat>)
    requires TargetsOk(k)
    ensures r.Ok? <==> Rooted(ThisLinks(k))
    ensures r.Err? ==> OnCycle(ParentGraph(ThisLinks(k)), r.error)
  {
    ghost var g := ParentGraph(ThisLinks(k));
    for root := 0 to |k|
      invariant forall m :: 0 <= m < root ==> !OnCycle(g, m)
    {
      var seen: set<nat> := {};
      ghost var walk: seq<nat> := [];
      var current: nat := root;
      while true
        invariant current < |k| && IsPath(g, walk + [current]) && (walk + [current])[0] == root
        invariant forall n :: n in seen <==> n in walk
        invariant seen <= ClassGraph.Below(|k|)
        decreases ClassGraph.Below(|k|) - seen
      {
        if current in seen {
          ghost var i :| 0 <= i < |walk| && walk[i] == current;
          RepeatIsCycle(g, walk + [current], i, |walk|);
          return Err(current);
        }
        assert current in ClassGraph.Below(|k|);
        if !k[current].delegation.This? {
          EndsWithoutCycle(g, walk + [current], root);
          break;
        }
        seen := seen + {current};
        walk := walk + [current];
        current := k[current].delegation.target;
      }
    }
    assert forall m: nat :: OnCycle(g, m) ==> m < |k|;
    r := Ok(());
  }

  /** In a graph with at most one successor each, a walk that ends shows its start is on no cycle. */
  lemma {:induction false} EndsWithoutCycle(g: Graph, walk: seq<nat>, root: nat)
    requires IsPath(g, walk) && walk[0] == root && g[walk[|walk| - 1]] == []
    requires forall n :: 0 <= n < |g| ==> |g[n]| <= 1
    ensures !OnCycle(g, root)
    decreases |walk|
  {
    if p :| IsPathBetween(g, p, root, root) && |p| > 1 {
      assert p[1] in g[root];
      assert |walk| > 1 && walk[1] in g[root];
      assert walk[1] == p[1];
      assert IsPath(g, walk[1..]);
      assert IsPathBetween(g, p[1..] + [p[1]], p[1], p[1]);
      EndsWithoutCycle(g, walk[1..], p[1]);
    }
  }

  // ---------------------------------------------------------------- accepted classes

  function ZeroArgument(k: seq<Constructor>): (r: Option<nat>)
    ensures r.Some? ==> r.value < |k| && k[r.value].arity == 0
  {
    ZeroArgumentFrom(k, 0)
  }

  function ZeroArgumentFrom(k: seq<Constructor>, from: nat): (r: Option<nat>)
    requires from <= |k|
    ensures r.Some? ==> from <= r.value < |k| && k[r.value].arity == 0
    decreases |k| - from
  {
    if from == |k| then None
    else if k[from].arity == 0 then Some(from)
    else ZeroArgumentFrom(k, from + 1)
  }

  /** What the checker guarantees: the hierarchy and each class's `this(...)` links have no cycle, and
      every delegation names a constructor of the right class. */
  ghost predicate Accepted(k: Classes) {
    && |k.constructors| == |k.parents| && Rooted(k.parents)
    && (forall c :: 0 <= c < |k.parents| ==> TargetsOk(k.constructors[c]) && Rooted(ThisLinks(k.constructors[c])))
    && (forall c :: 0 <= c < |k.parents| ==> SupersOk(k, c))
  }

  ghost predicate SupersOk(k: Classes, c: nat)
    requires |k.constructors| == |k.parents| && c < |k.parents|
  {
    forall m :: 0 <= m < |k.constructors[c]| && k.constructors[c][m].delegation.Super? ==>
      && k.parents[c].Some?
      && var target := k.constructors[c][m].delegation.superTarget;
         target.Some? ==> target.value < |k.constructors[k.parents[c].value]|
  }

  /** A constructor of the class, or none for the implicit one. */
  ghost predicate Entry(k: Classes, c: nat, m: Option<nat>) {
    c < |k.parents| == |k.constructors| && (m.Some? ==> m.value < |k.constructors[c]|)
  }

  /** The constructors a `this(...)` chain passes through, the last delegate first. */
  ghost function Delegates(k: Classes, c: nat, m: Option<nat>): seq<nat>
    requires Accepted(k) && Entry(k, c, m)
  {
    if m.None? then [] else LineageOf(ThisLinks(k.constructors[c]), m.value)
  }

  ghost function ChainLength(k: Classes, c: nat, m: Option<nat>): nat
    requires Accepted(k) && Entry(k, c, m)
  {
    |Delegates(k, c, m)|
  }

  // ---------------------------------------------------------------- the chain

  datatype Built = Built(events: seq<Event>, initialized: set<nat>, completed: bool)

  /** One step that may throw. */
  function Attempt(b: Built, event: Event, fails: Event -> bool): Built {
    if b.completed then Built(b.events + [event], b.initialized, !fails(event)) else b
  }

  /** Delegated constructor or superclass first, then the fields unless already done, then the body. */
  ghost function Chain(k: Classes, c: nat, m: Option<nat>, b: Built, fails: Event -> bool): Built
    requires Accepted(k) && Entry(k, c, m)
    decreases |LineageOf(k.parents, c)|, ChainLength(k, c, m)
  {
    LineageOfStep(k.parents, c);
    var delegation := if m.Some? then k.constructors[c][m.value].delegation else NoDelegation;
    var above :=
      (match delegation
      case This(target) =>
        LineageOfStep(ThisLinks(k.constructors[c]), m.value);
        var argued := Attempt(b, Arguments(c, m.value), fails);
        if argued.completed then Chain(k, c, Some(target), argued, fails) else argued
      case Super(target) =>
        assert SupersOk(k, c);
        var argued := Attempt(b, Arguments(c, m.value), fails);
        if argued.completed then Chain(k, k.parents[c].value, target, argued, fails) else argued
      case NoDelegation =>
        if k.parents[c].Some? then
          Chain(k, k.parents[c].value, ZeroArgument(k.constructors[k.parents[c].value]), b, fails)
        else b);
    Finish(c, m, above, fails)
  }

  function Finish(c: nat, m: Option<nat>, b: Built, fails: Event -> bool): Built {
    var fields :=
      if !b.completed || c in b.initialized then b
      else Attempt(b.(initialized := b.initialized + {c}), Fields(c), fails);
    if m.Some? then Attempt(fields, Body(c, m.value), fails) else fields
  }

  // ---------------------------------------------------------------- the intended order

  /** The constructor with which the superclass part starts. */
  ghost function ParentEntry(k: Classes, c: nat, m: Option<nat>): (r: Option<nat>)
    requires Accepted(k) && Entry(k, c, m) && k.parents[c].Some?
    ensures Entry(k, k.parents[c].value, r)
  {
    assert SupersOk(k, c);
    var first := Delegates(k, c, m);
    if first != [] && k.constructors[c][first[0]].delegation.Super? then k.constructors[c][first[0]].delegation.superTarget
    else ZeroArgument(k.constructors[k.parents[c].value])
  }

  function Bodies(c: nat, delegates: seq<nat>): (r: seq<Event>)
    ensures |r| == |delegates| && forall i :: 0 <= i < |r| ==> r[i] == Body(c, delegates[i])
  {
    seq(|delegates|, i requires 0 <= i < |delegates| => Body(c, delegates[i]))
  }

  /** One class's own part: its fields once, then its constructor bodies, innermost delegate first. */
  ghost function OwnPart(k: Classes, c: nat, m: Option<nat>): seq<Event>
    requires Accepted(k) && Entry(k, c, m)
  {
    [Fields(c)] + Bodies(c, Delegates(k, c, m))
  }

  /** The superclass parts, base class first. */
  ghost function Construction(k: Classes, c: nat, m: Option<nat>): seq<Event>
    requires Accepted(k) && Entry(k, c, m)
    decreases |LineageOf(k.parents, c)|
  {
    LineageOfStep(k.parents, c);
    if k.parents[c].None? then OwnPart(k, c, m)
    else Construction(k, k.parents[c].value, ParentEntry(k, c, m)) + OwnPart(k, c, m)
  }

  /** The argument evaluations of one class, outermost delegate first, those of `super(...)` last. */
  ghost function OwnArguments(k: Classes, c: nat, delegates: seq<nat>): seq<Event>
    requires c < |k.constructors| && forall i :: 0 <= i < |delegates| ==> delegates[i] < |k.constructors[c]|
    decreases |delegates|
  {
    if delegates == [] then []
    else
      var last := |delegates| - 1;
      (if k.constructors[c][delegates[last]].delegation.NoDelegation? then [] else [Arguments(c, delegates[last])])
      + OwnArguments(k, c, delegates[..last])
  }

  /** All argument evaluations, on the way up to the base class. */
  ghost function Argumentation(k: Classes, c: nat, m: Option<nat>): seq<Event>
    requires Accepted(k) && Entry(k, c, m)
    decreases |LineageOf(k.parents, c)|
  {
    LineageOfStep(k.parents, c);
    OwnArguments(k, c, Delegates(k, c, m))
    + if k.parents[c].None? then [] else Argumentation(k, k.parents[c].value, ParentEntry(k, c, m))
  }

  // ---------------------------------------------------------------- failures cut the order short

  /** The events up to and including the first that throws. */
  function UpToFailure(events: seq<Event>, fails: Event -> bool): seq<Event> {
    if events == [] then []
    else if fails(events[0]) then [events[0]]
    else [events[0]] + UpToFailure(events[1..], fails)
  }

  ghost predicate NoneFails(events: seq<Event>, fails: Event -> bool) {
    forall i :: 0 <= i < |events| ==> !fails(events[i])
  }

  lemma {:induction false} UpToFailureSplit(a: seq<Event>, b: seq<Event>, fails: Event -> bool)
    ensures UpToFailure(a + b, fails) == if NoneFails(a, fails) then a + UpToFailure(b, fails) else UpToFailure(a, fails)
    ensures NoneFails(a, fails) ==> UpToFailure(a, fails) == a
    decreases |a|
  {
    if a == [] {
      assert a + b == b;
    } else {
      assert (a + b)[1..] == a[1..] + b && (a + b)[0] == a[0];
      UpToFailureSplit(a[1..], b, fails);
      assert NoneFails(a, fails) <==> !fails(a[0]) && NoneFails(a[1..], fails);
    }
  }

  /** `after` is what is left when `events` are attempted in order from `before`. */
  ghost predicate Attempted(before: Built, events: seq<Event>, initialized: set<nat>, after: Built, fails: Event -> bool) {
    && after.events == before.events + UpToFailure(events, fails)
    && (after.completed <==> NoneFails(events, fails))
    && (after.completed ==> after.initialized == before.initialized + initialized)
  }

  lemma AttemptedThen(b: Built, x: seq<Event>, s: set<nat>, mid: Built, y: seq<Event>, t: set<nat>, after: Built, fails: Event -> bool)
    requires Attempted(b, x, s, mid, fails)
    requires if mid.completed then Attempted(mid, y, t, after, fails) else after == mid
    ensures Attempted(b, x + y, s + t, after, fails)
  {
    hide UpToFailure, NoneFails;
    UpToFailureSplit(x, y, fails);
    NoneFailsSplit(x, y, fails);
    if mid.completed {
      assert b.events + x + UpToFailure(y, fails) == b.events + (x + UpToFailure(y, fails));
      assert b.initialized + s + t == b.initialized + (s + t);
    }
  }

  lemma NoneFailsSplit(x: seq<Event>, y: seq<Event>, fails: Event -> bool)
    ensures NoneFails(x + y, fails) <==> NoneFails(x, fails) && NoneFails(y, fails)
  {
    assert forall i :: 0 <= i < |x| ==> x[i] == (x + y)[i];
    assert forall i :: 0 <= i < |y| ==> y[i] == (x + y)[|x| + i];
  }

  lemma AttemptOne(b: Built, event: Event, fails: Event -> bool)
    requires b.completed
    ensures Attempted(b, [event], {}, Attempt(b, event, fails), fails)
  {
    assert UpToFailure([event], fails) == [event];
    assert NoneFails([event], fails) <==> !fails([event][0]);
  }

  // ---------------------------------------------------------------- the exact trace

  ghost function LineageSet(k: Classes, c: nat): set<nat>
    requires Accepted(k) && c < |k.parents|
  {
    set i | 0 <= i < |LineageOf(k.parents, c)| :: LineageOf(k.parents, c)[i]
  }

  lemma LineageSetStep(k: Classes, c: nat)
    requires Accepted(k) && c < |k.parents|
    ensures c in LineageSet(k, c)
    ensures k.parents[c].None? ==> LineageSet(k, c) == {c}
    ensures k.parents[c].Some? ==> LineageSet(k, c) == LineageSet(k, k.parents[c].value) + {c} && c !in LineageSet(k, k.parents[c].value)
  {
    LineageOfStep(k.parents, c);
    var l := LineageOf(k.parents, c);
    if k.parents[c].Some? {
      var up := LineageOf(k.parents, k.parents[c].value);
      assert l == up + [c];
      assert forall i :: 0 <= i < |up| ==> l[i] == up[i];
      forall i | 0 <= i < |up|
        ensures up[i] != c
      {
        LineageDistinct(k.parents, c, l, i, |up|);
      }
      assert LineageSet(k, c) == LineageSet(k, k.parents[c].value) + {c};
    }
  }

  lemma DelegatesStep(k: Classes, c: nat, m: nat)
    requires Accepted(k) && Entry(k, c, Some(m))
    ensures var d := k.constructors[c][m].delegation;
            if d.This? then Entry(k, c, Some(d.target)) && Delegates(k, c, Some(m)) == Delegates(k, c, Some(d.target)) + [m]
            else Delegates(k, c, Some(m)) == [m]
  {
    LineageOfStep(ThisLinks(k.constructors[c]), m);
  }

  /** After a `this(...)` delegation the order is that of the delegate with one body more. */
  lemma ThisOrder(k: Classes, c: nat, m: nat)
    requires Accepted(k) && Entry(k, c, Some(m)) && k.constructors[c][m].delegation.This?
    ensures var t := k.constructors[c][m].delegation.target;
            && Entry(k, c, Some(t))
            && Argumentation(k, c, Some(m)) == [Arguments(c, m)] + Argumentation(k, c, Some(t))
            && Construction(k, c, Some(m)) == Construction(k, c, Some(t)) + [Body(c, m)]
  {
    hide Accepted, Rooted, LineageOf, ThisLinks, OwnPart, OwnArguments, Delegates, ParentEntry;
    var t := k.constructors[c][m].delegation.target;
    OwnThisOrder(k, c, m);
    DelegatesNonempty(k, c, t);
    if k.parents[c].Some? {
      Associates([Arguments(c, m)], OwnArguments(k, c, Delegates(k, c, Some(t))), Argumentation(k, k.parents[c].value, ParentEntry(k, c, Some(t))));
      Associates(Construction(k, k.parents[c].value, ParentEntry(k, c, Some(t))), OwnPart(k, c, Some(t)), [Body(c, m)]);
    }
  }

  lemma Associates(a: seq<Event>, b: seq<Event>, c: seq<Event>)
    ensures (a + b) + c == a + (b + c)
  {
  }

  lemma OwnThisOrder(k: Classes, c: nat, m: nat)
    requires Accepted(k) && Entry(k, c, Some(m)) && k.constructors[c][m].delegation.This?
    ensures var t := k.constructors[c][m].delegation.target;
            && Entry(k, c, Some(t))
            && OwnArguments(k, c, Delegates(k, c, Some(m))) == [Arguments(c, m)] + OwnArguments(k, c, Delegates(k, c, Some(t)))
            && OwnPart(k, c, Some(m)) == OwnPart(k, c, Some(t)) + [Body(c, m)]
            && (k.parents[c].Some? ==> ParentEntry(k, c, Some(m)) == ParentEntry(k, c, Some(t)))
  {
    hide Accepted, Rooted, LineageOf, ThisLinks;
    var t := k.constructors[c][m].delegation.target;
    DelegatesStep(k, c, m);
    DelegatesNonempty(k, c, t);
    var inner := Delegates(k, c, Some(t));
    assert (inner + [m])[0] == inner[0] && (inner + [m])[..|inner|] == inner;
    assert Bodies(c, inner + [m]) == Bodies(c, inner) + [Body(c, m)];
  }

  lemma DelegatesNonempty(k: Classes, c: nat, m: nat)
    requires Accepted(k) && Entry(k, c, Some(m))
    ensures Delegates(k, c, Some(m)) != []
    ensures forall i :: 0 <= i < |Delegates(k, c, Some(m))| ==> Delegates(k, c, Some(m))[i] < |k.constructors[c]|
  {
  }

  /** Without a `this(...)` delegation the class has at most one body of its own. */
  lemma OtherOrder(k: Classes, c: nat, m: Option<nat>)
    requires Accepted(k) && Entry(k, c, m) && (m.Some? ==> !k.constructors[c][m.value].delegation.This?)
    ensures var argued := if m.Some? && k.constructors[c][m.value].delegation.Super? then [Arguments(c, m.value)] else [];
            var own := [Fields(c)] + if m.Some? then [Body(c, m.value)] else [];
            && Argumentation(k, c, m) == argued + (if k.parents[c].None? then [] else Argumentation(k, k.parents[c].value, ParentEntry(k, c, m)))
            && Construction(k, c, m) == (if k.parents[c].None? then [] else Construction(k, k.parents[c].value, ParentEntry(k, c, m))) + own
  {
    hide Accepted, Rooted, LineageOf, ThisLinks, ParentEntry;
    if m.Some? {
      DelegatesStep(k, c, m.value);
      assert [m.value][..0] == [];
      assert OwnArguments(k, c, []) == [];
      assert Bodies(c, [m.value]) == [Body(c, m.value)];
    } else {
      assert Bodies(c, []) == [];
    }
    assert OwnPart(k, c, m) == [Fields(c)] + if m.Some? then [Body(c, m.value)] else [];
  }

  lemma FinishSkips(c: nat, m: Option<nat>, b: Built, fails: Event -> bool)
    requires !b.completed
    ensures Finish(c, m, b, fails) == b
  {
  }

  lemma AttemptedNothing(b: Built, fails: Event -> bool)
    requires b.completed
    ensures Attempted(b, [], {}, b, fails)
  {
  }

  lemma AttemptedInitialized(b: Built, events: seq<Event>, initialized: set<nat>, after: Built, fails: Event -> bool)
    requires Attempted(b, events, initialized, after, fails) && after.completed
    ensures after.initialized == b.initialized + initialized
  {
  }

  lemma FinishAttempted(c: nat, m: Option<nat>, b: Built, fails: Event -> bool)
    requires b.completed
    ensures var body := if m.Some? then [Body(c, m.value)] else [];
            if c in b.initialized then Attempted(b, body, {}, Finish(c, m, b, fails), fails)
            else Attempted(b, [Fields(c)] + body, {c}, Finish(c, m, b, fails), fails)
  {
    var body := if m.Some? then [Body(c, m.value)] else [];
    var marked := b.(initialized := b.initialized + {c});
    var fields := if c in b.initialized then b else Attempt(marked, Fields(c), fails);
    if c !in b.initialized {
      AttemptOne(marked, Fields(c), fails);
      assert Attempted(b, [Fields(c)], {c}, fields, fails);
    }
    if m.Some? && fields.completed { AttemptOne(fields, Body(c, m.value), fails); }
    if c !in b.initialized {
      assert {c} + {} == {c};
      AttemptedThen(b, [Fields(c)], {c}, fields, body, {}, Finish(c, m, b, fails), fails);
    }
  }

  /** The chain terminates, and it attempts exactly: the delegation arguments on the way up, then base
      class first each class's fields once and its constructor bodies, innermost delegate first. A
      throwing step ends it there. */
  lemma {:induction false} ChainOrder(k: Classes, c: nat, m: Option<nat>, b: Built, fails: Event -> bool)
    requires Accepted(k) && Entry(k, c, m) && b.completed && b.initialized !! LineageSet(k, c)
    ensures Attempted(b, Argumentation(k, c, m) + Construction(k, c, m), LineageSet(k, c), Chain(k, c, m, b, fails), fails)
    decreases |LineageOf(k.parents, c)|, ChainLength(k, c, m)
  {
    LineageOfStep(k.parents, c);
    LineageSetStep(k, c);
    if m.Some? && k.constructors[c][m.value].delegation.This? {
      ThisChainOrder(k, c, m.value, b, fails);
    } else {
      OtherOrder(k, c, m);
      var extra := if m.Some? && k.constructors[c][m.value].delegation.Super? then [Arguments(c, m.value)] else [];
      var argued := if extra == [] then b else Attempt(b, Arguments(c, m.value), fails);
      if extra != [] { AttemptOne(b, Arguments(c, m.value), fails); }
      assert Attempted(b, extra, {}, argued, fails);
      UpwardOrder(k, c, m, b, extra, argued, fails);
    }
  }

  lemma ThisChainUnfolds(k: Classes, c: nat, m: nat, b: Built, fails: Event -> bool)
    requires Accepted(k) && Entry(k, c, Some(m)) && k.constructors[c][m].delegation.This? && b.completed
    ensures Entry(k, c, Some(k.constructors[c][m].delegation.target))
    ensures var argued := Attempt(b, Arguments(c, m), fails);
            Chain(k, c, Some(m), b, fails) ==
              Finish(c, Some(m),
                     if argued.completed then Chain(k, c, Some(k.constructors[c][m].delegation.target), argued, fails) else argued,
                     fails)
  {
    hide Finish, Attempt;
  }

  lemma OtherChainUnfolds(k: Classes, c: nat, m: Option<nat>, b: Built, argued: Built, fails: Event -> bool)
    requires Accepted(k) && Entry(k, c, m) && (m.Some? ==> !k.constructors[c][m.value].delegation.This?) && b.completed
    requires argued == if m.Some? && k.constructors[c][m.value].delegation.Super? then Attempt(b, Arguments(c, m.value), fails) else b
    ensures Chain(k, c, m, b, fails) ==
              Finish(c, m,
                     if argued.completed && k.parents[c].Some? then Chain(k, k.parents[c].value, ParentEntry(k, c, m), argued, fails) else argued,
                     fails)
  {
    hide Finish, Attempt;
    assert SupersOk(k, c);
    if m.Some? { DelegatesStep(k, c, m.value); }
  }

  /** The termination measure of the chain: up the lineage, or along the `this(...)` links. */
  lemma Shorter(k: Classes, c: nat, m: Option<nat>)
    requires Accepted(k) && Entry(k, c, m)
    ensures k.parents[c].Some? ==> |LineageOf(k.parents, k.parents[c].value)| < |LineageOf(k.parents, c)|
    ensures m.Some? && k.constructors[c][m.value].delegation.This? ==>
              Entry(k, c, Some(k.constructors[c][m.value].delegation.target))
              && ChainLength(k, c, Some(k.constructors[c][m.value].delegation.target)) < ChainLength(k, c, m)
  {
    LineageOfStep(k.parents, c);
    if m.Some? { DelegatesStep(k, c, m.value); }
  }

  lemma {:induction false} ThisChainOrder(k: Classes, c: nat, m: nat, b: Built, fails: Event -> bool)
    requires Accepted(k) && Entry(k, c, Some(m)) && k.constructors[c][m].delegation.This?
    requires b.completed && b.initialized !! LineageSet(k, c)
    ensures Attempted(b, Argumentation(k, c, Some(m)) + Construction(k, c, Some(m)), LineageSet(k, c),
                      Chain(k, c, Some(m), b, fails), fails)
    decreases |LineageOf(k.parents, c)|, ChainLength(k, c, Some(m)), 0
  {
    hide Accepted, Rooted, LineageOf, Chain, Finish, Attempt, Attempted, LineageSet, Argumentation, Construction, ChainLength;
    var t := k.constructors[c][m].delegation.target;
    ThisOrder(k, c, m);
    ThisChainUnfolds(k, c, m, b, fails);
    Shorter(k, c, Some(m));
    LineageSetStep(k, c);
    var argued := Attempt(b, Arguments(c, m), fails);
    AttemptOne(b, Arguments(c, m), fails);
    var x, y := Argumentation(k, c, Some(t)), Construction(k, c, Some(t));
    var above := argued;
    if argued.completed {
      above := Chain(k, c, Some(t), argued, fails);
      ChainOrder(k, c, Some(t), argued, fails);
    }
    AttemptedThen(b, [Arguments(c, m)], {}, argued, x + y, LineageSet(k, c), above, fails);
    assert {} + LineageSet(k, c) == LineageSet(k, c) == LineageSet(k, c) + {};
    if above.completed {
      AttemptedInitialized(b, [Arguments(c, m)] + (x + y), {} + LineageSet(k, c), above, fails);
      FinishAttempted(c, Some(m), above, fails);
    } else {
      FinishSkips(c, Some(m), above, fails);
    }
    AttemptedThen(b, [Arguments(c, m)] + (x + y), LineageSet(k, c), above, [Body(c, m)], {}, Finish(c, Some(m), above, fails), fails);
    assert ([Arguments(c, m)] + (x + y)) + [Body(c, m)] == ([Arguments(c, m)] + x) + (y + [Body(c, m)]);
  }

  /** The superclass part and the class's own part. */
  lemma {:induction false} UpwardOrder(k: Classes, c: nat, m: Option<nat>, b: Built, extra: seq<Event>, argued: Built, fails: Event -> bool)
    requires Accepted(k) && Entry(k, c, m) && (m.Some? ==> !k.constructors[c][m.value].delegation.This?)
    requires b.completed && b.initialized !! LineageSet(k, c)
    requires extra == if m.Some? && k.constructors[c][m.value].delegation.Super? then [Arguments(c, m.value)] else []
    requires argued == if extra == [] then b else Attempt(b, Arguments(c, m.value), fails)
    requires Attempted(b, extra, {}, argued, fails)
    ensures Attempted(b, Argumentation(k, c, m) + Construction(k, c, m), LineageSet(k, c), Chain(k, c, m, b, fails), fails)
    decreases |LineageOf(k.parents, c)|, ChainLength(k, c, m), 0
  {
    hide Accepted, Rooted, LineageOf, Chain, Finish, Attempted, LineageSet, Argumentation, Construction, ChainLength;
    OtherOrder(k, c, m);
    OtherChainUnfolds(k, c, m, b, argued, fails);
    Shorter(k, c, m);
    LineageSetStep(k, c);
    var own := [Fields(c)] + if m.Some? then [Body(c, m.value)] else [];
    var above := argued;
    var x: seq<Event>, y: seq<Event>, up: set<nat> := [], [], {};
    if k.parents[c].Some? {
      var p, e := k.parents[c].value, ParentEntry(k, c, m);
      x, y, up := Argumentation(k, p, e), Construction(k, p, e), LineageSet(k, p);
      if argued.completed {
        above := Chain(k, p, e, argued, fails);
        AttemptedInitialized(b, extra, {}, argued, fails);
        ChainOrder(k, p, e, argued, fails);
      }
    } else if argued.completed {
      AttemptedNothing(argued, fails);
    }
    AttemptedThen(b, extra, {}, argued, x + y, up, above, fails);
    if above.completed {
      AttemptedInitialized(b, extra + (x + y), {} + up, above, fails);
      FinishAttempted(c, m, above, fails);
    } else {
      FinishSkips(c, m, above, fails);
    }
    AttemptedThen(b, extra + (x + y), {} + up, above, own, {c}, Finish(c, m, above, fails), fails);
    assert (extra + (x + y)) + own == (extra + x) + (y + own);
    assert ({} + up) + {c} == LineageSet(k, c);
  }

  // ---------------------------------------------------------------- whole objects

  /** The classes whose fields are initialized, in order. */
  function FieldClasses(events: seq<Event>): seq<nat> {
    if events == [] then []
    else (if events[0].Fields? then [events[0].classId] else []) + FieldClasses(events[1..])
  }

  lemma {:induction false} FieldClassesSplit(a: seq<Event>, b: seq<Event>)
    ensures FieldClasses(a + b) == FieldClasses(a) + FieldClasses(b)
    decreases |a|
  {
    if a == [] {
      assert a + b == b;
    } else {
      assert (a + b)[1..] == a[1..] + b;
      FieldClassesSplit(a[1..], b);
    }
  }

  lemma {:induction false} BodiesHaveNoFields(c: nat, delegates: seq<nat>)
    ensures FieldClasses(Bodies(c, delegates)) == []
    decreases |delegates|
  {
    if delegates != [] {
      assert Bodies(c, delegates)[1..] == Bodies(c, delegates[1..]);
      BodiesHaveNoFields(c, delegates[1..]);
    }
  }

  /** Every class of the lineage has its fields initialized exactly once, base class first. */
  lemma {:induction false} FieldsInLineageOrder(k: Classes, c: nat, m: Option<nat>)
    requires Accepted(k) && Entry(k, c, m)
    ensures FieldClasses(Construction(k, c, m)) == LineageOf(k.parents, c)
    decreases |LineageOf(k.parents, c)|
  {
    hide Accepted, LineageOf;
    LineageOfStep(k.parents, c) by { AcceptedIsRooted(k); }
    var own := OwnPart(k, c, m);
    assert own[1..] == Bodies(c, Delegates(k, c, m));
    BodiesHaveNoFields(c, Delegates(k, c, m));
    assert FieldClasses(own) == [c];
    if k.parents[c].Some? {
      Shorter(k, c, m);
      FieldsInLineageOrder(k, k.parents[c].value, ParentEntry(k, c, m));
      FieldClassesSplit(Construction(k, k.parents[c].value, ParentEntry(k, c, m)), own);
    }
  }

  lemma AcceptedIsRooted(k: Classes)
    requires Accepted(k)
    ensures Rooted(k.parents)
  {
  }

  const NOTHING_BUILT := Built([], {}, true)

  /** Constructing an object of an accepted class: the whole trace, cut after the first failure. */
  lemma ConstructionTrace(k: Classes, c: nat, m: Option<nat>, fails: Event -> bool)
    requires Accepted(k) && Entry(k, c, m)
    ensures var full := Argumentation(k, c, m) + Construction(k, c, m);
            var built := Chain(k, c, m, NOTHING_BUILT, fails);
            built.events == UpToFailure(full, fails) && (built.completed <==> NoneFails(full, fails))
  {
    ChainOrder(k, c, m, NOTHING_BUILT, fails);
  }

  // ---------------------------------------------------------------- the interpreter's recursion

  class ObjectBuilder {
    const classes: Classes
    const fails: Event -> bool
    var initialized: set<nat>
    var events: seq<Event>

    constructor (classes: Classes, fails: Event -> bool)
      ensures this.classes == classes && this.fails == fails && initialized == {} && events == []
    {
      this.classes, this.fails := classes, fails;
      initialized, events := {}, [];
    }

    function Now(completed: bool): Built
      reads this
    {
      Built(events, initialized, completed)
    }

    /** Runs one step, which may throw. */
    method Step(event: Event) returns (ok: bool)
      modifies this`events
      ensures Now(ok) == Attempt(old(Now(true)), event, fails)
    {
      events := events + [event];
      ok := !fails(event);
    }

    method ExecuteConstructorChain(c: nat, m: Option<nat>) returns (ok: bool)
      requires Accepted(classes) && Entry(classes, c, m)
      modifies this
      ensures Now(ok) == Chain(classes, c, m, old(Now(true)), fails)
      decreases |LineageOf(classes.parents, c)|, ChainLength(classes, c, m)
    {
      hide Chain, LineageOf;
      Shorter(classes, c, m);
      var delegation := if m.Some? then classes.constructors[c][m.value].delegation else NoDelegation;
      ghost var argued := Now(true);
      ok := true;
      if delegation.This? {
        ThisChainUnfolds(classes, c, m.value, Now(true), fails);
        ok := Step(Arguments(c, m.value));
        if !ok {
          return;
        }
        ok := ExecuteConstructorChain(c, Some(delegation.target));
      } else {
        if delegation.Super? {
          argued := Attempt(Now(true), Arguments(c, m.value), fails);
        }
        OtherChainUnfolds(classes, c, m, Now(true), argued, fails);
        if delegation.Super? {
          ok := Step(Arguments(c, m.value));
          if !ok {
            return;
          }
        }
        if classes.parents[c].Some? {
          var parent := classes.parents[c].value;
          var target := if delegation.Super? then delegation.superTarget else ZeroArgument(classes.constructors[parent]);
          EntryAbove(classes, c, m);
          assert target == ParentEntry(classes, c, m);
          ok := ExecuteConstructorChain(parent, target);
        }
      }
      if !ok {
        return;
      }
      if c !in initialized {
        initialized := initialized + {c};
        ok := Step(Fields(c));
        if !ok {
          return;
        }
      }
      if m.Some? {
        ok := Step(Body(c, m.value));
      }
    }
  }

  lemma EntryAbove(k: Classes, c: nat, m: Option<nat>)
    requires Accepted(k) && Entry(k, c, m) && k.parents[c].Some?
    requires m.Some? ==> !k.constructors[c][m.value].delegation.This?
    ensures ParentEntry(k, c, m) ==
              if m.Some? && k.constructors[c][m.value].delegation.Super? then k.constructors[c][m.value].delegation.superTarget
              else ZeroArgument(k.constructors[k.parents[c].value])
  {
    if m.Some? { DelegatesStep(k, c, m.value); }
  }
}
