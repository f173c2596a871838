/** Three ways the program walks the hierarchy: the checker's traversal with a visited set, the
    interpreter's recursion without one, and the lineage stored with each class. */
module Inheritance {
  import opened Wrappers
  import opened ClassGraph
  import opened Syntax

  // ---------------------------------------------------------------- the checker's traversal

  function Marked(visited: seq<bool>): set<nat> {
    set n: nat | n < |visited| && visited[n]
  }

  lemma MarkedUpdate(visited: seq<bool>, n: nat)
    requires n < |visited| && !visited[n]
    ensures Marked(visited[n := true]) == Marked(visited) + {n}
    ensures |Marked(visited[n := true])| == |Marked(visited)| + 1
    ensures Below(|visited|) - Marked(visited[n := true]) < Below(|visited|) - Marked(visited)
  {
    assert Marked(visited[n := true]) == Marked(visited) + {n};
    assert n in Below(|visited|) && n !in Marked(visited);
  }

  lemma NoneMarked(n: nat)
    ensures Marked(seq(n, _ => false)) == {}
  {
  }

  lemma SearchStarts(g: Graph, actual: nat, expected: nat)
    requires actual < |g|
    ensures Progress(g, actual, expected, [actual], {})
  {
    ReachesSelf(g, actual);
  }

  /** Pushes the successors of a node so that the first is popped first. */
  method PushSuccessors(g: Graph, n: nat, rest: seq<nat>) returns (r: seq<nat>)
    requires n < |g| && Within(g, rest)
    ensures Within(g, r)
    ensures forall m :: m in r <==> m in g[n] || m in rest
  {
    r := rest;
    var i := |g[n]|;
    while i > 0
      invariant 0 <= i <= |g[n]|
      invariant Within(g, r)
      invariant forall m :: m in r <==> m in g[n][i..] || m in rest
    {
      i := i - 1;
      assert g[n][i..] == [g[n][i]] + g[n][i + 1..];
      r := r + [g[n][i]];
    }
    assert g[n][0..] == g[n];
  }

  /** Everything pending or visited is reachable from the start, and nothing was forgotten. */
  ghost predicate Progress(g: Graph, actual: nat, expected: nat, pending: seq<nat>, visited: set<nat>) {
    && (forall n :: n in pending ==> Reaches(g, actual, n))
    && (forall n :: n in visited ==> Reaches(g, actual, n))
    && (actual in pending || actual in visited)
    && expected !in visited && Frontier(g, pending, visited)
  }

  lemma MarkedIn(visited: seq<bool>, n: nat)
    ensures n in Marked(visited) <==> n < |visited| && visited[n]
  {
  }

  lemma PendingReached(g: Graph, actual: nat, expected: nat, rest: seq<nat>, n: nat, visited: set<nat>)
    requires Progress(g, actual, expected, rest + [n], visited)
    ensures Reaches(g, actual, n)
  {
    assert n in rest + [n];
  }

  lemma SkipKeeps(g: Graph, actual: nat, expected: nat, rest: seq<nat>, n: nat, visited: set<nat>)
    requires Progress(g, actual, expected, rest + [n], visited) && n in visited
    ensures Progress(g, actual, expected, rest, visited)
  {
    hide Reaches;
    assert forall m :: m in rest ==> m in rest + [n];
  }

  lemma VisitKeeps(g: Graph, actual: nat, expected: nat, rest: seq<nat>, n: nat, visited: set<nat>, pending: seq<nat>)
    requires Progress(g, actual, expected, rest + [n], visited) && n < |g| && n != expected
    requires forall m :: m in pending <==> m in g[n] || m in rest
    ensures Progress(g, actual, expected, pending, visited + {n})
  {
    assert forall m :: m in rest + [n] <==> m in rest || m == n;
    forall m | m in g[n]
      ensures Reaches(g, actual, m)
    {
      ReachesSelf(g, m);
      ReachesStep(g, n, m, m);
      ReachesTransitive(g, actual, n, m);
    }
  }

  lemma NothingLeft(g: Graph, actual: nat, expected: nat, visited: set<nat>)
    requires Progress(g, actual, expected, [], visited)
    ensures !Reaches(g, actual, expected)
  {
    if Reaches(g, actual, expected) {
      var p :| IsPathBetween(g, p, actual, expected);
      PathLeavesVisited(g, [], visited, p, expected);
    }
  }

  /** The traversal decides reachability and visits no node twice, whatever the graph. */
  method Traverse(g: Graph, actual: nat, expected: nat) returns (matched: bool, nodesVisited: nat)
    requires actual < |g|
    ensures matched <==> Reaches(g, actual, expected)
    ensures nodesVisited <= |g|
  {
    var visited := seq(|g|, _ => false);
    var pending: seq<nat> := [actual];
    nodesVisited := 0;
    SearchStarts(g, actual, expected);
    NoneMarked(|g|);
    hide Progress, Marked, Reaches, Below, Closed;
    while pending != []
      invariant |visited| == |g| && nodesVisited == |Marked(visited)|
      invariant Within(g, pending)
      invariant Progress(g, actual, expected, pending, Marked(visited))
      decreases Below(|g|) - Marked(visited), |pending|
    {
      var n := pending[|pending| - 1];
      var rest := pending[..|pending| - 1];
      assert pending == rest + [n];
      ghost var marked := Marked(visited);
      if visited[n] {
        MarkedIn(visited, n);
        SkipKeeps(g, actual, expected, rest, n, marked);
        pending := rest;
        continue;
      }
      MarkedUpdate(visited, n);
      visited := visited[n := true];
      nodesVisited := nodesVisited + 1;
      if n == expected {
        PendingReached(g, actual, expected, rest, n, marked);
        MarkedBelow(visited, |g|);
        return true, nodesVisited;
      }
      var pushed := PushSuccessors(g, n, rest);
      VisitKeeps(g, actual, expected, rest, n, marked, pushed);
      pending := pushed;
    }
    NothingLeft(g, actual, expected, Marked(visited));
    MarkedBelow(visited, |g|);
    matched := false;
  }

  lemma MarkedBelow(visited: seq<bool>, n: nat)
    requires |visited| == n
    ensures |Marked(visited)| <= n
  {
    assert Marked(visited) <= Below(n);
    SubsetSize(Marked(visited), Below(n));
  }

  lemma {:induction false} SubsetSize(a: set<nat>, b: set<nat>)
    requires a <= b
    ensures |a| <= |b|
  {
    if a != {} {
      var x :| x in a;
      SubsetSize(a - {x}, b - {x});
    }
  }

  // ---------------------------------------------------------------- the interpreter's recursion

  /** The interpreter's test, which follows the edges by plain recursion; `None` when the recursion
      goes deeper than `depth` calls. Successors are tried in order up to the first success. */
  function RecursiveTest(g: Graph, actual: nat, expected: nat, depth: nat): Option<bool>
    requires actual < |g|
    decreases depth, 1, 0
  {
    if depth == 0 then None
    else if actual == expected then Some(true)
    else AnySuccessor(g, g[actual], expected, depth)
  }

  function AnySuccessor(g: Graph, successors: seq<nat>, expected: nat, depth: nat): Option<bool>
    requires depth > 0 && Within(g, successors)
    decreases depth, 0, |successors|
  {
    if successors == [] then Some(false)
    else
      var first := RecursiveTest(g, successors[0], expected, depth - 1);
      if first.None? || first.value then first
      else AnySuccessor(g, successors[1..], expected, depth)
  }

  /** No path of more than `n` nodes leaves `a`. */
  ghost predicate ShortPaths(g: Graph, a: nat, n: nat) {
    forall p :: IsPath(g, p) && p[0] == a ==> |p| <= n
  }

  /** With enough depth the recursion answers, and answers reachability. */
  lemma {:induction false} RecursionAnswers(g: Graph, actual: nat, expected: nat, depth: nat)
    requires actual < |g| && ShortPaths(g, actual, depth)
    ensures RecursiveTest(g, actual, expected, depth).Some?
    ensures RecursiveTest(g, actual, expected, depth).value <==> Reaches(g, actual, expected)
    decreases depth, 1, 0
  {
    assert IsPath(g, [actual]);
    if actual == expected {
      ReachesSelf(g, actual);
    } else {
      forall m, p | m in g[actual] && IsPath(g, p) && p[0] == m
        ensures |p| <= depth - 1
      {
        assert IsPath(g, [actual] + p);
      }
      SuccessorsAnswer(g, g[actual], expected, depth);
      if Reaches(g, actual, expected) {
        ReachesSplit(g, actual, expected);
      } else {
        forall m | m in g[actual]
          ensures !Reaches(g, m, expected)
        {
          if Reaches(g, m, expected) { ReachesStep(g, actual, m, expected); }
        }
      }
      if m :| m in g[actual] && Reaches(g, m, expected) {
        ReachesStep(g, actual, m, expected);
      }
    }
  }

  lemma {:induction false} SuccessorsAnswer(g: Graph, successors: seq<nat>, expected: nat, depth: nat)
    requires depth > 0 && Within(g, successors)
    requires forall m :: m in successors ==> ShortPaths(g, m, depth - 1)
    ensures AnySuccessor(g, successors, expected, depth).Some?
    ensures AnySuccessor(g, successors, expected, depth).value <==> exists m :: m in successors && Reaches(g, m, expected)
    decreases depth, 0, |successors|
  {
    if successors != [] {
      assert successors[0] in successors;
      RecursionAnswers(g, successors[0], expected, depth - 1);
      assert forall m :: m in successors[1..] ==> m in successors;
      SuccessorsAnswer(g, successors[1..], expected, depth);
      assert forall m :: m in successors <==> m == successors[0] || m in successors[1..];
    }
  }

  /** A path with a repeated node contains a cycle. */
  lemma RepeatIsCycle(g: Graph, p: seq<nat>, i: nat, j: nat)
    requires IsPath(g, p) && i < j < |p| && p[i] == p[j]
    ensures OnCycle(g, p[i])
  {
    assert IsPathBetween(g, p[i..j + 1], p[i], p[i]);
  }

  lemma {:induction false} DistinctSize(p: seq<nat>, n: nat)
    requires forall i, j :: 0 <= i < j < |p| ==> p[i] != p[j]
    requires forall i :: 0 <= i < |p| ==> p[i] < n
    ensures |p| <= n
  {
    var s := set i | 0 <= i < |p| :: p[i];
    DistinctSet(p);
    SubsetSize(s, Below(n));
  }

  lemma {:induction false} DistinctSet(p: seq<nat>)
    requires forall i, j :: 0 <= i < j < |p| ==> p[i] != p[j]
    ensures |set i | 0 <= i < |p| :: p[i]| == |p|
  {
    if p != [] {
      var front := p[..|p| - 1];
      DistinctSet(front);
      var s := set i | 0 <= i < |front| :: front[i];
      assert (set i | 0 <= i < |p| :: p[i]) == s + {p[|p| - 1]};
    }
  }

  lemma AcyclicPathsAreShort(g: Graph, a: nat)
    requires Acyclic(g)
    ensures ShortPaths(g, a, |g|)
  {
    forall p | IsPath(g, p) && p[0] == a
      ensures |p| <= |g|
    {
      forall i, j | 0 <= i < j < |p|
        ensures p[i] != p[j]
      {
        if p[i] == p[j] { RepeatIsCycle(g, p, i, j); }
      }
      DistinctSize(p, |g|);
    }
  }

  /** On an accepted hierarchy the recursion ends within as many calls as there are types, and agrees
      with the checker's traversal. */
  lemma RecursionAgreesWithChecker(g: Graph, actual: nat, expected: nat)
    requires Acyclic(g) && actual < |g|
    ensures RecursiveTest(g, actual, expected, |g|) == Some(Inherits(g, actual, expected))
  {
    AcyclicPathsAreShort(g, actual);
    RecursionAnswers(g, actual, expected, |g|);
    InheritsIsReaches(g, actual, expected);
  }

  // Without acyclicity

  ghost predicate ReachesCycle(g: Graph, a: nat) {
    exists n :: Reaches(g, a, n) && OnCycle(g, n)
  }

  lemma CycleAhead(g: Graph, a: nat)
    requires ReachesCycle(g, a)
    ensures a < |g| && exists m :: m in g[a] && ReachesCycle(g, m)
  {
    var n :| Reaches(g, a, n) && OnCycle(g, n);
    if a == n {
      var p :| IsPathBetween(g, p, n, n) && |p| > 1;
      assert IsPathBetween(g, p[1..], p[1], n);
      assert Reaches(g, p[1], n);
      assert p[1] in g[a] && ReachesCycle(g, p[1]);
    } else {
      ReachesSplit(g, a, n);
      var m :| m in g[a] && Reaches(g, m, n);
      assert ReachesCycle(g, m);
    }
  }

  lemma {:induction false} CyclesNeverAnswer(g: Graph, actual: nat, expected: nat, depth: nat)
    requires actual < |g| && ReachesCycle(g, actual) && !Reaches(g, actual, expected)
    ensures RecursiveTest(g, actual, expected, depth).None?
    decreases depth, 1, 0
  {
    if depth > 0 {
      ReachesSelf(g, actual);
      CycleAhead(g, actual);
      forall m | m in g[actual]
        ensures !Reaches(g, m, expected)
      {
        if Reaches(g, m, expected) { ReachesStep(g, actual, m, expected); }
      }
      CyclicSuccessors(g, g[actual], expected, depth);
    }
  }

  lemma {:induction false} CyclicSuccessors(g: Graph, successors: seq<nat>, expected: nat, depth: nat)
    requires depth > 0 && Within(g, successors)
    requires forall m :: m in successors ==> !Reaches(g, m, expected)
    requires exists m :: m in successors && ReachesCycle(g, m)
    ensures AnySuccessor(g, successors, expected, depth).None?
    decreases depth, 0, |successors|
  {
    var m :| m in successors && ReachesCycle(g, m);
    var first := RecursiveTest(g, successors[0], expected, depth - 1);
    if m == successors[0] {
      CyclesNeverAnswer(g, m, expected, depth - 1);
    } else {
      if first.Some? { TrueIsReached(g, successors[0], expected, depth - 1); }
      assert m in successors[1..];
      CyclicSuccessors(g, successors[1..], expected, depth);
    }
  }

  lemma {:induction false} TrueIsReached(g: Graph, actual: nat, expected: nat, depth: nat)
    requires actual < |g|
    ensures RecursiveTest(g, actual, expected, depth) == Some(true) ==> Reaches(g, actual, expected)
    decreases depth, 1, 0
  {
    if depth > 0 {
      if actual == expected {
        ReachesSelf(g, actual);
      } else if AnySuccessor(g, g[actual], expected, depth) == Some(true) {
        TrueIsReachedByAny(g, g[actual], expected, depth);
        var m :| m in g[actual] && Reaches(g, m, expected);
        ReachesStep(g, actual, m, expected);
      }
    }
  }

  lemma {:induction false} TrueIsReachedByAny(g: Graph, successors: seq<nat>, expected: nat, depth: nat)
    requires depth > 0 && Within(g, successors) && AnySuccessor(g, successors, expected, depth) == Some(true)
    ensures exists m :: m in successors && Reaches(g, m, expected)
    decreases depth, 0, |successors|
  {
    TrueIsReached(g, successors[0], expected, depth - 1);
    if !Reaches(g, successors[0], expected) {
      TrueIsReachedByAny(g, successors[1..], expected, depth);
    }
  }

  lemma AcyclicAheadIsShort(g: Graph, a: nat)
    requires a < |g| && !ReachesCycle(g, a)
    ensures ShortPaths(g, a, |g|)
  {
    forall p | IsPath(g, p) && p[0] == a
      ensures |p| <= |g|
    {
      forall i, j | 0 <= i < j < |p|
        ensures p[i] != p[j]
      {
        if p[i] == p[j] {
          RepeatIsCycle(g, p, i, j);
          assert IsPathBetween(g, p[..i + 1], a, p[i]);
          assert Reaches(g, a, p[i]);
        }
      }
      DistinctSize(p, |g|);
    }
  }

  /** When the answer is no, the recursion ends exactly if no cycle lies ahead: this is what the
      rejection of cyclic hierarchies is for. */
  lemma RecursionEndsExactly(g: Graph, actual: nat, expected: nat)
    requires actual < |g| && !Reaches(g, actual, expected)
    ensures (exists depth: nat :: RecursiveTest(g, actual, expected, depth).Some?) <==> !ReachesCycle(g, actual)
  {
    if ReachesCycle(g, actual) {
      forall depth: nat ensures RecursiveTest(g, actual, expected, depth).None? {
        CyclesNeverAnswer(g, actual, expected, depth);
      }
    } else {
      AcyclicAheadIsShort(g, actual);
      RecursionAnswers(g, actual, expected, |g|);
    }
  }
}
