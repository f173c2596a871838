/** The graph of `extends` and `implements` edges between declared types, by class index.

    `edges[c]` lists the superclass of `c` first and then its interfaces, in declaration order. */
module ClassGraph {
  type Graph = g: seq<seq<nat>> | Closed(g) witness []

  predicate Closed(g: seq<seq<nat>>) {
    forall n, i :: 0 <= n < |g| && 0 <= i < |g[n]| ==> g[n][i] < |g|
  }

  ghost predicate IsPath(g: Graph, p: seq<nat>) {
    && p != []
    && (forall i :: 0 <= i < |p| ==> p[i] < |g|)
    && (forall i :: 0 < i < |p| ==> p[i] in g[p[i - 1]])
  }

  ghost predicate IsPathBetween(g: Graph, p: seq<nat>, a: nat, b: nat) {
    IsPath(g, p) && p[0] == a && p[|p| - 1] == b
  }

  /** `b` is `a` or an ancestor of it. */
  ghost predicate Reaches(g: Graph, a: nat, b: nat) {
    exists p :: IsPathBetween(g, p, a, b)
  }

  ghost predicate OnCycle(g: Graph, a: nat) {
    exists p :: IsPathBetween(g, p, a, a) && |p| > 1
  }

  ghost predicate Acyclic(g: Graph) {
    forall a: nat :: !OnCycle(g, a)
  }

  // ---------------------------------------------------------------- paths

  lemma ReachesSelf(g: Graph, a: nat)
    requires a < |g|
    ensures Reaches(g, a, a)
  {
    assert IsPathBetween(g, [a], a, a);
  }

  lemma ReachesStep(g: Graph, a: nat, b: nat, c: nat)
    requires a < |g| && b in g[a] && Reaches(g, b, c)
    ensures Reaches(g, a, c)
  {
    var p :| IsPathBetween(g, p, b, c);
    assert IsPathBetween(g, [a] + p, a, c);
  }

  /** Any path is a single node or an edge followed by a shorter path. */
  lemma ReachesSplit(g: Graph, a: nat, c: nat)
    requires Reaches(g, a, c)
    ensures a < |g| && c < |g|
    ensures a == c || exists b :: b in g[a] && Reaches(g, b, c)
  {
    var p :| IsPathBetween(g, p, a, c);
    if |p| > 1 {
      assert IsPathBetween(g, p[1..], p[1], c);
      assert p[1] in g[a] && Reaches(g, p[1], c);
    }
  }

  lemma PathConcat(g: Graph, p: seq<nat>, q: seq<nat>, a: nat, b: nat, c: nat)
    requires IsPathBetween(g, p, a, b) && IsPathBetween(g, q, b, c)
    ensures IsPathBetween(g, p + q[1..], a, c)
  {
    var r := p + q[1..];
    forall i | 0 < i < |r|
      ensures r[i] in g[r[i - 1]]
    {
      if i >= |p| {
        assert r[i] == q[i - |p| + 1] && r[i - 1] == q[i - |p|];
      }
    }
    if |q| == 1 {
      assert r == p;
    }
  }

  lemma ReachesTransitive(g: Graph, a: nat, b: nat, c: nat)
    requires Reaches(g, a, b) && Reaches(g, b, c)
    ensures Reaches(g, a, c)
  {
    var p :| IsPathBetween(g, p, a, b);
    var q :| IsPathBetween(g, q, b, c);
    PathConcat(g, p, q, a, b, c);
  }

  /** On an acyclic graph the ancestor relation is antisymmetric. */
  lemma ReachesAntisymmetric(g: Graph, a: nat, b: nat)
    requires Acyclic(g) && Reaches(g, a, b) && Reaches(g, b, a)
    ensures a == b
  {
    var p :| IsPathBetween(g, p, a, b);
    var q :| IsPathBetween(g, q, b, a);
    PathConcat(g, p, q, a, b, a);
    assert |p| > 1 ==> OnCycle(g, a);
  }

  // ---------------------------------------------------------------- worklist search

  /** The node indexes below `n`. */
  ghost function Below(n: nat): (s: set<nat>)
    ensures forall k: nat :: k in s <==> k < n
    ensures |s| == n
  {
    if n == 0 then {} else Below(n - 1) + {n - 1}
  }

  predicate Within(g: Graph, s: seq<nat>) {
    forall i :: 0 <= i < |s| ==> s[i] < |g|
  }

  /** The worklist search with a visited set that the checker runs over the hierarchy. The head of
      `pending` is the top of its stack. */
  predicate Search(g: Graph, pending: seq<nat>, visited: set<nat>, target: nat)
    requires Within(g, pending)
    decreases Below(|g|) - visited, |pending|
  {
    if pending == [] then
      false
    else if pending[0] in visited then
      Search(g, pending[1..], visited, target)
    else if pending[0] == target then
      true
    else
      Search(g, g[pending[0]] + pending[1..], visited + {pending[0]}, target)
  }

  /** `actual` is `expected` or inherits from it. */
  predicate Inherits(g: Graph, actual: nat, expected: nat) {
    actual < |g| && Search(g, [actual], {}, expected)
  }

  /** Every visited node other than the target has all its successors visited or pending. */
  ghost predicate Frontier(g: Graph, pending: seq<nat>, visited: set<nat>) {
    forall n, m :: n in visited && n < |g| && m in g[n] ==> m in visited || m in pending
  }

  lemma {:induction false} SearchSound(g: Graph, pending: seq<nat>, visited: set<nat>, target: nat)
    requires Within(g, pending)
    requires Search(g, pending, visited, target)
    ensures exists n :: n in pending && Reaches(g, n, target)
    decreases Below(|g|) - visited, |pending|
  {
    var n := pending[0];
    if n in visited {
      SearchSound(g, pending[1..], visited, target);
    } else if n == target {
      ReachesSelf(g, n);
    } else {
      SearchSound(g, g[n] + pending[1..], visited + {n}, target);
      var m :| m in g[n] + pending[1..] && Reaches(g, m, target);
      if m in g[n] {
        ReachesStep(g, n, m, target);
      }
    }
  }

  /** A path from a visited or pending node to an unvisited target has a pending unvisited node. */
  lemma {:induction false} PathLeavesVisited(g: Graph, pending: seq<nat>, visited: set<nat>, p: seq<nat>, target: nat)
    requires Frontier(g, pending, visited) && target !in visited
    requires IsPath(g, p) && p[|p| - 1] == target
    requires p[0] in visited || p[0] in pending
    ensures exists n :: n in pending && n !in visited
  {
    if p[0] in visited {
      assert |p| > 1;
      assert p[1] in g[p[0]];
      PathLeavesVisited(g, pending, visited, p[1..], target);
    }
  }

  lemma {:induction false} SearchComplete(g: Graph, pending: seq<nat>, visited: set<nat>, target: nat, p: seq<nat>)
    requires Within(g, pending)
    requires Frontier(g, pending, visited) && target !in visited
    requires IsPath(g, p) && p[|p| - 1] == target && (p[0] in visited || p[0] in pending)
    ensures Search(g, pending, visited, target)
    decreases Below(|g|) - visited, |pending|
  {
    PathLeavesVisited(g, pending, visited, p, target);
    var n := pending[0];
    if n in visited {
      SearchComplete(g, pending[1..], visited, target, p);
    } else if n != target {
      SearchComplete(g, g[n] + pending[1..], visited + {n}, target, p);
    }
  }

  /** The visited-set search decides graph reachability, cycles or not. */
  lemma InheritsIsReaches(g: Graph, a: nat, b: nat)
    ensures Inherits(g, a, b) <==> Reaches(g, a, b)
  {
    if Inherits(g, a, b) {
      SearchSound(g, [a], {}, b);
    }
    if Reaches(g, a, b) {
      var p :| IsPathBetween(g, p, a, b);
      SearchComplete(g, [a], {}, b, p);
    }
  }
}
