/** The lineage stored with every class: its superclasses, base first, ending with the class itself. */
module Lineage {
  import opened Wrappers
  import opened ClassGraph
  import opened Inheritance

  /** The resolved superclass of each class. */
  type Parents = p: seq<Option<nat>> | forall c :: 0 <= c < |p| && p[c].Some? ==> p[c].value < |p| witness []

  /** The superclass links as a graph. */
  function ParentGraph(parents: Parents): (g: Graph)
    ensures |g| == |parents|
    ensures forall c :: 0 <= c < |g| ==> g[c] == if parents[c].Some? then [parents[c].value] else []
  {
    seq(|parents|, c requires 0 <= c < |parents| => if parents[c].Some? then [parents[c].value] else [])
  }

  ghost predicate Rooted(parents: Parents) {
    Acyclic(ParentGraph(parents))
  }

  /** From a class without superclass down to `c`, each the superclass of the next. */
  ghost predicate IsLineage(parents: Parents, c: nat, l: seq<nat>) {
    && l != [] && l[|l| - 1] == c
    && (forall i :: 0 <= i < |l| ==> l[i] < |parents|)
    && parents[l[0]].None?
    && (forall i :: 0 < i < |l| ==> parents[l[i]] == Some(l[i - 1]))
  }

  function Reversed(s: seq<nat>): (r: seq<nat>)
    ensures |r| == |s| && forall i :: 0 <= i < |r| ==> r[i] == s[|s| - 1 - i]
  {
    seq(|s|, i requires 0 <= i < |s| => s[|s| - 1 - i])
  }

  /** Follows the links, at most as many times as there are classes, then reverses what it collected. */
  method LineageBaseFirst(parents: Parents, c: nat) returns (l: seq<nat>)
    requires c < |parents|
    ensures Rooted(parents) ==> IsLineage(parents, c, l)
    ensures |l| <= |parents|
  {
    var collected: seq<nat> := [];
    var cursor := Some(c);
    var remaining := |parents|;
    ghost var g := ParentGraph(parents);
    while cursor.Some? && remaining > 0
      invariant 0 <= remaining <= |parents| && |collected| == |parents| - remaining
      invariant cursor.Some? ==> cursor.value < |parents|
      invariant collected == [] ==> cursor == Some(c)
      invariant collected != [] ==> collected[0] == c && IsPath(g, collected) && cursor == parents[collected[|collected| - 1]]
    {
      var current := cursor.value;
      assert collected != [] ==> current in g[collected[|collected| - 1]];
      collected := collected + [current];
      cursor := parents[current];
      remaining := remaining - 1;
    }
    if Rooted(parents) && cursor.Some? {
      assert IsPath(g, collected + [cursor.value]);
      AcyclicPathsAreShort(g, c);
      assert false;
    }
    l := Reversed(collected);
  }

  /** The lineage of a class is unique and lists no class twice. */
  lemma {:induction false} LineageUnique(parents: Parents, c: nat, l: seq<nat>, m: seq<nat>)
    requires IsLineage(parents, c, l) && IsLineage(parents, c, m)
    ensures l == m
    decreases |l|
  {
    assert |l| > 1 ==> parents[l[|l| - 1]] == Some(l[|l| - 2]);
    assert |m| > 1 ==> parents[m[|m| - 1]] == Some(m[|m| - 2]);
    if |l| == 1 || |m| == 1 {
      assert parents[c].None?;
      assert l == [c] && m == [c];
    } else {
      LineageUnique(parents, l[|l| - 2], l[..|l| - 1], m[..|m| - 1]);
      assert l == l[..|l| - 1] + [c] && m == m[..|m| - 1] + [c];
    }
  }

  /** A shorter lineage would have ended at the repeated class, so none is repeated. */
  lemma {:induction false} LineageDistinct(parents: Parents, c: nat, l: seq<nat>, i: nat, j: nat)
    requires IsLineage(parents, c, l) && i < j < |l|
    ensures l[i] != l[j]
  {
    if l[i] == l[j] {
      assert IsLineage(parents, l[i], l[..i + 1]) && IsLineage(parents, l[i], l[..j + 1]);
      LineageUnique(parents, l[i], l[..i + 1], l[..j + 1]);
    }
  }

  /** The lineage holds exactly the class and its ancestors. */
  lemma {:induction false} LineageIsAncestors(parents: Parents, c: nat, l: seq<nat>, d: nat)
    requires IsLineage(parents, c, l)
    ensures d in l <==> Reaches(ParentGraph(parents), c, d)
    decreases |l|
  {
    var g := ParentGraph(parents);
    ReachesSelf(g, c);
    var n := |l| - 1;
    assert l == l[..n] + [c];
    if n > 0 {
      var p := l[n - 1];
      assert IsLineage(parents, p, l[..n]);
      LineageIsAncestors(parents, p, l[..n], d);
      if Reaches(g, p, d) { ReachesStep(g, c, p, d); }
    }
    if Reaches(g, c, d) { ReachesSplit(g, c, d); }
  }

  /** Every class of a rooted hierarchy has a lineage; on a cycle no class has one. */
  lemma LineageExistsExactly(parents: Parents, c: nat)
    requires c < |parents|
    ensures (exists l :: IsLineage(parents, c, l)) <==> !ReachesCycle(ParentGraph(parents), c)
  {
    var g := ParentGraph(parents);
    if l :| IsLineage(parents, c, l) {
      if n :| Reaches(g, c, n) && OnCycle(g, n) {
        LineageIsAncestors(parents, c, l, n);
        var i :| 0 <= i < |l| && l[i] == n;
        NoCycleInLineage(parents, c, l, i);
      }
    }
    if !ReachesCycle(g, c) {
      AcyclicAheadIsShort(g, c);
      var l := Climb(parents, [c]);
    }
  }

  lemma NoCycleInLineage(parents: Parents, c: nat, l: seq<nat>, i: nat)
    requires IsLineage(parents, c, l) && i < |l|
    ensures !OnCycle(ParentGraph(parents), l[i])
  {
    var g := ParentGraph(parents);
    if p :| IsPathBetween(g, p, l[i], l[i]) && |p| > 1 {
      assert p[1] in g[l[i]] && i > 0 && p[1] == l[i - 1];
      assert IsPathBetween(g, p[1..], l[i - 1], l[i]);
      assert IsLineage(parents, l[i - 1], l[..i]);
      LineageIsAncestors(parents, l[i - 1], l[..i], l[i]);
      var j :| 0 <= j < i && l[..i][j] == l[i];
      LineageDistinct(parents, c, l, j, i);
    }
  }

  /** Extends a lineage upward to a class without superclass. */
  lemma {:induction false} Climb(parents: Parents, p: seq<nat>) returns (l: seq<nat>)
    requires IsPath(ParentGraph(parents), p) && ShortPaths(ParentGraph(parents), p[0], |parents|)
    ensures IsLineage(parents, p[0], l)
    decreases |parents| - |p|
  {
    var g := ParentGraph(parents);
    var top := p[|p| - 1];
    if parents[top].None? {
      l := Reversed(p);
      forall i | 0 < i < |l|
        ensures parents[l[i]] == Some(l[i - 1])
      {
        assert p[|p| - i] in g[p[|p| - 1 - i]];
      }
    } else {
      assert IsPath(g, p + [parents[top].value]);
      l := Climb(parents, p + [parents[top].value]);
    }
  }

  // ---------------------------------------------------------------- the lineage as a function

  ghost function LineageOf(parents: Parents, c: nat): (l: seq<nat>)
    requires Rooted(parents) && c < |parents|
    ensures IsLineage(parents, c, l)
  {
    RootedHasNoCycle(parents, c);
    LineageExistsExactly(parents, c);
    var l :| IsLineage(parents, c, l);
    l
  }

  lemma RootedHasNoCycle(parents: Parents, c: nat)
    requires Rooted(parents)
    ensures !ReachesCycle(ParentGraph(parents), c)
  {
  }

  lemma LineageOfStep(parents: Parents, c: nat)
    requires Rooted(parents) && c < |parents|
    ensures parents[c].None? ==> LineageOf(parents, c) == [c]
    ensures parents[c].Some? ==> LineageOf(parents, c) == LineageOf(parents, parents[c].value) + [c]
  {
    if parents[c].None? {
      LineageUnique(parents, c, LineageOf(parents, c), [c]);
    } else {
      assert IsLineage(parents, c, LineageOf(parents, parents[c].value) + [c]);
      LineageUnique(parents, c, LineageOf(parents, c), LineageOf(parents, parents[c].value) + [c]);
    }
  }
}
