/** The checker's hierarchy validation: an iterative three-colour depth-first search. */
module Hierarchy {
  import opened Wrappers
  import opened ClassGraph

  datatype Visit = Unvisited | Visiting | Complete

  datatype HierarchyTraversal = HierarchyTraversal(nodesStarted: nat, edgesExamined: nat)

  datatype Entry = Entry(node: nat, nextEdge: nat)

  // ---------------------------------------------------------------- counting

  function Sum(s: seq<nat>): nat {
    if s == [] then 0 else s[0] + Sum(s[1..])
  }

  lemma {:induction false} SumUpdate(s: seq<nat>, i: nat, v: nat)
    requires i < |s|
    ensures Sum(s[i := v]) == Sum(s) - s[i] + v
  {
    if i > 0 {
      assert s[i := v][1..] == s[1..][i - 1 := v];
      SumUpdate(s[1..], i - 1, v);
    } else {
      assert s[i := v][1..] == s[1..];
    }
  }

  lemma {:induction false} SumZeros(s: seq<nat>)
    requires forall i :: 0 <= i < |s| ==> s[i] == 0
    ensures Sum(s) == 0
  {
    if s != [] { SumZeros(s[1..]); }
  }

  lemma {:induction false} SumAtMost(s: seq<nat>, t: seq<nat>)
    requires |s| == |t| && forall i :: 0 <= i < |s| ==> s[i] <= t[i]
    ensures Sum(s) <= Sum(t)
  {
    if s != [] { SumAtMost(s[1..], t[1..]); }
  }

  /** The out-degree of every node. */
  function Degrees(g: Graph): (d: seq<nat>)
    ensures |d| == |g| && forall n :: 0 <= n < |g| ==> d[n] == |g[n]|
  {
    seq(|g|, n requires 0 <= n < |g| => |g[n]|)
  }

  /** The number of edges of the graph. */
  function EdgeCount(g: Graph): nat {
    Sum(Degrees(g))
  }

  // ---------------------------------------------------------------- search state

  /** Where the search stands: colours, the stack of partly examined nodes, how many edges of each
      node were examined, and the nodes in the order they completed. */
  datatype Progress = Progress(visits: seq<Visit>, stack: seq<Entry>, examined: seq<nat>, finished: seq<nat>)

  function Started(visits: seq<Visit>): (s: seq<nat>)
    ensures |s| == |visits|
    ensures forall n :: 0 <= n < |s| ==> s[n] == if visits[n].Unvisited? then 0 else 1
  {
    seq(|visits|, n requires 0 <= n < |visits| => if visits[n].Unvisited? then 0 else 1)
  }

  ghost predicate Shaped(g: Graph, s: Progress) {
    && |s.visits| == |s.examined| == |g|
    && (forall i :: 0 <= i < |s.stack| ==> s.stack[i].node < |g| && s.stack[i].nextEdge <= |g[s.stack[i].node]|)
    && (forall i :: 0 <= i < |s.finished| ==> s.finished[i] < |g|)
  }

  function StackNodes(stack: seq<Entry>): (p: seq<nat>)
    ensures |p| == |stack| && forall i :: 0 <= i < |p| ==> p[i] == stack[i].node
  {
    seq(|stack|, i requires 0 <= i < |stack| => stack[i].node)
  }

  /** A node is Visiting exactly when it is among the duplicate-free `active` nodes. */
  ghost predicate ActiveAreVisiting(visits: seq<Visit>, active: seq<nat>) {
    && (forall i, j :: 0 <= i < j < |active| ==> active[i] != active[j])
    && (forall i :: 0 <= i < |active| ==> active[i] < |visits| && visits[active[i]].Visiting?)
    && (forall n :: 0 <= n < |visits| && visits[n].Visiting? ==> n in active)
  }

  ghost predicate StackIsVisiting(g: Graph, s: Progress)
    requires Shaped(g, s)
  {
    ActiveAreVisiting(s.visits, StackNodes(s.stack))
  }

  /** The edge last taken from `below` led to `above`. */
  ghost predicate Followed(g: Graph, below: Entry, above: Entry)
    requires below.node < |g| && below.nextEdge <= |g[below.node]|
  {
    below.nextEdge > 0 && g[below.node][below.nextEdge - 1] == above.node
  }

  /** The stack is a path of the graph: each entry was pushed by the edge last taken below it. */
  ghost predicate StackIsPath(g: Graph, s: Progress)
    requires Shaped(g, s)
  {
    forall i, j :: 0 <= i && j == i + 1 && j < |s.stack| ==> Followed(g, s.stack[i], s.stack[j])
  }

  ghost predicate ExaminedCounts(g: Graph, s: Progress)
    requires Shaped(g, s)
  {
    && (forall n :: 0 <= n < |g| && s.visits[n].Unvisited? ==> s.examined[n] == 0)
    && (forall n :: 0 <= n < |g| && s.visits[n].Complete? ==> s.examined[n] == |g[n]|)
    && (forall i :: 0 <= i < |s.stack| ==> s.examined[s.stack[i].node] == s.stack[i].nextEdge)
  }

  /** Complete nodes are exactly the finished ones, and every successor of a finished node finished
      before it: the completion order is a topological order. */
  ghost predicate FinishedInOrder(g: Graph, s: Progress)
    requires Shaped(g, s)
  {
    && (forall n :: 0 <= n < |g| && s.visits[n].Complete? ==> n in s.finished)
    && (forall i :: 0 <= i < |s.finished| ==> s.visits[s.finished[i]].Complete?)
    && (forall i, j :: 0 <= i < j < |s.finished| ==> s.finished[i] != s.finished[j])
    && (forall i, m :: 0 <= i < |s.finished| && m in g[s.finished[i]] ==> m in s.finished[..i])
  }

  /** The `k`-th edge of the `i`-th stack entry leads to a complete node, or is the edge being
      followed, which leads to the entry above. */
  ghost predicate EdgeSettled(g: Graph, s: Progress, i: nat, k: nat)
    requires Shaped(g, s) && i < |s.stack| && k < s.stack[i].nextEdge
  {
    || s.visits[g[s.stack[i].node][k]].Complete?
    || (i + 1 < |s.stack| && k == s.stack[i].nextEdge - 1)
  }

  ghost predicate ExaminedAreComplete(g: Graph, s: Progress)
    requires Shaped(g, s)
  {
    forall i, k :: 0 <= i < |s.stack| && 0 <= k < s.stack[i].nextEdge ==> EdgeSettled(g, s, i, k)
  }

  ghost predicate Inv(g: Graph, s: Progress) {
    && Shaped(g, s)
    && StackIsVisiting(g, s)
    && StackIsPath(g, s)
    && ExaminedCounts(g, s)
    && FinishedInOrder(g, s)
    && ExaminedAreComplete(g, s)
  }

  // ---------------------------------------------------------------- the three moves of the search

  function Push(s: Progress, n: nat): Progress
    requires n < |s.visits|
  {
    s.(visits := s.visits[n := Visiting], stack := s.stack + [Entry(n, 0)])
  }

  function TakeEdge(s: Progress): Progress
    requires s.stack != [] && s.stack[|s.stack| - 1].node < |s.examined|
  {
    var top := s.stack[|s.stack| - 1];
    s.(stack := s.stack[|s.stack| - 1 := Entry(top.node, top.nextEdge + 1)],
       examined := s.examined[top.node := top.nextEdge + 1])
  }

  function Finish(s: Progress): Progress
    requires s.stack != [] && s.stack[|s.stack| - 1].node < |s.visits|
  {
    var top := s.stack[|s.stack| - 1];
    s.(visits := s.visits[top.node := Complete], stack := s.stack[..|s.stack| - 1], finished := s.finished + [top.node])
  }

  ghost function Top(s: Progress): Entry
    requires s.stack != []
  {
    s.stack[|s.stack| - 1]
  }

  /** A fresh node may be pushed on an empty stack, or along the edge just taken. */
  ghost predicate MayPush(g: Graph, s: Progress, n: nat)
    requires Shaped(g, s)
  {
    n < |g| && s.visits[n].Unvisited? && (s.stack != [] ==> Followed(g, Top(s), Entry(n, 0)))
  }

  lemma InvStack(g: Graph, s: Progress)
    requires Inv(g, s)
    ensures Shaped(g, s) && StackIsVisiting(g, s) && StackIsPath(g, s)
  {
  }

  lemma PushKeepsStack(g: Graph, s: Progress, n: nat)
    requires Shaped(g, s) && StackIsVisiting(g, s) && MayPush(g, s, n)
    ensures Shaped(g, Push(s, n)) && StackIsVisiting(g, Push(s, n))
  {
    ActiveGrows(s.visits, StackNodes(s.stack), n);
    assert StackNodes(Push(s, n).stack) == StackNodes(s.stack) + [n];
  }

  lemma ActiveGrows(visits: seq<Visit>, active: seq<nat>, n: nat)
    requires ActiveAreVisiting(visits, active) && n < |visits| && visits[n].Unvisited?
    ensures ActiveAreVisiting(visits[n := Visiting], active + [n])
  {
  }

  lemma PushKeepsPath(g: Graph, s: Progress, n: nat)
    requires Shaped(g, s) && StackIsPath(g, s) && MayPush(g, s, n)
    ensures Shaped(g, Push(s, n)) && StackIsPath(g, Push(s, n))
  {
  }

  lemma PushKeepsCounts(g: Graph, s: Progress, n: nat)
    requires Shaped(g, s) && ExaminedCounts(g, s) && MayPush(g, s, n)
    ensures Shaped(g, Push(s, n)) && ExaminedCounts(g, Push(s, n))
  {
  }

  lemma PushKeepsOrder(g: Graph, s: Progress, n: nat)
    requires Shaped(g, s) && FinishedInOrder(g, s) && MayPush(g, s, n)
    ensures Shaped(g, Push(s, n)) && FinishedInOrder(g, Push(s, n))
  {
  }

  lemma PushSettles(g: Graph, s: Progress, n: nat)
    requires Shaped(g, s) && MayPush(g, s, n)
    requires forall i, k :: 0 <= i < |s.stack| && 0 <= k < s.stack[i].nextEdge ==>
               EdgeSettled(g, s, i, k) || (i == |s.stack| - 1 && k == s.stack[i].nextEdge - 1)
    ensures Shaped(g, Push(s, n)) && ExaminedAreComplete(g, Push(s, n))
  {
    var t := Push(s, n);
    forall i, k | 0 <= i < |t.stack| && 0 <= k < t.stack[i].nextEdge
      ensures EdgeSettled(g, t, i, k)
    {
      assert t.stack[i] == s.stack[i];
      assert EdgeSettled(g, s, i, k) || (i == |s.stack| - 1 && k == s.stack[i].nextEdge - 1);
    }
  }

  lemma FinishKeepsStack(g: Graph, s: Progress)
    requires Shaped(g, s) && StackIsVisiting(g, s) && StackIsPath(g, s) && s.stack != []
    ensures Shaped(g, Finish(s)) && StackIsVisiting(g, Finish(s)) && StackIsPath(g, Finish(s))
  {
    var active := StackNodes(s.stack);
    assert active == active[..|active| - 1] + [Top(s).node];
    assert StackNodes(Finish(s).stack) == active[..|active| - 1];
  }

  lemma FinishKeepsCounts(g: Graph, s: Progress)
    requires Shaped(g, s) && ExaminedCounts(g, s) && s.stack != [] && Top(s).nextEdge == |g[Top(s).node]|
    ensures Shaped(g, Finish(s)) && ExaminedCounts(g, Finish(s))
  {
  }

  lemma FinishKeepsOrder(g: Graph, s: Progress)
    requires Inv(g, s) && s.stack != [] && Top(s).nextEdge == |g[Top(s).node]|
    ensures Shaped(g, Finish(s)) && FinishedInOrder(g, Finish(s))
  {
    var t := Finish(s);
    var n := Top(s).node;
    assert t.finished[|s.finished|] == n;
    forall m | m in g[n]
      ensures m in s.finished
    {
      var k :| 0 <= k < |g[n]| && g[n][k] == m;
      assert EdgeSettled(g, s, |s.stack| - 1, k);
    }
    forall i, m | 0 <= i < |t.finished| && m in g[t.finished[i]]
      ensures m in t.finished[..i]
    {
      if i < |s.finished| {
        assert m in s.finished[..i];
        assert t.finished[..i] == s.finished[..i];
      } else {
        assert t.finished[..i] == s.finished;
      }
    }
  }

  lemma FinishSettles(g: Graph, s: Progress)
    requires Inv(g, s) && s.stack != []
    ensures Shaped(g, Finish(s)) && ExaminedAreComplete(g, Finish(s))
  {
    var t := Finish(s);
    forall i, k | 0 <= i < |t.stack| && 0 <= k < t.stack[i].nextEdge
      ensures EdgeSettled(g, t, i, k)
    {
      assert EdgeSettled(g, s, i, k) && t.stack[i] == s.stack[i];
      if i == |t.stack| - 1 && k == t.stack[i].nextEdge - 1 {
        assert Followed(g, s.stack[i], s.stack[|s.stack| - 1]);
        assert g[t.stack[i].node][k] == Top(s).node;
        assert t.visits[Top(s).node].Complete?;
      }
    }
  }

  lemma PushRoot(g: Graph, s: Progress, n: nat)
    requires Inv(g, s) && s.stack == [] && n < |g| && s.visits[n].Unvisited?
    ensures Inv(g, Push(s, n))
  {
    PushKeepsStack(g, s, n);
    PushKeepsPath(g, s, n);
    PushKeepsCounts(g, s, n);
    PushKeepsOrder(g, s, n);
    PushSettles(g, s, n);
  }

  lemma FinishTop(g: Graph, s: Progress)
    requires Inv(g, s) && s.stack != [] && Top(s).nextEdge == |g[Top(s).node]|
    ensures Inv(g, Finish(s))
  {
    FinishKeepsStack(g, s);
    FinishKeepsCounts(g, s);
    FinishKeepsOrder(g, s);
    FinishSettles(g, s);
  }

  lemma TakeEdgeKeepsStack(g: Graph, s: Progress)
    requires Shaped(g, s) && StackIsVisiting(g, s) && s.stack != [] && Top(s).nextEdge < |g[Top(s).node]|
    ensures Shaped(g, TakeEdge(s)) && StackIsVisiting(g, TakeEdge(s))
  {
    assert StackNodes(TakeEdge(s).stack) == StackNodes(s.stack);
  }

  lemma TakeEdgeKeepsPath(g: Graph, s: Progress)
    requires Shaped(g, s) && StackIsPath(g, s) && s.stack != [] && Top(s).nextEdge < |g[Top(s).node]|
    ensures Shaped(g, TakeEdge(s)) && StackIsPath(g, TakeEdge(s))
  {
    var t := TakeEdge(s);
    forall i, j | 0 <= i && j == i + 1 && j < |t.stack|
      ensures Followed(g, t.stack[i], t.stack[j])
    {
      assert Followed(g, s.stack[i], s.stack[j]);
    }
  }

  lemma TakeEdgeKeepsCounts(g: Graph, s: Progress)
    requires Shaped(g, s) && StackIsVisiting(g, s) && ExaminedCounts(g, s)
    requires s.stack != [] && Top(s).nextEdge < |g[Top(s).node]|
    ensures Shaped(g, TakeEdge(s)) && ExaminedCounts(g, TakeEdge(s))
  {
  }

  /** Examining the next edge of the top entry keeps everything but the claim about that edge. */
  lemma TakeEdgeKeeps(g: Graph, s: Progress)
    requires Inv(g, s) && s.stack != [] && Top(s).nextEdge < |g[Top(s).node]|
    ensures var t := TakeEdge(s);
            && Shaped(g, t) && StackIsVisiting(g, t) && StackIsPath(g, t) && FinishedInOrder(g, t)
            && ExaminedCounts(g, t)
  {
    TakeEdgeKeepsStack(g, s);
    TakeEdgeKeepsPath(g, s);
    TakeEdgeKeepsCounts(g, s);
  }

  lemma TakeEdgeSettles(g: Graph, s: Progress, i: nat, k: nat)
    requires Inv(g, s) && s.stack != [] && Top(s).nextEdge < |g[Top(s).node]|
    requires i < |s.stack| && k < TakeEdge(s).stack[i].nextEdge && Shaped(g, TakeEdge(s))
    ensures EdgeSettled(g, TakeEdge(s), i, k) || (i == |s.stack| - 1 && k == Top(s).nextEdge)
  {
    if !(i == |s.stack| - 1 && k == Top(s).nextEdge) {
      assert EdgeSettled(g, s, i, k);
    }
  }

  lemma FollowEdge(g: Graph, s: Progress)
    requires Inv(g, s) && s.stack != [] && Top(s).nextEdge < |g[Top(s).node]|
    ensures var target := g[Top(s).node][Top(s).nextEdge];
            && (s.visits[target].Complete? ==> Inv(g, TakeEdge(s)))
            && (s.visits[target].Unvisited? ==> Inv(g, Push(TakeEdge(s), target)))
  {
    var target := g[Top(s).node][Top(s).nextEdge];
    var t := TakeEdge(s);
    TakeEdgeKeeps(g, s);
    forall i, k | 0 <= i < |t.stack| && 0 <= k < t.stack[i].nextEdge
      ensures EdgeSettled(g, t, i, k) || (i == |t.stack| - 1 && k == t.stack[i].nextEdge - 1)
      ensures s.visits[target].Complete? ==> EdgeSettled(g, t, i, k)
    {
      TakeEdgeSettles(g, s, i, k);
    }
    if s.visits[target].Unvisited? {
      PushKeepsStack(g, t, target);
      PushKeepsPath(g, t, target);
      PushKeepsCounts(g, t, target);
      PushKeepsOrder(g, t, target);
      PushSettles(g, t, target);
    }
  }

  // ---------------------------------------------------------------- work done

  /** The search state is consistent and the two counters agree with it. */
  ghost predicate Accounted(g: Graph, s: Progress, nodesStarted: nat, edgesExamined: nat) {
    && Shaped(g, s)
    && Inv(g, s)
    && nodesStarted == Sum(Started(s.visits))
    && edgesExamined == Sum(s.examined)
  }

  lemma PushStarts(s: Progress, n: nat)
    requires n < |s.visits| && s.visits[n].Unvisited?
    ensures Sum(Started(Push(s, n).visits)) == Sum(Started(s.visits)) + 1
  {
    SumUpdate(Started(s.visits), n, 1);
    assert Started(Push(s, n).visits) == Started(s.visits)[n := 1];
  }

  lemma AccountedInit(g: Graph)
    ensures Accounted(g, Progress(seq(|g|, _ => Unvisited), [], seq(|g|, _ => 0), []), 0, 0)
  {
    SumZeros(Started(seq(|g|, _ => Unvisited)));
    SumZeros(seq(|g|, _ => 0));
  }

  lemma AccountedRoot(g: Graph, s: Progress, nodes: nat, edges: nat, n: nat)
    requires Accounted(g, s, nodes, edges) && s.stack == [] && n < |g| && s.visits[n].Unvisited?
    ensures Accounted(g, Push(s, n), nodes + 1, edges)
  {
    PushRoot(g, s, n);
    PushStarts(s, n);
  }

  lemma AccountedFinish(g: Graph, s: Progress, nodes: nat, edges: nat)
    requires Accounted(g, s, nodes, edges) && s.stack != [] && Top(s).nextEdge == |g[Top(s).node]|
    ensures Accounted(g, Finish(s), nodes, edges)
  {
    FinishTop(g, s);
    assert Started(Finish(s).visits) == Started(s.visits);
  }

  lemma AccountedFollow(g: Graph, s: Progress, nodes: nat, edges: nat)
    requires Accounted(g, s, nodes, edges) && s.stack != [] && Top(s).nextEdge < |g[Top(s).node]|
    ensures var target := g[Top(s).node][Top(s).nextEdge];
            && edges < EdgeCount(g)
            && (s.visits[target].Complete? ==> Accounted(g, TakeEdge(s), nodes, edges + 1))
            && (s.visits[target].Unvisited? ==> Accounted(g, Push(TakeEdge(s), target), nodes + 1, edges + 1))
  {
    var target := g[Top(s).node][Top(s).nextEdge];
    FollowEdge(g, s);
    TakeEdgeKeeps(g, s);
    SumUpdate(s.examined, Top(s).node, Top(s).nextEdge + 1);
    ExaminedBounded(g, TakeEdge(s));
    if s.visits[target].Unvisited? {
      PushStarts(TakeEdge(s), target);
    }
  }

  /** With an empty stack nothing is half done. */
  lemma EmptyStackSettles(g: Graph, s: Progress)
    requires Inv(g, s) && s.stack == []
    ensures forall n :: 0 <= n < |g| ==> s.visits[n].Unvisited? || s.visits[n].Complete?
  {
  }

  lemma ExaminedBounded(g: Graph, s: Progress)
    requires Shaped(g, s) && StackIsVisiting(g, s) && ExaminedCounts(g, s)
    ensures Sum(s.examined) <= EdgeCount(g)
  {
    forall n | 0 <= n < |g|
      ensures s.examined[n] <= Degrees(g)[n]
    {
      if s.visits[n].Visiting? {
        var i :| 0 <= i < |s.stack| && StackNodes(s.stack)[i] == n;
        assert s.examined[s.stack[i].node] == s.stack[i].nextEdge;
      }
    }
    SumAtMost(s.examined, Degrees(g));
  }

  // ---------------------------------------------------------------- what the two results mean

  lemma StackFromIsPath(g: Graph, s: Progress, i: nat)
    requires Shaped(g, s) && StackIsPath(g, s) && i < |s.stack|
    ensures IsPath(g, StackNodes(s.stack)[i..])
  {
    var p := StackNodes(s.stack)[i..];
    forall k | 0 < k < |p|
      ensures p[k] in g[p[k - 1]]
    {
      assert Followed(g, s.stack[i + k - 1], s.stack[i + k]);
    }
  }

  lemma StackCloses(g: Graph, s: Progress, i: nat)
    requires Shaped(g, s) && StackIsPath(g, s) && i < |s.stack|
    requires s.stack[i].node in g[Top(s).node]
    ensures OnCycle(g, s.stack[i].node)
  {
    StackFromIsPath(g, s, i);
    var target := s.stack[i].node;
    var p := StackNodes(s.stack)[i..] + [target];
    assert p[|p| - 2] == Top(s).node && p[0] == target;
    assert IsPathBetween(g, p, target, target);
  }

  /** An edge from the top of the stack to a Visiting node closes a cycle through that node. */
  lemma VisitingTargetOnCycle(g: Graph, s: Progress)
    requires Shaped(g, s) && StackIsVisiting(g, s) && StackIsPath(g, s)
    requires s.stack != [] && Top(s).nextEdge < |g[Top(s).node]|
    requires s.visits[g[Top(s).node][Top(s).nextEdge]].Visiting?
    ensures OnCycle(g, g[Top(s).node][Top(s).nextEdge])
  {
    hide StackIsPath, OnCycle;
    var target := g[Top(s).node][Top(s).nextEdge];
    assert target in StackNodes(s.stack);
    var i :| 0 <= i < |s.stack| && StackNodes(s.stack)[i] == target;
    StackCloses(g, s, i);
  }

  /** Along a path of finished nodes the completion index strictly falls. */
  lemma {:induction false} FinishedPathDescends(g: Graph, finished: seq<nat>, p: seq<nat>, i: nat)
    requires forall k, m :: 0 <= k < |finished| && finished[k] < |g| && m in g[finished[k]] ==> m in finished[..k]
    requires IsPath(g, p) && |p| > 1 && i < |finished| && finished[i] == p[0]
    ensures exists j :: 0 <= j < i && finished[j] == p[|p| - 1]
    decreases |p|
  {
    assert p[1] in finished[..i];
    var j :| 0 <= j < i && finished[j] == p[1];
    if |p| > 2 {
      FinishedPathDescends(g, finished, p[1..], j);
    }
  }

  lemma AllFinishedIsAcyclic(g: Graph, s: Progress)
    requires Inv(g, s) && forall n :: 0 <= n < |g| ==> s.visits[n].Complete?
    ensures Acyclic(g)
  {
    forall a: nat
      ensures !OnCycle(g, a)
    {
      if OnCycle(g, a) {
        var p :| IsPathBetween(g, p, a, a) && |p| > 1;
        assert a in s.finished;
        var i :| 0 <= i < |s.finished| && s.finished[i] == a;
        FinishedPathDescends(g, s.finished, p, i);
        assert false;
      }
    }
  }

  // ---------------------------------------------------------------- the imperative search

  class HierarchyGraph {
    var edges: seq<seq<nat>>

    constructor (nodeCount: nat)
      ensures |edges| == nodeCount && forall n :: 0 <= n < nodeCount ==> edges[n] == []
    {
      edges := seq(nodeCount, _ => []);
    }

    method AddEdges(node: nat, targets: seq<nat>)
      requires node < |edges|
      modifies this
      ensures edges == old(edges)[node := targets]
    {
      edges := edges[node := targets];
    }

    /** Ok exactly on an acyclic graph, having started every node and examined every edge once;
        an error names a class that lies on a cycle. */
    method ValidateAcyclic() returns (result: Result<HierarchyTraversal, nat>)
      requires Closed(edges)
      ensures result.Ok? <==> Acyclic(edges)
      ensures result.Ok? ==> result.value == HierarchyTraversal(|edges|, EdgeCount(edges))
      ensures result.Err? ==> result.error < |edges| && OnCycle(edges, result.error)
    {
      hide Inv;
      var g: Graph := edges;
      var visits := seq(|g|, _ => Unvisited);
      var stack: seq<Entry> := [];
      var nodesStarted, edgesExamined := 0, 0;
      ghost var state := Progress(visits, [], seq(|g|, _ => 0), []);
      AccountedInit(g);
      for root := 0 to |g|
        invariant Accounted(g, state, nodesStarted, edgesExamined)
        invariant state.visits == visits && state.stack == stack == []
        invariant forall n :: 0 <= n < root ==> visits[n].Complete?
      {
        EmptyStackSettles(g, state);
        if visits[root] != Unvisited {
          continue;
        }
        AccountedRoot(g, state, nodesStarted, edgesExamined, root);
        state := Push(state, root);
        visits := visits[root := Visiting];
        nodesStarted := nodesStarted + 1;
        stack := stack + [Entry(root, 0)];
        while stack != []
          invariant Accounted(g, state, nodesStarted, edgesExamined)
          invariant state.visits == visits && state.stack == stack
          invariant forall n :: 0 <= n < root ==> visits[n].Complete?
          invariant !visits[root].Unvisited?
          decreases EdgeCount(g) - edgesExamined, |stack|
        {
          var top := stack[|stack| - 1];
          if top.nextEdge == |g[top.node]| {
            AccountedFinish(g, state, nodesStarted, edgesExamined);
            state := Finish(state);
            visits := visits[top.node := Complete];
            stack := stack[..|stack| - 1];
            continue;
          }
          var target := g[top.node][top.nextEdge];
          AccountedFollow(g, state, nodesStarted, edgesExamined);
          stack := stack[|stack| - 1 := Entry(top.node, top.nextEdge + 1)];
          edgesExamined := edgesExamined + 1;
          match visits[target] {
            case Unvisited =>
              state := Push(TakeEdge(state), target);
              visits := visits[target := Visiting];
              nodesStarted := nodesStarted + 1;
              stack := stack + [Entry(target, 0)];
            case Visiting =>
              InvStack(g, state);
              VisitingTargetOnCycle(g, state);
              return Err(target);
            case Complete =>
              state := TakeEdge(state);
          }
        }
        EmptyStackSettles(g, state);
      }
      AllCompleteCounts(g, state);
      return Ok(HierarchyTraversal(nodesStarted, edgesExamined));
    }
  }

  /** A search that completed every node started each once and examined each edge once. */
  lemma AllCompleteCounts(g: Graph, s: Progress)
    requires Inv(g, s) && forall n :: 0 <= n < |g| ==> s.visits[n].Complete?
    ensures Acyclic(g) && Sum(Started(s.visits)) == |g| && Sum(s.examined) == EdgeCount(g)
  {
    AllFinishedIsAcyclic(g, s);
    AllStarted(Started(s.visits));
    assert s.examined == Degrees(g);
  }

  lemma {:induction false} AllStarted(s: seq<nat>)
    requires forall i :: 0 <= i < |s| ==> s[i] == 1
    ensures Sum(s) == |s|
  {
    if s != [] { AllStarted(s[1..]); }
  }
}
