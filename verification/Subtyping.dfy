/** The checker's relations on types are orders, on every accepted hierarchy. */
module Subtyping {
  import opened Wrappers
  import opened ClassGraph
  import opened Syntax
  import opened Typing
  import opened AcceptedHierarchy

  // ---------------------------------------------------------------- exception classes

  lemma {:induction false} InterfacesReachInterfaces(classes: ClassTable, interfaces: set<nat>, c: nat, p: seq<nat>)
    requires WellFormed(classes, interfaces) && c in interfaces
    requires IsPath(classes.graph, p) && p[0] == c
    ensures p[|p| - 1] in interfaces
    decreases |p|
  {
    if |p| > 1 {
      assert LinkOk(classes, interfaces, c);
      assert p[1] in classes.graph[c];
      InterfacesReachInterfaces(classes, interfaces, p[1], p[1..]);
    }
  }

  /** Marking more classes as seen does no harm when none of them lies above. */
  lemma {:induction false} SeenIrrelevant(classes: ClassTable, interfaces: set<nat>, c: nat, less: set<nat>, more: set<nat>)
    requires WellFormed(classes, interfaces) && less <= more
    requires ExtendsException(classes.parents, c, less)
    requires forall n :: n in more ==> !Reaches(classes.graph, c, n)
    ensures ExtendsException(classes.parents, c, more)
    decreases Below(|classes.parents|) - more
  {
    ReachesSelf(classes.graph, c);
    if p :| classes.parents[c] == ParentClass(p) {
      assert LinkOk(classes, interfaces, c);
      assert p in classes.graph[c];
      forall n | n in more + {c}
        ensures !Reaches(classes.graph, p, n)
      {
        if Reaches(classes.graph, p, n) {
          ReachesStep(classes.graph, c, p, n);
          if n == c { NoWayBack(classes.graph, c, p); }
        }
      }
      assert c in Below(|classes.parents|);
      SeenIrrelevant(classes, interfaces, p, less + {c}, more + {c});
    }
  }

  lemma EdgeAndBack(g: Graph, c: nat, p: nat)
    requires c < |g| && p in g[c] && Reaches(g, p, c)
    ensures OnCycle(g, c)
  {
    var q :| IsPathBetween(g, q, p, c);
    assert IsPathBetween(g, [c] + q, c, c);
  }

  lemma NoWayBack(g: Graph, c: nat, p: nat)
    requires Acyclic(g) && c < |g| && p in g[c]
    ensures !Reaches(g, p, c)
  {
    if Reaches(g, p, c) { EdgeAndBack(g, c, p); }
  }

  /** A class below a custom exception is a custom exception. */
  lemma {:induction false} SubclassIsException(classes: ClassTable, interfaces: set<nat>, c: nat, d: nat, p: seq<nat>)
    requires WellFormed(classes, interfaces) && IsPathBetween(classes.graph, p, c, d)
    requires IsCustomException(classes, d) && d !in interfaces
    ensures IsCustomException(classes, c)
    decreases |p|
  {
    if |p| > 1 {
      var b := p[1];
      assert b in classes.graph[c] && LinkOk(classes, interfaces, c);
      assert IsPathBetween(classes.graph, p[1..], b, d);
      if b in interfaces { InterfacesReachInterfaces(classes, interfaces, b, p[1..]); }
      if c in interfaces { InterfacesReachInterfaces(classes, interfaces, c, p); }
      SubclassIsException(classes, interfaces, b, d, p[1..]);
      NoWayBack(classes.graph, c, b);
      SeenIrrelevant(classes, interfaces, b, {}, {c});
      assert {} + {c} == {c};
    }
  }

  /** Only classes are custom exceptions. */
  lemma {:induction false} ExceptionIsClass(classes: ClassTable, interfaces: set<nat>, c: nat, seen: set<nat>)
    requires WellFormed(classes, interfaces) && ExtendsException(classes.parents, c, seen)
    ensures c !in interfaces
    decreases Below(|classes.parents|) - seen
  {
    assert LinkOk(classes, interfaces, c);
    if p :| classes.parents[c] == ParentClass(p) {
      assert c in Below(|classes.parents|);
      ExceptionIsClass(classes, interfaces, p, seen + {c});
    }
  }

  lemma InheritsException(classes: ClassTable, interfaces: set<nat>, c: nat, d: nat)
    requires WellFormed(classes, interfaces) && Inherits(classes.graph, c, d) && IsCustomException(classes, d)
    ensures IsCustomException(classes, c)
  {
    InheritsIsReaches(classes.graph, c, d);
    var p :| IsPathBetween(classes.graph, p, c, d);
    ExceptionIsClass(classes, interfaces, d, {});
    SubclassIsException(classes, interfaces, c, d, p);
  }

  // ---------------------------------------------------------------- the subtype order

  lemma SubtypeReflexive(classes: ClassTable, a: Type)
    ensures IsSubtype(classes, a, a)
  {
  }

  lemma SubtypeTransitive(classes: ClassTable, interfaces: set<nat>, a: Type, b: Type, c: Type)
    requires WellFormed(classes, interfaces)
    requires IsSubtype(classes, a, b) && IsSubtype(classes, b, c)
    ensures IsSubtype(classes, a, c)
  {
    if a.TCustom? && b.TCustom? && a != b {
      if c.TException? && b != c {
        InheritsException(classes, interfaces, a.classId, b.classId);
      } else if c.TCustom? && b != c {
        InheritsIsReaches(classes.graph, a.classId, b.classId);
        InheritsIsReaches(classes.graph, b.classId, c.classId);
        ReachesTransitive(classes.graph, a.classId, b.classId, c.classId);
        InheritsIsReaches(classes.graph, a.classId, c.classId);
      }
    }
  }

  lemma SubtypeAntisymmetric(classes: ClassTable, a: Type, b: Type)
    requires Acyclic(classes.graph)
    requires IsSubtype(classes, a, b) && IsSubtype(classes, b, a)
    ensures a == b
  {
    if a.TCustom? && b.TCustom? && a != b {
      InheritsIsReaches(classes.graph, a.classId, b.classId);
      InheritsIsReaches(classes.graph, b.classId, a.classId);
      ReachesAntisymmetric(classes.graph, a.classId, b.classId);
    }
  }

  // ---------------------------------------------------------------- joins

  ghost predicate UpperBound(classes: ClassTable, left: Type, right: Type, u: Type) {
    IsSubtype(classes, left, u) && IsSubtype(classes, right, u)
  }

  /** The join of two values is an upper bound of both. */
  lemma JoinIsUpperBound(classes: ClassTable, left: ExprType, right: ExprType, ty: ExprType)
    requires Join(classes, left, right) == Ok(ty)
    ensures !ty.EVoid?
    ensures ty.EValue? ==> IsAssignable(classes, ty.ty, left) && IsAssignable(classes, ty.ty, right)
    ensures ty.ENull? <==> left.ENull? && right.ENull?
  {
  }

  /** Both types are exceptions, or both are declared types below a common one. */
  predicate HaveCommonSupertype(classes: ClassTable, left: Type, right: Type) {
    || (IsExceptionType(classes, left) && IsExceptionType(classes, right))
    || (left.TCustom? && right.TCustom? && exists c: nat ::
          c < |classes.graph| && Inherits(classes.graph, left.classId, c) && Inherits(classes.graph, right.classId, c))
  }

  /** It is the least one exactly when one type is below the other or no exception type, class or
      interface is above both: the search for a common supertype that the join does not make. */
  lemma JoinIsLeastExactly(classes: ClassTable, interfaces: set<nat>, left: Type, right: Type)
    requires WellFormed(classes, interfaces)
    ensures var join := Join(classes, EValue(left), EValue(right));
            join.Ok? && join.value.EValue? &&
            ((forall u :: UpperBound(classes, left, right, u) ==> IsSubtype(classes, join.value.ty, u)) <==>
               || IsSubtype(classes, left, right) || IsSubtype(classes, right, left)
               || !HaveCommonSupertype(classes, left, right))
  {
    var join := Join(classes, EValue(left), EValue(right)).value.ty;
    if !IsSubtype(classes, left, right) && !IsSubtype(classes, right, left) {
      OnlyObjectExactly(classes, interfaces, left, right);
      if u :| UpperBound(classes, left, right, u) && u != TObject {
        assert !IsSubtype(classes, TObject, u);
      }
    } else {
      assert IsSubtype(classes, join, join);
    }
  }

  /** Incomparable types have an upper bound other than `Object` exactly if they have such a supertype. */
  lemma OnlyObjectExactly(classes: ClassTable, interfaces: set<nat>, left: Type, right: Type)
    requires WellFormed(classes, interfaces)
    requires !IsSubtype(classes, left, right) && !IsSubtype(classes, right, left)
    ensures (exists u :: UpperBound(classes, left, right, u) && u != TObject) <==> HaveCommonSupertype(classes, left, right)
  {
    hide WellFormed;
    if u :| UpperBound(classes, left, right, u) && u != TObject {
      if u.TCustom? { InheritsIsReaches(classes.graph, left.classId, u.classId); }
      assert HaveCommonSupertype(classes, left, right);
    }
    if IsExceptionType(classes, left) && IsExceptionType(classes, right) {
      assert UpperBound(classes, left, right, TException);
    } else if HaveCommonSupertype(classes, left, right) {
      var c: nat :| c < |classes.graph| && Inherits(classes.graph, left.classId, c) && Inherits(classes.graph, right.classId, c);
      assert UpperBound(classes, left, right, TCustom(c));
    }
  }

  /** Two built-in exceptions join to `Object` although `Exception` is above both. */
  lemma JoinSkipsException(classes: ClassTable, a: ExceptionKind, b: ExceptionKind)
    requires a != b
    ensures Join(classes, EValue(TBuiltin(a)), EValue(TBuiltin(b))) == Ok(EValue(TObject))
    ensures UpperBound(classes, TBuiltin(a), TBuiltin(b), TException) && !IsSubtype(classes, TObject, TException)
  {
  }

  // ---------------------------------------------------------------- overload specificity

  lemma MoreSpecificIrreflexive(classes: ClassTable, a: seq<Type>)
    ensures !MoreSpecific(classes, a, a)
  {
  }

  lemma MoreSpecificTransitive(classes: ClassTable, interfaces: set<nat>, a: seq<Type>, b: seq<Type>, c: seq<Type>)
    requires WellFormed(classes, interfaces) && |a| == |b| == |c|
    requires MoreSpecific(classes, a, b) && MoreSpecific(classes, b, c)
    ensures MoreSpecific(classes, a, c)
  {
    hide IsSubtype;
    forall i | 0 <= i < |a|
      ensures a[i] == c[i] || IsSubtype(classes, a[i], c[i])
    {
      if a[i] != b[i] && b[i] != c[i] {
        SubtypeTransitive(classes, interfaces, a[i], b[i], c[i]);
      }
    }
    var i :| 0 <= i < |a| && a[i] != b[i];
    if a[i] == c[i] {
      SubtypeAntisymmetric(classes, a[i], b[i]);
    }
  }

  lemma MoreSpecificAsymmetric(classes: ClassTable, interfaces: set<nat>, a: seq<Type>, b: seq<Type>)
    requires WellFormed(classes, interfaces) && |a| == |b| && MoreSpecific(classes, a, b)
    ensures !MoreSpecific(classes, b, a)
  {
    if MoreSpecific(classes, b, a) {
      MoreSpecificTransitive(classes, interfaces, a, b, a);
      MoreSpecificIrreflexive(classes, a);
    }
  }

  ghost predicate SameLength(candidates: seq<seq<Type>>) {
    forall i, j :: 0 <= i < |candidates| && 0 <= j < |candidates| ==> |candidates[i]| == |candidates[j]|
  }

  /** The candidates more specific than candidate `j`. */
  ghost function Dominators(classes: ClassTable, candidates: seq<seq<Type>>, j: nat): set<nat>
    requires j < |candidates|
  {
    set i: nat | i < |candidates| && MoreSpecific(classes, candidates[i], candidates[j])
  }

  lemma SmallerSet(a: set<nat>, b: set<nat>)
    requires a < b
    ensures |a| < |b|
    decreases b
  {
    var x :| x in b && x !in a;
    SubsetAtMost(a, b - {x});
  }

  lemma {:induction false} SubsetAtMost(a: set<nat>, b: set<nat>)
    requires a <= b
    ensures |a| <= |b|
    decreases a
  {
    if a != {} {
      var x :| x in a;
      SubsetAtMost(a - {x}, b - {x});
    }
  }

  /** Every candidate is undominated or has an undominated one below it. */
  lemma {:induction false} SomeMinimum(classes: ClassTable, interfaces: set<nat>, candidates: seq<seq<Type>>, j: nat) returns (m: nat)
    requires WellFormed(classes, interfaces) && SameLength(candidates) && j < |candidates|
    ensures m < |candidates| && Undominated(classes, candidates, m)
    ensures m == j || MoreSpecific(classes, candidates[m], candidates[j])
    decreases |Dominators(classes, candidates, j)|
  {
    if Undominated(classes, candidates, j) {
      m := j;
    } else {
      var k: nat :| k < |candidates| && k != j && MoreSpecific(classes, candidates[k], candidates[j]);
      forall i | i in Dominators(classes, candidates, k)
        ensures i in Dominators(classes, candidates, j)
      {
        MoreSpecificTransitive(classes, interfaces, candidates[i], candidates[k], candidates[j]);
      }
      MoreSpecificIrreflexive(classes, candidates[k]);
      assert k in Dominators(classes, candidates, j) && k !in Dominators(classes, candidates, k);
      SmallerSet(Dominators(classes, candidates, k), Dominators(classes, candidates, j));
      m := SomeMinimum(classes, interfaces, candidates, k);
      if m != k {
        MoreSpecificTransitive(classes, interfaces, candidates[m], candidates[k], candidates[j]);
      }
    }
  }

  ghost predicate MostSpecific(classes: ClassTable, candidates: seq<seq<Type>>, b: nat) {
    b < |candidates| && forall j :: 0 <= j < |candidates| && j != b ==> MoreSpecific(classes, candidates[b], candidates[j])
  }

  /** The selection succeeds exactly when one candidate is more specific than all others, and selects
      that one. */
  lemma SelectsMostSpecificExactly(classes: ClassTable, interfaces: set<nat>, candidates: seq<seq<Type>>, b: nat)
    requires WellFormed(classes, interfaces) && SameLength(candidates)
    ensures UniqueMostSpecific(classes, candidates) == Some(b) <==> MostSpecific(classes, candidates, b)
  {
    hide MoreSpecific;
    var undominated := UndominatedFrom(classes, candidates, 0);
    if UniqueMostSpecific(classes, candidates) == Some(b) {
      forall j | 0 <= j < |candidates| && j != b
        ensures MoreSpecific(classes, candidates[b], candidates[j])
      {
        var m := SomeMinimum(classes, interfaces, candidates, j);
        assert m in undominated && undominated == [b];
      }
    }
    if MostSpecific(classes, candidates, b) {
      forall i | 0 <= i < |candidates|
        ensures Undominated(classes, candidates, i) <==> i == b
      {
        if i != b {
          assert MoreSpecific(classes, candidates[b], candidates[i]);
          assert b != i && !Undominated(classes, candidates, i);
        } else {
          forall j | 0 <= j < |candidates| && j != b
            ensures !MoreSpecific(classes, candidates[j], candidates[b])
          {
            MoreSpecificAsymmetric(classes, interfaces, candidates[b], candidates[j]);
          }
        }
      }
      OnlyUndominated(classes, candidates, 0, b);
    }
  }

  lemma {:induction false} OnlyUndominated(classes: ClassTable, candidates: seq<seq<Type>>, from: nat, b: nat)
    requires from <= |candidates| && b < |candidates|
    requires forall i :: 0 <= i < |candidates| ==> (Undominated(classes, candidates, i) <==> i == b)
    ensures UndominatedFrom(classes, candidates, from) == if from <= b then [b] else []
    decreases |candidates| - from
  {
    hide Undominated;
    if from < |candidates| {
      OnlyUndominated(classes, candidates, from + 1, b);
    }
  }

  // ---------------------------------------------------------------- calls

  ghost predicate Fits(classes: ClassTable, methods: seq<Method>, name: Name, arguments: seq<ExprType>, m: nat) {
    m < |methods| && methods[m].name == name && Applicable(classes, ParameterTypes(methods[m].parameters), arguments)
  }

  lemma {:induction false} AllFitting(classes: ClassTable, methods: seq<Method>, name: Name, arguments: seq<ExprType>, from: nat, m: nat)
    requires from <= m && Fits(classes, methods, name, arguments, m)
    ensures m in ApplicableMethods(classes, methods, name, arguments, from)
    decreases |methods| - from
  {
    hide Applicable;
    if from < m { AllFitting(classes, methods, name, arguments, from + 1, m); }
  }

  ghost predicate Increasing(s: seq<nat>, from: nat) {
    (forall i :: 0 <= i < |s| ==> s[i] >= from) && forall i, j :: 0 <= i < j < |s| ==> s[i] < s[j]
  }

  lemma {:induction false} FittingDistinct(classes: ClassTable, methods: seq<Method>, name: Name, arguments: seq<ExprType>, from: nat)
    requires from <= |methods|
    ensures Increasing(ApplicableMethods(classes, methods, name, arguments, from), from)
    decreases |methods| - from
  {
    if from < |methods| {
      FittingDistinct(classes, methods, name, arguments, from + 1);
    }
  }

  /** More specific than every other method of the name that fits. */
  ghost predicate BestFit(classes: ClassTable, methods: seq<Method>, name: Name, arguments: seq<ExprType>, m: nat)
    requires m < |methods|
  {
    forall k: nat :: Fits(classes, methods, name, arguments, k) && k != m ==>
      MoreSpecific(classes, ParameterTypes(methods[m].parameters), ParameterTypes(methods[k].parameters))
  }

  /** The table of candidates: each fitting method once, with its parameter types. */
  lemma FittingTable(classes: ClassTable, methods: seq<Method>, name: Name, arguments: seq<ExprType>)
    ensures var ids := ApplicableMethods(classes, methods, name, arguments, 0);
            && Increasing(ids, 0)
            && (forall k :: 0 <= k < |ids| ==> Fits(classes, methods, name, arguments, ids[k]))
            && (forall k :: 0 <= k < |ids| ==> CandidateTypes(methods, ids)[k] == ParameterTypes(methods[ids[k]].parameters))
    ensures forall m :: Fits(classes, methods, name, arguments, m) ==> m in ApplicableMethods(classes, methods, name, arguments, 0)
  {
    hide IsAssignable;
    var ids := ApplicableMethods(classes, methods, name, arguments, 0);
    FittingDistinct(classes, methods, name, arguments, 0);
    forall k | 0 <= k < |ids|
      ensures Fits(classes, methods, name, arguments, ids[k])
    {
      assert ids[k] in ids;
    }
    forall m | Fits(classes, methods, name, arguments, m)
      ensures m in ids
    {
      AllFitting(classes, methods, name, arguments, 0, m);
    }
  }

  lemma BestFitInTable(classes: ClassTable, methods: seq<Method>, name: Name, arguments: seq<ExprType>, i: nat)
    requires i < |ApplicableMethods(classes, methods, name, arguments, 0)|
    ensures var ids := ApplicableMethods(classes, methods, name, arguments, 0);
            && ids[i] < |methods|
            && (MostSpecific(classes, CandidateTypes(methods, ids), i) <==> BestFit(classes, methods, name, arguments, ids[i]))
  {
    FittingTable(classes, methods, name, arguments);
    hide MoreSpecific, ApplicableMethods, CandidateTypes, Fits;
    var ids := ApplicableMethods(classes, methods, name, arguments, 0);
    var candidates := CandidateTypes(methods, ids);
    assert ids[i] in ids;
    if MostSpecific(classes, candidates, i) {
      forall k: nat | Fits(classes, methods, name, arguments, k) && k != ids[i]
        ensures MoreSpecific(classes, ParameterTypes(methods[ids[i]].parameters), ParameterTypes(methods[k].parameters))
      {
        var j :| 0 <= j < |ids| && ids[j] == k;
        assert MoreSpecific(classes, candidates[i], candidates[j]);
      }
    }
    if BestFit(classes, methods, name, arguments, ids[i]) {
      forall j | 0 <= j < |candidates| && j != i
        ensures MoreSpecific(classes, candidates[i], candidates[j])
      {
        assert ids[j] != ids[i];
      }
    }
  }

  /** A call is resolved to `m` exactly when `m` fits the arguments and is more specific than every
      other method of the name that fits them. */
  lemma CallPicksMostSpecificExactly(classes: ClassTable, interfaces: set<nat>, methods: seq<Method>, name: Name,
                                     arguments: seq<ExprType>, m: nat)
    requires WellFormed(classes, interfaces)
    ensures SelectMethod(classes, methods, name, arguments) == Ok(m) <==>
              && Fits(classes, methods, name, arguments, m)
              && BestFit(classes, methods, name, arguments, m)
  {
    FittingTable(classes, methods, name, arguments);
    hide MoreSpecific, ApplicableMethods, CandidateTypes, UniqueMostSpecific, BestFit, MostSpecific;
    var ids := ApplicableMethods(classes, methods, name, arguments, 0);
    var candidates := CandidateTypes(methods, ids);
    if SelectMethod(classes, methods, name, arguments) == Ok(m) {
      var b := UniqueMostSpecific(classes, candidates).value;
      SelectsMostSpecificExactly(classes, interfaces, candidates, b);
      BestFitInTable(classes, methods, name, arguments, b);
    }
    if Fits(classes, methods, name, arguments, m) && BestFit(classes, methods, name, arguments, m) {
      var i :| 0 <= i < |ids| && ids[i] == m;
      BestFitInTable(classes, methods, name, arguments, i);
      SelectsMostSpecificExactly(classes, interfaces, candidates, i);
    }
  }

  // ---------------------------------------------------------------- the loops

  /** Walks two parameter lists together, remembering whether a pair differed. */
  method CompareParameterTypes(classes: ClassTable, left: seq<Type>, right: seq<Type>) returns (strict: bool)
    ensures strict == MoreSpecific(classes, left, right)
  {
    hide IsSubtype;
    strict := false;
    var n := if |left| < |right| then |left| else |right|;
    for i := 0 to n
      invariant forall k :: 0 <= k < i ==> left[k] == right[k] || IsSubtype(classes, left[k], right[k])
      invariant strict == exists k :: 0 <= k < i && left[k] != right[k]
    {
      if left[i] == right[i] { continue; }
      if !IsSubtype(classes, left[i], right[i]) { return false; }
      strict := true;
    }
  }

  /** Walks the candidates once, giving up at the second undominated one. */
  method SelectUndominated(classes: ClassTable, candidates: seq<seq<Type>>) returns (selected: Option<nat>)
    ensures selected == UniqueMostSpecific(classes, candidates)
  {
    hide MoreSpecific;
    selected := None;
    for i := 0 to |candidates|
      invariant selected.Some? ==> selected.value < |candidates|
      invariant UndominatedFrom(classes, candidates, 0) ==
                (if selected.Some? then [selected.value] else []) + UndominatedFrom(classes, candidates, i)
    {
      var dominated := false;
      for j := 0 to |candidates|
        invariant dominated == exists k :: 0 <= k < j && k != i && MoreSpecific(classes, candidates[k], candidates[i])
      {
        if j != i {
          var more := CompareParameterTypes(classes, candidates[j], candidates[i]);
          dominated := dominated || more;
        }
      }
      assert Undominated(classes, candidates, i) == !dominated;
      if dominated { continue; }
      if selected.Some? { return None; }
      selected := Some(i);
    }
  }
}
