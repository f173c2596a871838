/** Which hierarchies the checker accepts, and the class table it builds from them. */
module AcceptedHierarchy {
  import opened Wrappers
  import opened ClassGraph
  import opened Hierarchy
  import opened Syntax
  import opened Declarations

  datatype HierarchyError =
    | DuplicateType(name: Name)
    | EnumInherits | UnknownSuperclass | WrongSuperclassKind | FinalSuperclass | NotVirtual
    | NotAnInterface | UnknownInterface | RepeatedInterface | ExceptionWithInterfaces
    | Cycle(classId: nat)

  /** The edges of one declared type. Extending the built-in `Exception` adds none. */
  datatype Links = Links(parent: Parent, successors: seq<nat>)

  const EXCEPTION: Name := "exception"

  function SuperclassLink(ds: Declared, ids: map<Name, nat>, d: Declaration): (r: Result<Parent, HierarchyError>)
    ensures r.Err? ==> !r.error.DuplicateType? && !r.error.Cycle?
  {
    if d.superclass.None? then Ok(NoParent)
    else if d.superclass.value !in ids || ids[d.superclass.value] >= |ds| then Err(UnknownSuperclass)
    else
      var id := ids[d.superclass.value];
      if d.kind.ClassKind? && !ds[id].kind.ClassKind? then Err(WrongSuperclassKind)
      else if d.kind.InterfaceKind? && !ds[id].kind.InterfaceKind? then Err(WrongSuperclassKind)
      else if ds[id].isFinal then Err(FinalSuperclass)
      else if d.kind.ClassKind? && !ds[id].isVirtual && !ds[id].isAbstract then Err(NotVirtual)
      else Ok(ParentClass(id))
  }

  function InterfaceLinks(ds: Declared, ids: map<Name, nat>, names: seq<Name>, seen: set<Name>)
    : (r: Result<seq<nat>, HierarchyError>)
    ensures r.Ok? ==> forall i :: 0 <= i < |r.value| ==> r.value[i] < |ds| && ds[r.value[i]].kind.InterfaceKind?
    ensures r.Err? ==> !r.error.DuplicateType? && !r.error.Cycle?
  {
    if names == [] then Ok([])
    else if names[0] in seen then Err(RepeatedInterface)
    else if names[0] !in ids || ids[names[0]] >= |ds| then Err(UnknownInterface)
    else if !ds[ids[names[0]]].kind.InterfaceKind? then Err(NotAnInterface)
    else
      var rest :- InterfaceLinks(ds, ids, names[1..], seen + {names[0]});
      Ok([ids[names[0]]] + rest)
  }

  function TypeLinks(ds: Declared, ids: map<Name, nat>, d: Declaration): (r: Result<Links, HierarchyError>)
    ensures r.Ok? ==> forall i :: 0 <= i < |r.value.successors| ==> r.value.successors[i] < |ds|
    ensures r.Err? ==> !r.error.DuplicateType? && !r.error.Cycle?
  {
    if d.kind.EnumKind? && (d.superclass.Some? || d.interfaces != []) then Err(EnumInherits)
    else if d.superclass == Some(EXCEPTION) then
      if !d.kind.ClassKind? then Err(WrongSuperclassKind)
      else if d.interfaces != [] then Err(ExceptionWithInterfaces)
      else Ok(Links(ExceptionRoot, []))
    else
      var parent :- SuperclassLink(ds, ids, d);
      var interfaces :- InterfaceLinks(ds, ids, d.interfaces, {});
      Ok(Links(parent, (if parent.ParentClass? then [parent.classId] else []) + interfaces))
  }

  /** The table records the links of every declared type. */
  ghost predicate Records(ds: Declared, ids: map<Name, nat>, parents: seq<Parent>, graph: seq<seq<nat>>) {
    && |graph| == |parents| == |ds|
    && (forall c :: 0 <= c < |ds| ==> TypeLinks(ds, ids, ds[c]) == Ok(Links(parents[c], graph[c])))
  }

  /** Names mean one thing each, and no type is its own ancestor. */
  ghost predicate Accepts(ds: Declared, ids: map<Name, nat>, classes: ClassTable) {
    DistinctNames(ds) && Records(ds, ids, classes.parents, classes.graph) && Acyclic(classes.graph)
  }

  lemma RecordsUnique(ds: Declared, ids: map<Name, nat>, p: seq<Parent>, g: seq<seq<nat>>, q: seq<Parent>, h: seq<seq<nat>>)
    requires Records(ds, ids, p, g) && Records(ds, ids, q, h)
    ensures p == q && g == h
  {
    assert forall c :: 0 <= c < |ds| ==> Links(p[c], g[c]) == Links(q[c], h[c]);
  }

  /** Names first, then the links of each type in order, then the search for cycles. */
  method ValidateHierarchy(ds: Declared) returns (r: Result<ClassTable, HierarchyError>, ghost ids: map<Name, nat>)
    ensures r.Ok? ==> Accepts(ds, ids, r.value)
    ensures r.Ok? ==> forall name :: Resolves(ds, name, if name in ids then Some(ids[name]) else None)
    ensures r.Err? && r.error.DuplicateType? ==> !DistinctNames(ds)
    ensures r.Err? && !r.error.DuplicateType? ==> forall classes :: !Accepts(ds, ids, classes)
  {
    ids := map[];
    var names := CollectClasses(ds);
    if names.Err? {
      return Err(DuplicateType(names.error)), ids;
    }
    ids := names.value;
    var hierarchy := new HierarchyGraph(|ds|);
    var parents: seq<Parent> := [];
    for c := 0 to |ds|
      invariant |hierarchy.edges| == |ds| && |parents| == c
      invariant forall n :: 0 <= n < c ==> TypeLinks(ds, ids, ds[n]) == Ok(Links(parents[n], hierarchy.edges[n]))
      invariant forall n :: c <= n < |ds| ==> hierarchy.edges[n] == []
      invariant Closed(hierarchy.edges)
    {
      var links := TypeLinks(ds, names.value, ds[c]);
      if links.Err? {
        return Err(links.error), ids;
      }
      hierarchy.AddEdges(c, links.value.successors);
      parents := parents + [links.value.parent];
    }
    var traversal := hierarchy.ValidateAcyclic();
    if traversal.Err? {
      forall classes: ClassTable | Records(ds, ids, classes.parents, classes.graph)
        ensures !Acyclic(classes.graph)
      {
        RecordsUnique(ds, ids, classes.parents, classes.graph, parents, hierarchy.edges);
      }
      return Err(Cycle(traversal.error)), ids;
    }
    r := Ok(ClassTable(hierarchy.edges, parents));
  }

  // ---------------------------------------------------------------- what acceptance guarantees

  /** Superclass links are edges; interfaces inherit only from interfaces, and only classes extend the
      built-in `Exception`; nothing is its own ancestor. */
  ghost predicate WellFormed(classes: ClassTable, interfaces: set<nat>) {
    && |classes.parents| == |classes.graph|
    && Acyclic(classes.graph)
    && (forall c :: 0 <= c < |classes.graph| ==> LinkOk(classes, interfaces, c))
  }

  ghost predicate LinkOk(classes: ClassTable, interfaces: set<nat>, c: nat)
    requires c < |classes.graph| == |classes.parents|
  {
    var parent := classes.parents[c];
    && (parent.ParentClass? ==> parent.classId in classes.graph[c])
    && (c in interfaces ==> !parent.ExceptionRoot? && forall m :: m in classes.graph[c] ==> m in interfaces)
    && (c !in interfaces ==>
          && (parent.ParentClass? ==> parent.classId !in interfaces)
          && (forall m :: m in classes.graph[c] ==> m in interfaces || parent == ParentClass(m)))
  }

  function InterfacesOf(ds: Declared): set<nat> {
    set i: nat | i < |ds| && ds[i].kind.InterfaceKind?
  }

  lemma AcceptedIsWellFormed(ds: Declared, ids: map<Name, nat>, classes: ClassTable)
    requires Accepts(ds, ids, classes)
    ensures WellFormed(classes, InterfacesOf(ds))
  {
    forall c | 0 <= c < |classes.graph|
      ensures LinkOk(classes, InterfacesOf(ds), c)
    {
      var d := ds[c];
      assert TypeLinks(ds, ids, d) == Ok(Links(classes.parents[c], classes.graph[c]));
      if d.superclass != Some(EXCEPTION) {
        var faces := InterfaceLinks(ds, ids, d.interfaces, {}).value;
        assert forall m :: m in faces ==> m in InterfacesOf(ds);
      }
    }
  }
}
