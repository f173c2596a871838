/** Type declarations: how their names are resolved, in three places, and which hierarchies the
    checker accepts. */
module Declarations {
  import opened Wrappers
  import opened Syntax

  datatype Kind = ClassKind | InterfaceKind | EnumKind

  /** A declared type. Names are case-folded; `qualified` is the name with the enclosing type. */
  datatype Declaration = Declaration(
    name: Name, qualified: Name, kind: Kind,
    superclass: Option<Name>, interfaces: seq<Name>,
    isVirtual: bool, isAbstract: bool, isFinal: bool)

  type Declared = seq<Declaration>

  // ---------------------------------------------------------------- what a name means

  ghost predicate DistinctNames(ds: Declared) {
    forall i, j :: 0 <= i < j < |ds| ==> ds[i].qualified != ds[j].qualified
  }

  predicate HasQualified(ds: Declared, name: Name) {
    exists i :: 0 <= i < |ds| && ds[i].qualified == name
  }

  predicate OnlyShort(ds: Declared, name: Name, i: nat)
    requires i < |ds|
  {
    ds[i].name == name && forall j :: 0 <= j < |ds| && ds[j].name == name ==> j == i
  }

  /** A qualified name, or otherwise a short name that only one type has. */
  ghost predicate Means(ds: Declared, name: Name, i: nat) {
    i < |ds| && if HasQualified(ds, name) then ds[i].qualified == name else OnlyShort(ds, name, i)
  }

  /** `r` is what the name means, and `None` if it means nothing. */
  ghost predicate Resolves(ds: Declared, name: Name, r: Option<nat>) {
    if r.Some? then Means(ds, name, r.value) else forall i: nat :: !Means(ds, name, i)
  }

  lemma ResolvesUnique(ds: Declared, name: Name, a: Option<nat>, b: Option<nat>)
    requires DistinctNames(ds) && Resolves(ds, name, a) && Resolves(ds, name, b)
    ensures a == b
  {
    if a.Some? && b.Some? {
      assert Means(ds, name, a.value) && Means(ds, name, b.value);
    }
  }

  // ---------------------------------------------------------------- the interpreter's resolver

  /** Scans for the qualified name and then for a short name that occurs once. */
  method RuntimeClassId(ds: Declared, name: Name) returns (r: Option<nat>)
    ensures Resolves(ds, name, r)
  {
    var i := 0;
    while i < |ds|
      invariant 0 <= i <= |ds|
      invariant forall j :: 0 <= j < i ==> ds[j].qualified != name
    {
      if ds[i].qualified == name {
        return Some(i);
      }
      i := i + 1;
    }
    var first := NextShort(ds, name, 0);
    if first == |ds| {
      return None;
    }
    var second := NextShort(ds, name, first + 1);
    r := if second == |ds| then Some(first) else None;
    assert second < |ds| ==> ds[second].name == name;
  }

  method NextShort(ds: Declared, name: Name, from: nat) returns (i: nat)
    requires from <= |ds|
    ensures from <= i <= |ds| && (i < |ds| ==> ds[i].name == name)
    ensures forall j :: from <= j < i ==> ds[j].name != name
  {
    i := from;
    while i < |ds| && ds[i].name != name
      invariant from <= i <= |ds|
      invariant forall j :: from <= j < i ==> ds[j].name != name
    {
      i := i + 1;
    }
  }

  // ---------------------------------------------------------------- the compiler's resolver

  /** The tables the compiler builds: ids by qualified name, and all ids of each short name. */
  datatype Tables = Tables(qualified: map<Name, nat>, short: map<Name, seq<nat>>)

  function ShortIds(ds: Declared, name: Name): (r: seq<nat>)
    ensures forall i :: i in r <==> 0 <= i < |ds| && ds[i].name == name
    ensures forall i, j :: 0 <= i < |r| && 0 <= j < |r| && r[i] == r[j] ==> i == j
  {
    if ds == [] then []
    else
      var n := |ds| - 1;
      var front := ShortIds(ds[..n], name);
      assert forall k :: 0 <= k < |front| ==> front[k] in front && front[k] < n;
      if ds[n].name == name then front + [n] else front
  }

  /** What the tables hold of the first declarations. */
  ghost predicate Tabulates(t: Tables, ds: Declared) {
    && (forall i :: 0 <= i < |ds| ==> ds[i].qualified in t.qualified)
    && (forall q :: q in t.qualified ==> t.qualified[q] < |ds| && ds[t.qualified[q]].qualified == q)
    && (forall i :: 0 <= i < |ds| ==> ds[i].name in t.short)
    && (forall s :: s in t.short ==> t.short[s] == ShortIds(ds, s))
  }

  /** One more declaration entered in the tables. */
  function Entered(t: Tables, d: Declaration, i: nat): Tables {
    Tables(t.qualified[d.qualified := i], t.short[d.name := (if d.name in t.short then t.short[d.name] else []) + [i]])
  }

  lemma EnteredTabulates(t: Tables, ds: Declared, d: Declaration)
    requires Tabulates(t, ds)
    ensures Tabulates(Entered(t, d, |ds|), ds + [d])
  {
    var u, es := Entered(t, d, |ds|), ds + [d];
    assert es[..|ds|] == ds;
    assert forall i :: 0 <= i < |ds| ==> es[i] == ds[i];
    NoShortIds(ds, d.name);
    forall name | name in u.short
      ensures u.short[name] == ShortIds(es, name)
    {
    }
    forall q | q in u.qualified
      ensures u.qualified[q] < |es| && es[u.qualified[q]].qualified == q
    {
    }
  }

  lemma NothingTabulated()
    ensures Tabulates(Tables(map[], map[]), [])
  {
  }

  method BuildTables(ds: Declared) returns (t: Tables)
    ensures Tabulates(t, ds)
  {
    hide Tabulates;
    t := Tables(map[], map[]);
    var i := 0;
    NothingTabulated();
    assert ds[..0] == [];
    while i < |ds|
      invariant 0 <= i <= |ds|
      invariant Tabulates(t, ds[..i])
    {
      EnteredTabulates(t, ds[..i], ds[i]);
      assert ds[..i] + [ds[i]] == ds[..i + 1];
      t := Entered(t, ds[i], i);
      i := i + 1;
    }
    assert ds[..i] == ds;
  }

  lemma NoShortIds(ds: Declared, name: Name)
    ensures (forall i :: 0 <= i < |ds| ==> ds[i].name != name) ==> ShortIds(ds, name) == []
  {
    if forall i :: 0 <= i < |ds| ==> ds[i].name != name {
      var r := ShortIds(ds, name);
      assert r != [] ==> r[0] in r;
    }
  }

  /** A unique short name has a list of one id. */
  lemma OneShortId(ds: Declared, name: Name, i: nat)
    requires i < |ds|
    ensures OnlyShort(ds, name, i) <==> ShortIds(ds, name) == [i]
  {
    var r := ShortIds(ds, name);
    if r == [i] {
      forall j | 0 <= j < |ds| && ds[j].name == name
        ensures j == i
      {
        assert j in r;
      }
      assert i in r;
    }
    if OnlyShort(ds, name, i) {
      assert i in r;
      forall k | 0 <= k < |r|
        ensures r[k] == i
      {
        assert r[k] in r;
      }
      assert r[|r| - 1] == r[0];
    }
  }

  function ResolveInTables(t: Tables, name: Name): Option<nat> {
    if name in t.qualified then Some(t.qualified[name])
    else if name in t.short && |t.short[name]| == 1 then Some(t.short[name][0])
    else None
  }

  lemma TablesResolve(t: Tables, ds: Declared, name: Name)
    requires Tabulates(t, ds)
    ensures Resolves(ds, name, ResolveInTables(t, name))
  {
    forall i: nat | i < |ds|
      ensures OnlyShort(ds, name, i) <==> ShortIds(ds, name) == [i]
    {
      OneShortId(ds, name, i);
    }
    var r := ResolveInTables(t, name);
    if name !in t.qualified && r.Some? {
      assert t.short[name][0] in ShortIds(ds, name);
      assert t.short[name] == [r.value];
    }
    if name !in t.qualified && r.None? {
      forall i: nat
        ensures !Means(ds, name, i)
      {
        assert i < |ds| ==> ds[i].name in t.short;
      }
    }
  }

  // ---------------------------------------------------------------- the checker's resolver

  /** Rejects a repeated qualified name; otherwise one table from names to ids, in which a unique short
      name gives way to a qualified one. */
  method CollectClasses(ds: Declared) returns (r: Result<map<Name, nat>, Name>)
    ensures r.Ok? <==> DistinctNames(ds)
    ensures r.Ok? ==> forall name :: Resolves(ds, name, if name in r.value then Some(r.value[name]) else None)
    ensures r.Err? ==> exists i, j :: 0 <= i < j < |ds| && ds[i].qualified == r.error == ds[j].qualified
  {
    hide Tabulates, Resolves, ResolveInTables, Entered;
    var t := Tables(map[], map[]);
    var i := 0;
    NothingTabulated();
    assert ds[..0] == [];
    while i < |ds|
      invariant 0 <= i <= |ds|
      invariant DistinctNames(ds[..i]) && Tabulates(t, ds[..i])
    {
      if ds[i].qualified in t.qualified {
        Repeated(t, ds, i);
        return Err(ds[i].qualified);
      }
      NewName(t, ds[..i], ds[i]);
      EnteredTabulates(t, ds[..i], ds[i]);
      assert ds[..i] + [ds[i]] == ds[..i + 1];
      t := Entered(t, ds[i], i);
      i := i + 1;
    }
    assert ds[..i] == ds;
    var ids := AddShortNames(t);
    forall name
      ensures Resolves(ds, name, if name in ids then Some(ids[name]) else None)
    {
      TablesResolve(t, ds, name);
    }
    r := Ok(ids);
  }

  lemma Repeated(t: Tables, ds: Declared, i: nat)
    requires i < |ds| && Tabulates(t, ds[..i]) && ds[i].qualified in t.qualified
    ensures exists j :: 0 <= j < i && ds[j].qualified == ds[i].qualified
  {
    var j := t.qualified[ds[i].qualified];
    assert ds[..i][j] == ds[j];
  }

  lemma NewName(t: Tables, ds: Declared, d: Declaration)
    requires Tabulates(t, ds) && DistinctNames(ds) && d.qualified !in t.qualified
    ensures DistinctNames(ds + [d])
  {
  }

  /** The short names in any order: each concerns its own key only. */
  method AddShortNames(t: Tables) returns (ids: map<Name, nat>)
    ensures forall name :: (if name in ids then Some(ids[name]) else None) == ResolveInTables(t, name)
  {
    ids := t.qualified;
    var left := t.short.Keys;
    while left != {}
      invariant left <= t.short.Keys
      invariant forall name :: name !in left ==> (if name in ids then Some(ids[name]) else None) == ResolveInTables(t, name)
      invariant forall name :: name in left ==> (name in ids <==> name in t.qualified)
      invariant forall name :: name in t.qualified ==> name in ids && ids[name] == t.qualified[name]
      decreases |left|
    {
      var name :| name in left;
      left := left - {name};
      if |t.short[name]| == 1 && name !in ids {
        ids := ids[name := t.short[name][0]];
      }
    }
  }

  // ---------------------------------------------------------------- agreement

  /** Once the checker has accepted the names, all three resolvers give every name the same meaning. */
  lemma ResolversAgree(ds: Declared, t: Tables, ids: map<Name, nat>, name: Name, runtime: Option<nat>)
    requires DistinctNames(ds) && Tabulates(t, ds)
    requires Resolves(ds, name, if name in ids then Some(ids[name]) else None)
    requires Resolves(ds, name, runtime)
    ensures (if name in ids then Some(ids[name]) else None) == ResolveInTables(t, name) == runtime
  {
    TablesResolve(t, ds, name);
    ResolvesUnique(ds, name, ResolveInTables(t, name), runtime);
    ResolvesUnique(ds, name, ResolveInTables(t, name), if name in ids then Some(ids[name]) else None);
  }

  /** A name has one meaning for every resolver exactly when no qualified name is repeated. */
  lemma MeaningsUniqueExactly(ds: Declared)
    ensures DistinctNames(ds) <==>
              forall name, i: nat, j: nat :: Means(ds, name, i) && Means(ds, name, j) ==> i == j
  {
    if !DistinctNames(ds) {
      var i, j :| 0 <= i < j < |ds| && ds[i].qualified == ds[j].qualified;
      assert HasQualified(ds, ds[i].qualified);
      assert Means(ds, ds[i].qualified, i) && Means(ds, ds[i].qualified, j);
    }
  }
}
