/** On an accepted program a virtual call on an instance always reaches a body. */
module DispatchSound {
  import opened Wrappers
  import opened ClassGraph
  import opened Syntax
  import opened Declarations
  import opened Lineage
  import opened Dispatch

  // ---------------------------------------------------------------- what is required

  ghost predicate CoversAll(k: Classes, required: seq<MethodId>, c: nat)
    requires c < |k|
  {
    forall i :: 0 <= i < |k[c].methods| ==> Covers(k, required, SignatureOf(k[c].methods[i]))
  }

  /** Every visited type is covered, and what it extends is visited or pending. */
  ghost predicate Settled(k: Classes, so: Collected, pending: seq<nat>) {
    && (forall n :: n in so.visited ==> n < |k| && CoversAll(k, so.required, n))
    && Frontier(Supertypes(k), pending, so.visited)
    && forall i :: 0 <= i < |so.required| ==> IsMethod(k, so.required[i])
  }

  lemma SettledMore(k: Classes, so: Collected, required: seq<MethodId>)
    requires Settled(k, so, []) && so.required <= required
    requires forall i :: 0 <= i < |required| ==> IsMethod(k, required[i])
    ensures Settled(k, Collected(required, so.visited), [])
  {
    CoversMore(k, so.required, required);
  }

  lemma {:induction false} CollectSettles(k: Classes, pending: seq<nat>, so: Collected)
    requires Within(Supertypes(k), pending) && Settled(k, so, pending)
    ensures var r := CollectInterfaces(k, pending, so);
            Settled(k, r, []) && forall n :: n in pending ==> n in r.visited
    decreases Below(|k|) - so.visited, |pending|
  {
    hide Covers;
    if pending != [] {
      var n := pending[|pending| - 1];
      var rest := pending[..|pending| - 1];
      assert pending == rest + [n];
      if n in so.visited {
        assert forall m :: m in pending <==> m in rest || m == n;
        CollectSettles(k, rest, so);
      } else {
        assert n in Below(|k|);
        var above := (if k[n].superclass.Some? then [k[n].superclass.value] else []) + Reverse(k[n].interfaces);
        var next := Collected(PushOwn(k, so.required, n, 0, false), so.visited + {n});
        VisitSettles(k, rest, n, above, so, next);
        CollectSettles(k, rest + above, next);
      }
    }
  }

  lemma VisitSettles(k: Classes, rest: seq<nat>, n: nat, above: seq<nat>, so: Collected, next: Collected)
    requires n < |k| && Settled(k, so, rest + [n])
    requires above == (if k[n].superclass.Some? then [k[n].superclass.value] else []) + Reverse(k[n].interfaces)
    requires next == Collected(PushOwn(k, so.required, n, 0, false), so.visited + {n})
    ensures Settled(k, next, rest + above)
    ensures forall m :: m in rest + [n] ==> m in next.visited || m in rest + above
  {
    hide Covers;
    CoversMore(k, so.required, next.required);
    var g := Supertypes(k);
    assert forall m :: m in above <==> m in g[n];
    assert forall m :: m in rest + above <==> m in rest || m in above;
    assert forall m :: m in rest + [n] <==> m in rest || m == n;
  }

  lemma {:induction false} EachSettles(k: Classes, interfaces: seq<nat>, so: Collected)
    requires Within(Supertypes(k), interfaces) && Settled(k, so, [])
    ensures var r := CollectEach(k, interfaces, so);
            Settled(k, r, []) && forall n :: n in interfaces ==> n in r.visited
    decreases |interfaces|
  {
    hide Covers;
    if interfaces != [] {
      CollectSettles(k, [interfaces[0]], so);
      EachSettles(k, interfaces[1..], CollectInterfaces(k, [interfaces[0]], so));
    }
  }

  lemma {:induction false} SettledReaches(k: Classes, so: Collected, a: nat, p: seq<nat>)
    requires Settled(k, so, []) && a in so.visited && IsPath(Supertypes(k), p) && p[0] == a
    ensures p[|p| - 1] in so.visited
    decreases |p|
  {
    if |p| > 1 {
      assert p[1] in Supertypes(k)[a];
      SettledReaches(k, so, p[1], p[1..]);
    }
  }

  /** The parts of `RequiredFrom` at one class. */
  lemma RequiredStep(k: Classes, c: nat, so: Collected) returns (faces: Collected)
    requires Rooted(Superclasses(k)) && c < |k| && Settled(k, so, [])
    ensures Settled(k, faces, []) && forall n :: n in k[c].interfaces ==> n in faces.visited
    ensures forall i :: 0 <= i < |k[c].methods| && !k[c].methods[i].hasBody ==> Covers(k, faces.required, SignatureOf(k[c].methods[i]))
    ensures RequiredFrom(k, c, so) == if k[c].superclass.None? then faces else RequiredFrom(k, k[c].superclass.value, faces)
    ensures k[c].superclass.Some? ==>
              |LineageOf(Superclasses(k), k[c].superclass.value)| < |LineageOf(Superclasses(k), c)|
  {
    hide Covers;
    LineageOfStep(Superclasses(k), c);
    var own := Collected(PushOwn(k, so.required, c, 0, true), so.visited);
    SettledMore(k, so, own.required);
    EachSettles(k, k[c].interfaces, own);
    faces := CollectEach(k, k[c].interfaces, own);
    CoversMore(k, own.required, faces.required);
  }

  /** A method without a body anywhere up the lineage is required. */
  lemma {:induction false} BodylessRequired(k: Classes, c: nat, so: Collected, e: nat, i: nat)
    requires Rooted(Superclasses(k)) && c < |k| && Settled(k, so, []) && e in LineageOf(Superclasses(k), c)
    requires e < |k| && i < |k[e].methods| && !k[e].methods[i].hasBody
    ensures Covers(k, RequiredFrom(k, c, so).required, SignatureOf(k[e].methods[i]))
    decreases |LineageOf(Superclasses(k), c)|
  {
    hide Covers, Settled;
    LineageOfStep(Superclasses(k), c);
    var faces := RequiredStep(k, c, so);
    SettledMethods(k, faces);
    CoversMore(k, faces.required, RequiredFrom(k, c, so).required);
    if e != c {
      BodylessRequired(k, k[c].superclass.value, faces, e, i);
    }
  }

  lemma SettledMethods(k: Classes, so: Collected)
    requires Settled(k, so, [])
    ensures forall i :: 0 <= i < |so.required| ==> IsMethod(k, so.required[i])
  {
  }

  /** Every method of an interface the class implements, directly or not, is required. */
  lemma {:induction false} InterfaceRequired(k: Classes, c: nat, so: Collected, p: seq<nat>, i: nat)
    requires Rooted(Superclasses(k)) && c < |k| && Settled(k, so, []) && k[c].kind.ClassKind?
    requires forall n :: 0 <= n < |k| ==> LinkKinds(k, n)
    requires IsPath(Supertypes(k), p) && p[0] == c && k[p[|p| - 1]].kind.InterfaceKind? && i < |k[p[|p| - 1]].methods|
    ensures Covers(k, RequiredFrom(k, c, so).required, SignatureOf(k[p[|p| - 1]].methods[i]))
    decreases |LineageOf(Superclasses(k), c)|
  {
    hide Covers, RequiredFrom, LineageOf, Rooted, Frontier;
    var faces := RequiredStep(k, c, so);
    assert |p| > 1 && p[1] in Supertypes(k)[c] && LinkKinds(k, c);
    CoversMore(k, faces.required, RequiredFrom(k, c, so).required);
    if p[1] in k[c].interfaces {
      SettledReaches(k, faces, p[1], p[1..]);
    } else {
      InterfaceRequired(k, p[1], faces, p[1..], i);
    }
  }

  // ---------------------------------------------------------------- the nearest declaration

  lemma {:induction false} DeclaredAbove(k: Classes, c: nat, e: nat, i: nat)
    requires Rooted(Superclasses(k)) && c < |k| && e in LineageOf(Superclasses(k), c) && e < |k| && i < |k[e].methods|
    ensures Nearest(k, c, SignatureOf(k[e].methods[i])).Some?
    decreases |LineageOf(Superclasses(k), c)|
  {
    LineageOfStep(Superclasses(k), c);
    if e != c && OwnIndex(k[c].methods, SignatureOf(k[e].methods[i]), 0) == |k[c].methods| {
      DeclaredAbove(k, k[c].superclass.value, e, i);
    }
  }

  lemma {:induction false} NearestInLineage(k: Classes, c: nat, s: Signature)
    requires Rooted(Superclasses(k)) && c < |k| && Nearest(k, c, s).Some?
    ensures Nearest(k, c, s).value.classId in LineageOf(Superclasses(k), c)
    decreases |LineageOf(Superclasses(k), c)|
  {
    LineageOfStep(Superclasses(k), c);
    var l := LineageOf(Superclasses(k), c);
    assert l[|l| - 1] == c;
    if OwnIndex(k[c].methods, s, 0) == |k[c].methods| {
      NearestInLineage(k, k[c].superclass.value, s);
    }
  }

  /** A class that the checker lets be instantiated has a body for every required or inherited
      signature, and it stands at the nearest declaration. */
  lemma NearestHasBody(k: Classes, c: nat, s: Signature)
    requires Accepted(k) && c < |k| && Concrete(k, c)
    requires Nearest(k, c, s).Some? || Covers(k, Required(k, c), s)
    ensures Nearest(k, c, s).Some? && MethodAt(k, Nearest(k, c, s).value).hasBody
  {
    if Nearest(k, c, s).Some? && !MethodAt(k, Nearest(k, c, s).value).hasBody {
      NearestInLineage(k, c, s);
      var n := Nearest(k, c, s).value;
      BodylessRequired(k, c, Collected([], {}), n.classId, n.index);
    }
    if Covers(k, Required(k, c), s) {
      var i :| 0 <= i < |Required(k, c)| && SignatureOf(MethodAt(k, Required(k, c)[i])) == s;
      assert Implemented(k, c, Required(k, c)[i]);
    }
  }

  lemma {:induction false} TargetIsNearest(k: Classes, c: nat, declared: MethodId)
    requires Rooted(Superclasses(k)) && c < |k| && IsMethod(k, declared)
    requires var s := SignatureOf(MethodAt(k, declared));
             Nearest(k, c, s).Some? && MethodAt(k, Nearest(k, c, s).value).hasBody
    ensures Some(DispatchTarget(k, c, declared)) == Nearest(k, c, SignatureOf(MethodAt(k, declared)))
    decreases |LineageOf(Superclasses(k), c)|
  {
    var s := SignatureOf(MethodAt(k, declared));
    LineageOfStep(Superclasses(k), c);
    if OwnIndex(k[c].methods, s, 0) == |k[c].methods| {
      TargetIsNearest(k, k[c].superclass.value, declared);
    }
  }

  /** From a class, only superclass links lead to another class. */
  lemma {:induction false} ClassesAreInLineage(k: Classes, c: nat, p: seq<nat>)
    requires (forall n :: 0 <= n < |k| ==> LinkKinds(k, n)) && IsPath(Supertypes(k), p) && p[0] == c
    requires !k[p[|p| - 1]].kind.InterfaceKind?
    ensures Reaches(ParentGraph(Superclasses(k)), c, p[|p| - 1])
    decreases |p|
  {
    var g := ParentGraph(Superclasses(k));
    if |p| == 1 {
      ReachesSelf(g, c);
    } else {
      assert p[1] in Supertypes(k)[c] && LinkKinds(k, c);
      if k[p[1]].kind.InterfaceKind? { InterfacesStay(k, p[1..]); }
      ClassesAreInLineage(k, p[1], p[1..]);
      assert k[c].superclass == Some(p[1]);
      ReachesStep(g, c, p[1], p[|p| - 1]);
    }
  }

  lemma {:induction false} InterfacesStay(k: Classes, p: seq<nat>)
    requires (forall n :: 0 <= n < |k| ==> LinkKinds(k, n)) && IsPath(Supertypes(k), p) && k[p[0]].kind.InterfaceKind?
    ensures k[p[|p| - 1]].kind.InterfaceKind?
    decreases |p|
  {
    if |p| > 1 {
      assert p[1] in Supertypes(k)[p[0]] && LinkKinds(k, p[0]);
      InterfacesStay(k, p[1..]);
    }
  }

  // ---------------------------------------------------------------- dispatch

  /** A virtual call of any method of a type the instance's class inherits runs a method with a body,
      the declared name and parameters, and it is the declaration nearest to the dynamic class. */
  lemma DispatchReachesBody(k: Classes, c: nat, declared: MethodId)
    requires Accepted(k) && c < |k| && Concrete(k, c) && IsMethod(k, declared)
    requires Reaches(Supertypes(k), c, declared.classId)
    ensures var target := DispatchTarget(k, c, declared);
            && MethodAt(k, target).hasBody
            && SignatureOf(MethodAt(k, target)) == SignatureOf(MethodAt(k, declared))
            && Some(target) == Nearest(k, c, SignatureOf(MethodAt(k, declared)))
  {
    hide Covers;
    var s := SignatureOf(MethodAt(k, declared));
    InheritedIsFound(k, c, declared);
    NearestHasBody(k, c, s);
    TargetIsNearest(k, c, declared);
  }

  lemma InheritedIsFound(k: Classes, c: nat, declared: MethodId)
    requires Accepted(k) && c < |k| && Concrete(k, c) && IsMethod(k, declared)
    requires Reaches(Supertypes(k), c, declared.classId)
    ensures var s := SignatureOf(MethodAt(k, declared));
            Nearest(k, c, s).Some? || Covers(k, Required(k, c), s)
  {
    var p :| IsPathBetween(Supertypes(k), p, c, declared.classId);
    if k[declared.classId].kind.InterfaceKind? {
      InterfaceRequired(k, c, Collected([], {}), p, declared.index);
    } else {
      ClassesAreInLineage(k, c, p);
      LineageIsAncestors(Superclasses(k), c, LineageOf(Superclasses(k), c), declared.classId);
      DeclaredAbove(k, c, declared.classId, declared.index);
    }
  }

  /** Along the superclasses, overriding keeps the return type and never lowers the access. */
  lemma {:induction false} OverridesAgree(k: Classes, c: nat, declared: MethodId)
    requires Accepted(k) && NoStaticClash(k) && c < |k| && k[c].kind.ClassKind?
    requires IsMethod(k, declared) && !MethodAt(k, declared).isStatic
    requires declared.classId in LineageOf(Superclasses(k), c)
    requires Nearest(k, declared.classId, SignatureOf(MethodAt(k, declared))) == Some(declared)
    ensures var n := Nearest(k, c, SignatureOf(MethodAt(k, declared)));
            && n.Some? && !MethodAt(k, n.value).isStatic
            && MethodAt(k, n.value).returnType == MethodAt(k, declared).returnType
            && MethodAt(k, n.value).access >= MethodAt(k, declared).access
    decreases |LineageOf(Superclasses(k), c)|
  {
    LineageOfStep(Superclasses(k), c);
    if c != declared.classId {
      var p := k[c].superclass.value;
      assert LinkKinds(k, c);
      OverridesAgree(k, p, declared);
      var i := OwnIndex(k[c].methods, SignatureOf(MethodAt(k, declared)), 0);
      if i < |k[c].methods| { assert MethodAccepted(k, c, i); }
    }
  }

  /** Through a superclass the method that runs returns what was declared, at no lower access. */
  lemma DispatchKeepsReturn(k: Classes, c: nat, declared: MethodId)
    requires Accepted(k) && NoStaticClash(k) && c < |k| && Concrete(k, c)
    requires IsMethod(k, declared) && !MethodAt(k, declared).isStatic
    requires declared.classId in LineageOf(Superclasses(k), c)
    requires Nearest(k, declared.classId, SignatureOf(MethodAt(k, declared))) == Some(declared)
    ensures var target := MethodAt(k, DispatchTarget(k, c, declared));
            target.returnType == MethodAt(k, declared).returnType && target.access >= MethodAt(k, declared).access
  {
    OverridesAgree(k, c, declared);
    NearestHasBody(k, c, SignatureOf(MethodAt(k, declared)));
    TargetIsNearest(k, c, declared);
  }

  // ---------------------------------------------------------------- through an interface

  /** The first required method of a signature, the only one its implementations are compared with. */
  ghost predicate FirstRequired(k: Classes, c: nat, s: Signature, m: MethodId)
    requires Rooted(Superclasses(k)) && c < |k|
  {
    exists i :: 0 <= i < |Required(k, c)| && Required(k, c)[i] == m && SignatureOf(MethodAt(k, m)) == s
  }

  /** Through an interface the return type is the declared one exactly if the required method that
      stands for the signature has it; an abstract class may have put its own in front. */
  lemma InterfaceReturnExactly(k: Classes, c: nat, declared: MethodId, first: MethodId)
    requires Accepted(k) && c < |k| && Concrete(k, c) && IsMethod(k, declared) && IsMethod(k, first)
    requires FirstRequired(k, c, SignatureOf(MethodAt(k, declared)), first)
    ensures MethodAt(k, DispatchTarget(k, c, declared)).returnType == MethodAt(k, declared).returnType <==>
              MethodAt(k, first).returnType == MethodAt(k, declared).returnType
  {
    var i :| 0 <= i < |Required(k, c)| && Required(k, c)[i] == first;
    assert Implemented(k, c, Required(k, c)[i]);
    TargetIsNearest(k, c, declared);
  }

  // An interface method returns Integer, but an abstract class implementing it redeclares the
  // signature with String, and a concrete subclass overrides that.

  function Returning(ty: Type, isAbstract: bool, isOverride: bool): MethodDeclaration {
    MethodDeclaration("m", [], RValue(ty), 2, false, false, isAbstract, isOverride, !isAbstract)
  }

  const HIDDEN_RETURN: Classes := [
    ClassInfo(InterfaceKind, false, None, [], [Returning(TInteger, true, false)]),
    ClassInfo(ClassKind, true, None, [0], [Returning(TString, true, false)]),
    ClassInfo(ClassKind, false, Some(1), [], [Returning(TString, false, true)])]

  lemma HiddenReturnRooted()
    ensures Rooted(Superclasses(HIDDEN_RETURN))
  {
    var g := ParentGraph(Superclasses(HIDDEN_RETURN));
    forall a: nat
      ensures !OnCycle(g, a)
    {
      forall p | IsPathBetween(g, p, a, a)
        ensures |p| <= 1
      {
        if |p| > 1 { assert p[1] in g[p[0]] && p[1] < p[0]; PathDescends(g, p[1..]); }
      }
    }
  }

  lemma {:induction false} PathDescends(g: Graph, p: seq<nat>)
    requires IsPath(g, p) && forall n, m :: 0 <= n < |g| && m in g[n] ==> m < n
    ensures p[|p| - 1] <= p[0]
    decreases |p|
  {
    if |p| > 1 {
      assert p[1] in g[p[0]];
      PathDescends(g, p[1..]);
    }
  }

  lemma HiddenReturnPushes()
    ensures var none: seq<MethodId>, one := [], [MethodId(1, 0)];
            && PushOwn(HIDDEN_RETURN, none, 2, 0, true) == none
            && PushOwn(HIDDEN_RETURN, none, 1, 0, true) == one
            && PushOwn(HIDDEN_RETURN, one, 0, 0, false) == one
  {
    var k := HIDDEN_RETURN;
    var none: seq<MethodId> := [];
    var one := [MethodId(1, 0)];
    assert PushOwn(k, none, 2, 1, true) == none;
    assert !Covers(k, none, Signature("m", []));
    assert PushUnique(k, none, MethodId(1, 0)) == one;
    assert PushOwn(k, one, 1, 1, true) == one;
    assert SignatureOf(MethodAt(k, one[0])) == Signature("m", []);
    assert Covers(k, one, Signature("m", []));
    assert PushOwn(k, one, 0, 1, false) == one;
  }

  lemma HiddenReturnRequires()
    ensures Rooted(Superclasses(HIDDEN_RETURN)) && Required(HIDDEN_RETURN, 2) == [MethodId(1, 0)]
  {
    var k := HIDDEN_RETURN;
    HiddenReturnRooted();
    LineageOfStep(Superclasses(k), 2);
    LineageOfStep(Superclasses(k), 1);
    HiddenReturnPushes();
    hide PushOwn, LineageOf;
    var none: seq<MethodId> := [];
    var one := [MethodId(1, 0)];
    var start := Collected(one, {});
    assert [0][..0] + ([] + Reverse([])) == [];
    assert CollectInterfaces(k, [], Collected(one, {} + {0})) == Collected(one, {} + {0});
    assert CollectInterfaces(k, [0], start) == Collected(one, {} + {0});
    assert [0][1..] == [] && CollectEach(k, [], Collected(one, {} + {0})) == Collected(one, {} + {0});
    assert CollectEach(k, [0], start) == Collected(one, {} + {0});
    assert RequiredFrom(k, 1, Collected(none, {})).required == one;
    assert CollectEach(k, [], Collected(none, {})) == Collected(none, {});
  }

  lemma HiddenReturnNearest()
    ensures Rooted(Superclasses(HIDDEN_RETURN))
    ensures Nearest(HIDDEN_RETURN, 1, Signature("m", [])) == Some(MethodId(1, 0))
    ensures Nearest(HIDDEN_RETURN, 2, Signature("m", [])) == Some(MethodId(2, 0))
  {
    HiddenReturnRooted();
  }

  lemma HiddenReturnAccepted()
    ensures Accepted(HIDDEN_RETURN)
  {
    hide Nearest, Required, Covers, RequiredFrom, LineageOf;
    HiddenReturnRequires();
    HiddenReturnNearest();
    var k := HIDDEN_RETURN;
    forall c, i | 0 <= c < |k| && Concrete(k, c) && 0 <= i < |Required(k, c)|
      ensures Implemented(k, c, Required(k, c)[i])
    {
      assert c == 2 && Required(k, c)[i] == MethodId(1, 0);
    }
    forall c, i | 0 <= c < |k| && 0 <= i < |k[c].methods|
      ensures MethodAccepted(k, c, i)
    {
      assert i == 0;
    }
  }

  /** Accepted, yet a call through the interface that promises an Integer runs a method returning a
      String. */
  lemma HiddenReturnDiffers()
    ensures Accepted(HIDDEN_RETURN) && Reaches(Supertypes(HIDDEN_RETURN), 2, 0)
    ensures MethodAt(HIDDEN_RETURN, MethodId(0, 0)).returnType == RValue(TInteger)
    ensures MethodAt(HIDDEN_RETURN, DispatchTarget(HIDDEN_RETURN, 2, MethodId(0, 0))).returnType == RValue(TString)
  {
    hide Nearest, Required, Covers, RequiredFrom, LineageOf, Accepted, Rooted, DispatchTarget;
    HiddenReturnAccepted();
    HiddenReturnNearest();
    var g := Supertypes(HIDDEN_RETURN);
    assert g[2] == [1] && g[1] == [0];
    assert IsPathBetween(g, [2, 1, 0], 2, 0);
    TargetIsNearest(HIDDEN_RETURN, 2, MethodId(0, 0));
  }
}
