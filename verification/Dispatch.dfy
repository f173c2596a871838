/** Virtual dispatch, and the method contracts that make it succeed. */
module Dispatch {
  import opened Wrappers
  import opened ClassGraph
  import opened Syntax
  import opened Declarations
  import opened Lineage

  datatype MethodDeclaration = MethodDeclaration(
    name: Name, parameters: seq<Type>, returnType: ReturnType, access: nat,
    isStatic: bool, isVirtual: bool, isAbstract: bool, isOverride: bool, hasBody: bool)

  datatype ClassInfo = ClassInfo(
    kind: Kind, isAbstract: bool, superclass: Option<nat>, interfaces: seq<nat>, methods: seq<MethodDeclaration>)

  type Classes = k: seq<ClassInfo> | LinksWithin(k) witness []

  predicate LinksWithin(k: seq<ClassInfo>) {
    && (forall c :: 0 <= c < |k| && k[c].superclass.Some? ==> k[c].superclass.value < |k|)
    && (forall c, i :: 0 <= c < |k| && 0 <= i < |k[c].interfaces| ==> k[c].interfaces[i] < |k|)
  }

  datatype Signature = Signature(name: Name, parameters: seq<Type>)

  /** A declared method: its class and its position there. */
  datatype MethodId = MethodId(classId: nat, index: nat)

  predicate IsMethod(k: Classes, m: MethodId) {
    m.classId < |k| && m.index < |k[m.classId].methods|
  }

  function MethodAt(k: Classes, m: MethodId): MethodDeclaration
    requires IsMethod(k, m)
  {
    k[m.classId].methods[m.index]
  }

  function SignatureOf(m: MethodDeclaration): Signature {
    Signature(m.name, m.parameters)
  }

  function Superclasses(k: Classes): (p: Parents)
    ensures |p| == |k| && forall c :: 0 <= c < |p| ==> p[c] == k[c].superclass
  {
    seq(|k|, c requires 0 <= c < |k| => k[c].superclass)
  }

  function Supertypes(k: Classes): (g: Graph)
    ensures |g| == |k|
    ensures forall c :: 0 <= c < |g| ==> g[c] == (if k[c].superclass.Some? then [k[c].superclass.value] else []) + k[c].interfaces
  {
    seq(|k|, c requires 0 <= c < |k| => (if k[c].superclass.Some? then [k[c].superclass.value] else []) + k[c].interfaces)
  }

  // ---------------------------------------------------------------- the nearest declaration

  /** The first method at or after `from` with the signature, or the number of methods. */
  function OwnIndex(methods: seq<MethodDeclaration>, s: Signature, from: nat): (i: nat)
    requires from <= |methods|
    ensures from <= i <= |methods| && (i < |methods| ==> SignatureOf(methods[i]) == s)
    ensures forall j :: from <= j < i ==> SignatureOf(methods[j]) != s
    decreases |methods| - from
  {
    if from == |methods| || SignatureOf(methods[from]) == s then from else OwnIndex(methods, s, from + 1)
  }

  /** The declaration nearest to `c`, upward through the superclasses, body or not. */
  ghost function Nearest(k: Classes, c: nat, s: Signature): (r: Option<MethodId>)
    requires Rooted(Superclasses(k)) && c < |k|
    ensures r.Some? ==> IsMethod(k, r.value) && SignatureOf(MethodAt(k, r.value)) == s
    decreases |LineageOf(Superclasses(k), c)|
  {
    LineageOfStep(Superclasses(k), c);
    var i := OwnIndex(k[c].methods, s, 0);
    if i < |k[c].methods| then Some(MethodId(c, i))
    else if k[c].superclass.None? then None
    else Nearest(k, k[c].superclass.value, s)
  }

  // ---------------------------------------------------------------- the checker's contracts

  /** What the class requires: its methods without a body, its superclasses' and those of all its
      interfaces; of several with one signature only the first. */
  function PushUnique(k: Classes, required: seq<MethodId>, m: MethodId): (r: seq<MethodId>)
    requires IsMethod(k, m) && forall i :: 0 <= i < |required| ==> IsMethod(k, required[i])
    ensures required <= r && (forall i :: 0 <= i < |r| ==> IsMethod(k, r[i])) && Covers(k, r, SignatureOf(MethodAt(k, m)))
  {
    if Covers(k, required, SignatureOf(MethodAt(k, m))) then required
    else
      assert (required + [m])[|required|] == m;
      required + [m]
  }

  predicate Covers(k: Classes, required: seq<MethodId>, s: Signature) {
    exists i :: 0 <= i < |required| && IsMethod(k, required[i]) && SignatureOf(MethodAt(k, required[i])) == s
  }

  /** Pushes the methods of one type from position `from`; only those without a body if `abstractOnly`. */
  function PushOwn(k: Classes, required: seq<MethodId>, c: nat, from: nat, abstractOnly: bool): (r: seq<MethodId>)
    requires c < |k| && from <= |k[c].methods| && forall i :: 0 <= i < |required| ==> IsMethod(k, required[i])
    ensures required <= r && forall i :: 0 <= i < |r| ==> IsMethod(k, r[i])
    ensures forall j :: from <= j < |k[c].methods| && !(abstractOnly && k[c].methods[j].hasBody) ==>
              Covers(k, r, SignatureOf(k[c].methods[j]))
    decreases |k[c].methods| - from
  {
    if from == |k[c].methods| then required
    else if abstractOnly && k[c].methods[from].hasBody then PushOwn(k, required, c, from + 1, abstractOnly)
    else
      var next := PushUnique(k, required, MethodId(c, from));
      var r := PushOwn(k, next, c, from + 1, abstractOnly);
      CoversMore(k, next, r);
      r
  }

  lemma CoversMore(k: Classes, a: seq<MethodId>, b: seq<MethodId>)
    requires a <= b
    ensures forall s :: Covers(k, a, s) ==> Covers(k, b, s)
  {
    forall s | Covers(k, a, s)
      ensures Covers(k, b, s)
    {
      var i :| 0 <= i < |a| && IsMethod(k, a[i]) && SignatureOf(MethodAt(k, a[i])) == s;
      assert b[i] == a[i];
    }
  }

  function Reverse(s: seq<nat>): (r: seq<nat>)
    ensures |r| == |s| && (forall i :: 0 <= i < |r| ==> r[i] == s[|s| - 1 - i]) && (forall n :: n in r <==> n in s)
  {
    var r := seq(|s|, i requires 0 <= i < |s| => s[|s| - 1 - i]);
    assert forall i :: 0 <= i < |s| ==> s[i] == r[|s| - 1 - i];
    r
  }

  datatype Collected = Collected(required: seq<MethodId>, visited: set<nat>)

  /** The worklist over an interface and everything it extends; the end of `pending` is the top. */
  function CollectInterfaces(k: Classes, pending: seq<nat>, so: Collected): (r: Collected)
    requires Within(Supertypes(k), pending) && forall i :: 0 <= i < |so.required| ==> IsMethod(k, so.required[i])
    ensures so.required <= r.required && forall i :: 0 <= i < |r.required| ==> IsMethod(k, r.required[i])
    ensures so.visited <= r.visited
    decreases Below(|k|) - so.visited, |pending|
  {
    if pending == [] then so
    else
      var n := pending[|pending| - 1];
      var rest := pending[..|pending| - 1];
      if n in so.visited then CollectInterfaces(k, rest, so)
      else
        assert n in Below(|k|);
        var above := (if k[n].superclass.Some? then [k[n].superclass.value] else []) + Reverse(k[n].interfaces);
        CollectInterfaces(k, rest + above, Collected(PushOwn(k, so.required, n, 0, false), so.visited + {n}))
  }

  function CollectEach(k: Classes, interfaces: seq<nat>, so: Collected): (r: Collected)
    requires Within(Supertypes(k), interfaces) && forall i :: 0 <= i < |so.required| ==> IsMethod(k, so.required[i])
    ensures so.required <= r.required && forall i :: 0 <= i < |r.required| ==> IsMethod(k, r.required[i])
    ensures so.visited <= r.visited
    decreases |interfaces|
  {
    if interfaces == [] then so
    else CollectEach(k, interfaces[1..], CollectInterfaces(k, [interfaces[0]], so))
  }

  ghost function RequiredFrom(k: Classes, c: nat, so: Collected): (r: Collected)
    requires Rooted(Superclasses(k)) && c < |k| && forall i :: 0 <= i < |so.required| ==> IsMethod(k, so.required[i])
    ensures so.required <= r.required && forall i :: 0 <= i < |r.required| ==> IsMethod(k, r.required[i])
    decreases |LineageOf(Superclasses(k), c)|
  {
    LineageOfStep(Superclasses(k), c);
    var own := Collected(PushOwn(k, so.required, c, 0, true), so.visited);
    var faces := CollectEach(k, k[c].interfaces, own);
    if k[c].superclass.None? then faces else RequiredFrom(k, k[c].superclass.value, faces)
  }

  ghost function Required(k: Classes, c: nat): (r: seq<MethodId>)
    requires Rooted(Superclasses(k)) && c < |k|
    ensures forall i :: 0 <= i < |r| ==> IsMethod(k, r[i])
  {
    RequiredFrom(k, c, Collected([], {})).required
  }

  /** Interface methods without a modifier count as public. */
  function Access(k: Classes, m: MethodId): nat
    requires IsMethod(k, m)
  {
    if k[m.classId].kind.InterfaceKind? && MethodAt(k, m).access == 0 then 2 else MethodAt(k, m).access
  }

  ghost predicate Implemented(k: Classes, c: nat, required: MethodId)
    requires Rooted(Superclasses(k)) && c < |k| && IsMethod(k, required)
  {
    var candidate := Nearest(k, c, SignatureOf(MethodAt(k, required)));
    && candidate.Some?
    && MethodAt(k, candidate.value).returnType == MethodAt(k, required).returnType
    && MethodAt(k, candidate.value).hasBody && !MethodAt(k, candidate.value).isAbstract
    && Access(k, candidate.value) >= Access(k, required)
  }

  ghost predicate Concrete(k: Classes, c: nat)
    requires c < |k|
  {
    k[c].kind.ClassKind? && !k[c].isAbstract
  }

  /** An override has an overridable method above with the same return type and no more access; in a
      class nothing else may repeat an inherited instance signature. */
  ghost predicate MethodAccepted(k: Classes, c: nat, i: nat)
    requires Rooted(Superclasses(k)) && c < |k| && i < |k[c].methods|
  {
    var m := k[c].methods[i];
    var inherited := if k[c].superclass.None? then None else Nearest(k, k[c].superclass.value, SignatureOf(m));
    if m.isOverride then
      && inherited.Some?
      && var base := MethodAt(k, inherited.value);
         && !base.isStatic && (base.isVirtual || base.isAbstract || k[inherited.value.classId].kind.InterfaceKind?)
         && m.returnType == base.returnType && m.access >= base.access
    else
      inherited.Some? && !m.isStatic ==> !k[c].kind.ClassKind?
  }

  ghost predicate Accepted(k: Classes) {
    && Rooted(Superclasses(k))
    && (forall c :: 0 <= c < |k| ==> LinkKinds(k, c))
    && (forall c, i :: 0 <= c < |k| && 0 <= i < |k[c].methods| ==> MethodAccepted(k, c, i))
    && (forall c, i :: 0 <= c < |k| && Concrete(k, c) && 0 <= i < |Required(k, c)| ==> Implemented(k, c, Required(k, c)[i]))
  }

  /** Classes extend classes, interfaces extend interfaces, and only interfaces are implemented. */
  ghost predicate LinkKinds(k: Classes, c: nat)
    requires c < |k|
  {
    && (k[c].superclass.Some? ==> k[k[c].superclass.value].kind == k[c].kind)
    && (forall i :: 0 <= i < |k[c].interfaces| ==> k[k[c].interfaces[i]].kind.InterfaceKind?)
    && (k[c].kind.EnumKind? ==> k[c].superclass.None? && k[c].interfaces == [])
  }

  /** Static and instance methods never share a signature with an inherited method. */
  ghost predicate NoStaticClash(k: Classes) {
    Rooted(Superclasses(k)) &&
    forall c, i :: 0 <= c < |k| && 0 <= i < |k[c].methods| && k[c].superclass.Some? ==>
      var inherited := Nearest(k, k[c].superclass.value, SignatureOf(k[c].methods[i]));
      inherited.Some? ==> MethodAt(k, inherited.value).isStatic == k[c].methods[i].isStatic
  }

  // ---------------------------------------------------------------- the interpreter's search

  /** The first method of the class with the signature and a body, or the number of methods. */
  function BodyIndex(methods: seq<MethodDeclaration>, s: Signature, from: nat): (i: nat)
    requires from <= |methods|
    ensures from <= i <= |methods| && (i < |methods| ==> SignatureOf(methods[i]) == s && methods[i].hasBody)
    ensures forall j :: from <= j < i ==> SignatureOf(methods[j]) != s || !methods[j].hasBody
    decreases |methods| - from
  {
    if from == |methods| || (SignatureOf(methods[from]) == s && methods[from].hasBody) then from
    else BodyIndex(methods, s, from + 1)
  }

  /** Upward from the dynamic class to the declaring class, which may not be on the way. */
  ghost function DispatchTarget(k: Classes, c: nat, declared: MethodId): (r: MethodId)
    requires Rooted(Superclasses(k)) && c < |k| && IsMethod(k, declared)
    ensures IsMethod(k, r) && SignatureOf(MethodAt(k, r)) == SignatureOf(MethodAt(k, declared))
    decreases |LineageOf(Superclasses(k), c)|
  {
    LineageOfStep(Superclasses(k), c);
    var i := BodyIndex(k[c].methods, SignatureOf(MethodAt(k, declared)), 0);
    if i < |k[c].methods| then MethodId(c, i)
    else if c == declared.classId || k[c].superclass.None? then declared
    else DispatchTarget(k, k[c].superclass.value, declared)
  }

  method VirtualMethodTarget(k: Classes, dynamicClass: nat, declared: MethodId) returns (r: MethodId)
    requires Rooted(Superclasses(k)) && dynamicClass < |k| && IsMethod(k, declared)
    ensures r == DispatchTarget(k, dynamicClass, declared)
  {
    var s := SignatureOf(MethodAt(k, declared));
    var cursor: Option<nat> := Some(dynamicClass);
    while cursor.Some?
      invariant cursor.Some? ==> cursor.value < |k| && DispatchTarget(k, dynamicClass, declared) == DispatchTarget(k, cursor.value, declared)
      invariant cursor.None? ==> DispatchTarget(k, dynamicClass, declared) == declared
      decreases if cursor.Some? then |LineageOf(Superclasses(k), cursor.value)| else 0, cursor.Some?
    {
      var c := cursor.value;
      LineageOfStep(Superclasses(k), c);
      var i := 0;
      while i < |k[c].methods|
        invariant 0 <= i <= |k[c].methods|
        invariant forall j :: 0 <= j < i ==> SignatureOf(k[c].methods[j]) != s || !k[c].methods[j].hasBody
      {
        if SignatureOf(k[c].methods[i]) == s && k[c].methods[i].hasBody {
          return MethodId(c, i);
        }
        i := i + 1;
      }
      if c == declared.classId {
        break;
      }
      cursor := k[c].superclass;
    }
    r := declared;
  }
}
