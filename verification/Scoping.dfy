/** How the checker's scopes and the interpreter's scopes agree: looking a name up among the checker's
    finds a type only if looking it up at run time finds a slot of just that type. The interpreter may
    have more scopes, and names the checker does not see, because a block or a handler pushes its
    scope at a different moment; that does no harm as long as what the checker does see is found.
    Entering a scope, declaring a name and storing a value keep the agreement and keep every slot at
    its declared type. */
module Scoping {
  import opened Wrappers
  import opened Syntax
  import opened Values
  import opened Typing
  import opened Checker
  import opened Conformance
  import opened ContextKept

  /** Every name the checker sees is bound at run time, with the same declared type. */
  ghost predicate Agree(types: seq<TypeScope>, scopes: seq<Scope>) {
    forall x :: LookupType(types, x).Some? ==>
      Lookup(scopes, x).Some? && Lookup(scopes, x).value.ty == LookupType(types, x).value
  }

  lemma {:induction false} LookupShape(a: seq<Scope>, b: seq<Scope>, x: Name)
    requires ScopesKept(a, b)
    ensures Lookup(a, x).Some? <==> Lookup(b, x).Some?
    ensures Lookup(a, x).Some? ==> Lookup(a, x).value.ty == Lookup(b, x).value.ty
  {
    if a != [] {
      assert SameShape(a[|a| - 1], b[|b| - 1]);
      LookupShape(a[..|a| - 1], b[..|b| - 1], x);
    }
  }

  lemma AgreeKept(types: seq<TypeScope>, a: seq<Scope>, b: seq<Scope>)
    requires Agree(types, a) && ScopesKept(a, b)
    ensures Agree(types, b)
  {
    forall x | LookupType(types, x).Some?
      ensures Lookup(b, x).Some? && Lookup(b, x).value.ty == LookupType(types, x).value
    {
      LookupShape(a, b, x);
    }
  }

  /** Entering a scope on both sides. */
  lemma AgreePush(types: seq<TypeScope>, scopes: seq<Scope>, typeScope: TypeScope, scope: Scope)
    requires Agree(types, scopes)
    requires typeScope.Keys <= scope.Keys && scope.Keys <= typeScope.Keys
    requires forall x :: x in typeScope ==> scope[x].ty == typeScope[x]
    ensures Agree(types + [typeScope], scopes + [scope])
  {
    assert (types + [typeScope])[..|types|] == types;
    assert (scopes + [scope])[..|scopes|] == scopes;
  }

  /** The interpreter may have an extra empty scope on top. */
  lemma AgreePushEmpty(types: seq<TypeScope>, scopes: seq<Scope>)
    requires Agree(types, scopes)
    ensures Agree(types, scopes + [map[]])
  {
    assert (scopes + [map[]])[..|scopes|] == scopes;
  }

  /** Declaring a name on both sides. */
  lemma AgreeBind(types: seq<TypeScope>, scopes: seq<Scope>, name: Name, ty: Type, value: Value)
    requires Agree(types, scopes) && types != [] && scopes != []
    ensures Agree(BindType(types, name, ty), Bind(scopes, name, Slot(ty, value)))
  {
    var t := BindType(types, name, ty);
    var s := Bind(scopes, name, Slot(ty, value));
    assert t[..|t| - 1] == types[..|types| - 1];
    assert s[..|s| - 1] == scopes[..|scopes| - 1];
    forall x | LookupType(t, x).Some?
      ensures Lookup(s, x).Some? && Lookup(s, x).value.ty == LookupType(t, x).value
    {
      if x != name {
        assert LookupType(types, x) == LookupType(t, x);
        assert Lookup(scopes, x) == Lookup(s, x);
      }
    }
  }

  lemma BindOk(a: Allowance, classes: ClassTable, lists: Lists, scopes: seq<Scope>, name: Name, slot: Slot)
    requires ScopesOk(a, classes, lists, scopes) && scopes != []
    requires Holds(a, classes, lists, slot.value, slot.ty)
    ensures ScopesOk(a, classes, lists, Bind(scopes, name, slot))
  {
    var last := |scopes| - 1;
    assert ScopeOk(a, classes, lists, scopes[last]);
  }

  lemma {:induction false} LookupOk(a: Allowance, classes: ClassTable, lists: Lists, scopes: seq<Scope>, x: Name)
    requires ScopesOk(a, classes, lists, scopes) && Lookup(scopes, x).Some?
    ensures Holds(a, classes, lists, Lookup(scopes, x).value.value, Lookup(scopes, x).value.ty)
  {
    var last := |scopes| - 1;
    assert ScopeOk(a, classes, lists, scopes[last]);
    if x !in scopes[last] {
      LookupOk(a, classes, lists, scopes[..last], x);
    }
  }

  lemma {:induction false} StoreOk(a: Allowance, classes: ClassTable, lists: Lists, scopes: seq<Scope>, x: Name, value: Value)
    requires ScopesOk(a, classes, lists, scopes) && Lookup(scopes, x).Some?
    requires Holds(a, classes, lists, value, Lookup(scopes, x).value.ty)
    ensures ScopesOk(a, classes, lists, Store(scopes, x, value))
  {
    var last := |scopes| - 1;
    assert ScopeOk(a, classes, lists, scopes[last]);
    if x !in scopes[last] {
      StoreOk(a, classes, lists, scopes[..last], x, value);
    }
  }

  // ---------------------------------------------------------------- places

  /** The place exists and was declared with the type; a list place may be out of bounds only if the
      program can shorten lists. */
  ghost predicate PlaceOk(a: Allowance, st: State, place: Place, ty: Type) {
    match place
    case LocalPlace(name) => Lookup(st.scopes, name).Some? && Lookup(st.scopes, name).value.ty == ty
    case ListPlace(id, index) =>
      id < |st.lists| && st.lists[id].element == ty && (a.shrink || index < |st.lists[id].elements|)
  }

  lemma PlaceOkLater(a: Allowance, before: State, after: State, place: Place, ty: Type)
    requires PlaceOk(a, before, place, ty) && Kept(before, after) && NoShrink(a, before.lists, after.lists)
    ensures PlaceOk(a, after, place, ty)
  {
    if place.LocalPlace? {
      LookupShape(before.scopes, after.scopes, place.name);
    }
  }

  lemma ReadPlaceDelivers(a: Allowance, classes: ClassTable, st: State, place: Place, ty: Type)
    requires StateOk(a, classes, st) && PlaceOk(a, st, place, ty)
    ensures Safe(a, st.lists, ReadPlace(st, place))
    ensures ReadPlace(st, place).Done? ==> Holds(a, classes, st.lists, ReadPlace(st, place).value, ty)
  {
    if place.LocalPlace? {
      LookupOk(a, classes, st.lists, st.scopes, place.name);
    }
  }

  lemma SetElementsOk(a: Allowance, classes: ClassTable, st: State, id: nat, elements: seq<Value>)
    requires StateOk(a, classes, st) && id < |st.lists|
    requires forall i :: 0 <= i < |elements| ==> Holds(a, classes, st.lists, elements[i], st.lists[id].element)
    requires a.shrink || |elements| >= |st.lists[id].elements|
    ensures StateOk(a, classes, st.(lists := SetElements(st.lists, id, elements)))
    ensures NoShrink(a, st.lists, SetElements(st.lists, id, elements))
  {
    var lists := SetElements(st.lists, id, elements);
    hide Oversized;
    if Oversized(a, st.lists) { OversizedLater(a, st.lists, lists); }
    forall v, t | Holds(a, classes, st.lists, v, t)
      ensures Holds(a, classes, lists, v, t)
    {
    }
    forall j, x | 0 <= j < |st.scopes| && x in st.scopes[j]
      ensures Holds(a, classes, lists, st.scopes[j][x].value, st.scopes[j][x].ty)
    {
      assert ScopeOk(a, classes, st.lists, st.scopes[j]);
    }
  }

  /** Writing a converted value keeps every slot and element at its declared type. */
  lemma WritePlaceDelivers(a: Allowance, classes: ClassTable, st: State, place: Place, ty: Type, value: Value)
    requires StateOk(a, classes, st) && PlaceOk(a, st, place, ty)
    requires Holds(a, classes, st.lists, TypedValue(value, ty), ty)
    ensures var r := WritePlace(st, place, value);
            && StateOk(a, classes, r.st) && NoShrink(a, st.lists, r.st.lists)
            && Safe(a, r.st.lists, r.out) && (r.out.Done? ==> r.out.value == TypedValue(value, ty))
            && (r.out.Done? ==> Holds(a, classes, r.st.lists, r.out.value, ty))
  {
    match place
    case LocalPlace(name) =>
      StoreOk(a, classes, st.lists, st.scopes, name, TypedValue(value, ty));
    case ListPlace(id, index) =>
      if index < |st.lists[id].elements| {
        var elements := st.lists[id].elements[index := TypedValue(value, ty)];
        SetElementsOk(a, classes, st, id, elements);
      }
  }
}
