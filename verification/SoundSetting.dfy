/** The setting of the soundness argument and the invariants it carries through a run. A setting fixes
    the program, its checked form, the allowance read off its syntax, and the context and scopes in
    which the checker stands at the current point. `Ready` says that a state fits what the checker
    assumed there; `Steps` says what every computation leaves behind: the context as it was, every
    stored value at its type, and no list shortened unless the program can shorten lists. The
    predicates that the lemmas about expressions share, `Judged` before and `Evaluates` after, are
    defined here once, so that those lemmas can hide what they consist of and proofs stay small. */
module SoundSetting {
  import opened Wrappers
  import opened Syntax
  import opened Shapes
  import opened Values
  import opened Semantics
  import opened Typing
  import opened Checker
  import opened ContextKept
  import opened Conformance
  import opened Permits
  import opened Scoping

  /** What stays fixed in an argument: the environment running the checked form of `source`, the
      allowances of `source`, and the context and scopes the checker is in. */
  datatype Setting = Setting(env: Env, source: Program, allowance: Allowance, cx: Context, types: seq<TypeScope>)

  /** The environment runs the checked form of `source`, whose methods were all accepted. */
  ghost predicate Valid(w: Setting) {
    && w.env.program.classes == w.source.classes
    && |w.env.program.methods| == |w.source.methods|
    && w.cx.classes == w.source.classes && w.cx.methods == w.source.methods
    && forall i :: 0 <= i < |w.source.methods| ==> MethodOk(w, i)
  }

  ghost predicate MethodOk(w: Setting, i: nat)
    requires i < |w.source.methods| == |w.env.program.methods|
  {
    var m := w.source.methods[i];
    && CheckMethod(Context(w.source.classes, w.source.methods, 0, None), m) == Ok(w.env.program.methods[i])
    && Parsed(m.body) && Scoped(m.body) && PermitsStmt(w.allowance, m.body)
  }

  /** The state fits what the checker assumed. */
  ghost predicate Ready(w: Setting, st: State) {
    StateOk(w.allowance, w.source.classes, st) && Agree(w.types, st.scopes)
  }

  /** A computation gave the context back and kept every stored value well typed. */
  ghost predicate Steps(w: Setting, before: State, after: State) {
    && Kept(before, after)
    && StateOk(w.allowance, w.source.classes, after)
    && NoShrink(w.allowance, before.lists, after.lists)
  }

  ghost predicate Sound(w: Setting, st: State, r: Res<Value>, ty: ExprType) {
    Steps(w, st, r.st) && Delivers(w.allowance, w.source.classes, r.st.lists, r.out, ty)
  }

  /** The checker accepts the expression in this setting and the state is as it assumed. */
  ghost predicate Judged(w: Setting, e: Expr, st: State) {
    Valid(w) && Ready(w, st) && PermitsExpr(w.allowance, e) && CheckExpr(w.cx, w.types, e).Ok?
  }

  /** The checked form of the expression evaluates safely to a value of its type. */
  ghost predicate Evaluates(w: Setting, e: Expr, st: State, fuel: nat)
    requires CheckExpr(w.cx, w.types, e).Ok?
  {
    var t := CheckExpr(w.cx, w.types, e).value;
    Sound(w, st, Eval(w.env, t.expr, st, fuel), t.ty)
  }

  lemma StepsReflexive(w: Setting, st: State)
    requires StateOk(w.allowance, w.source.classes, st)
    ensures Steps(w, st, st)
  {
  }

  lemma StepsTransitive(w: Setting, x: State, y: State, z: State)
    requires Steps(w, x, y) && Steps(w, y, z)
    ensures Steps(w, x, z)
  {
    KeptTransitive(x, y, z);
  }

  lemma ReadyLater(w: Setting, before: State, after: State)
    requires Ready(w, before) && Steps(w, before, after)
    ensures Ready(w, after)
  {
    AgreeKept(w.types, before.scopes, after.scopes);
  }

  // ---------------------------------------------------------------- one effect on a sound state

  lemma ListMethodSteps(w: Setting, st: State, receiver: Value, method_: ListMethod, arguments: seq<Value>, element: Type)
    requires StateOk(w.allowance, w.source.classes, st)
    requires Conforms(w.allowance, w.source.classes, st.lists, receiver, EValue(TList(element)))
    requires |arguments| == ListArity(method_)
    requires method_.ListAdd? ==> Holds(w.allowance, w.source.classes, st.lists, TypedValue(arguments[0], element), element)
    requires (method_.ListClear? ==> w.allowance.shrink) && (method_.ListSize? ==> w.allowance.sizes)
    ensures Sound(w, st, CallListMethod(st, receiver, method_, arguments),
                  if method_.ListSize? then EValue(TInteger) else EVoid)
  {
    ListMethodKeeps(st, receiver, method_, arguments);
    if receiver.VCollection? {
      var list := st.lists[receiver.id];
      match method_
      case ListAdd =>
        SetElementsOk(w.allowance, w.source.classes, st, receiver.id, list.elements + [TypedValue(arguments[0], list.element)]);
      case ListClear => SetElementsOk(w.allowance, w.source.classes, st, receiver.id, []);
      case ListSize =>
    }
  }

  lemma AllocateSteps(w: Setting, st: State, element: Type, elements: seq<Value>)
    requires StateOk(w.allowance, w.source.classes, st)
    requires forall i :: 0 <= i < |elements| ==>
               Holds(w.allowance, w.source.classes, st.lists, TypedValue(elements[i], element), element)
    ensures Sound(w, st, Allocate(st, element, elements), EValue(TList(element)))
  {
    var a, classes := w.allowance, w.source.classes;
    var r := Allocate(st, element, elements);
    ScopesOkLater(a, classes, st.lists, r.st.lists, st.scopes);
    forall id, i | 0 <= id < |r.st.lists| && 0 <= i < |r.st.lists[id].elements|
      ensures Holds(a, classes, r.st.lists, r.st.lists[id].elements[i], r.st.lists[id].element)
    {
      if id < |st.lists| {
        HoldsLater(a, classes, st.lists, r.st.lists, st.lists[id].elements[i], st.lists[id].element);
      } else {
        HoldsLater(a, classes, st.lists, r.st.lists, TypedValue(elements[i], element), element);
      }
    }
  }

  lemma DebugSteps(w: Setting, st: State, value: Value, ty: ExprType)
    requires StateOk(w.allowance, w.source.classes, st)
    requires Conforms(w.allowance, w.source.classes, st.lists, value, ty) && !ty.EVoid?
    ensures Sound(w, st, DebugLine(w.env.host, st, value), EVoid)
  {
  }

  lemma ExceptionDelivers(w: Setting, lists: Lists, ty: Type, value: Value)
    requires IsExceptionType(w.source.classes, ty) && Conforms(w.allowance, w.source.classes, lists, value, EValue(TString))
    ensures Delivers(w.allowance, w.source.classes, lists, ExceptionValue(ty, value), EValue(ty))
  {
  }

  lemma ReadElementDelivers(w: Setting, st: State, list: Value, index: Value, element: Type)
    requires StateOk(w.allowance, w.source.classes, st)
    requires Conforms(w.allowance, w.source.classes, st.lists, list, EValue(TList(element)))
    requires Conforms(w.allowance, w.source.classes, st.lists, index, EValue(TInteger))
    ensures Delivers(w.allowance, w.source.classes, st.lists, ReadElement(st.lists, list, index), EValue(element))
  {
    PositionSafe(w.allowance, w.source.classes, st.lists, list, index, element, false);
  }

  function Checked(w: Setting, e: Expr): Typed
    requires CheckExpr(w.cx, w.types, e).Ok?
  {
    CheckExpr(w.cx, w.types, e).value
  }
}
