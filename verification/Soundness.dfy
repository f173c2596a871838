/** Type soundness, by induction on fuel and syntax. For each form of expression, the checked form is
    evaluated in a state that fits the checker's scopes, and the outcome is a value of the recorded
    type, an Apex exception, or an escape that the allowance covers. For each form of statement the
    same is said of the way it ends. The lemmas about one form each rely on `ExprRules` and
    `StmtRules` to unfold the checker and the interpreter, so that their proofs see only the parts of
    that form. */
module Soundness {
  import opened Wrappers
  import opened Syntax
  import opened Shapes
  import opened Values
  import opened Semantics
  import opened Typing
  import opened Checker
  import opened ContextKept
  import opened Conformance
  import opened Permits
  import opened Scoping
  import opened SoundSetting
  import opened ExprRules
  import opened StmtRules
  import opened CompletionSound
  import opened ShapeKept
  import opened ContextRestored
  import opened FlowSetting

  // ---------------------------------------------------------------- expressions

  /** An accepted expression never reaches an internal error, and its value has the recorded type. */
  lemma {:induction false} EvalSound(w: Setting, e: Expr, st: State, fuel: nat)
    requires Judged(w, e, st)
    ensures Evaluates(w, e, st, fuel)
    decreases fuel, e, 2
  {
    hide Judged, Evaluates, Eval, CheckExpr;
    match e
    case StringLit(_) => LiteralSound(w, e, st, fuel);
    case BoolLit(_) => LiteralSound(w, e, st, fuel);
    case IntLit(_) => LiteralSound(w, e, st, fuel);
    case LongLit(_) => LiteralSound(w, e, st, fuel);
    case NullLit => LiteralSound(w, e, st, fuel);
    case Var(_) => VarSound(w, e, st, fuel);
    case Assignment(_, _, _, _) => AssignmentSound(w, e, st, fuel);
    case Mutation(_, _, _) => MutationSound(w, e, st, fuel);
    case NewList(_, _) => NewListSound(w, e, st, fuel);
    case NewException(_, _) => NewExceptionSound(w, e, st, fuel);
    case Index(_, _) => IndexSound(w, e, st, fuel);
    case Call(_, _, _) => CallSound(w, e, st, fuel);
    case ListCall(_, _, _) => ListCallSound(w, e, st, fuel);
    case Debug(_) => DebugSound(w, e, st, fuel);
    case Cast(_, _) => CastSound(w, e, st, fuel);
    case Conditional(_, _, _) => ConditionalSound(w, e, st, fuel);
    case NullCoalesce(_, _) => CoalesceSound(w, e, st, fuel);
    case Unary(op, _, _) => if op.Not? { NotSound(w, e, st, fuel); } else { SignSound(w, e, st, fuel); }
    case Binary(_, op, _, _) =>
      if op.And? || op.Or? { LazySound(w, e, st, fuel); } else { StrictSound(w, e, st, fuel); }
  }

  /** Two expressions in a row: the first value still has its type after the second ran. */
  lemma {:induction false} PairSound(w: Setting, left: Expr, right: Expr, st: State, fuel: nat, parent: Expr)
    requires Judged(w, left, st) && Judged(w, right, st) && left < parent && right < parent
    ensures Evaluates(w, left, st, fuel)
    ensures var l := Eval(w.env, Checked(w, left).expr, st, fuel);
            l.out.Done? ==>
              && Evaluates(w, right, l.st, fuel)
              && var r := Eval(w.env, Checked(w, right).expr, l.st, fuel);
                 && Steps(w, st, r.st)
                 && Conforms(w.allowance, w.source.classes, r.st.lists, l.out.value, Checked(w, left).ty)
    decreases fuel, parent, 0
  {
    hide Eval, CheckExpr, StateOk, PermitsExpr, Conforms, Valid, Safe;
    EvalSound(w, left, st, fuel);
    var l := Eval(w.env, Checked(w, left).expr, st, fuel);
    if l.out.Done? {
      ReadyLater(w, st, l.st);
      EvalSound(w, right, l.st, fuel);
      var r := Eval(w.env, Checked(w, right).expr, l.st, fuel);
      StepsTransitive(w, st, l.st, r.st);
      ConformsLater(w.allowance, w.source.classes, l.st.lists, r.st.lists, l.out.value, Checked(w, left).ty);
    }
  }

  /** A condition: the state steps and the result is a Boolean or an allowed exception. */
  lemma {:induction false} BooleanSound(w: Setting, e: Expr, st: State, fuel: nat)
    requires Judged(w, e, st) && CheckBoolean(w.cx, w.types, e).Ok?
    ensures CheckBoolean(w.cx, w.types, e).value == Checked(w, e).expr
    ensures var r := EvalBoolean(w.env, Checked(w, e).expr, st, fuel);
            Steps(w, st, r.st) && Safe(w.allowance, r.st.lists, r.out)
    decreases fuel, e, 3
  {
    hide Eval, CheckExpr, Steps;
    EvalSound(w, e, st, fuel);
    var r := Eval(w.env, Checked(w, e).expr, st, fuel);
    if r.out.Done? {
      BooleanSafe(w.allowance, w.source.classes, r.st.lists, r.out.value);
    }
  }

  // Index

  lemma {:induction false} IndexSound(w: Setting, e: Expr, st: State, fuel: nat)
    requires Judged(w, e, st) && e.Index?
    ensures Evaluates(w, e, st, fuel)
    decreases fuel, e, 1
  {
    hide Eval, CheckExpr, ReadElement, Conforms;
    IndexChecked(w, e);
    var lt, it := Checked(w, e.list), Checked(w, e.index);
    PairSound(w, e.list, e.index, st, fuel, e);
    IndexEval(w.env, Index(lt.expr, it.expr), st, fuel);
    var l := Eval(w.env, lt.expr, st, fuel);
    var i := Eval(w.env, it.expr, l.st, fuel);
    if l.out.Done? && i.out.Done? {
      ReadElementDelivers(w, i.st, l.out.value, i.out.value, lt.ty.ty.element);
    }
  }

  // Binary operators

  lemma {:induction false} StrictSound(w: Setting, e: Expr, st: State, fuel: nat)
    requires Judged(w, e, st) && e.Binary? && !e.binaryOp.And? && !e.binaryOp.Or?
    ensures Evaluates(w, e, st, fuel)
    decreases fuel, e, 1
  {
    hide CheckExpr, Eval, Steps, Conforms;
    BinaryChecked(w, e);
    PairSound(w, e.left, e.right, st, fuel, e);
    var lt, rt := Checked(w, e.left), Checked(w, e.right);
    var t := BinaryType(lt.ty, e.binaryOp, rt.ty).value;
    StrictEval(w.env, Binary(lt.expr, e.binaryOp, rt.expr, t.1), st, fuel);
    var l := Eval(w.env, lt.expr, st, fuel);
    var r := Eval(w.env, rt.expr, l.st, fuel);
    if l.out.Done? && r.out.Done? {
      CombineDelivers(w.allowance, w.env, r.st.lists, e.binaryOp, l.out.value, r.out.value, lt.ty, rt.ty, t.0, t.1);
    }
  }

  lemma {:induction false} LazySound(w: Setting, e: Expr, st: State, fuel: nat)
    requires Judged(w, e, st) && e.Binary? && (e.binaryOp.And? || e.binaryOp.Or?)
    ensures Evaluates(w, e, st, fuel)
    decreases fuel, e, 1
  {
    hide CheckExpr, Eval, EvalBoolean, Steps, StateOk;
    BinaryChecked(w, e);
    var lt, rt := Checked(w, e.left), Checked(w, e.right);
    LazyEval(w.env, Binary(lt.expr, e.binaryOp, rt.expr, None), st, fuel);
    LeftThenRight(w, e.left, e.right, st, fuel, e);
  }

  lemma {:induction false} LeftThenRight(w: Setting, left: Expr, right: Expr, st: State, fuel: nat, parent: Expr)
    requires Judged(w, left, st) && Judged(w, right, st) && left < parent && right < parent
    requires Checked(w, left).ty == EValue(TBoolean) && Checked(w, right).ty == EValue(TBoolean)
    ensures var l := EvalBoolean(w.env, Checked(w, left).expr, st, fuel);
            && Steps(w, st, l.st) && Safe(w.allowance, l.st.lists, l.out)
            && (l.out.Done? ==>
                  var r := EvalBoolean(w.env, Checked(w, right).expr, l.st, fuel);
                  Steps(w, st, r.st) && Safe(w.allowance, r.st.lists, r.out))
    decreases fuel, parent, 0
  {
    hide CheckExpr, Eval, EvalBoolean, StateOk, PermitsExpr, Valid;
    BooleanSound(w, left, st, fuel);
    var l := EvalBoolean(w.env, Checked(w, left).expr, st, fuel);
    if l.out.Done? {
      ReadyLater(w, st, l.st);
      BooleanSound(w, right, l.st, fuel);
      StepsTransitive(w, st, l.st, EvalBoolean(w.env, Checked(w, right).expr, l.st, fuel).st);
    }
  }

  // Null coalescing and conditionals

  lemma {:induction false} CoalesceSound(w: Setting, e: Expr, st: State, fuel: nat)
    requires Judged(w, e, st) && e.NullCoalesce?
    ensures Evaluates(w, e, st, fuel)
    decreases fuel, e, 1
  {
    hide CheckExpr, Eval, Conforms, Join;
    CoalesceChecked(w, e);
    PairSound(w, e.left, e.right, st, fuel, e);
    var lt, rt := Checked(w, e.left), Checked(w, e.right);
    CoalesceEval(w.env, NullCoalesce(lt.expr, rt.expr), st, fuel);
    var ty := Join(w.cx.classes, lt.ty, rt.ty).value;
    var l := Eval(w.env, lt.expr, st, fuel);
    if l.out.Done? {
      JoinConforms(w.allowance, w.source.classes, l.st.lists, l.out.value, lt.ty, rt.ty, ty);
      var r := Eval(w.env, rt.expr, l.st, fuel);
      if r.out.Done? {
        JoinConforms(w.allowance, w.source.classes, r.st.lists, r.out.value, lt.ty, rt.ty, ty);
      }
    }
  }

  lemma {:induction false} ConditionalSound(w: Setting, e: Expr, st: State, fuel: nat)
    requires Judged(w, e, st) && e.Conditional?
    ensures Evaluates(w, e, st, fuel)
    decreases fuel, e, 1
  {
    hide CheckExpr, CheckBoolean, Eval, EvalBoolean, Conforms, Join, StateOk;
    ConditionalChecked(w, e);
    var ct, tt, ft := Checked(w, e.condition), Checked(w, e.whenTrue), Checked(w, e.whenFalse);
    ConditionalEval(w.env, Conditional(ct.expr, tt.expr, ft.expr), st, fuel);
    BooleanSound(w, e.condition, st, fuel);
    var c := EvalBoolean(w.env, ct.expr, st, fuel);
    if c.out.Done? {
      ReadyLater(w, st, c.st);
      var branch := if c.out.value then e.whenTrue else e.whenFalse;
      EvalSound(w, branch, c.st, fuel);
      var r := Eval(w.env, Checked(w, branch).expr, c.st, fuel);
      StepsTransitive(w, st, c.st, r.st);
      if r.out.Done? {
        JoinConforms(w.allowance, w.source.classes, r.st.lists, r.out.value, tt.ty, ft.ty, Checked(w, e).ty);
      }
    }
  }

  // Unary operators

  lemma {:induction false} NotSound(w: Setting, e: Expr, st: State, fuel: nat)
    requires Judged(w, e, st) && e.Unary? && e.unaryOp.Not?
    ensures Evaluates(w, e, st, fuel)
    decreases fuel, e, 1
  {
    hide CheckExpr, CheckBoolean, Eval, EvalBoolean, StateOk, Valid, Steps;
    NotChecked(w, e);
    NotEval(w.env, Checked(w, e).expr, st, fuel);
    BooleanSound(w, e.operand, st, fuel);
  }

  lemma {:induction false} SignSound(w: Setting, e: Expr, st: State, fuel: nat)
    requires Judged(w, e, st) && e.Unary? && !e.unaryOp.Not?
    ensures Evaluates(w, e, st, fuel)
    decreases fuel, e, 1
  {
    if IsLeastLiteral(e) {
      LeastLiteralSound(w, e, st, fuel);
    } else {
      hide CheckExpr, Eval, Conforms, StateOk, Valid, Steps;
      SignChecked(w, e);
      var t := Checked(w, e.operand);
      CheckedLiteral(w, e.operand);
      SignEval(w.env, Checked(w, e).expr, st, fuel);
      EvalSound(w, e.operand, st, fuel);
      var r := Eval(w.env, t.expr, st, fuel);
      if r.out.Done? {
        UnaryDelivers(w.allowance, w.source.classes, r.st.lists, Checked(w, e).expr.unaryFact.value, r.out.value, t.ty);
      }
    }
  }

  // Casts, debug output and exceptions

  lemma {:induction false} CastSound(w: Setting, e: Expr, st: State, fuel: nat)
    requires Judged(w, e, st) && e.Cast?
    ensures Evaluates(w, e, st, fuel)
    decreases fuel, e, 1
  {
    hide CheckExpr, Eval, Conforms, StateOk, Steps;
    CastChecked(w, e);
    CastEval(w.env, Checked(w, e).expr, st, fuel);
    EvalSound(w, e.operand, st, fuel);
    var t := Checked(w, e.operand);
    var r := Eval(w.env, t.expr, st, fuel);
    if r.out.Done? {
      CastDelivers(w.allowance, w.source.classes, r.st.lists, r.out.value, t.ty, e.ty);
    }
  }

  lemma {:induction false} DebugSound(w: Setting, e: Expr, st: State, fuel: nat)
    requires Judged(w, e, st) && e.Debug?
    ensures Evaluates(w, e, st, fuel)
    decreases fuel, e, 1
  {
    hide CheckExpr, Eval, Conforms, DebugLine;
    DebugChecked(w, e);
    DebugEval(w.env, Checked(w, e).expr, st, fuel);
    EvalSound(w, e.argument, st, fuel);
    var r := Eval(w.env, Checked(w, e.argument).expr, st, fuel);
    if r.out.Done? {
      DebugSteps(w, r.st, r.out.value, Checked(w, e.argument).ty);
      StepsTransitive(w, st, r.st, DebugLine(w.env.host, r.st, r.out.value).st);
    }
  }

  lemma {:induction false} NewExceptionSound(w: Setting, e: Expr, st: State, fuel: nat)
    requires Judged(w, e, st) && e.NewException?
    ensures Evaluates(w, e, st, fuel)
    decreases fuel, e, 1
  {
    if e.message.None? {
      BareExceptionSound(w, e, st, fuel);
    } else {
      hide CheckExpr, Eval, Conforms, StateOk, Steps, ExceptionValue, IsSubtype;
      NewExceptionChecked(w, e);
      NewExceptionEval(w.env, Checked(w, e).expr, st, fuel);
      EvalSound(w, e.message.value, st, fuel);
      var t := Checked(w, e.message.value);
      var r := Eval(w.env, t.expr, st, fuel);
      if r.out.Done? {
        ConformsUp(w.allowance, w.source.classes, r.st.lists, r.out.value, t.ty, TString);
        ExceptionDelivers(w, r.st.lists, e.ty, r.out.value);
      }
    }
  }

  // Argument lists

  /** Arguments in a row: each value still has its type after all of them ran. */
  lemma {:induction false} EvalAllSound(w: Setting, es: seq<Expr>, st: State, fuel: nat)
    requires Valid(w) && Ready(w, st) && PermitsExprs(w.allowance, es) && CheckExprs(w.cx, w.types, es).Ok?
    ensures var r := EvalAll(w.env, Exprs(CheckedAll(w, es)), st, fuel);
            && Steps(w, st, r.st) && Safe(w.allowance, r.st.lists, r.out)
            && (r.out.Done? ==> |r.out.value| == |es| && forall i :: 0 <= i < |es| ==>
                  Conforms(w.allowance, w.source.classes, r.st.lists, r.out.value[i], Types(CheckedAll(w, es))[i]))
    decreases fuel, es, 0
  {
    hide CheckExpr, Eval, Conforms, StateOk, Valid;
    if es == [] {
      StepsReflexive(w, st);
    } else {
      AllChecked(w, es);
      var checked := Exprs(CheckedAll(w, es));
      AllEval(w.env, checked, st, fuel);
      assert checked[1..] == Exprs(CheckedAll(w, es[1..]));
      EvalSound(w, es[0], st, fuel);
      var first := Eval(w.env, checked[0], st, fuel);
      if first.out.Done? {
        ReadyLater(w, st, first.st);
        EvalAllSound(w, es[1..], first.st, fuel);
        var rest := EvalAll(w.env, checked[1..], first.st, fuel);
        StepsTransitive(w, st, first.st, rest.st);
        ConformsLater(w.allowance, w.source.classes, first.st.lists, rest.st.lists, first.out.value, Checked(w, es[0]).ty);
      }
    }
  }

  lemma {:induction false} NewListSound(w: Setting, e: Expr, st: State, fuel: nat)
    requires Judged(w, e, st) && e.NewList?
    ensures Evaluates(w, e, st, fuel)
    decreases fuel, e, 1
  {
    hide CheckExpr, CheckExprs, Eval, EvalAll, Conforms, Holds, IsAssignable, Allocate, StateOk;
    NewListChecked(w, e);
    NewListEval(w.env, Checked(w, e).expr, st, fuel);
    EvalAllSound(w, e.elements, st, fuel);
    var types := Types(CheckedAll(w, e.elements));
    var r := EvalAll(w.env, Exprs(CheckedAll(w, e.elements)), st, fuel);
    if r.out.Done? {
      forall i | 0 <= i < |r.out.value|
        ensures Holds(w.allowance, w.source.classes, r.st.lists, TypedValue(r.out.value[i], e.element), e.element)
      {
        ConversionHolds(w.allowance, w.source.classes, r.st.lists, r.out.value[i], types[i], e.element);
      }
      AllocateSteps(w, r.st, e.element, r.out.value);
      StepsTransitive(w, st, r.st, Allocate(r.st, e.element, r.out.value).st);
    }
  }

  lemma {:induction false} ListCallSound(w: Setting, e: Expr, st: State, fuel: nat)
    requires Judged(w, e, st) && e.ListCall?
    ensures Evaluates(w, e, st, fuel)
    decreases fuel, e, 1
  {
    hide CheckExpr, CheckExprs, Eval, EvalAll, Conforms, Holds, IsAssignable, CallListMethod, StateOk;
    ListCallChecked(w, e);
    ListCallEval(w.env, Checked(w, e).expr, st, fuel);
    var lt := Checked(w, e.receiver);
    EvalSound(w, e.receiver, st, fuel);
    var l := Eval(w.env, lt.expr, st, fuel);
    if l.out.Done? {
      ReadyLater(w, st, l.st);
      EvalAllSound(w, e.arguments, l.st, fuel);
      var r := EvalAll(w.env, Exprs(CheckedAll(w, e.arguments)), l.st, fuel);
      StepsTransitive(w, st, l.st, r.st);
      if r.out.Done? {
        var a, classes := w.allowance, w.source.classes;
        ConformsLater(a, classes, l.st.lists, r.st.lists, l.out.value, lt.ty);
        if e.method_.ListAdd? {
          ConversionHolds(a, classes, r.st.lists, r.out.value[0], Types(CheckedAll(w, e.arguments))[0], lt.ty.ty.element);
        }
        ListMethodSteps(w, r.st, l.out.value, e.method_, r.out.value, lt.ty.ty.element);
        StepsTransitive(w, st, r.st, CallListMethod(r.st, l.out.value, e.method_, r.out.value).st);
      }
    }
  }

  // Places, assignments and mutations

  lemma {:induction false} ResolveSound(w: Setting, t: Target, st: State, fuel: nat)
    requires Valid(w) && Ready(w, st) && PermitsTarget(w.allowance, t) && CheckTarget(w.cx, w.types, t).Ok?
    ensures var c := CheckTarget(w.cx, w.types, t).value;
            var r := ResolvePlace(w.env, c.0, st, fuel);
            && Steps(w, st, r.st) && Safe(w.allowance, r.st.lists, r.out)
            && (r.out.Done? ==> PlaceOk(w.allowance, r.st, r.out.value, c.1))
    decreases fuel, t, 1
  {
    hide CheckExpr, CheckTarget, Eval, ResolvePlace, Conforms, ListPosition, StateOk, Steps, PermitsExpr;
    if t.VarTarget? {
      VarTargetSound(w, t, st, fuel);
    } else {
      IndexTargetChecked(w, t);
      var lt, it := Checked(w, t.list), Checked(w, t.index);
      IndexTargetEval(w.env, IndexTarget(lt.expr, it.expr), st, fuel);
      TargetPairSound(w, t, st, fuel);
      var l := Eval(w.env, lt.expr, st, fuel);
      var i := Eval(w.env, it.expr, l.st, fuel);
      if l.out.Done? && i.out.Done? {
        PositionSafe(w.allowance, w.source.classes, i.st.lists, l.out.value, i.out.value, lt.ty.ty.element, true);
      }
    }
  }

  lemma VarTargetSound(w: Setting, t: Target, st: State, fuel: nat)
    requires Valid(w) && Ready(w, st) && t.VarTarget? && CheckTarget(w.cx, w.types, t).Ok?
    ensures var c := CheckTarget(w.cx, w.types, t).value;
            ResolvePlace(w.env, c.0, st, fuel) == Res(Done(LocalPlace(t.name)), st) && PlaceOk(w.allowance, st, LocalPlace(t.name), c.1)
    ensures Steps(w, st, st)
  {
    StepsReflexive(w, st);
  }

  lemma {:induction false} TargetPairSound(w: Setting, t: Target, st: State, fuel: nat)
    requires t.IndexTarget? && Judged(w, t.list, st) && Judged(w, t.index, st)
    ensures Evaluates(w, t.list, st, fuel)
    ensures var l := Eval(w.env, Checked(w, t.list).expr, st, fuel);
            l.out.Done? ==>
              && Evaluates(w, t.index, l.st, fuel)
              && var r := Eval(w.env, Checked(w, t.index).expr, l.st, fuel);
                 && Steps(w, st, r.st)
                 && Conforms(w.allowance, w.source.classes, r.st.lists, l.out.value, Checked(w, t.list).ty)
    decreases fuel, t, 0
  {
    hide Eval, CheckExpr, StateOk, PermitsExpr, Conforms, Valid, Safe;
    EvalSound(w, t.list, st, fuel);
    var l := Eval(w.env, Checked(w, t.list).expr, st, fuel);
    if l.out.Done? {
      ReadyLater(w, st, l.st);
      EvalSound(w, t.index, l.st, fuel);
      var r := Eval(w.env, Checked(w, t.index).expr, l.st, fuel);
      StepsTransitive(w, st, l.st, r.st);
      ConformsLater(w.allowance, w.source.classes, l.st.lists, r.st.lists, l.out.value, Checked(w, t.list).ty);
    }
  }

  /** Writing an assignable value into a resolved place. */
  lemma WriteSound(w: Setting, st: State, place: Place, ty: Type, value: Value, actual: ExprType)
    requires StateOk(w.allowance, w.source.classes, st) && PlaceOk(w.allowance, st, place, ty)
    requires Conforms(w.allowance, w.source.classes, st.lists, value, actual) && IsAssignable(w.source.classes, ty, actual)
    requires place.ListPlace? ==> place.id < |st.lists| && st.lists[place.id].iterationDepth == 0
    ensures Sound(w, st, WritePlace(st, place, value), EValue(ty))
  {
    ConversionHolds(w.allowance, w.source.classes, st.lists, value, actual, ty);
    WritePlaceDelivers(w.allowance, w.source.classes, st, place, ty, value);
    WriteKeeps(st, place, value);
  }

  lemma {:induction false} AssignmentSound(w: Setting, e: Expr, st: State, fuel: nat)
    requires Judged(w, e, st) && e.Assignment?
    ensures Evaluates(w, e, st, fuel)
    decreases fuel, e, 1
  {
    hide CheckExpr, CheckTarget, Eval, ResolvePlace, WritePlace, ReadPlace, ApplyBinary, StateOk, Conforms, Holds, PlaceOk, BinaryType;
    AssignmentChecked(w, e);
    var t := CheckTarget(w.cx, w.types, e.target).value;
    var vt := Checked(w, e.value);
    AssignmentEval(w.env, Checked(w, e).expr, st, fuel);
    ResolveSound(w, e.target, st, fuel);
    ResolvedIsMutable(w.env, t.0, st, fuel);
    var place := ResolvePlace(w.env, t.0, st, fuel);
    if place.out.Done? {
      ReadyLater(w, st, place.st);
      EvalSound(w, e.value, place.st, fuel);
      var value := Eval(w.env, vt.expr, place.st, fuel);
      StepsTransitive(w, st, place.st, value.st);
      PlaceOkLater(w.allowance, place.st, value.st, place.out.value, t.1);
      if e.op.Assign? {
        if value.out.Done? {
          WriteSound(w, value.st, place.out.value, t.1, value.out.value, vt.ty);
          StepsTransitive(w, st, value.st, WritePlace(value.st, place.out.value, value.out.value).st);
        }
      } else {
        CompoundSound(w, e, st, place.st, place.out.value, fuel);
      }
    }
  }

  /** The read, the operation and the write of a compound assignment. */
  lemma {:induction false} CompoundSound(w: Setting, e: Expr, st: State, resolved: State, place: Place, fuel: nat)
    requires Judged(w, e, st) && e.Assignment? && !e.op.Assign?
    requires CheckTarget(w.cx, w.types, e.target).Ok? && CheckExpr(w.cx, w.types, e.value).Ok?
    requires Checked(w, e).expr.Assignment?
    requires Steps(w, st, resolved) && PlaceOk(w.allowance, resolved, place, CheckTarget(w.cx, w.types, e.target).value.1)
    requires place.ListPlace? ==> place.id < |resolved.lists| && resolved.lists[place.id].iterationDepth == 0
    requires Evaluates(w, e.value, resolved, fuel)
    ensures var left := ReadPlace(resolved, place);
            && Safe(w.allowance, resolved.lists, left)
            && (left.Done? ==>
                  var right := Eval(w.env, Checked(w, e.value).expr, resolved, fuel);
                  right.out.Done? ==>
                    && Checked(w, e).expr.fact.Some?
                    && var result := ApplyBinary(w.env.host, right.st.lists, Checked(w, e).expr.fact.value, left.value, right.out.value);
                       && Safe(w.allowance, right.st.lists, result)
                       && (result.Done? ==>
                             var r := WritePlace(right.st, place, result.value);
                             Steps(w, st, r.st) && Sound(w, right.st, r, Checked(w, e).ty)))
  {
    hide CheckExpr, CheckTarget, Eval, WritePlace, ReadPlace, Conforms, StateOk, PlaceOk;
    AssignmentChecked(w, e);
    var a, classes := w.allowance, w.source.classes;
    var t := CheckTarget(w.cx, w.types, e.target).value;
    var vt := Checked(w, e.value);
    ReadPlaceDelivers(a, classes, resolved, place, t.1);
    var left := ReadPlace(resolved, place);
    var right := Eval(w.env, vt.expr, resolved, fuel);
    if left.Done? && right.out.Done? {
      StepsTransitive(w, st, resolved, right.st);
      PlaceOkLater(a, resolved, right.st, place, t.1);
      HoldsConforms(a, classes, resolved.lists, left.value, t.1);
      ConformsLater(a, classes, resolved.lists, right.st.lists, left.value, EValue(t.1));
      var r := BinaryType(EValue(t.1), e.op.Operator(), vt.ty).value;
      CombineDelivers(a, w.env, right.st.lists, e.op.Operator(), left.value, right.out.value, EValue(t.1), vt.ty, r.0, r.1);
      var result := ApplyBinary(w.env.host, right.st.lists, r.1.value, left.value, right.out.value);
      if result.Done? {
        WriteSound(w, right.st, place, t.1, result.value, r.0);
        StepsTransitive(w, st, right.st, WritePlace(right.st, place, result.value).st);
      }
    }
  }

  lemma {:induction false} MutationSound(w: Setting, e: Expr, st: State, fuel: nat)
    requires Judged(w, e, st) && e.Mutation?
    ensures Evaluates(w, e, st, fuel)
    decreases fuel, e, 1
  {
    hide CheckExpr, CheckTarget, Eval, ResolvePlace, MutatePlace, StateOk, PlaceOk, Conforms;
    MutationChecked(w, e);
    var t := CheckTarget(w.cx, w.types, e.target).value;
    AssignmentEval(w.env, Checked(w, e).expr, st, fuel);
    ResolveSound(w, e.target, st, fuel);
    ResolvedIsMutable(w.env, t.0, st, fuel);
    var place := ResolvePlace(w.env, t.0, st, fuel);
    if place.out.Done? {
      MutatePlaceSound(w, place.st, place.out.value, t.1, e.delta, e.returnOld);
      StepsTransitive(w, st, place.st, MutatePlace(place.st, place.out.value, e.delta, e.returnOld).st);
    }
  }

  lemma MutatePlaceSound(w: Setting, st: State, place: Place, ty: Type, delta: int, returnOld: bool)
    requires StateOk(w.allowance, w.source.classes, st) && PlaceOk(w.allowance, st, place, ty)
    requires (ty == TInteger || ty == TLong) && w.allowance.mutation && -1 <= delta <= 1
    requires place.ListPlace? ==> place.id < |st.lists| && st.lists[place.id].iterationDepth == 0
    ensures Sound(w, st, MutatePlace(st, place, delta, returnOld), EValue(ty))
  {
    hide StateOk, PlaceOk, WritePlace, ReadPlace, Holds, Conforms, Increment, MutationKind;
    var a, classes := w.allowance, w.source.classes;
    StepsReflexive(w, st);
    ReadPlaceDelivers(a, classes, st, place, ty);
    var before := ReadPlace(st, place);
    if before.Done? {
      IncrementDelivers(a, classes, st.lists, before.value, ty, delta);
      var kind := MutationKind(before.value);
      if kind.Done? {
        var after := Increment(kind.value, before.value, delta);
        if after.Done? {
          HoldsConforms(a, classes, st.lists, after.value, ty);
          WriteSound(w, st, place, ty, after.value, EValue(ty));
          var r := WritePlace(st, place, after.value);
          HoldsConforms(a, classes, st.lists, before.value, ty);
          ConformsLater(a, classes, st.lists, r.st.lists, before.value, EValue(ty));
          ConformsLater(a, classes, st.lists, r.st.lists, after.value, EValue(ty));
        }
      }
    }
  }

  // Calls

  lemma {:induction false} CallSound(w: Setting, e: Expr, st: State, fuel: nat)
    requires Judged(w, e, st) && e.Call?
    ensures Evaluates(w, e, st, fuel)
    decreases fuel, e, 1
  {
    hide CheckExpr, CheckExprs, Eval, EvalAll, Conforms, Invoke, StateOk, Kept, NoShrink;
    CallChecked(w, e);
    var checked := Checked(w, e).expr;
    CallEval(w.env, checked, st, fuel);
    EvalAllSound(w, e.arguments, st, fuel);
    var r := EvalAll(w.env, checked.arguments, st, fuel);
    if r.out.Done? && fuel > 0 {
      var callee := checked.callee.value;
      InvokeSound(w, callee, r.out.value, Types(CheckedAll(w, e.arguments)), r.st, fuel - 1);
      StepsTransitive(w, st, r.st, Invoke(w.env, w.env.program.methods[callee], r.out.value, r.st, fuel - 1).st);
    }
  }

  /** Invoking an accepted method on assignable arguments. */
  lemma {:induction false} InvokeSound(w: Setting, callee: nat, arguments: seq<Value>, types: seq<ExprType>, st: State, fuel: nat)
    requires Valid(w) && StateOk(w.allowance, w.source.classes, st) && callee < |w.source.methods|
    requires |arguments| == |types| && Applicable(w.source.classes, ParameterTypes(w.source.methods[callee].parameters), types)
    requires forall i :: 0 <= i < |arguments| ==> Conforms(w.allowance, w.source.classes, st.lists, arguments[i], types[i])
    ensures Sound(w, st, Invoke(w.env, w.env.program.methods[callee], arguments, st, fuel),
                  ResultType(w.source.methods[callee].returnType))
    decreases fuel, w.source.methods[callee], 4
  {
    hide CheckBody, Exec, Conforms, StateOk, CheckExpr, CheckStmt, Eval, Kept, Grown, NoShrink;
    MethodReady(w, callee, arguments, types, st);
    assert MethodOk(w, callee);
    var m := w.source.methods[callee];
    var checked := w.env.program.methods[callee];
    var inner := st.(scopes := [ParameterScope(m.parameters, arguments)], calls := st.calls + [m.name]);
    var v := MethodSetting(w, m);
    BodySound(v, m.body, inner, fuel);
    var body := Exec(w.env, checked.body, inner, fuel);
    BodyKept(v.cx, v.types, m.body);
    if m.returnType.RValue? {
      DefiniteReturn(w.env, checked.body, inner, fuel);
    }
    InvokeKeeps(w.env, checked, arguments, st, fuel);
    LeaveCall(v, st, inner, body.st, PopCall(body.st.calls));
    var out := if body.out.Raise? then Raise(AttachStack(body.out.exception, body.st.calls)) else body.out;
    AttachedFlow(v, body.st.lists, body.out, body.st.calls);
    CallResultDelivers(v, body.st.lists, out, m.returnType);
  }

  // ---------------------------------------------------------------- statements

  lemma {:induction false} ExecSound(w: Setting, s: Stmt, st: State, fuel: nat)
    requires JudgedStmt(w, s, st)
    ensures Executes(w, s, st, fuel)
    decreases fuel, s, 5
  {
    hide JudgedStmt, Exec, CheckStmt, Settled, Ran, Executes;
    if s.LocalDeclaration? {
      DeclarationSound(w, s, st, fuel);
    } else {
      StatementSound(w, s, st, fuel);
      SettledExecutes(w, s, st, fuel);
    }
  }

  lemma SettledExecutes(w: Setting, s: Stmt, st: State, fuel: nat)
    requires JudgedStmt(w, s, st) && !s.LocalDeclaration?
    requires Settled(w, st, Exec(w.env, CheckedStmt(w, s).syntax, st, fuel))
    ensures Executes(w, s, st, fuel)
  {
    hide Exec, CheckStmt, StateOk, Valid, FlowOk;
    ScopesUnchanged(w.cx, w.types, s);
    SettledRan(w, st, Exec(w.env, CheckedStmt(w, s).syntax, st, fuel));
  }

  /** A statement that declares nothing. */
  lemma {:induction false} StatementSound(w: Setting, s: Stmt, st: State, fuel: nat)
    requires JudgedStmt(w, s, st) && !s.LocalDeclaration?
    ensures Settled(w, st, Exec(w.env, CheckedStmt(w, s).syntax, st, fuel))
    decreases fuel, s, 4
  {
    hide JudgedStmt, Exec, CheckStmt, Settled;
    match s
    case Sequence(_) => SequenceSound(w, s, st, fuel);
    case ExprStmt(_) => ExprStmtSound(w, s, st, fuel);
    case Block(_) => BlockSound(w, s, st, fuel);
    case If(_, _, _) => IfSound(w, s, st, fuel);
    case While(_, _) => WhileSound(w, s, st, fuel);
    case DoWhile(_, _) => DoWhileSound(w, s, st, fuel);
    case For(_, _, _, _) => ForStatementSound(w, s, st, fuel);
    case ForEach(_, _, _, _) => ForEachStatementSound(w, s, st, fuel);
    case Break => JumpSound(w, s, st, fuel);
    case Continue => JumpSound(w, s, st, fuel);
    case Return(_) => ReturnSound(w, s, st, fuel);
    case Try(_, _, _) => TrySound(w, s, st, fuel);
    case Throw(_) => ThrowSound(w, s, st, fuel);
  }

  // Blocks and sequences

  lemma {:induction false} ExecAllSound(w: Setting, ss: seq<Stmt>, st: State, fuel: nat)
    requires JudgedStmts(w, ss, st)
    ensures var c := CheckedStmts(w, ss);
            Ran(w, st, ExecAll(w.env, c.syntax, st, fuel), c.scopes)
    decreases fuel, ss, 0
  {
    hide CheckStmt, Exec, StateOk, Agree;
    if ss == [] {
      StepsReflexive(w, st);
      StepsAdvances(w, st, st);
    } else {
      hide FlowOk;
      StmtsChecked(w.cx, w.types, ss);
      var c := CheckedStmts(w, ss).syntax;
      ExecAllUnfolds(w.env, c, st, fuel);
      ExecSound(w, ss[0], st, fuel);
      var first := Exec(w.env, c[0], st, fuel);
      if first.out == Done(Normal) {
        var v := In(w, CheckedStmt(w, ss[0]).scopes);
        ValidMoved(w, v.types, w.cx.loopDepth, w.cx.returnType);
        assert c[1..] == CheckedStmts(v, ss[1..]).syntax;
        ExecAllSound(v, ss[1..], first.st, fuel);
        AdvancesTransitive(w, st, first.st, ExecAll(w.env, c[1..], first.st, fuel).st);
      }
    }
  }

  lemma {:induction false} SequenceSound(w: Setting, s: Stmt, st: State, fuel: nat)
    requires JudgedStmt(w, s, st) && s.Sequence?
    ensures Settled(w, st, Exec(w.env, CheckedStmt(w, s).syntax, st, fuel))
    decreases fuel, s, 3
  {
    hide CheckStmt, Exec, StateOk, FlowOk, Kept;
    SequenceChecked(w.cx, w.types, s);
    ListParts(w.allowance, s);
    var c := CheckedStmt(w, s).syntax;
    DelegatedExec(w.env, c, st, fuel);
    ExecAllSound(w, s.statements, st, fuel);
    StmtKept(w.cx, w.types, s);
    StatementKeeps(w.env, c, st, fuel);
  }

  lemma {:induction false} BlockSound(w: Setting, s: Stmt, st: State, fuel: nat)
    requires JudgedStmt(w, s, st) && s.Block?
    ensures Settled(w, st, Exec(w.env, CheckedStmt(w, s).syntax, st, fuel))
    decreases fuel, s, 3
  {
    hide CheckStmt, CheckStmts, Exec, ExecAll, StateOk, FlowOk, Advances;
    BlockChecked(w.cx, w.types, s);
    ListParts(w.allowance, s);
    var c := CheckedStmt(w, s).syntax;
    BlockExec(w.env, c, st, fuel);
    var v := In(w, w.types + [map[]]);
    ValidMoved(w, v.types, w.cx.loopDepth, w.cx.returnType);
    PushReady(w, st, map[], map[]);
    ExecAllSound(v, s.statements, PushScope(st, map[]), fuel);
    PopSettled(w, v, st, map[], ExecAll(w.env, c.statements, PushScope(st, map[]), fuel));
  }

  /** A method body or catch block, whose statements share the scope it was checked in. */
  lemma {:induction false} BodySound(w: Setting, body: Stmt, st: State, fuel: nat)
    requires JudgedBody(w, body, st)
    ensures var r := Exec(w.env, CheckBody(w.cx, w.types, body).value, st, fuel);
            Advances(w, st, r.st) && FlowOk(w, r.st.lists, r.out)
    decreases fuel, body, 6
  {
    hide CheckStmt, CheckStmts, CheckBody, Exec, ExecAll, StateOk, FlowOk, Advances;
    BodyChecked(w.cx, w.types, body);
    if body.Block? {
      var c := CheckBody(w.cx, w.types, body).value;
      BlockExec(w.env, c, st, fuel);
      ListParts(w.allowance, body);
      PushEmptyReady(w, st);
      ExecAllSound(w, body.statements, PushScope(st, map[]), fuel);
      var r := ExecAll(w.env, c.statements, PushScope(st, map[]), fuel);
      PopSettled(w, w, st, map[], r);
      StepsAdvances(w, st, PopScope(r.st));
    } else {
      ExecSound(w, body, st, fuel);
    }
  }

  // Expression statements, jumps and throws

  lemma {:induction false} ExprStmtSound(w: Setting, s: Stmt, st: State, fuel: nat)
    requires JudgedStmt(w, s, st) && s.ExprStmt?
    ensures Settled(w, st, Exec(w.env, CheckedStmt(w, s).syntax, st, fuel))
    decreases fuel, s, 3
  {
    hide CheckStmt, CheckExpr, Exec, Eval, Steps, StateOk;
    ExprStmtChecked(w.cx, w.types, s);
    ExprStmtExec(w.env, CheckedStmt(w, s).syntax, st, fuel);
    EvalSound(w, s.expression, st, fuel);
  }

  lemma JumpSound(w: Setting, s: Stmt, st: State, fuel: nat)
    requires JudgedStmt(w, s, st) && (s.Break? || s.Continue?)
    ensures Settled(w, st, Exec(w.env, CheckedStmt(w, s).syntax, st, fuel))
  {
    hide CheckStmt, Exec, StateOk;
    JumpChecked(w.cx, w.types, s);
    LeafExec(w.env, s, st, fuel);
    StepsReflexive(w, st);
  }

  lemma {:induction false} ReturnSound(w: Setting, s: Stmt, st: State, fuel: nat)
    requires JudgedStmt(w, s, st) && s.Return?
    ensures Settled(w, st, Exec(w.env, CheckedStmt(w, s).syntax, st, fuel))
    decreases fuel, s, 3
  {
    hide CheckStmt, CheckExpr, Exec, Eval, StateOk, Conforms, Holds;
    ReturnChecked(w.cx, w.types, s);
    var c := CheckedStmt(w, s).syntax;
    if s.result.None? {
      LeafExec(w.env, c, st, fuel);
      StepsReflexive(w, st);
    } else {
      ReturnExec(w.env, c, st, fuel);
      EvalSound(w, s.result.value, st, fuel);
      var t := Checked(w, s.result.value);
      var r := Eval(w.env, t.expr, st, fuel);
      if r.out.Done? {
        ConversionHolds(w.allowance, w.source.classes, r.st.lists, r.out.value, t.ty, w.cx.returnType.value.ty);
      }
    }
  }

  lemma {:induction false} ThrowSound(w: Setting, s: Stmt, st: State, fuel: nat)
    requires JudgedStmt(w, s, st) && s.Throw?
    ensures Settled(w, st, Exec(w.env, CheckedStmt(w, s).syntax, st, fuel))
    decreases fuel, s, 3
  {
    hide CheckStmt, CheckExpr, Exec, Eval, StateOk, Steps;
    ThrowChecked(w.cx, w.types, s);
    ThrowExec(w.env, CheckedStmt(w, s).syntax, st, fuel);
    EvalSound(w, s.exception, st, fuel);
  }

  // Declarations

  lemma {:induction false} DeclarationSound(w: Setting, s: Stmt, st: State, fuel: nat)
    requires JudgedStmt(w, s, st) && s.LocalDeclaration?
    ensures Executes(w, s, st, fuel)
    decreases fuel, s, 4
  {
    hide CheckStmt, CheckDeclarators, Exec, Declare, StateOk, Ran;
    DeclarationChecked(w.cx, w.types, s);
    DelegatedExec(w.env, CheckedStmt(w, s).syntax, st, fuel);
    DeclareSound(w, s.ty, s.declarators, st, fuel);
  }

  lemma {:induction false} DeclareSound(w: Setting, ty: Type, ds: seq<Declarator>, st: State, fuel: nat)
    requires Valid(w) && Ready(w, st) && w.types != [] && st.scopes != []
    requires forall i :: 0 <= i < |ds| ==> PermitsOption(w.allowance, ds[i].initializer)
    requires CheckDeclarators(w.cx, w.types, ty, ds).Ok?
    ensures var d := CheckDeclarators(w.cx, w.types, ty, ds).value;
            Ran(w, st, Declare(w.env, ty, d.syntax, st, fuel), d.scopes)
    decreases fuel, ds, 0
  {
    hide CheckExpr, Eval, StateOk, Agree, Holds, Kept, Grown, NoShrink;
    if ds == [] {
      StepsReflexive(w, st);
      StepsAdvances(w, st, st);
    } else {
      hide CheckDeclarators, CheckInitializer, Declare, FlowOk;
      DeclaratorsChecked(w.cx, w.types, ty, ds);
      var d := CheckDeclarators(w.cx, w.types, ty, ds).value.syntax;
      DeclareUnfolds(w.env, ty, d, st, fuel);
      InitializerSound(w, ty, ds[0].initializer, st, fuel);
      var r := Initial(w.env, ty, d[0].initializer, st, fuel);
      StepsAdvances(w, st, r.st);
      if r.out.Done? {
        var v := In(w, BindType(w.types, ds[0].name, ty));
        var bound := BindLocal(r.st, ds[0].name, ty, TypedValue(r.out.value, ty));
        DeclaratorReady(w, st, r.st, ds[0].name, ty, TypedValue(r.out.value, ty));
        assert d[1..] == CheckDeclarators(w.cx, v.types, ty, ds[1..]).value.syntax;
        DeclareSound(v, ty, ds[1..], bound, fuel);
        AdvancesTransitive(w, st, r.st, bound);
        AdvancesTransitive(w, st, bound, Declare(w.env, ty, d[1..], bound, fuel).st);
      } else {
        RaisedFlow(w, r.st.lists, r.out);
      }
    }
  }

  lemma {:induction false} InitializerSound(w: Setting, ty: Type, initializer: Option<Expr>, st: State, fuel: nat)
    requires Valid(w) && Ready(w, st) && PermitsOption(w.allowance, initializer)
    requires CheckInitializer(w.cx, w.types, ty, initializer).Ok?
    ensures var r := Initial(w.env, ty, CheckInitializer(w.cx, w.types, ty, initializer).value, st, fuel);
            && Steps(w, st, r.st) && Safe(w.allowance, r.st.lists, r.out)
            && (r.out.Done? ==> Holds(w.allowance, w.source.classes, r.st.lists, TypedValue(r.out.value, ty), ty))
    decreases fuel, initializer, 0
  {
    hide CheckExpr, CheckInitializer, Eval, StateOk, Conforms, IsAssignable;
    InitializerChecked(w.cx, w.types, ty, initializer);
    if initializer.None? {
      StepsReflexive(w, st);
    } else {
      EvalSound(w, initializer.value, st, fuel);
      var t := Checked(w, initializer.value);
      var r := Eval(w.env, t.expr, st, fuel);
      if r.out.Done? {
        ConversionHolds(w.allowance, w.source.classes, r.st.lists, r.out.value, t.ty, ty);
      }
    }
  }

  // Branches and loops

  lemma {:induction false} IfSound(w: Setting, s: Stmt, st: State, fuel: nat)
    requires JudgedStmt(w, s, st) && s.If?
    ensures Settled(w, st, Exec(w.env, CheckedStmt(w, s).syntax, st, fuel))
    decreases fuel, s, 3
  {
    hide CheckStmt, CheckExpr, CheckBoolean, Exec, Eval, EvalBoolean, StateOk, Kept, NoShrink, Ran;
    IfChecked(w.cx, w.types, s);
    IfScopes(w.cx, w.types, s);
    var c := CheckedStmt(w, s).syntax;
    IfExec(w.env, c, st, fuel);
    ConditionSound(w, s.condition, st, fuel);
    var b := EvalBoolean(w.env, c.condition, st, fuel);
    if b.out.Done? {
      var branch := if b.out.value then Some(s.thenBranch) else s.elseBranch;
      if branch.Some? {
        ExecSound(w, branch.value, b.st, fuel);
        SettledAfter(w, st, b.st, Exec(w.env, CheckedStmt(w, branch.value).syntax, b.st, fuel));
      }
    }
  }

  /** A condition of a statement, after which the state is still as the checker assumed. */
  lemma {:induction false} ConditionSound(w: Setting, e: Expr, st: State, fuel: nat)
    requires Valid(w) && Ready(w, st) && st.scopes != [] && PermitsExpr(w.allowance, e) && CheckBoolean(w.cx, w.types, e).Ok?
    ensures var r := EvalBoolean(w.env, CheckBoolean(w.cx, w.types, e).value, st, fuel);
            && Steps(w, st, r.st) && Safe(w.allowance, r.st.lists, r.out) && Ready(w, r.st) && r.st.scopes != []
    decreases fuel, e, 4
  {
    hide CheckExpr, Eval, EvalBoolean, StateOk;
    BooleanSound(w, e, st, fuel);
    ReadyLater(w, st, EvalBoolean(w.env, CheckBoolean(w.cx, w.types, e).value, st, fuel).st);
  }

  /** One run of a loop body. */
  lemma {:induction false} LoopBodySound(w: Setting, body: Stmt, st: State, fuel: nat)
    requires Valid(w) && JudgedStmt(InLoop(w), body, st) && !body.LocalDeclaration?
    ensures var r := Exec(w.env, CheckedStmt(InLoop(w), body).syntax, st, fuel);
            && Steps(w, st, r.st) && Ready(w, r.st) && r.st.scopes != []
            && (!Continues(r.out) ==> FlowOk(w, r.st.lists, LoopExit(r.out)))
    decreases fuel, body, 6
  {
    hide CheckStmt, Exec, StateOk, FlowOk, Ran, NoShrink;
    ExecSound(InLoop(w), body, st, fuel);
    var r := Exec(w.env, CheckedStmt(InLoop(w), body).syntax, st, fuel);
    ReadyLater(w, st, r.st);
    if !Continues(r.out) {
      LoopExitOk(w, r.st.lists, r.out);
    }
  }

  lemma {:induction false} WhileSound(w: Setting, s: Stmt, st: State, fuel: nat)
    requires JudgedStmt(w, s, st) && s.While?
    ensures Settled(w, st, Exec(w.env, CheckedStmt(w, s).syntax, st, fuel))
    decreases fuel, s, 3
  {
    hide CheckStmt, CheckExpr, CheckBoolean, Exec, Eval, EvalBoolean, StateOk, Kept, NoShrink, Agree;
    WhileChecked(w.cx, w.types, s);
    LoopParts(w.allowance, s);
    var c := CheckedStmt(w, s).syntax;
    DelegatedExec(w.env, c, st, fuel);
    ConditionSound(w, s.condition, st, fuel);
    var b := EvalBoolean(w.env, c.condition, st, fuel);
    if b.out == Done(true) {
      ValidMoved(w, w.types, w.cx.loopDepth + 1, w.cx.returnType);
      LoopBodySound(w, s.body, b.st, fuel);
      var r := Exec(w.env, c.body, b.st, fuel);
      StepsTransitive(w, st, b.st, r.st);
      if Continues(r.out) && fuel > 0 {
        WhileSound(w, s, r.st, fuel - 1);
        DelegatedExec(w.env, c, r.st, fuel - 1);
        SettledAfter(w, st, r.st, ExecWhile(w.env, c, r.st, fuel - 1));
      }
    }
  }

  lemma {:induction false} DoWhileSound(w: Setting, s: Stmt, st: State, fuel: nat)
    requires JudgedStmt(w, s, st) && s.DoWhile?
    ensures Settled(w, st, Exec(w.env, CheckedStmt(w, s).syntax, st, fuel))
    decreases fuel, s, 3
  {
    hide CheckStmt, CheckExpr, CheckBoolean, Exec, Eval, EvalBoolean, StateOk, Kept, NoShrink, Agree;
    DoWhileChecked(w.cx, w.types, s);
    LoopParts(w.allowance, s);
    ScopesUnchanged(w.cx.InLoop(), w.types, s.body);
    var c := CheckedStmt(w, s).syntax;
    DelegatedExec(w.env, c, st, fuel);
    ValidMoved(w, w.types, w.cx.loopDepth + 1, w.cx.returnType);
    LoopBodySound(w, s.body, st, fuel);
    var r := Exec(w.env, c.body, st, fuel);
    if Continues(r.out) {
      ConditionSound(w, s.condition, r.st, fuel);
      var b := EvalBoolean(w.env, c.condition, r.st, fuel);
      StepsTransitive(w, st, r.st, b.st);
      if b.out == Done(true) && fuel > 0 {
        DoWhileSound(w, s, b.st, fuel - 1);
        DelegatedExec(w.env, c, b.st, fuel - 1);
        SettledAfter(w, st, b.st, ExecDoWhile(w.env, c, b.st, fuel - 1));
      }
    }
  }

  // Try statements

  lemma {:induction false} TrySound(w: Setting, s: Stmt, st: State, fuel: nat)
    requires JudgedStmt(w, s, st) && s.Try?
    ensures Settled(w, st, Exec(w.env, CheckedStmt(w, s).syntax, st, fuel))
    decreases fuel, s, 3
  {
    hide CheckStmt, CheckCatches, Exec, Handle, StateOk, Kept, NoShrink, Agree, Ran, FlowOk;
    TryChecked(w.cx, w.types, s);
    TryScopes(w.cx, w.types, s);
    var c := CheckedStmt(w, s).syntax;
    DelegatedExec(w.env, c, st, fuel);
    ExecSound(w, s.tryBlock, st, fuel);
    var t := Exec(w.env, c.tryBlock, st, fuel);
    assert Settled(w, st, t);
    var exception := AttachStack(if t.out.Raise? then t.out.exception else Exn(TException, "", None, []), t.st.calls);
    var h := if t.out.Raise? then Handle(w.env, c, exception, t.st, fuel) else t;
    StillReady(w, st, t.st);
    if t.out.Raise? {
      AttachedFlow(w, t.st.lists, t.out, t.st.calls);
      HandleSound(w, s, exception, t.st, fuel);
      SettledAfter(w, st, t.st, h);
    }
    if s.finallyBlock.Some? && !h.out.Panic? && !h.out.OutOfFuel? {
      StillReady(w, st, h.st);
      ExecSound(w, s.finallyBlock.value, h.st, fuel);
      var f := Exec(w.env, c.finallyBlock.value, h.st, fuel);
      SettledAfter(w, st, h.st, f);
      KeptFlow(w, h.st, f.st, h.out);
    }
  }

  /** The first matching clause, run with the exception bound in a scope of its own. */
  lemma {:induction false} HandleSound(w: Setting, s: Stmt, exception: Exn, st: State, fuel: nat)
    requires JudgedStmt(w, s, st) && s.Try? && AllowedExn(w.allowance, st.lists, exception)
    requires CheckStmt(w.cx, w.types, s.tryBlock).Ok? && CheckStmt(w.cx, w.types, s.tryBlock).value.scopes == w.types
    ensures Settled(w, st, Handle(w.env, CheckedStmt(w, s).syntax, exception, st, fuel))
    decreases fuel, s, 2
  {
    hide CheckStmt, CheckCatches, CheckBody, Exec, StateOk, Agree, FlowOk, Advances, Matches;
    TryChecked(w.cx, w.types, s);
    var c := CheckedStmt(w, s).syntax;
    var i := FindCatch(w.env.program.classes, exception, c.catches);
    if i == |c.catches| {
      StepsReflexive(w, st);
      assert FlowOk(w, st.lists, Raise(exception)) by { RaisedFlow<Flow>(w, st.lists, Raise(exception)); }
    } else {
      CatchChecked(w.cx, w.types, s.catches, [], false, i);
      var clause := s.catches[i];
      ClauseReady(w, st, clause.name, clause.ty, exception);
      var v := In(w, w.types + [map[clause.name := clause.ty]]);
      ValidMoved(w, v.types, w.cx.loopDepth, w.cx.returnType);
      var scope: Scope := map[clause.name := Slot(clause.ty, VException(exception))];
      BodySound(v, clause.body, PushScope(st, scope), fuel);
      PopSettled(w, v, st, scope, Exec(w.env, c.catches[i].body, PushScope(st, scope), fuel));
    }
  }

  // For statements

  lemma {:induction false} ForStatementSound(w: Setting, s: Stmt, st: State, fuel: nat)
    requires JudgedStmt(w, s, st) && s.For?
    ensures Settled(w, st, Exec(w.env, CheckedStmt(w, s).syntax, st, fuel))
    decreases fuel, s, 3
  {
    hide CheckStmt, CheckExpr, Exec, ExecFor, StateOk, Agree, FlowOk, Advances;
    ForChecked(w.cx, w.types, s);
    var c := CheckedStmt(w, s).syntax;
    ForExec(w.env, c, st, fuel);
    var outer := PushScope(st, map[]);
    PushReady(w, st, map[], map[]);
    var v := In(w, w.types + [map[]]);
    ValidMoved(w, v.types, w.cx.loopDepth, w.cx.returnType);
    OptionalChecked(w.cx, v.types, s.initializer);
    ForInitializerSound(w, s, st, fuel);
    var i := if c.initializer.Some? then Exec(w.env, c.initializer.value, outer, fuel) else Res(Done(Normal), outer);
    if i.out == Done(Normal) {
      var types := CheckOptional(w.cx, v.types, s.initializer).value.scopes;
      ValidMoved(w, types, w.cx.loopDepth, w.cx.returnType);
      RanReady(v, outer, i, types);
      ForJudged(w, s, i.st);
      ForSound(In(w, types), s, c, i.st, fuel);
      SettledAdvances(In(w, types), i.st, ExecFor(w.env, c, i.st, fuel));
      AdvancesTransitive(In(w, types), outer, i.st, ExecFor(w.env, c, i.st, fuel).st);
      PopSettled(w, In(w, types), st, map[], ExecFor(w.env, c, i.st, fuel));
    } else {
      PopSettled(w, v, st, map[], i);
    }
  }

  lemma {:induction false} ForInitializerSound(w: Setting, s: Stmt, st: State, fuel: nat)
    requires JudgedStmt(w, s, st) && s.For?
    requires CheckOptional(w.cx, w.types + [map[]], s.initializer).Ok?
    requires Valid(In(w, w.types + [map[]])) && Ready(In(w, w.types + [map[]]), PushScope(st, map[]))
    ensures var v := In(w, w.types + [map[]]);
            var outer := PushScope(st, map[]);
            var c := CheckOptional(w.cx, v.types, s.initializer).value;
            var r := if c.syntax.Some? then Exec(w.env, c.syntax.value, outer, fuel) else Res(Done(Normal), outer);
            Ran(v, outer, r, c.scopes)
    decreases fuel, s, 2
  {
    hide CheckStmt, Exec, StateOk, Agree;
    var v := In(w, w.types + [map[]]);
    var outer := PushScope(st, map[]);
    OptionalChecked(w.cx, v.types, s.initializer);
    if s.initializer.None? {
      StepsReflexive(v, outer);
      StepsAdvances(v, outer, outer);
    } else {
      hide FlowOk;
      ExecSound(v, s.initializer.value, outer, fuel);
    }
  }

  lemma {:induction false} ForSound(w: Setting, s: Stmt, c: Stmt, st: State, fuel: nat)
    requires s.For? && c.For? && JudgedFor(w, s, c, st)
    ensures Settled(w, st, ExecFor(w.env, c, st, fuel))
    decreases fuel, s, 2
  {
    hide CheckStmt, CheckExpr, Exec, EvalBoolean, StateOk, Kept, NoShrink, Agree, JudgedStmt;
    OptionalConditionSound(w, s.forCondition, st, fuel, s);
    var b := OptionalBoolean(w.env, c.forCondition, st, fuel);
    if b.out == Done(true) {
      JudgedForLater(w, s, c, st, b.st);
      LoopBodySound(w, s.body, b.st, fuel);
      var r := Exec(w.env, c.body, b.st, fuel);
      StepsTransitive(w, st, b.st, r.st);
      if Continues(r.out) {
        JudgedForLater(w, s, c, st, r.st);
        UpdateSound(w, s, c, r.st, fuel);
        var u := if c.update.Some? then Exec(w.env, c.update.value, r.st, fuel) else Res(Done(Normal), r.st);
        SettledAfter(w, st, r.st, u);
        if u.out == Done(Normal) && fuel > 0 {
          StillReady(w, r.st, u.st);
          JudgedForLater(w, s, c, st, u.st);
          ForSound(w, s, c, u.st, fuel - 1);
          SettledAfter(w, st, u.st, ExecFor(w.env, c, u.st, fuel - 1));
        }
      }
    }
  }

  lemma {:induction false} OptionalConditionSound(w: Setting, e: Option<Expr>, st: State, fuel: nat, parent: Stmt)
    requires Valid(w) && Ready(w, st) && st.scopes != [] && PermitsOption(w.allowance, e)
    requires CheckOptionalBoolean(w.cx, w.types, e).Ok? && (e.Some? ==> e.value < parent)
    ensures var r := OptionalBoolean(w.env, CheckOptionalBoolean(w.cx, w.types, e).value, st, fuel);
            && Steps(w, st, r.st) && Safe(w.allowance, r.st.lists, r.out) && Ready(w, r.st) && r.st.scopes != []
    decreases fuel, parent, 1
  {
    hide CheckExpr, CheckBoolean, EvalBoolean, StateOk;
    if e.None? {
      StepsReflexive(w, st);
    } else {
      ConditionSound(w, e.value, st, fuel);
    }
  }

  /** The update of a `for`: it can only complete normally or raise. */
  lemma {:induction false} UpdateSound(w: Setting, s: Stmt, c: Stmt, st: State, fuel: nat)
    requires s.For? && c.For? && JudgedFor(w, s, c, st)
    ensures var u := if c.update.Some? then Exec(w.env, c.update.value, st, fuel) else Res(Done(Normal), st);
            Settled(w, st, u) && (u.out.Done? ==> u.out == Done(Normal))
    decreases fuel, s, 1
  {
    hide CheckStmt, Exec, StateOk, Kept, NoShrink, Agree, Ran, CheckOptionalBoolean;
    if s.update.None? {
      StepsReflexive(w, st);
    } else {
      var update := s.update.value;
      ExecSound(InLoop(w), update, st, fuel);
      StmtKept(w.cx.InLoop(), w.types, update);
      SimpleKept(update, c.update.value);
      SimpleCovered(w.env, c.update.value, st, fuel);
    }
  }

  // For-each statements

  lemma {:induction false} ForEachStatementSound(w: Setting, s: Stmt, st: State, fuel: nat)
    requires JudgedStmt(w, s, st) && s.ForEach?
    ensures Settled(w, st, Exec(w.env, CheckedStmt(w, s).syntax, st, fuel))
    decreases fuel, s, 3
  {
    hide CheckStmt, CheckExpr, Exec, Eval, ExecForEach, StateOk, Kept, NoShrink, Agree, Advances, Conforms, BetweenIterations, AllHold, AsCollection;
    ForEachChecked(w.cx, w.types, s);
    var c := CheckedStmt(w, s).syntax;
    ForEachExec(w.env, c, st, fuel);
    EvalSound(w, s.iterable, st, fuel);
    var t := Checked(w, s.iterable);
    var r := Eval(w.env, t.expr, st, fuel);
    if r.out.Done? {
      StillReady(w, st, r.st);
      IterationReady(w, r.st, r.out.value, t.ty.ty.element, s.name);
      var id := AsCollection(r.out.value);
      if id.Done? {
        var entered := EnterIteration(r.st, id.value);
        var elements := r.st.lists[id.value].elements;
        ForEachSound(w, s, c, elements, t.ty.ty.element, entered, fuel);
        var loop := ExecForEach(w.env, c, elements, entered, fuel);
        LeaveSettled(w, r.st, id.value, loop);
        SettledAfter(w, st, r.st, Res(loop.out, LeaveIteration(loop.st, id.value)));
      }
    }
  }

  /** The iterations over the rest of the snapshot. */
  lemma {:induction false} ForEachSound(w: Setting, s: Stmt, c: Stmt, elements: seq<Value>, element: Type, st: State, fuel: nat)
    requires Valid(w) && s.ForEach? && c.ForEach? && c.name == s.name && c.ty == s.ty && w.types != []
    requires Parsed(s.body) && ScopedBranch(s.body) && PermitsStmt(w.allowance, s.body)
    requires CheckStmt(w.cx.InLoop(), w.types + [map[s.name := s.ty]], s.body).Ok?
    requires c.body == CheckStmt(w.cx.InLoop(), w.types + [map[s.name := s.ty]], s.body).value.syntax
    requires IsAssignable(w.source.classes, s.ty, EValue(element))
    requires BetweenIterations(w, s.name, st) && AllHold(w, st.lists, elements, element)
    ensures var r := ExecForEach(w.env, c, elements, st, fuel);
            Advances(w, st, r.st) && FlowOk(w, r.st.lists, r.out)
    decreases fuel, s, 2, |elements|
  {
    hide CheckStmt, CheckExpr, Exec, StateOk, Kept, Grown, NoShrink, Agree, Conforms, Holds, IsAssignable;
    if elements == [] {
      StepsReflexive(w, st);
      StepsAdvances(w, st, st);
    } else {
      hide FlowOk;
      var value := TypedValue(elements[0], s.ty);
      HoldsConforms(w.allowance, w.source.classes, st.lists, elements[0], element);
      ConversionHolds(w.allowance, w.source.classes, st.lists, elements[0], EValue(element), s.ty);
      BindIteration(w, s.name, s.ty, st, value);
      var v := In(w, w.types + [map[s.name := s.ty]]);
      ValidMoved(w, v.types, w.cx.loopDepth + 1, w.cx.returnType);
      ValidMoved(w, v.types, w.cx.loopDepth, w.cx.returnType);
      var bound := BindLocal(st, s.name, s.ty, value);
      LoopBodySound(v, s.body, bound, fuel);
      var b := Exec(w.env, c.body, bound, fuel);
      AfterIteration(w, s.name, s.ty, st, value, b.st);
      StepsAdvances(w, bound, b.st);
      AdvancesTransitive(w, st, bound, b.st);
      if Continues(b.out) {
        KeptElements(w, bound, b.st, elements, element);
        ForEachSound(w, s, c, elements[1..], element, b.st, fuel);
        AdvancesTransitive(w, st, b.st, ExecForEach(w.env, c, elements[1..], b.st, fuel).st);
      }
    }
  }
}
