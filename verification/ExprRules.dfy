/** For each expression form: what its acceptance says of its parts, and how its evaluation unfolds.
    As in `StmtRules`, a lemma ending in `Checked` says what acceptance of the whole expression says
    of its operands, their recorded types and the facts stored on the node, and a lemma ending in
    `Eval` says what evaluating the whole is in terms of evaluating the operands in order, with the
    outcome of the first that does not deliver a value. The literals and names, which have no
    operands, are dealt with completely: they are accepted with the type the scopes or the range of
    the literal give them, and evaluate to a value of that type. Proofs about one form hide the
    checker and the interpreter and call the two lemmas of that form, and so they do not see the other
    eighteen forms at all. */
module ExprRules {
  import opened Wrappers
  import opened Syntax
  import opened Values
  import opened Semantics
  import opened Typing
  import opened Checker
  import opened Conformance
  import opened Scoping
  import opened SoundSetting

  // ---------------------------------------------------------------- expressions

  lemma LiteralSound(w: Setting, e: Expr, st: State, fuel: nat)
    requires Judged(w, e, st)
    requires e.StringLit? || e.BoolLit? || e.IntLit? || e.LongLit? || e.NullLit?
    ensures Evaluates(w, e, st, fuel)
  {
    hide StateOk;
    StepsReflexive(w, st);
  }

  lemma VarSound(w: Setting, e: Expr, st: State, fuel: nat)
    requires Judged(w, e, st) && e.Var?
    ensures Evaluates(w, e, st, fuel)
  {
    StepsReflexive(w, st);
    ReadPlaceDelivers(w.allowance, w.source.classes, st, LocalPlace(e.name), LookupType(w.types, e.name).value);
  }

  // Index

  lemma IndexChecked(w: Setting, e: Expr)
    requires e.Index? && CheckExpr(w.cx, w.types, e).Ok?
    ensures CheckExpr(w.cx, w.types, e.list).Ok? && CheckExpr(w.cx, w.types, e.index).Ok?
    ensures var l, i := Checked(w, e.list), Checked(w, e.index);
            && ElementType(l.ty, i.ty).Ok?
            && Checked(w, e) == Typed(Index(l.expr, i.expr), EValue(ElementType(l.ty, i.ty).value))
  {
  }

  lemma IndexEval(env: Env, e: Expr, st: State, fuel: nat)
    requires e.Index?
    ensures var l := Eval(env, e.list, st, fuel);
            var i := Eval(env, e.index, l.st, fuel);
            Eval(env, e, st, fuel) ==
              if !l.out.Done? then l
              else if !i.out.Done? then i
              else Res(ReadElement(i.st.lists, l.out.value, i.out.value), i.st)
  {
  }

  // Binary operators

  lemma BinaryChecked(w: Setting, e: Expr)
    requires e.Binary? && CheckExpr(w.cx, w.types, e).Ok?
    ensures CheckExpr(w.cx, w.types, e.left).Ok? && CheckExpr(w.cx, w.types, e.right).Ok?
    ensures var l, r := Checked(w, e.left), Checked(w, e.right);
            && BinaryType(l.ty, e.binaryOp, r.ty).Ok?
            && var t := BinaryType(l.ty, e.binaryOp, r.ty).value;
               Checked(w, e) == Typed(Binary(l.expr, e.binaryOp, r.expr, t.1), t.0)
  {
  }

  lemma StrictEval(env: Env, e: Expr, st: State, fuel: nat)
    requires e.Binary? && !e.binaryOp.And? && !e.binaryOp.Or?
    ensures var l := Eval(env, e.left, st, fuel);
            var r := Eval(env, e.right, l.st, fuel);
            Eval(env, e, st, fuel) ==
              if !l.out.Done? then l
              else if !r.out.Done? then r
              else Res(Combine(env, r.st.lists, e.binaryOp, e.fact, l.out.value, r.out.value), r.st)
  {
  }

  lemma LazyEval(env: Env, e: Expr, st: State, fuel: nat)
    requires e.Binary? && (e.binaryOp.And? || e.binaryOp.Or?)
    ensures var l := EvalBoolean(env, e.left, st, fuel);
            var r := EvalBoolean(env, e.right, l.st, fuel);
            Eval(env, e, st, fuel) ==
              if !l.out.Done? then Res(l.out.Propagate(), l.st)
              else if l.out.value == e.binaryOp.Or? then Res(Done(VBoolean(l.out.value)), l.st)
              else if r.out.Done? then Res(Done(VBoolean(r.out.value)), r.st)
              else Res(r.out.Propagate(), r.st)
  {
  }

  // Null coalescing and conditionals

  lemma CoalesceChecked(w: Setting, e: Expr)
    requires e.NullCoalesce? && CheckExpr(w.cx, w.types, e).Ok?
    ensures CheckExpr(w.cx, w.types, e.left).Ok? && CheckExpr(w.cx, w.types, e.right).Ok?
    ensures var l, r := Checked(w, e.left), Checked(w, e.right);
            && Join(w.cx.classes, l.ty, r.ty).Ok?
            && Checked(w, e) == Typed(NullCoalesce(l.expr, r.expr), Join(w.cx.classes, l.ty, r.ty).value)
  {
  }

  lemma CoalesceEval(env: Env, e: Expr, st: State, fuel: nat)
    requires e.NullCoalesce?
    ensures var l := Eval(env, e.left, st, fuel);
            Eval(env, e, st, fuel) ==
              if l.out.Done? && l.out.value.VNull? then Eval(env, e.right, l.st, fuel) else l
  {
  }

  lemma ConditionalChecked(w: Setting, e: Expr)
    requires e.Conditional? && CheckExpr(w.cx, w.types, e).Ok?
    ensures CheckExpr(w.cx, w.types, e.condition).Ok? && CheckBoolean(w.cx, w.types, e.condition).Ok?
    ensures CheckExpr(w.cx, w.types, e.whenTrue).Ok? && CheckExpr(w.cx, w.types, e.whenFalse).Ok?
    ensures var c, t, f := Checked(w, e.condition), Checked(w, e.whenTrue), Checked(w, e.whenFalse);
            && Join(w.cx.classes, t.ty, f.ty).Ok?
            && Checked(w, e) == Typed(Conditional(c.expr, t.expr, f.expr), Join(w.cx.classes, t.ty, f.ty).value)
  {
  }

  lemma ConditionalEval(env: Env, e: Expr, st: State, fuel: nat)
    requires e.Conditional?
    ensures var c := EvalBoolean(env, e.condition, st, fuel);
            Eval(env, e, st, fuel) ==
              if !c.out.Done? then Res(c.out.Propagate(), c.st)
              else Eval(env, if c.out.value then e.whenTrue else e.whenFalse, c.st, fuel)
  {
  }

  // Unary operators

  lemma NotChecked(w: Setting, e: Expr)
    requires e.Unary? && e.unaryOp.Not? && CheckExpr(w.cx, w.types, e).Ok?
    ensures CheckExpr(w.cx, w.types, e.operand).Ok? && CheckBoolean(w.cx, w.types, e.operand).Ok?
    ensures Checked(w, e) == Typed(Unary(Not, Checked(w, e.operand).expr, None), EValue(TBoolean))
  {
  }

  lemma NotEval(env: Env, e: Expr, st: State, fuel: nat)
    requires e.Unary? && e.unaryOp.Not?
    ensures var c := EvalBoolean(env, e.operand, st, fuel);
            Eval(env, e, st, fuel) ==
              if c.out.Done? then Res(Done(VBoolean(!c.out.value)), c.st) else Res(c.out.Propagate(), c.st)
  {
  }

  predicate IsLeastLiteral(e: Expr)
    requires e.Unary?
  {
    e.unaryOp.Negate? && (e.operand == IntLit(MAX_INT + 1) || e.operand == LongLit(MAX_LONG + 1))
  }

  lemma SignChecked(w: Setting, e: Expr)
    requires e.Unary? && !e.unaryOp.Not? && !IsLeastLiteral(e) && CheckExpr(w.cx, w.types, e).Ok?
    ensures CheckExpr(w.cx, w.types, e.operand).Ok?
    ensures var o := Checked(w, e.operand);
            && KindOf(o.ty).Some?
            && var kind := KindOf(o.ty).value;
               Checked(w, e) == Typed(Unary(e.unaryOp, o.expr,
                 Some(if e.unaryOp.Positive? then PositiveOf(kind) else NegateOf(kind))), o.ty)
  {
  }

  lemma SignEval(env: Env, e: Expr, st: State, fuel: nat)
    requires e.Unary? && !e.unaryOp.Not? && e.unaryFact.Some?
    requires !IsLeastInteger(e.operand, e.unaryFact.value) && !IsLeastLong(e.operand, e.unaryFact.value)
    ensures var r := Eval(env, e.operand, st, fuel);
            Eval(env, e, st, fuel) ==
              if r.out.Done? then Res(ApplyUnary(e.unaryFact.value, r.out.value), r.st) else r
  {
  }

  lemma LeastLiteralSound(w: Setting, e: Expr, st: State, fuel: nat)
    requires Judged(w, e, st) && e.Unary? && IsLeastLiteral(e)
    ensures Evaluates(w, e, st, fuel)
  {
    hide StateOk;
    StepsReflexive(w, st);
  }

  /** Checking never turns another operand into the literal that `-` treats specially. */
  lemma CheckedLiteral(w: Setting, e: Expr)
    requires CheckExpr(w.cx, w.types, e).Ok?
    ensures Checked(w, e).expr.IntLit? || Checked(w, e).expr.LongLit? ==> Checked(w, e).expr == e
  {
  }

  // Casts, debug output and exceptions

  lemma CastChecked(w: Setting, e: Expr)
    requires e.Cast? && CheckExpr(w.cx, w.types, e).Ok?
    ensures CheckExpr(w.cx, w.types, e.operand).Ok?
    ensures CastAllowed(w.cx.classes, Checked(w, e.operand).ty, e.ty)
    ensures Checked(w, e) == Typed(Cast(e.ty, Checked(w, e.operand).expr), EValue(e.ty))
  {
  }

  lemma CastEval(env: Env, e: Expr, st: State, fuel: nat)
    requires e.Cast?
    ensures var r := Eval(env, e.operand, st, fuel);
            Eval(env, e, st, fuel) ==
              if r.out.Done? then Res(CastValue(env.program.classes, r.st.lists, r.out.value, e.ty), r.st) else r
  {
  }

  lemma DebugChecked(w: Setting, e: Expr)
    requires e.Debug? && CheckExpr(w.cx, w.types, e).Ok?
    ensures CheckExpr(w.cx, w.types, e.argument).Ok? && !Checked(w, e.argument).ty.EVoid?
    ensures Checked(w, e) == Typed(Debug(Checked(w, e.argument).expr), EVoid)
  {
  }

  lemma DebugEval(env: Env, e: Expr, st: State, fuel: nat)
    requires e.Debug?
    ensures var r := Eval(env, e.argument, st, fuel);
            Eval(env, e, st, fuel) == if r.out.Done? then DebugLine(env.host, r.st, r.out.value) else r
  {
  }

  lemma NewExceptionChecked(w: Setting, e: Expr)
    requires e.NewException? && e.message.Some? && CheckExpr(w.cx, w.types, e).Ok?
    ensures IsExceptionType(w.cx.classes, e.ty)
    ensures CheckExpr(w.cx, w.types, e.message.value).Ok?
    ensures IsAssignable(w.cx.classes, TString, Checked(w, e.message.value).ty)
    ensures Checked(w, e) == Typed(NewException(e.ty, Some(Checked(w, e.message.value).expr)), EValue(e.ty))
  {
  }

  lemma NewExceptionEval(env: Env, e: Expr, st: State, fuel: nat)
    requires e.NewException? && e.message.Some?
    ensures var r := Eval(env, e.message.value, st, fuel);
            Eval(env, e, st, fuel) == if r.out.Done? then Res(ExceptionValue(e.ty, r.out.value), r.st) else r
  {
  }

  lemma BareExceptionSound(w: Setting, e: Expr, st: State, fuel: nat)
    requires Judged(w, e, st) && e.NewException? && e.message.None?
    ensures Evaluates(w, e, st, fuel)
  {
    hide StateOk;
    StepsReflexive(w, st);
  }

  // Argument lists

  function CheckedAll(w: Setting, es: seq<Expr>): (r: seq<Typed>)
    requires CheckExprs(w.cx, w.types, es).Ok?
    ensures |r| == |es|
  {
    CheckExprs(w.cx, w.types, es).value
  }

  lemma AllChecked(w: Setting, es: seq<Expr>)
    requires es != [] && CheckExprs(w.cx, w.types, es).Ok?
    ensures CheckExpr(w.cx, w.types, es[0]).Ok? && CheckExprs(w.cx, w.types, es[1..]).Ok?
    ensures CheckedAll(w, es) == [Checked(w, es[0])] + CheckedAll(w, es[1..])
    ensures Exprs(CheckedAll(w, es)) == [Checked(w, es[0]).expr] + Exprs(CheckedAll(w, es[1..]))
    ensures Types(CheckedAll(w, es)) == [Checked(w, es[0]).ty] + Types(CheckedAll(w, es[1..]))
  {
    hide CheckExpr;
    TypedCons(Checked(w, es[0]), CheckedAll(w, es[1..]));
  }

  lemma TypedCons(t: Typed, ts: seq<Typed>)
    ensures Exprs([t] + ts) == [t.expr] + Exprs(ts) && Types([t] + ts) == [t.ty] + Types(ts)
  {
  }

  lemma AllEval(env: Env, es: seq<Expr>, st: State, fuel: nat)
    requires es != []
    ensures var first := Eval(env, es[0], st, fuel);
            var rest := EvalAll(env, es[1..], first.st, fuel);
            EvalAll(env, es, st, fuel) ==
              if !first.out.Done? then Res(first.out.Propagate(), first.st)
              else if rest.out.Done? then Res(Done([first.out.value] + rest.out.value), rest.st)
              else rest
  {
  }

  // List construction and list methods

  lemma NewListChecked(w: Setting, e: Expr)
    requires e.NewList? && CheckExpr(w.cx, w.types, e).Ok?
    ensures CheckExprs(w.cx, w.types, e.elements).Ok?
    ensures forall i :: 0 <= i < |e.elements| ==> IsAssignable(w.cx.classes, e.element, Types(CheckedAll(w, e.elements))[i])
    ensures Checked(w, e) == Typed(NewList(e.element, Exprs(CheckedAll(w, e.elements))), EValue(TList(e.element)))
  {
  }

  lemma NewListEval(env: Env, e: Expr, st: State, fuel: nat)
    requires e.NewList?
    ensures var r := EvalAll(env, e.elements, st, fuel);
            Eval(env, e, st, fuel) ==
              if r.out.Done? then Allocate(r.st, e.element, r.out.value) else Res(r.out.Propagate(), r.st)
  {
  }

  lemma ListCallChecked(w: Setting, e: Expr)
    requires e.ListCall? && CheckExpr(w.cx, w.types, e).Ok?
    ensures CheckExpr(w.cx, w.types, e.receiver).Ok? && CheckExprs(w.cx, w.types, e.arguments).Ok?
    ensures var l := Checked(w, e.receiver);
            && l.ty.EValue? && l.ty.ty.TList?
            && |e.arguments| == ListArity(e.method_)
            && (e.method_.ListAdd? ==> IsAssignable(w.cx.classes, l.ty.ty.element, Types(CheckedAll(w, e.arguments))[0]))
            && Checked(w, e) == Typed(ListCall(l.expr, e.method_, Exprs(CheckedAll(w, e.arguments))),
                                      if e.method_.ListSize? then EValue(TInteger) else EVoid)
  {
  }

  lemma ListCallEval(env: Env, e: Expr, st: State, fuel: nat)
    requires e.ListCall?
    ensures var l := Eval(env, e.receiver, st, fuel);
            var r := EvalAll(env, e.arguments, l.st, fuel);
            Eval(env, e, st, fuel) ==
              if !l.out.Done? then l
              else if !r.out.Done? then Res(r.out.Propagate(), r.st)
              else CallListMethod(r.st, l.out.value, e.method_, r.out.value)
  {
  }

  // Calls

  lemma CallChecked(w: Setting, e: Expr)
    requires e.Call? && CheckExpr(w.cx, w.types, e).Ok?
    ensures CheckExprs(w.cx, w.types, e.arguments).Ok?
    ensures var args := CheckedAll(w, e.arguments);
            && SelectMethod(w.cx.classes, w.cx.methods, e.name, Types(args)).Ok?
            && var callee := SelectMethod(w.cx.classes, w.cx.methods, e.name, Types(args)).value;
               Checked(w, e) == Typed(Call(e.name, Exprs(args), Some(callee)), ResultType(w.cx.methods[callee].returnType))
  {
  }

  lemma CallEval(env: Env, e: Expr, st: State, fuel: nat)
    requires e.Call? && e.callee.Some? && e.callee.value < |env.program.methods|
    ensures var r := EvalAll(env, e.arguments, st, fuel);
            Eval(env, e, st, fuel) ==
              if !r.out.Done? then Res(r.out.Propagate(), r.st)
              else if fuel == 0 then Res(OutOfFuel, r.st)
              else Invoke(env, env.program.methods[e.callee.value], r.out.value, r.st, fuel - 1)
  {
  }

  // Places

  lemma IndexTargetChecked(w: Setting, t: Target)
    requires t.IndexTarget? && CheckTarget(w.cx, w.types, t).Ok?
    ensures CheckExpr(w.cx, w.types, t.list).Ok? && CheckExpr(w.cx, w.types, t.index).Ok?
    ensures var l, i := Checked(w, t.list), Checked(w, t.index);
            && ElementType(l.ty, i.ty).Ok?
            && CheckTarget(w.cx, w.types, t).value == (IndexTarget(l.expr, i.expr), ElementType(l.ty, i.ty).value)
  {
  }

  lemma IndexTargetEval(env: Env, t: Target, st: State, fuel: nat)
    requires t.IndexTarget?
    ensures var l := Eval(env, t.list, st, fuel);
            var i := Eval(env, t.index, l.st, fuel);
            ResolvePlace(env, t, st, fuel) ==
              if !l.out.Done? then Res(l.out.Propagate(), l.st)
              else if !i.out.Done? then Res(i.out.Propagate(), i.st)
              else
                var position := ListPosition(i.st.lists, l.out.value, i.out.value, true);
                if position.Done? then Res(Done(ListPlace(position.value.0, position.value.1)), i.st)
                else Res(position.Propagate(), i.st)
  {
  }

  lemma AssignmentChecked(w: Setting, e: Expr)
    requires e.Assignment? && CheckExpr(w.cx, w.types, e).Ok?
    ensures CheckTarget(w.cx, w.types, e.target).Ok? && CheckExpr(w.cx, w.types, e.value).Ok?
    ensures var t := CheckTarget(w.cx, w.types, e.target).value;
            var v := Checked(w, e.value);
            if e.op.Assign? then
              && IsAssignable(w.cx.classes, t.1, v.ty)
              && Checked(w, e) == Typed(Assignment(t.0, e.op, v.expr, None), EValue(t.1))
            else
              && BinaryType(EValue(t.1), e.op.Operator(), v.ty).Ok?
              && var r := BinaryType(EValue(t.1), e.op.Operator(), v.ty).value;
                 && IsAssignable(w.cx.classes, t.1, r.0)
                 && Checked(w, e) == Typed(Assignment(t.0, e.op, v.expr, r.1), EValue(t.1))
  {
  }

  lemma MutationChecked(w: Setting, e: Expr)
    requires e.Mutation? && CheckExpr(w.cx, w.types, e).Ok?
    ensures CheckTarget(w.cx, w.types, e.target).Ok?
    ensures var t := CheckTarget(w.cx, w.types, e.target).value;
            && (t.1.TInteger? || t.1.TLong?)
            && Checked(w, e) == Typed(Mutation(t.0, e.delta, e.returnOld), EValue(t.1))
  {
  }

  // Parameters

  /** Binding evaluated arguments gives exactly the scope the method body was checked in. */
  lemma {:induction false} ParametersAgree(a: Allowance, classes: ClassTable, lists: Lists, parameters: seq<Parameter>,
                                           arguments: seq<Value>, types: seq<ExprType>)
    requires BindParameters(classes, parameters).Ok?
    requires |parameters| == |arguments| && Applicable(classes, ParameterTypes(parameters), types)
    requires forall i :: 0 <= i < |arguments| ==> Conforms(a, classes, lists, arguments[i], types[i])
    ensures var scope := ParameterScope(parameters, arguments);
            var declared := BindParameters(classes, parameters).value;
            && scope.Keys == declared.Keys
            && (forall x :: x in scope ==> scope[x].ty == declared[x])
            && ScopeOk(a, classes, lists, scope)
  {
    hide Conforms, IsAssignable;
    if parameters != [] {
      var n := |parameters| - 1;
      assert ParameterTypes(parameters[..n]) == ParameterTypes(parameters)[..n];
      ParametersAgree(a, classes, lists, parameters[..n], arguments[..n], types[..n]);
      ConversionHolds(a, classes, lists, arguments[n], types[n], parameters[n].ty);
    }
  }
}
