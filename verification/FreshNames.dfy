/** Declaring more methods, none of a name that is already declared, changes nothing about what was
    accepted before: overloads are looked for by name and numbered in the order of declaration, so an
    accepted call is resolved to the same method, and checking gives the same syntax and the same
    scopes. The proofs follow the checker form by form and show two things together: the result with
    more methods is the result without them, and every call in it is to one of the methods without
    them. The second is what `Linking` needs to make what ran before run the same. That the names are
    new is needed: one more method of a name that is called already may fit the call better, as the
    session in `Repl` shows. */
module FreshNames {
  import opened Wrappers
  import opened Syntax
  import opened Typing
  import opened Completion
  import opened Checker
  import opened Linking

  /** More methods at the end, none of them named like an earlier one. */
  ghost predicate Appended(methods: seq<Method>, more: seq<Method>) {
    && methods <= more
    && forall i, j :: 0 <= i < |methods| <= j < |more| ==> methods[i].name != more[j].name
  }

  ghost predicate Extended(cx: Context, more: Context) {
    more == cx.(methods := more.methods) && Appended(cx.methods, more.methods)
  }

  // ---------------------------------------------------------------- overloads

  lemma {:induction false} NoneApplicable(classes: ClassTable, methods: seq<Method>, name: Name, arguments: seq<ExprType>, from: nat)
    requires from <= |methods| && forall j :: from <= j < |methods| ==> methods[j].name != name
    ensures ApplicableMethods(classes, methods, name, arguments, from) == []
    decreases |methods| - from
  {
    if from < |methods| { NoneApplicable(classes, methods, name, arguments, from + 1); }
  }

  lemma {:induction false} ApplicableSame(classes: ClassTable, methods: seq<Method>, more: seq<Method>, name: Name, arguments: seq<ExprType>, from: nat)
    requires methods <= more && from <= |methods| && forall j :: |methods| <= j < |more| ==> more[j].name != name
    ensures ApplicableMethods(classes, more, name, arguments, from) == ApplicableMethods(classes, methods, name, arguments, from)
    decreases |methods| - from
  {
    hide Applicable;
    if from < |methods| {
      assert more[from] == methods[from];
      ApplicableSame(classes, methods, more, name, arguments, from + 1);
    } else {
      NoneApplicable(classes, more, name, arguments, from);
    }
  }

  lemma SelectSame(classes: ClassTable, methods: seq<Method>, more: seq<Method>, name: Name, arguments: seq<ExprType>)
    requires Appended(methods, more) && SelectMethod(classes, methods, name, arguments).Ok?
    ensures SelectMethod(classes, more, name, arguments) == SelectMethod(classes, methods, name, arguments)
  {
    hide Applicable, UniqueMostSpecific;
    var i :| 0 <= i < |methods| && methods[i].name == name;
    assert more[i] == methods[i];
    ApplicableSame(classes, methods, more, name, arguments, 0);
    var ids := ApplicableMethods(classes, methods, name, arguments, 0);
    assert CandidateTypes(more, ids) == CandidateTypes(methods, ids) by {
      forall k | 0 <= k < |ids|
        ensures CandidateTypes(more, ids)[k] == CandidateTypes(methods, ids)[k]
      {
        assert ids[k] in ids;
      }
    }
  }

  // ---------------------------------------------------------------- expressions

  /** The expression was accepted, is checked the same with more methods, and calls only earlier ones. */
  ghost predicate SameExpr(cx: Context, more: Context, scopes: seq<TypeScope>, e: Expr) {
    && CheckExpr(cx, scopes, e).Ok?
    && CheckExpr(more, scopes, e) == CheckExpr(cx, scopes, e)
    && Linked(|cx.methods|, CheckExpr(cx, scopes, e).value.expr)
  }

  lemma {:induction false} ExprSame(cx: Context, more: Context, scopes: seq<TypeScope>, e: Expr)
    requires Extended(cx, more) && CheckExpr(cx, scopes, e).Ok?
    ensures SameExpr(cx, more, scopes, e)
    decreases e, 2
  {
    hide CheckExpr, SameExpr, Extended;
    match e
    case Assignment(_, _, _, _) => AssignmentSame(cx, more, scopes, e);
    case Mutation(_, _, _) => MutationSame(cx, more, scopes, e);
    case NewList(_, _) => NewListSame(cx, more, scopes, e);
    case NewException(_, Some(_)) => NewExceptionSame(cx, more, scopes, e);
    case Index(_, _) => IndexSame(cx, more, scopes, e);
    case Call(_, _, _) => CallSame(cx, more, scopes, e);
    case ListCall(_, _, _) => ListCallSame(cx, more, scopes, e);
    case Debug(_) => DebugSame(cx, more, scopes, e);
    case Cast(_, _) => CastSame(cx, more, scopes, e);
    case Conditional(_, _, _) => ConditionalSame(cx, more, scopes, e);
    case NullCoalesce(_, _) => CoalesceSame(cx, more, scopes, e);
    case Unary(_, _, _) => UnarySame(cx, more, scopes, e);
    case Binary(_, _, _, _) => BinarySame(cx, more, scopes, e);
    case _ => LeafSame(cx, more, scopes, e);
  }

  lemma LeafSame(cx: Context, more: Context, scopes: seq<TypeScope>, e: Expr)
    requires e.StringLit? || e.BoolLit? || e.IntLit? || e.LongLit? || e.NullLit? || e.Var?
             || (e.NewException? && e.message.None?)
    requires Extended(cx, more) && CheckExpr(cx, scopes, e).Ok?
    ensures SameExpr(cx, more, scopes, e)
  {
  }

  lemma {:induction false} BooleanSame(cx: Context, more: Context, scopes: seq<TypeScope>, e: Expr)
    requires Extended(cx, more) && CheckBoolean(cx, scopes, e).Ok?
    ensures CheckBoolean(more, scopes, e) == CheckBoolean(cx, scopes, e) && Linked(|cx.methods|, CheckBoolean(cx, scopes, e).value)
    decreases e, 3
  {
    hide CheckExpr;
    ExprSame(cx, more, scopes, e);
  }

  lemma {:induction false} ExprsSame(cx: Context, more: Context, scopes: seq<TypeScope>, es: seq<Expr>)
    requires Extended(cx, more) && CheckExprs(cx, scopes, es).Ok?
    ensures CheckExprs(more, scopes, es) == CheckExprs(cx, scopes, es)
    ensures LinkedAll(|cx.methods|, Exprs(CheckExprs(cx, scopes, es).value))
    decreases es, 0
  {
    hide CheckExpr, Linked, Extended;
    if es != [] {
      ExprSame(cx, more, scopes, es[0]);
      ExprsSame(cx, more, scopes, es[1..]);
      var rest := CheckExprs(cx, scopes, es[1..]).value;
      forall i | 0 <= i < |es|
        ensures Linked(|cx.methods|, Exprs(CheckExprs(cx, scopes, es).value)[i])
      {
        if i > 0 { assert Linked(|cx.methods|, Exprs(rest)[i - 1]); }
      }
    }
  }

  lemma {:induction false} TargetSame(cx: Context, more: Context, scopes: seq<TypeScope>, target: Target)
    requires Extended(cx, more) && CheckTarget(cx, scopes, target).Ok?
    ensures CheckTarget(more, scopes, target) == CheckTarget(cx, scopes, target)
    ensures LinkedTarget(|cx.methods|, CheckTarget(cx, scopes, target).value.0)
    decreases target, 0
  {
    hide CheckExpr, Linked, Extended;
    if target.IndexTarget? {
      ExprSame(cx, more, scopes, target.list);
      ExprSame(cx, more, scopes, target.index);
    }
  }

  lemma {:induction false} AssignmentSame(cx: Context, more: Context, scopes: seq<TypeScope>, e: Expr)
    requires Extended(cx, more) && e.Assignment? && CheckExpr(cx, scopes, e).Ok?
    ensures SameExpr(cx, more, scopes, e)
    decreases e, 1
  {
    hide CheckTarget, BinaryType, IsAssignable;
    TargetSame(cx, more, scopes, e.target);
    ExprSame(cx, more, scopes, e.value);
  }

  lemma {:induction false} MutationSame(cx: Context, more: Context, scopes: seq<TypeScope>, e: Expr)
    requires Extended(cx, more) && e.Mutation? && CheckExpr(cx, scopes, e).Ok?
    ensures SameExpr(cx, more, scopes, e)
    decreases e, 1
  {
    hide CheckTarget;
    TargetSame(cx, more, scopes, e.target);
  }

  lemma {:induction false} NewListSame(cx: Context, more: Context, scopes: seq<TypeScope>, e: Expr)
    requires Extended(cx, more) && e.NewList? && CheckExpr(cx, scopes, e).Ok?
    ensures SameExpr(cx, more, scopes, e)
    decreases e, 1
  {
    hide CheckExprs, IsAssignable;
    ExprsSame(cx, more, scopes, e.elements);
  }

  lemma {:induction false} NewExceptionSame(cx: Context, more: Context, scopes: seq<TypeScope>, e: Expr)
    requires Extended(cx, more) && e.NewException? && e.message.Some? && CheckExpr(cx, scopes, e).Ok?
    ensures SameExpr(cx, more, scopes, e)
    decreases e, 1
  {
    hide IsAssignable, IsExceptionType;
    ExprSame(cx, more, scopes, e.message.value);
    assert LinkedOption(|cx.methods|, Some(CheckExpr(cx, scopes, e.message.value).value.expr));
  }

  lemma {:induction false} IndexSame(cx: Context, more: Context, scopes: seq<TypeScope>, e: Expr)
    requires Extended(cx, more) && e.Index? && CheckExpr(cx, scopes, e).Ok?
    ensures SameExpr(cx, more, scopes, e)
    decreases e, 1
  {
    hide SelectMethod;
    ExprSame(cx, more, scopes, e.list);
    ExprSame(cx, more, scopes, e.index);
  }

  lemma {:induction false} CallSame(cx: Context, more: Context, scopes: seq<TypeScope>, e: Expr)
    requires Extended(cx, more) && e.Call? && CheckExpr(cx, scopes, e).Ok?
    ensures SameExpr(cx, more, scopes, e)
    decreases e, 1
  {
    hide CheckExprs, SelectMethod;
    ExprsSame(cx, more, scopes, e.arguments);
    SelectSame(cx.classes, cx.methods, more.methods, e.name, Types(CheckExprs(cx, scopes, e.arguments).value));
  }

  lemma {:induction false} ListCallSame(cx: Context, more: Context, scopes: seq<TypeScope>, e: Expr)
    requires Extended(cx, more) && e.ListCall? && CheckExpr(cx, scopes, e).Ok?
    ensures SameExpr(cx, more, scopes, e)
    decreases e, 1
  {
    hide CheckExprs, IsAssignable;
    ExprSame(cx, more, scopes, e.receiver);
    ExprsSame(cx, more, scopes, e.arguments);
  }

  lemma {:induction false} DebugSame(cx: Context, more: Context, scopes: seq<TypeScope>, e: Expr)
    requires Extended(cx, more) && e.Debug? && CheckExpr(cx, scopes, e).Ok?
    ensures SameExpr(cx, more, scopes, e)
    decreases e, 1
  {
    hide SelectMethod;
    ExprSame(cx, more, scopes, e.argument);
  }

  lemma {:induction false} CastSame(cx: Context, more: Context, scopes: seq<TypeScope>, e: Expr)
    requires Extended(cx, more) && e.Cast? && CheckExpr(cx, scopes, e).Ok?
    ensures SameExpr(cx, more, scopes, e)
    decreases e, 1
  {
    hide SelectMethod, CastAllowed;
    ExprSame(cx, more, scopes, e.operand);
  }

  lemma {:induction false} ConditionalSame(cx: Context, more: Context, scopes: seq<TypeScope>, e: Expr)
    requires Extended(cx, more) && e.Conditional? && CheckExpr(cx, scopes, e).Ok?
    ensures SameExpr(cx, more, scopes, e)
    decreases e, 1
  {
    hide SelectMethod, CheckBoolean, Typing.Join;
    BooleanSame(cx, more, scopes, e.condition);
    ExprSame(cx, more, scopes, e.whenTrue);
    ExprSame(cx, more, scopes, e.whenFalse);
  }

  lemma {:induction false} CoalesceSame(cx: Context, more: Context, scopes: seq<TypeScope>, e: Expr)
    requires Extended(cx, more) && e.NullCoalesce? && CheckExpr(cx, scopes, e).Ok?
    ensures SameExpr(cx, more, scopes, e)
    decreases e, 1
  {
    hide SelectMethod, Typing.Join;
    ExprSame(cx, more, scopes, e.left);
    ExprSame(cx, more, scopes, e.right);
  }

  lemma {:induction false} UnarySame(cx: Context, more: Context, scopes: seq<TypeScope>, e: Expr)
    requires Extended(cx, more) && e.Unary? && CheckExpr(cx, scopes, e).Ok?
    ensures SameExpr(cx, more, scopes, e)
    decreases e, 1
  {
    hide SelectMethod, CheckBoolean;
    if e.operand.IntLit? || e.operand.LongLit? { assert Linked(|cx.methods|, e.operand); }
    if e.unaryOp.Not? {
      BooleanSame(cx, more, scopes, e.operand);
    } else if CheckExpr(cx, scopes, e.operand).Ok? {
      ExprSame(cx, more, scopes, e.operand);
    }
  }

  lemma {:induction false} BinarySame(cx: Context, more: Context, scopes: seq<TypeScope>, e: Expr)
    requires Extended(cx, more) && e.Binary? && CheckExpr(cx, scopes, e).Ok?
    ensures SameExpr(cx, more, scopes, e)
    decreases e, 1
  {
    hide SelectMethod, BinaryType;
    ExprSame(cx, more, scopes, e.left);
    ExprSame(cx, more, scopes, e.right);
  }

  // ---------------------------------------------------------------- statements

  ghost predicate SameStmt(cx: Context, more: Context, scopes: seq<TypeScope>, s: Stmt) {
    && scopes != []
    && CheckStmt(cx, scopes, s).Ok?
    && CheckStmt(more, scopes, s) == CheckStmt(cx, scopes, s)
    && LinkedStmt(|cx.methods|, CheckStmt(cx, scopes, s).value.syntax)
  }

  lemma {:induction false} StmtSame(cx: Context, more: Context, scopes: seq<TypeScope>, s: Stmt)
    requires Extended(cx, more) && scopes != [] && CheckStmt(cx, scopes, s).Ok?
    ensures SameStmt(cx, more, scopes, s)
    decreases s, 3
  {
    hide CheckStmt, SameStmt, Extended;
    match s
    case LocalDeclaration(_, _) => DeclarationSame(cx, more, scopes, s);
    case Sequence(_) => ListSame(cx, more, scopes, s);
    case Block(_) => ListSame(cx, more, scopes, s);
    case If(_, _, _) => IfSame(cx, more, scopes, s);
    case While(_, _) => LoopSame(cx, more, scopes, s);
    case DoWhile(_, _) => LoopSame(cx, more, scopes, s);
    case For(_, _, _, _) => ForSame(cx, more, scopes, s);
    case ForEach(_, _, _, _) => ForEachSame(cx, more, scopes, s);
    case Try(_, _, _) => TrySame(cx, more, scopes, s);
    case _ => SimpleSame(cx, more, scopes, s);
  }

  lemma SimpleSame(cx: Context, more: Context, scopes: seq<TypeScope>, s: Stmt)
    requires s.ExprStmt? || s.Break? || s.Continue? || s.Return? || s.Throw?
    requires Extended(cx, more) && scopes != [] && CheckStmt(cx, scopes, s).Ok?
    ensures SameStmt(cx, more, scopes, s)
  {
    hide CheckExpr, Linked, IsAssignable, IsExceptionType;
    match s
    case ExprStmt(e) => ExprSame(cx, more, scopes, e);
    case Return(Some(e)) => ExprSame(cx, more, scopes, e);
    case Throw(e) => ExprSame(cx, more, scopes, e);
    case _ =>
  }

  lemma DeclarationSame(cx: Context, more: Context, scopes: seq<TypeScope>, s: Stmt)
    requires Extended(cx, more) && s.LocalDeclaration? && scopes != [] && CheckStmt(cx, scopes, s).Ok?
    ensures SameStmt(cx, more, scopes, s)
  {
    hide CheckExpr, CheckDeclarators, Linked, LinkedDeclarators;
    DeclaratorsSame(cx, more, scopes, s.ty, s.declarators);
  }

  lemma {:induction false} DeclaratorsSame(cx: Context, more: Context, scopes: seq<TypeScope>, ty: Type, ds: seq<Declarator>)
    requires Extended(cx, more) && scopes != [] && CheckDeclarators(cx, scopes, ty, ds).Ok?
    ensures CheckDeclarators(more, scopes, ty, ds) == CheckDeclarators(cx, scopes, ty, ds)
    ensures LinkedDeclarators(|cx.methods|, CheckDeclarators(cx, scopes, ty, ds).value.syntax)
    decreases ds
  {
    hide CheckExpr, Linked, IsAssignable;
    if ds != [] {
      if ds[0].initializer.Some? { ExprSame(cx, more, scopes, ds[0].initializer.value); }
      DeclaratorsSame(cx, more, BindType(scopes, ds[0].name, ty), ty, ds[1..]);
    }
  }

  lemma {:induction false} StmtsSame(cx: Context, more: Context, scopes: seq<TypeScope>, ss: seq<Stmt>)
    requires Extended(cx, more) && scopes != [] && CheckStmts(cx, scopes, ss).Ok?
    ensures CheckStmts(more, scopes, ss) == CheckStmts(cx, scopes, ss)
    ensures LinkedStmts(|cx.methods|, CheckStmts(cx, scopes, ss).value.syntax)
    decreases ss, 0
  {
    hide CheckStmt, LinkedStmt, Extended;
    if ss != [] {
      StmtSame(cx, more, scopes, ss[0]);
      StmtsSame(cx, more, CheckStmt(cx, scopes, ss[0]).value.scopes, ss[1..]);
    }
  }

  lemma {:induction false} OptionalSame(cx: Context, more: Context, scopes: seq<TypeScope>, s: Option<Stmt>)
    requires Extended(cx, more) && scopes != [] && CheckOptional(cx, scopes, s).Ok?
    ensures CheckOptional(more, scopes, s) == CheckOptional(cx, scopes, s)
    ensures LinkedOptional(|cx.methods|, CheckOptional(cx, scopes, s).value.syntax)
    decreases s, 4
  {
    hide CheckStmt, LinkedStmt, Extended;
    if s.Some? { StmtSame(cx, more, scopes, s.value); }
  }

  lemma {:induction false} ListSame(cx: Context, more: Context, scopes: seq<TypeScope>, s: Stmt)
    requires Extended(cx, more) && (s.Block? || s.Sequence?) && scopes != [] && CheckStmt(cx, scopes, s).Ok?
    ensures SameStmt(cx, more, scopes, s)
    decreases s, 2
  {
    hide CheckExpr, CheckStmts, LinkedStmts;
    StmtsSame(cx, more, if s.Block? then scopes + [map[]] else scopes, s.statements);
  }

  lemma {:induction false} IfSame(cx: Context, more: Context, scopes: seq<TypeScope>, s: Stmt)
    requires Extended(cx, more) && s.If? && scopes != [] && CheckStmt(cx, scopes, s).Ok?
    ensures SameStmt(cx, more, scopes, s)
    decreases s, 2
  {
    hide CheckExpr, CheckBoolean, CheckOptional, LinkedOptional, Linked;
    BooleanSame(cx, more, scopes, s.condition);
    StmtSame(cx, more, scopes, s.thenBranch);
    OptionalSame(cx, more, CheckStmt(cx, scopes, s.thenBranch).value.scopes, s.elseBranch);
  }

  lemma {:induction false} LoopSame(cx: Context, more: Context, scopes: seq<TypeScope>, s: Stmt)
    requires Extended(cx, more) && (s.While? || s.DoWhile?) && scopes != [] && CheckStmt(cx, scopes, s).Ok?
    ensures SameStmt(cx, more, scopes, s)
    decreases s, 2
  {
    hide CheckExpr, CheckBoolean, Linked;
    StmtSame(cx.InLoop(), more.InLoop(), scopes, s.body);
    BooleanSame(cx, more, if s.While? then scopes else CheckStmt(cx.InLoop(), scopes, s.body).value.scopes, s.condition);
  }

  lemma {:induction false} ForSame(cx: Context, more: Context, scopes: seq<TypeScope>, s: Stmt)
    requires Extended(cx, more) && s.For? && scopes != [] && CheckStmt(cx, scopes, s).Ok?
    ensures SameStmt(cx, more, scopes, s)
    decreases s, 2
  {
    hide CheckExpr, CheckOptional, CheckBoolean, CheckOptionalBoolean, LinkedOptional, LinkedOption;
    OptionalSame(cx, more, scopes + [map[]], s.initializer);
    var i := CheckOptional(cx, scopes + [map[]], s.initializer).value;
    ConditionSame(cx, more, i.scopes, s.forCondition);
    StmtSame(cx.InLoop(), more.InLoop(), i.scopes, s.body);
    OptionalSame(cx.InLoop(), more.InLoop(), CheckStmt(cx.InLoop(), i.scopes, s.body).value.scopes, s.update);
  }

  lemma ConditionSame(cx: Context, more: Context, scopes: seq<TypeScope>, e: Option<Expr>)
    requires Extended(cx, more) && CheckOptionalBoolean(cx, scopes, e).Ok?
    ensures CheckOptionalBoolean(more, scopes, e) == CheckOptionalBoolean(cx, scopes, e)
    ensures LinkedOption(|cx.methods|, CheckOptionalBoolean(cx, scopes, e).value)
  {
    hide CheckExpr, CheckBoolean, Linked;
    if e.Some? { BooleanSame(cx, more, scopes, e.value); }
  }

  lemma {:induction false} ForEachSame(cx: Context, more: Context, scopes: seq<TypeScope>, s: Stmt)
    requires Extended(cx, more) && s.ForEach? && scopes != [] && CheckStmt(cx, scopes, s).Ok?
    ensures SameStmt(cx, more, scopes, s)
    decreases s, 2
  {
    hide CheckExpr, Linked, IsAssignable;
    ExprSame(cx, more, scopes, s.iterable);
    StmtSame(cx.InLoop(), more.InLoop(), scopes + [map[s.name := s.ty]], s.body);
  }

  lemma {:induction false} TrySame(cx: Context, more: Context, scopes: seq<TypeScope>, s: Stmt)
    requires Extended(cx, more) && s.Try? && scopes != [] && CheckStmt(cx, scopes, s).Ok?
    ensures SameStmt(cx, more, scopes, s)
    decreases s, 2
  {
    hide CheckExpr, CheckCatches, CheckOptional, LinkedOptional;
    StmtSame(cx, more, scopes, s.tryBlock);
    var t := CheckStmt(cx, scopes, s.tryBlock).value;
    CatchesSame(cx, more, t.scopes, s.catches, [], false);
    OptionalSame(cx, more, t.scopes, s.finallyBlock);
  }

  lemma {:induction false} CatchesSame(cx: Context, more: Context, scopes: seq<TypeScope>, catches: seq<Catch>, seen: seq<Type>, all: bool)
    requires Extended(cx, more) && scopes != [] && CheckCatches(cx, scopes, catches, seen, all).Ok?
    ensures CheckCatches(more, scopes, catches, seen, all) == CheckCatches(cx, scopes, catches, seen, all)
    ensures var r := CheckCatches(cx, scopes, catches, seen, all).value;
            forall i :: 0 <= i < |r| ==> LinkedStmt(|cx.methods|, r[i].body)
    decreases catches, 0
  {
    hide CheckBody, IsSubtype, IsExceptionType, LinkedStmt;
    if catches != [] {
      BodySame(cx, more, scopes + [map[catches[0].name := catches[0].ty]], catches[0].body);
      CatchesSame(cx, more, scopes, catches[1..], seen + [catches[0].ty], catches[0].ty == TException);
    }
  }

  lemma {:induction false} BodySame(cx: Context, more: Context, scopes: seq<TypeScope>, body: Stmt)
    requires Extended(cx, more) && scopes != [] && CheckBody(cx, scopes, body).Ok?
    ensures CheckBody(more, scopes, body) == CheckBody(cx, scopes, body)
    ensures LinkedStmt(|cx.methods|, CheckBody(cx, scopes, body).value)
    decreases body, 4
  {
    hide CheckStmt, CheckStmts, LinkedStmts;
    if body.Block? { StmtsSame(cx, more, scopes, body.statements); } else { StmtSame(cx, more, scopes, body); }
  }

  // ---------------------------------------------------------------- methods

  lemma MethodSame(cx: Context, more: Context, m: Method)
    requires Extended(cx, more) && CheckMethod(cx, m).Ok?
    ensures CheckMethod(more, m) == CheckMethod(cx, m) && LinkedStmt(|cx.methods|, CheckMethod(cx, m).value.body)
  {
    hide CheckBody, BindParameters, LinkedStmt, DefinitelyReturnsOrThrows;
    var scope := BindParameters(cx.classes, m.parameters).value;
    var inner := cx.(loopDepth := 0, returnType := Some(m.returnType));
    BodySame(inner, inner.(methods := more.methods), [scope], m.body);
  }
}
