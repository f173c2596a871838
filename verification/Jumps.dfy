/** Jumps outside of loops: the checker reports one exactly where the syntax has one that it reaches. */
module Jumps {
  import opened Wrappers
  import opened Syntax
  import opened Typing
  import opened Checker

  /** Some `break` or `continue` in the statement has no loop around it there. */
  predicate Stray(s: Stmt)
    decreases s, 1
  {
    match s
    case Break => true
    case Continue => true
    case Block(statements) => StrayAmong(statements)
    case Sequence(statements) => StrayAmong(statements)
    case If(_, thenBranch, elseBranch) => Stray(thenBranch) || (elseBranch.Some? && Stray(elseBranch.value))
    case For(initializer, _, _, _) => initializer.Some? && Stray(initializer.value)
    case Try(tryBlock, catches, finallyBlock) =>
      || Stray(tryBlock) || (finallyBlock.Some? && Stray(finallyBlock.value))
      || exists i :: 0 <= i < |catches| && Stray(catches[i].body)
    case _ => false
  }

  predicate StrayAmong(ss: seq<Stmt>)
    decreases ss, 0
  {
    exists i :: 0 <= i < |ss| && Stray(ss[i])
  }

  // ---------------------------------------------------------------- expressions

  predicate NoJump<T>(r: Result<T, CheckError>) {
    r != Err(ControlOutsideLoop)
  }

  lemma {:induction false} ExprNoJump(cx: Context, scopes: seq<TypeScope>, e: Expr)
    ensures NoJump(CheckExpr(cx, scopes, e))
    decreases e, 1
  {
    hide CheckExpr, CheckTarget, CheckExprs;
    match e {
    case Assignment(target, _, value, _) =>
      TargetNoJump(cx, scopes, target);
      ExprNoJump(cx, scopes, value);
    case Mutation(target, _, _) => TargetNoJump(cx, scopes, target);
    case NewList(_, elements) => ExprsNoJump(cx, scopes, elements);
    case NewException(_, message) =>
      if message.Some? { ExprNoJump(cx, scopes, message.value); }
    case Index(list, index) =>
      ExprNoJump(cx, scopes, list);
      ExprNoJump(cx, scopes, index);
    case Call(_, arguments, _) => ExprsNoJump(cx, scopes, arguments);
    case ListCall(receiver, _, arguments) =>
      ExprNoJump(cx, scopes, receiver);
      ExprsNoJump(cx, scopes, arguments);
    case Debug(argument) => ExprNoJump(cx, scopes, argument);
    case Cast(_, operand) => ExprNoJump(cx, scopes, operand);
    case Conditional(condition, whenTrue, whenFalse) =>
      ExprNoJump(cx, scopes, condition);
      ExprNoJump(cx, scopes, whenTrue);
      ExprNoJump(cx, scopes, whenFalse);
    case NullCoalesce(left, right) =>
      ExprNoJump(cx, scopes, left);
      ExprNoJump(cx, scopes, right);
    case Unary(_, operand, _) => ExprNoJump(cx, scopes, operand);
    case Binary(left, _, right, _) =>
      ExprNoJump(cx, scopes, left);
      ExprNoJump(cx, scopes, right);
    case _ =>
    }
    WholeNoJump(cx, scopes, e);
  }

  /** Checking the parts of the expression reports no jump. */
  predicate PartsNoJump(cx: Context, scopes: seq<TypeScope>, e: Expr) {
    match e
    case Assignment(target, _, value, _) => NoJump(CheckTarget(cx, scopes, target)) && NoJump(CheckExpr(cx, scopes, value))
    case Mutation(target, _, _) => NoJump(CheckTarget(cx, scopes, target))
    case NewList(_, elements) => NoJump(CheckExprs(cx, scopes, elements))
    case NewException(_, message) => message.Some? ==> NoJump(CheckExpr(cx, scopes, message.value))
    case Index(list, index) => NoJump(CheckExpr(cx, scopes, list)) && NoJump(CheckExpr(cx, scopes, index))
    case Call(_, arguments, _) => NoJump(CheckExprs(cx, scopes, arguments))
    case ListCall(receiver, _, arguments) => NoJump(CheckExpr(cx, scopes, receiver)) && NoJump(CheckExprs(cx, scopes, arguments))
    case Debug(argument) => NoJump(CheckExpr(cx, scopes, argument))
    case Cast(_, operand) => NoJump(CheckExpr(cx, scopes, operand))
    case Conditional(condition, whenTrue, whenFalse) =>
      NoJump(CheckExpr(cx, scopes, condition)) && NoJump(CheckExpr(cx, scopes, whenTrue)) && NoJump(CheckExpr(cx, scopes, whenFalse))
    case NullCoalesce(left, right) => NoJump(CheckExpr(cx, scopes, left)) && NoJump(CheckExpr(cx, scopes, right))
    case Unary(_, operand, _) => NoJump(CheckExpr(cx, scopes, operand))
    case Binary(left, _, right, _) => NoJump(CheckExpr(cx, scopes, left)) && NoJump(CheckExpr(cx, scopes, right))
    case _ => true
  }

  lemma WholeNoJump(cx: Context, scopes: seq<TypeScope>, e: Expr)
    requires PartsNoJump(cx, scopes, e)
    ensures NoJump(CheckExpr(cx, scopes, e))
  {
    hide CheckTarget, CheckExprs, IsAssignable, ValidType, IsExceptionType, CastAllowed, IsSubtype;
  }

  lemma {:induction false} ExprsNoJump(cx: Context, scopes: seq<TypeScope>, es: seq<Expr>)
    ensures NoJump(CheckExprs(cx, scopes, es))
    decreases es, 0
  {
    hide CheckExpr;
    if es != [] {
      ExprNoJump(cx, scopes, es[0]);
      ExprsNoJump(cx, scopes, es[1..]);
    }
  }

  lemma {:induction false} TargetNoJump(cx: Context, scopes: seq<TypeScope>, target: Target)
    ensures NoJump(CheckTarget(cx, scopes, target))
    decreases target, 0
  {
    hide CheckExpr;
    if target.IndexTarget? {
      ExprNoJump(cx, scopes, target.list);
      ExprNoJump(cx, scopes, target.index);
    }
  }

  // ---------------------------------------------------------------- statements

  /** Checking the statement reports a jump only if it is outside of loops and one in it is stray. */
  ghost predicate Justified(cx: Context, scopes: seq<TypeScope>, s: Stmt)
    requires scopes != []
  {
    NoJump(CheckStmt(cx, scopes, s)) || (cx.loopDepth == 0 && Stray(s))
  }

  lemma {:induction false} JumpJustified(cx: Context, scopes: seq<TypeScope>, s: Stmt)
    requires scopes != []
    ensures Justified(cx, scopes, s)
    decreases s, 1
  {
    hide Justified;
    match s
    case If(_, _, _) => IfJustified(cx, scopes, s);
    case Try(_, _, _) => TryJustified(cx, scopes, s);
    case For(_, _, _, _) => ForJustified(cx, scopes, s);
    case While(_, _) => LoopJustified(cx, scopes, s);
    case DoWhile(_, _) => LoopJustified(cx, scopes, s);
    case ForEach(_, _, _, _) => LoopJustified(cx, scopes, s);
    case Block(statements) =>
      AllJustified(cx, scopes + [map[]], statements);
      ListJustified(cx, scopes, s);
    case Sequence(statements) =>
      AllJustified(cx, scopes, statements);
      ListJustified(cx, scopes, s);
    case LocalDeclaration(ty, declarators) =>
      DeclaratorsNoJump(cx, scopes, ty, declarators);
      ListJustified(cx, scopes, s);
    case ExprStmt(e) =>
      ExprNoJump(cx, scopes, e);
      LeafJustified(cx, scopes, s);
    case Throw(e) =>
      ExprNoJump(cx, scopes, e);
      LeafJustified(cx, scopes, s);
    case Return(result) =>
      if result.Some? { ExprNoJump(cx, scopes, result.value); }
      LeafJustified(cx, scopes, s);
    case _ => LeafJustified(cx, scopes, s);
  }

  lemma LeafJustified(cx: Context, scopes: seq<TypeScope>, s: Stmt)
    requires scopes != [] && (s.ExprStmt? || s.Throw? || s.Return? || s.Break? || s.Continue?)
    requires s.ExprStmt? ==> NoJump(CheckExpr(cx, scopes, s.expression))
    requires s.Throw? ==> NoJump(CheckExpr(cx, scopes, s.exception))
    requires s.Return? && s.result.Some? ==> NoJump(CheckExpr(cx, scopes, s.result.value))
    ensures Justified(cx, scopes, s)
  {
    hide CheckExpr, IsAssignable, IsExceptionType;
  }

  lemma ListJustified(cx: Context, scopes: seq<TypeScope>, s: Stmt)
    requires scopes != [] && (s.Block? || s.Sequence? || s.LocalDeclaration?)
    requires s.LocalDeclaration? ==> NoJump(CheckDeclarators(cx, scopes, s.ty, s.declarators))
    requires s.Block? ==> NoJump(CheckStmts(cx, scopes + [map[]], s.statements)) || (cx.loopDepth == 0 && StrayAmong(s.statements))
    requires s.Sequence? ==> NoJump(CheckStmts(cx, scopes, s.statements)) || (cx.loopDepth == 0 && StrayAmong(s.statements))
    ensures Justified(cx, scopes, s)
  {
    hide CheckDeclarators, CheckStmts, StrayAmong;
  }

  lemma {:induction false} AllJustified(cx: Context, scopes: seq<TypeScope>, ss: seq<Stmt>)
    requires scopes != []
    ensures NoJump(CheckStmts(cx, scopes, ss)) || (cx.loopDepth == 0 && StrayAmong(ss))
    decreases ss, 0
  {
    hide CheckStmt;
    if ss != [] {
      JumpJustified(cx, scopes, ss[0]);
      var first := CheckStmt(cx, scopes, ss[0]);
      if first.Ok? {
        AllJustified(cx, first.value.scopes, ss[1..]);
        if StrayAmong(ss[1..]) {
          var i :| 0 <= i < |ss[1..]| && Stray(ss[1..][i]);
          assert ss[i + 1] == ss[1..][i];
        }
      }
    }
  }

  lemma {:induction false} DeclaratorsNoJump(cx: Context, scopes: seq<TypeScope>, ty: Type, ds: seq<Declarator>)
    requires scopes != []
    ensures NoJump(CheckDeclarators(cx, scopes, ty, ds))
    decreases ds
  {
    hide CheckExpr, ValidType, IsAssignable;
    if ds != [] {
      if ds[0].initializer.Some? { ExprNoJump(cx, scopes, ds[0].initializer.value); }
      DeclaratorsNoJump(cx, BindType(scopes, ds[0].name, ty), ty, ds[1..]);
    }
  }

  lemma {:induction false} IfJustified(cx: Context, scopes: seq<TypeScope>, s: Stmt)
    requires scopes != [] && s.If?
    ensures Justified(cx, scopes, s)
    decreases s, 0
  {
    hide CheckExpr, CheckOptional;
    ExprNoJump(cx, scopes, s.condition);
    JumpJustified(cx, scopes, s.thenBranch);
    var t := CheckStmt(cx, scopes, s.thenBranch);
    if t.Ok? { OptionalJustified(cx, t.value.scopes, s.elseBranch); }
  }

  lemma {:induction false} LoopJustified(cx: Context, scopes: seq<TypeScope>, s: Stmt)
    requires scopes != [] && (s.While? || s.DoWhile? || s.ForEach?)
    ensures Justified(cx, scopes, s)
    decreases s, 0
  {
    hide CheckExpr, IsAssignable;
    var inner := if s.ForEach? then scopes + [map[s.name := s.ty]] else scopes;
    JumpJustified(cx.InLoop(), inner, s.body);
    match s
    case While(c, _) => ExprNoJump(cx, scopes, c);
    case DoWhile(_, c) =>
      var b := CheckStmt(cx.InLoop(), scopes, s.body);
      if b.Ok? { ExprNoJump(cx, b.value.scopes, c); }
    case ForEach(_, _, e, _) => ExprNoJump(cx, scopes, e);
  }

  lemma {:induction false} OptionalJustified(cx: Context, scopes: seq<TypeScope>, s: Option<Stmt>)
    requires scopes != []
    ensures NoJump(CheckOptional(cx, scopes, s)) || (cx.loopDepth == 0 && s.Some? && Stray(s.value))
    decreases s, 2
  {
    if s.Some? { JumpJustified(cx, scopes, s.value); }
    hide CheckStmt;
  }

  lemma {:induction false} ForJustified(cx: Context, scopes: seq<TypeScope>, s: Stmt)
    requires scopes != [] && s.For?
    ensures Justified(cx, scopes, s)
    decreases s, 0
  {
    hide CheckExpr, CheckOptional;
    OptionalJustified(cx, scopes + [map[]], s.initializer);
    var i := CheckOptional(cx, scopes + [map[]], s.initializer);
    if i.Ok? {
      if s.forCondition.Some? { ExprNoJump(cx, i.value.scopes, s.forCondition.value); }
      JumpJustified(cx.InLoop(), i.value.scopes, s.body);
      var b := CheckStmt(cx.InLoop(), i.value.scopes, s.body);
      if b.Ok? { OptionalJustified(cx.InLoop(), b.value.scopes, s.update); }
    }
  }

  lemma {:induction false} BodyJustified(cx: Context, scopes: seq<TypeScope>, body: Stmt)
    requires scopes != []
    ensures NoJump(CheckBody(cx, scopes, body)) || (cx.loopDepth == 0 && Stray(body))
    decreases body, 2
  {
    if body.Block? { AllJustified(cx, scopes, body.statements); } else { JumpJustified(cx, scopes, body); }
    hide CheckStmt, CheckStmts;
  }

  lemma {:induction false} CatchesJustified(cx: Context, scopes: seq<TypeScope>, catches: seq<Catch>, seen: seq<Type>, all: bool)
    requires scopes != []
    ensures NoJump(CheckCatches(cx, scopes, catches, seen, all))
            || (cx.loopDepth == 0 && exists i :: 0 <= i < |catches| && Stray(catches[i].body))
    decreases catches, 0
  {
    hide CheckBody, IsExceptionType, IsSubtype;
    if catches != [] {
      BodyJustified(cx, scopes + [map[catches[0].name := catches[0].ty]], catches[0].body);
      var rest := catches[1..];
      CatchesJustified(cx, scopes, rest, seen + [catches[0].ty], catches[0].ty == TException);
      if exists i :: 0 <= i < |rest| && Stray(rest[i].body) {
        var i :| 0 <= i < |rest| && Stray(rest[i].body);
        assert catches[i + 1] == rest[i];
      }
    }
  }

  lemma {:induction false} TryJustified(cx: Context, scopes: seq<TypeScope>, s: Stmt)
    requires scopes != [] && s.Try?
    ensures Justified(cx, scopes, s)
    decreases s, 0
  {
    hide CheckCatches, CheckOptional;
    JumpJustified(cx, scopes, s.tryBlock);
    var t := CheckStmt(cx, scopes, s.tryBlock);
    if t.Ok? {
      CatchesJustified(cx, t.value.scopes, s.catches, [], false);
      OptionalJustified(cx, t.value.scopes, s.finallyBlock);
    }
  }

  /** A statement is rejected for a jump outside of a loop only if one in it has no loop around it. */
  lemma StrayJumpsOnly(cx: Context, scopes: seq<TypeScope>, s: Stmt)
    requires scopes != [] && CheckStmt(cx, scopes, s) == Err(ControlOutsideLoop)
    ensures cx.loopDepth == 0 && Stray(s)
  {
    hide CheckStmt;
    JumpJustified(cx, scopes, s);
  }
}
