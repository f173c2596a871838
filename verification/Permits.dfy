/** Which of the three allowances a program needs, read off its syntax. */
module Permits {
  import opened Wrappers
  import opened Syntax
  import opened Conformance

  /** Literals are non-negative, as the lexer makes them, and every construct that can lead to an
      escape is covered by the allowance. */
  predicate PermitsExpr(a: Allowance, e: Expr)
    decreases e, 0
  {
    match e
    case IntLit(n) => 0 <= n && (a.oversize || n <= MAX_INT)
    case LongLit(n) => 0 <= n
    case Assignment(target, _, value, _) => PermitsTarget(a, target) && PermitsExpr(a, value)
    case Mutation(target, delta, _) => a.mutation && -1 <= delta <= 1 && PermitsTarget(a, target)
    case NewList(_, elements) => PermitsExprs(a, elements)
    case NewException(_, message) => message.Some? ==> PermitsExpr(a, message.value)
    case Index(list, index) => PermitsExpr(a, list) && PermitsExpr(a, index)
    case Call(_, arguments, _) => PermitsExprs(a, arguments)
    case ListCall(receiver, method_, arguments) =>
      && (method_.ListClear? ==> a.shrink)
      && (method_.ListSize? ==> a.sizes)
      && PermitsExpr(a, receiver)
      && PermitsExprs(a, arguments)
    case Debug(argument) => PermitsExpr(a, argument)
    case Cast(_, operand) => PermitsExpr(a, operand)
    case Conditional(condition, whenTrue, whenFalse) =>
      PermitsExpr(a, condition) && PermitsExpr(a, whenTrue) && PermitsExpr(a, whenFalse)
    case NullCoalesce(left, right) => PermitsExpr(a, left) && PermitsExpr(a, right)
    case Unary(op, operand, _) => (op.Negate? && operand == IntLit(MAX_INT + 1)) || PermitsExpr(a, operand)
    case Binary(left, _, right, _) => PermitsExpr(a, left) && PermitsExpr(a, right)
    case _ => true
  }

  predicate PermitsTarget(a: Allowance, target: Target)
    decreases target, 0
  {
    target.IndexTarget? ==> PermitsExpr(a, target.list) && PermitsExpr(a, target.index)
  }

  predicate PermitsExprs(a: Allowance, es: seq<Expr>)
    decreases es, 0
  {
    forall i :: 0 <= i < |es| ==> PermitsExpr(a, es[i])
  }

  predicate PermitsOption(a: Allowance, e: Option<Expr>) {
    e.Some? ==> PermitsExpr(a, e.value)
  }

  predicate PermitsStmt(a: Allowance, s: Stmt)
    decreases s, 0
  {
    match s
    case LocalDeclaration(_, declarators) =>
      forall i :: 0 <= i < |declarators| ==> PermitsOption(a, declarators[i].initializer)
    case Sequence(statements) => PermitsStmts(a, statements)
    case ExprStmt(expression) => PermitsExpr(a, expression)
    case Block(statements) => PermitsStmts(a, statements)
    case If(condition, thenBranch, elseBranch) =>
      && PermitsExpr(a, condition) && PermitsStmt(a, thenBranch)
      && (elseBranch.Some? ==> PermitsStmt(a, elseBranch.value))
    case While(condition, body) => PermitsExpr(a, condition) && PermitsStmt(a, body)
    case DoWhile(body, condition) => PermitsExpr(a, condition) && PermitsStmt(a, body)
    case For(initializer, condition, update, body) =>
      && (initializer.Some? ==> PermitsStmt(a, initializer.value))
      && PermitsOption(a, condition)
      && (update.Some? ==> PermitsStmt(a, update.value))
      && PermitsStmt(a, body)
    case ForEach(_, _, iterable, body) => PermitsExpr(a, iterable) && PermitsStmt(a, body)
    case Return(result) => PermitsOption(a, result)
    case Try(tryBlock, catches, finallyBlock) =>
      && PermitsStmt(a, tryBlock)
      && (forall i :: 0 <= i < |catches| ==> PermitsStmt(a, catches[i].body))
      && (finallyBlock.Some? ==> PermitsStmt(a, finallyBlock.value))
    case Throw(exception) => PermitsExpr(a, exception)
    case _ => true
  }

  predicate PermitsStmts(a: Allowance, ss: seq<Stmt>)
    decreases ss, 0
  {
    forall i :: 0 <= i < |ss| ==> PermitsStmt(a, ss[i])
  }
}
