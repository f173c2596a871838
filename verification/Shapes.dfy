/** Shapes of statements. */
module Shapes {
  import opened Wrappers
  import opened Syntax

  /** One or more expression statements, as in the clauses of a `for`. */
  predicate IsSimple(s: Stmt) {
    s.ExprStmt? || (s.Sequence? && forall i :: 0 <= i < |s.statements| ==> s.statements[i].ExprStmt?)
  }

  /** What the parser can produce: sequences stand only in `for` clauses, and `try`, `catch` and
      `finally` take blocks. */
  predicate Parsed(s: Stmt) {
    match s
    case Sequence(_) => IsSimple(s)
    case Block(statements) => forall i :: 0 <= i < |statements| ==> Parsed(statements[i])
    case If(_, thenBranch, elseBranch) => Parsed(thenBranch) && (elseBranch.Some? ==> Parsed(elseBranch.value))
    case While(_, body) => Parsed(body)
    case DoWhile(body, _) => Parsed(body)
    case For(initializer, _, update, body) =>
      && (initializer.Some? ==> initializer.value.LocalDeclaration? || IsSimple(initializer.value))
      && (update.Some? ==> IsSimple(update.value))
      && Parsed(body)
    case ForEach(_, _, _, body) => Parsed(body)
    case Try(tryBlock, catches, finallyBlock) =>
      && tryBlock.Block? && Parsed(tryBlock)
      && (forall i :: 0 <= i < |catches| ==> catches[i].body.Block? && Parsed(catches[i].body))
      && (finallyBlock.Some? ==> finallyBlock.value.Block? && Parsed(finallyBlock.value))
    case _ => true
  }

  /** No branch or loop body is a bare declaration, which would bind outside the branch. */
  predicate Scoped(s: Stmt)
    decreases s, 0
  {
    match s
    case Block(statements) => forall i :: 0 <= i < |statements| ==> Scoped(statements[i])
    case If(_, thenBranch, elseBranch) =>
      && ScopedBranch(thenBranch)
      && (elseBranch.Some? ==> ScopedBranch(elseBranch.value))
    case While(_, body) => ScopedBranch(body)
    case DoWhile(body, _) => ScopedBranch(body)
    case For(_, _, _, body) => ScopedBranch(body)
    case ForEach(_, _, _, body) => ScopedBranch(body)
    case Try(tryBlock, catches, finallyBlock) =>
      && Scoped(tryBlock)
      && (forall i :: 0 <= i < |catches| ==> Scoped(catches[i].body))
      && (finallyBlock.Some? ==> Scoped(finallyBlock.value))
    case _ => true
  }

  predicate ScopedBranch(s: Stmt)
    decreases s, 1
  {
    !s.LocalDeclaration? && Scoped(s)
  }
}
