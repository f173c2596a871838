/** How control leaves. */
module Endings {
  // The ways in which control can leave a statement, as a relation on its syntax: paths through the parts
  // that take either branch of every condition. The completion analysis is proved to compute exactly it.

  import opened Wrappers
  import opened Syntax
  import opened Completion

  datatype Ending = AtEnd | AtReturn | AtThrow | AtBreak | AtContinue

  ghost predicate Ends(s: Stmt, how: Ending)
    decreases s, 1
  {
    match s
    case LocalDeclaration(_, _) => how == AtEnd
    case ExprStmt(_) => how == AtEnd
    case Return(_) => how == AtReturn
    case Throw(_) => how == AtThrow
    case Break => how == AtBreak
    case Continue => how == AtContinue
    case Block(statements) => EndsAmong(statements, how)
    case Sequence(statements) => EndsAmong(statements, how)
    case If(_, thenBranch, elseBranch) =>
      Ends(thenBranch, how) || if elseBranch.Some? then Ends(elseBranch.value, how) else how == AtEnd
    case While(_, body) => how == AtEnd || (Outward(how) && Ends(body, how))
    case For(_, _, _, body) => how == AtEnd || (Outward(how) && Ends(body, how))
    case ForEach(_, _, _, body) => how == AtEnd || (Outward(how) && Ends(body, how))
    case DoWhile(body, _) =>
      if how == AtEnd then Ends(body, AtEnd) || Ends(body, AtContinue) || Ends(body, AtBreak) else Outward(how) && Ends(body, how)
    case Try(_, _, finallyBlock) =>
      if finallyBlock.None? then EndsGuarded(s, how)
      else (how != AtEnd && Ends(finallyBlock.value, how)) || (Ends(finallyBlock.value, AtEnd) && EndsGuarded(s, how))
  }

  /** These leave a loop as well. */
  predicate Outward(how: Ending) {
    how == AtReturn || how == AtThrow
  }

  /** The first statement leaves the list, or it reaches its end and the others follow. */
  ghost predicate EndsAmong(ss: seq<Stmt>, how: Ending)
    decreases ss, 0
  {
    if ss == [] then how == AtEnd
    else (how != AtEnd && Ends(ss[0], how)) || (Ends(ss[0], AtEnd) && EndsAmong(ss[1..], how))
  }

  /** A `try` without its `finally`: what the block throws goes to the clauses, if there are any, and then
      a clause ends, or none was for it. */
  ghost predicate EndsGuarded(s: Stmt, how: Ending)
    requires s.Try?
    decreases s, 0
  {
    || (Ends(s.tryBlock, how) && (how == AtThrow ==> s.catches == []))
    || (exists i :: 0 <= i < |s.catches| && Ends(s.catches[i].body, how))
    || (how == AtThrow && s.catches != [] && forall i :: 0 <= i < |s.catches| ==> s.catches[i].ty != TException)
  }

  predicate Has(c: Completions, how: Ending) {
    match how
    case AtEnd => c.normal
    case AtReturn => c.returned
    case AtThrow => c.thrown
    case AtBreak => c.broken
    case AtContinue => c.continued
  }

  lemma {:induction false} EndsExactly(s: Stmt, how: Ending)
    ensures Ends(s, how) <==> Has(Completes(s), how)
    decreases s, 1
  {
    match s
    case Block(statements) => AmongExactly(statements, how);
    case Sequence(statements) => AmongExactly(statements, how);
    case If(_, thenBranch, elseBranch) =>
      EndsExactly(thenBranch, how);
      if elseBranch.Some? { EndsExactly(elseBranch.value, how); }
    case While(_, body) => EndsExactly(body, how);
    case For(_, _, _, body) => EndsExactly(body, how);
    case ForEach(_, _, _, body) => EndsExactly(body, how);
    case DoWhile(body, _) =>
      EndsExactly(body, how);
      EndsExactly(body, AtBreak);
      EndsExactly(body, AtContinue);
    case Try(_, _, finallyBlock) =>
      GuardedExactly(s, how);
      if finallyBlock.Some? {
        EndsExactly(finallyBlock.value, how);
        EndsExactly(finallyBlock.value, AtEnd);
      }
    case _ =>
  }

  lemma {:induction false} AmongExactly(ss: seq<Stmt>, how: Ending)
    ensures EndsAmong(ss, how) <==> Has(CompletesAll(ss), how)
    decreases ss, 0
  {
    hide Ends, Completes;
    if ss != [] {
      EndsExactly(ss[0], how);
      EndsExactly(ss[0], AtEnd);
      AmongExactly(ss[1..], how);
    }
  }

  lemma {:induction false} GuardedExactly(s: Stmt, how: Ending)
    requires s.Try?
    ensures EndsGuarded(s, how) <==> Has(Escaping(s), how)
    decreases s, 0
  {
    hide Ends, Completes, CompletesCatches;
    EndsExactly(s.tryBlock, how);
    var t := Completes(s.tryBlock);
    CatchesExactly(if s.catches == [] then t else t.(thrown := false), s.catches, how);
  }

  lemma {:induction false} CatchesExactly(pending: Completions, catches: seq<Catch>, how: Ending)
    ensures Has(CompletesCatches(pending, catches), how) <==>
              Has(pending, how) || exists i :: 0 <= i < |catches| && Ends(catches[i].body, how)
    decreases catches, 0
  {
    hide Ends, Completes;
    if catches != [] {
      EndsExactly(catches[0].body, how);
      CatchesExactly(pending.Union(Completes(catches[0].body)), catches[1..], how);
      if exists i :: 0 <= i < |catches| && Ends(catches[i].body, how) {
        var i :| 0 <= i < |catches| && Ends(catches[i].body, how);
        assert i > 0 ==> catches[1..][i - 1] == catches[i];
      }
    }
  }

  /** A body that must return: control never reaches its end, and there is some way out of it. */
  ghost predicate AlwaysLeaves(s: Stmt) {
    && !Ends(s, AtEnd) && !Ends(s, AtBreak) && !Ends(s, AtContinue)
    && (Ends(s, AtReturn) || Ends(s, AtThrow))
  }

  lemma ReturnsExactly(s: Stmt)
    ensures DefinitelyReturnsOrThrows(s) <==> AlwaysLeaves(s)
  {
    hide Ends, Completes;
    EndsExactly(s, AtEnd);
    EndsExactly(s, AtBreak);
    EndsExactly(s, AtContinue);
    EndsExactly(s, AtReturn);
    EndsExactly(s, AtThrow);
  }
}
