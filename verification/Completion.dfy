/** The checker's completion analysis: how a statement may end. */
module Completion {
  import opened Wrappers
  import opened Syntax

  datatype Completions = Completions(normal: bool, returned: bool, thrown: bool, broken: bool, continued: bool) {
    function Union(other: Completions): Completions {
      Completions(normal || other.normal, returned || other.returned, thrown || other.thrown,
                  broken || other.broken, continued || other.continued)
    }

    function Then(next: Completions): Completions {
      Completions(normal && next.normal, returned || (normal && next.returned), thrown || (normal && next.thrown),
                  broken || (normal && next.broken), continued || (normal && next.continued))
    }
  }

  const NOTHING := Completions(false, false, false, false, false)
  const NORMAL := NOTHING.(normal := true)

  function Completes(s: Stmt): Completions
    decreases s, 1
  {
    match s
    case Return(_) => NOTHING.(returned := true)
    case Throw(_) => NOTHING.(thrown := true)
    case Break => NOTHING.(broken := true)
    case Continue => NOTHING.(continued := true)
    case Block(statements) => CompletesAll(statements)
    case Sequence(statements) => CompletesAll(statements)
    case If(_, thenBranch, elseBranch) =>
      Completes(thenBranch).Union(if elseBranch.Some? then Completes(elseBranch.value) else NORMAL)
    case While(_, body) => LoopCompletes(Completes(body))
    case For(_, _, _, body) => LoopCompletes(Completes(body))
    case ForEach(_, _, _, body) => LoopCompletes(Completes(body))
    case DoWhile(body, _) =>
      var b := Completes(body);
      Completions(b.normal || b.broken || b.continued, b.returned, b.thrown, false, false)
    case Try(tryBlock, catches, finallyBlock) =>
      var escaping := Escaping(s);
      if finallyBlock.None? then escaping
      else
        var f := Completes(finallyBlock.value);
        var replaced := f.(normal := false);
        if f.normal then replaced.Union(escaping) else replaced
    case LocalDeclaration(_, _) => NORMAL
    case ExprStmt(_) => NORMAL
  }

  /** The completions of a `try` before its `finally`. */
  function Escaping(s: Stmt): Completions
    requires s.Try?
    decreases s, 0
  {
    var t := Completes(s.tryBlock);
    var pending := if s.catches == [] then t else CompletesCatches(t.(thrown := false), s.catches);
    if s.catches != [] && !CatchesEverything(s.catches) then pending.(thrown := true) else pending
  }

  function LoopCompletes(body: Completions): Completions {
    Completions(true, body.returned, body.thrown, false, false)
  }

  function CompletesAll(ss: seq<Stmt>): Completions
    decreases ss, 0
  {
    if ss == [] then NORMAL else Completes(ss[0]).Then(CompletesAll(ss[1..]))
  }

  function CompletesCatches(pending: Completions, catches: seq<Catch>): Completions
    decreases catches, 0
  {
    if catches == [] then pending
    else CompletesCatches(pending.Union(Completes(catches[0].body)), catches[1..])
  }

  predicate CatchesEverything(catches: seq<Catch>) {
    exists i :: 0 <= i < |catches| && catches[i].ty == TException
  }

  predicate DefinitelyReturnsOrThrows(s: Stmt) {
    var c := Completes(s);
    !c.normal && !c.broken && !c.continued && (c.returned || c.thrown)
  }
}
