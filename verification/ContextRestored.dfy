/** A statement that is not a bare declaration leaves no trace in the interpreter's context: the same
    scopes, names, declared types, call stack and iteration depths, however it ends. */
module ContextRestored {
  import opened Wrappers
  import opened Syntax
  import opened Shapes
  import opened Values
  import opened Semantics
  import opened ContextKept
  import opened StmtRules

  lemma {:induction false} StatementKeeps(env: Env, s: Stmt, st: State, fuel: nat)
    requires st.scopes != [] && Parsed(s) && Scoped(s) && !s.LocalDeclaration?
    ensures Kept(st, Exec(env, s, st, fuel).st)
    decreases fuel, s, 1
  {
    hide Exec, Kept, Grown;
    DelegatedExec(env, s, st, fuel);
    match s
    case Sequence(statements) => SimplesKeep(env, statements, st, fuel);
    case Block(statements) =>
      BlockExec(env, s, st, fuel);
      ExecAllKeeps(env, statements, PushScope(st, map[]), fuel);
      PopKeeps(st, map[], ExecAll(env, statements, PushScope(st, map[]), fuel).st);
    case If(_, _, _) => IfRestores(env, s, st, fuel);
    case While(_, _) => WhileRestores(env, s, st, fuel);
    case DoWhile(_, _) => DoWhileRestores(env, s, st, fuel);
    case For(_, _, _, _) => ForStatementKeeps(env, s, st, fuel);
    case ForEach(_, _, _, _) => ForEachStatementKeeps(env, s, st, fuel);
    case Try(_, _, _) => TryRestores(env, s, st, fuel);
    case _ => LeafRestores(env, s, st, fuel);
  }

  lemma LeafRestores(env: Env, s: Stmt, st: State, fuel: nat)
    requires s.ExprStmt? || s.Break? || s.Continue? || s.Return? || s.Throw?
    ensures Kept(st, Exec(env, s, st, fuel).st)
  {
    hide Kept;
    KeptReflexive(st);
    match s
    case ExprStmt(expression) => EvalKeeps(env, expression, st, fuel);
    case Return(result) => if result.Some? { EvalKeeps(env, result.value, st, fuel); }
    case Throw(exception) => EvalKeeps(env, exception, st, fuel);
    case Break =>
    case Continue =>
  }

  lemma {:induction false} SimplesKeep(env: Env, ss: seq<Stmt>, st: State, fuel: nat)
    requires forall i :: 0 <= i < |ss| ==> ss[i].ExprStmt?
    ensures Kept(st, ExecAll(env, ss, st, fuel).st)
    decreases |ss|
  {
    hide Exec, Kept;
    KeptReflexive(st);
    if ss != [] {
      LeafRestores(env, ss[0], st, fuel);
      var first := Exec(env, ss[0], st, fuel);
      SimplesKeep(env, ss[1..], first.st, fuel);
      KeptTransitive(st, first.st, ExecAll(env, ss[1..], first.st, fuel).st);
    }
  }

  lemma {:induction false} IfRestores(env: Env, s: Stmt, st: State, fuel: nat)
    requires st.scopes != [] && s.If? && Parsed(s) && Scoped(s)
    ensures Kept(st, Exec(env, s, st, fuel).st)
    decreases fuel, s, 0
  {
    hide Exec, Eval, Kept;
    IfExec(env, s, st, fuel);
    var c := EvalBoolean(env, s.condition, st, fuel);
    EvalKeeps(env, s.condition, st, fuel);
    KeptNonempty(st, c.st);
    if c.out == Done(true) {
      StatementKeeps(env, s.thenBranch, c.st, fuel);
      KeptTransitive(st, c.st, Exec(env, s.thenBranch, c.st, fuel).st);
    } else if c.out == Done(false) && s.elseBranch.Some? {
      StatementKeeps(env, s.elseBranch.value, c.st, fuel);
      KeptTransitive(st, c.st, Exec(env, s.elseBranch.value, c.st, fuel).st);
    }
  }

  lemma KeptNonempty(a: State, b: State)
    requires Kept(a, b) && a.scopes != []
    ensures b.scopes != []
  {
  }

  lemma {:induction false} WhileRestores(env: Env, s: Stmt, st: State, fuel: nat)
    requires st.scopes != [] && s.While? && Parsed(s) && Scoped(s)
    ensures Kept(st, ExecWhile(env, s, st, fuel).st)
    decreases fuel, s, 0
  {
    hide Exec, Eval, Kept;
    var c := EvalBoolean(env, s.condition, st, fuel);
    EvalKeeps(env, s.condition, st, fuel);
    KeptNonempty(st, c.st);
    if c.out == Done(true) {
      var b := Exec(env, s.body, c.st, fuel);
      StatementKeeps(env, s.body, c.st, fuel);
      KeptTransitive(st, c.st, b.st);
      if Continues(b.out) && fuel > 0 {
        KeptNonempty(c.st, b.st);
        WhileRestores(env, s, b.st, fuel - 1);
        KeptTransitive(st, b.st, ExecWhile(env, s, b.st, fuel - 1).st);
      }
    }
  }

  lemma {:induction false} DoWhileRestores(env: Env, s: Stmt, st: State, fuel: nat)
    requires st.scopes != [] && s.DoWhile? && Parsed(s) && Scoped(s)
    ensures Kept(st, ExecDoWhile(env, s, st, fuel).st)
    decreases fuel, s, 0
  {
    hide Exec, Eval, Kept;
    var b := Exec(env, s.body, st, fuel);
    StatementKeeps(env, s.body, st, fuel);
    if Continues(b.out) {
      var c := EvalBoolean(env, s.condition, b.st, fuel);
      EvalKeeps(env, s.condition, b.st, fuel);
      KeptTransitive(st, b.st, c.st);
      if c.out == Done(true) && fuel > 0 {
        KeptNonempty(st, c.st);
        DoWhileRestores(env, s, c.st, fuel - 1);
        KeptTransitive(st, c.st, ExecDoWhile(env, s, c.st, fuel - 1).st);
      }
    }
  }

  lemma {:induction false} TryRestores(env: Env, s: Stmt, st: State, fuel: nat)
    requires st.scopes != [] && s.Try? && Parsed(s) && Scoped(s)
    ensures Kept(st, ExecTry(env, s, st, fuel).st)
    decreases fuel, s, 0
  {
    hide Exec, Eval, Kept, Handle;
    var t := Exec(env, s.tryBlock, st, fuel);
    StatementKeeps(env, s.tryBlock, st, fuel);
    KeptNonempty(st, t.st);
    var h := if t.out.Raise? then Handle(env, s, AttachStack(t.out.exception, t.st.calls), t.st, fuel) else t;
    if t.out.Raise? {
      HandleKeeps(env, s, AttachStack(t.out.exception, t.st.calls), t.st, fuel);
      KeptTransitive(st, t.st, h.st);
    }
    KeptNonempty(st, h.st);
    if s.finallyBlock.Some? && !h.out.Panic? && !h.out.OutOfFuel? {
      StatementKeeps(env, s.finallyBlock.value, h.st, fuel);
      KeptTransitive(st, h.st, Exec(env, s.finallyBlock.value, h.st, fuel).st);
    }
  }

  /** After a run, whatever its outcome, one scope is left, no call is open and no list is under
      iteration. */
  lemma RunRestores(env: Env, fuel: nat)
    ensures var st := Run(env, fuel).st;
            |st.scopes| == 1 && st.calls == [] && forall id :: 0 <= id < |st.lists| ==> st.lists[id].iterationDepth == 0
  {
    ExecAllKeeps(Library(env), env.program.statements, INITIAL, fuel);
  }
}
