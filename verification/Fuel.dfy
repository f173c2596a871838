/** The fuel only bounds a run: one that ends before the fuel does ends the same with more of it. Fuel is
    what makes the interpreter a total function, and it is counted down by the calls and the loop
    iterations; nothing else looks at it. So there is one result of a program that ends at all, and it is
    the result of every run with enough fuel. The proofs follow the interpreter form by form, with the two
    runs, with less and with more fuel, unfolded side by side by the lemmas of `ExprRules` and
    `StmtRules`; running out of fuel in a part is running out of fuel in the whole. */
module Fuel {
  import opened Wrappers
  import opened Syntax
  import opened Values
  import opened Semantics
  import opened ExprRules
  import opened StmtRules

  // ---------------------------------------------------------------- expressions

  lemma {:induction false} EvalEnough(env: Env, e: Expr, st: State, fuel: nat, more: nat)
    requires fuel <= more
    ensures Eval(env, e, st, fuel).out.OutOfFuel? || Eval(env, e, st, more) == Eval(env, e, st, fuel)
    decreases fuel, e, 2
  {
    hide Eval;
    match e
    case Assignment(_, _, _, _) => AssignmentEnough(env, e, st, fuel, more);
    case Mutation(_, _, _) => MutationEnough(env, e, st, fuel, more);
    case NewList(_, _) =>
      NewListEval(env, e, st, fuel);
      NewListEval(env, e, st, more);
      EvalAllEnough(env, e.elements, st, fuel, more);
    case Call(_, _, _) => CallEnough(env, e, st, fuel, more);
    case ListCall(receiver, _, arguments) =>
      ListCallEval(env, e, st, fuel);
      ListCallEval(env, e, st, more);
      EvalEnough(env, receiver, st, fuel, more);
      EvalAllEnough(env, arguments, Eval(env, receiver, st, fuel).st, fuel, more);
    case Index(list, index) =>
      IndexEval(env, e, st, fuel);
      IndexEval(env, e, st, more);
      EvalEnough(env, list, st, fuel, more);
      EvalEnough(env, index, Eval(env, list, st, fuel).st, fuel, more);
    case NullCoalesce(left, right) =>
      CoalesceEval(env, e, st, fuel);
      CoalesceEval(env, e, st, more);
      EvalEnough(env, left, st, fuel, more);
      EvalEnough(env, right, Eval(env, left, st, fuel).st, fuel, more);
    case Binary(_, _, _, _) => BinaryEnough(env, e, st, fuel, more);
    case Conditional(_, _, _) => ConditionalEnough(env, e, st, fuel, more);
    case Unary(_, _, _) => UnaryEnough(env, e, st, fuel, more);
    case Debug(argument) =>
      DebugEval(env, e, st, fuel);
      DebugEval(env, e, st, more);
      EvalEnough(env, argument, st, fuel, more);
    case Cast(_, operand) =>
      CastEval(env, e, st, fuel);
      CastEval(env, e, st, more);
      EvalEnough(env, operand, st, fuel, more);
    case NewException(_, Some(message)) =>
      NewExceptionEval(env, e, st, fuel);
      NewExceptionEval(env, e, st, more);
      EvalEnough(env, message, st, fuel, more);
    case _ => LeafEnough(env, e, st, fuel, more);
  }

  lemma LeafEnough(env: Env, e: Expr, st: State, fuel: nat, more: nat)
    requires e.StringLit? || e.BoolLit? || e.IntLit? || e.LongLit? || e.NullLit? || e.Var?
             || (e.NewException? && e.message.None?)
    ensures Eval(env, e, st, fuel).out.OutOfFuel? || Eval(env, e, st, more) == Eval(env, e, st, fuel)
  {
  }

  lemma {:induction false} BooleanEnough(env: Env, e: Expr, st: State, fuel: nat, more: nat)
    requires fuel <= more
    ensures EvalBoolean(env, e, st, fuel).out.OutOfFuel? || EvalBoolean(env, e, st, more) == EvalBoolean(env, e, st, fuel)
    decreases fuel, e, 3
  {
    hide Eval;
    EvalEnough(env, e, st, fuel, more);
  }

  lemma {:induction false} BinaryEnough(env: Env, e: Expr, st: State, fuel: nat, more: nat)
    requires fuel <= more && e.Binary?
    ensures Eval(env, e, st, fuel).out.OutOfFuel? || Eval(env, e, st, more) == Eval(env, e, st, fuel)
    decreases fuel, e, 1
  {
    if e.binaryOp.And? || e.binaryOp.Or? {
      LazyEval(env, e, st, fuel);
      LazyEval(env, e, st, more);
      hide Eval, EvalBoolean;
      BooleanEnough(env, e.left, st, fuel, more);
      BooleanEnough(env, e.right, EvalBoolean(env, e.left, st, fuel).st, fuel, more);
    } else {
      StrictEval(env, e, st, fuel);
      StrictEval(env, e, st, more);
      hide Eval;
      EvalEnough(env, e.left, st, fuel, more);
      EvalEnough(env, e.right, Eval(env, e.left, st, fuel).st, fuel, more);
    }
  }

  lemma {:induction false} ConditionalEnough(env: Env, e: Expr, st: State, fuel: nat, more: nat)
    requires fuel <= more && e.Conditional?
    ensures Eval(env, e, st, fuel).out.OutOfFuel? || Eval(env, e, st, more) == Eval(env, e, st, fuel)
    decreases fuel, e, 1
  {
    ConditionalEval(env, e, st, fuel);
    ConditionalEval(env, e, st, more);
    hide Eval, EvalBoolean;
    BooleanEnough(env, e.condition, st, fuel, more);
    var c := EvalBoolean(env, e.condition, st, fuel);
    EvalEnough(env, e.whenTrue, c.st, fuel, more);
    EvalEnough(env, e.whenFalse, c.st, fuel, more);
  }

  lemma {:induction false} UnaryEnough(env: Env, e: Expr, st: State, fuel: nat, more: nat)
    requires fuel <= more && e.Unary?
    ensures Eval(env, e, st, fuel).out.OutOfFuel? || Eval(env, e, st, more) == Eval(env, e, st, fuel)
    decreases fuel, e, 1
  {
    BooleanEnough(env, e.operand, st, fuel, more);
    EvalEnough(env, e.operand, st, fuel, more);
  }

  lemma {:induction false} CallEnough(env: Env, e: Expr, st: State, fuel: nat, more: nat)
    requires fuel <= more && e.Call?
    ensures Eval(env, e, st, fuel).out.OutOfFuel? || Eval(env, e, st, more) == Eval(env, e, st, fuel)
    decreases fuel, e, 1
  {
    EvalAllEnough(env, e.arguments, st, fuel, more);
    if e.callee.Some? && e.callee.value < |env.program.methods| {
      CallEval(env, e, st, fuel);
      CallEval(env, e, st, more);
      hide Eval;
      var r := EvalAll(env, e.arguments, st, fuel);
      if r.out.Done? && fuel > 0 {
        InvokeEnough(env, env.program.methods[e.callee.value], r.out.value, r.st, fuel - 1, more - 1);
      }
    }
  }

  lemma {:induction false} EvalAllEnough(env: Env, es: seq<Expr>, st: State, fuel: nat, more: nat)
    requires fuel <= more
    ensures EvalAll(env, es, st, fuel).out.OutOfFuel? || EvalAll(env, es, st, more) == EvalAll(env, es, st, fuel)
    decreases fuel, es, 0
  {
    hide Eval;
    if es != [] {
      EvalEnough(env, es[0], st, fuel, more);
      EvalAllEnough(env, es[1..], Eval(env, es[0], st, fuel).st, fuel, more);
    }
  }

  lemma {:induction false} ResolveEnough(env: Env, target: Target, st: State, fuel: nat, more: nat)
    requires fuel <= more
    ensures ResolvePlace(env, target, st, fuel).out.OutOfFuel? || ResolvePlace(env, target, st, more) == ResolvePlace(env, target, st, fuel)
    decreases fuel, target, 0
  {
    hide Eval;
    if target.IndexTarget? {
      EvalEnough(env, target.list, st, fuel, more);
      EvalEnough(env, target.index, Eval(env, target.list, st, fuel).st, fuel, more);
    }
  }

  lemma {:induction false} AssignmentEnough(env: Env, e: Expr, st: State, fuel: nat, more: nat)
    requires fuel <= more && e.Assignment?
    ensures Eval(env, e, st, fuel).out.OutOfFuel? || Eval(env, e, st, more) == Eval(env, e, st, fuel)
    decreases fuel, e, 1
  {
    assert Eval(env, e, st, fuel) == EvalAssignment(env, e, st, fuel);
    assert Eval(env, e, st, more) == EvalAssignment(env, e, st, more);
    hide Eval, ResolvePlace, ApplyBinary, WritePlace;
    ResolveEnough(env, e.target, st, fuel, more);
    EvalEnough(env, e.value, ResolvePlace(env, e.target, st, fuel).st, fuel, more);
  }

  lemma {:induction false} MutationEnough(env: Env, e: Expr, st: State, fuel: nat, more: nat)
    requires fuel <= more && e.Mutation?
    ensures Eval(env, e, st, fuel).out.OutOfFuel? || Eval(env, e, st, more) == Eval(env, e, st, fuel)
    decreases fuel, e, 1
  {
    assert Eval(env, e, st, fuel) == EvalMutation(env, e, st, fuel);
    assert Eval(env, e, st, more) == EvalMutation(env, e, st, more);
    hide Eval, ResolvePlace, MutatePlace;
    ResolveEnough(env, e.target, st, fuel, more);
  }

  lemma {:induction false} InvokeEnough(env: Env, m: Method, arguments: seq<Value>, st: State, fuel: nat, more: nat)
    requires fuel <= more
    ensures Invoke(env, m, arguments, st, fuel).out.OutOfFuel? || Invoke(env, m, arguments, st, more) == Invoke(env, m, arguments, st, fuel)
    decreases fuel, m, 4
  {
    hide Exec;
    ExecEnough(env, m.body, st.(scopes := [ParameterScope(m.parameters, arguments)], calls := st.calls + [m.name]), fuel, more);
  }

  // ---------------------------------------------------------------- statements

  lemma {:induction false} ExecEnough(env: Env, s: Stmt, st: State, fuel: nat, more: nat)
    requires fuel <= more
    ensures Exec(env, s, st, fuel).out.OutOfFuel? || Exec(env, s, st, more) == Exec(env, s, st, fuel)
    decreases fuel, s, 3
  {
    hide Exec, Eval;
    DelegatedExec(env, s, st, fuel);
    DelegatedExec(env, s, st, more);
    match s
    case LocalDeclaration(ty, declarators) => DeclareEnough(env, ty, declarators, st, fuel, more);
    case Sequence(statements) => ExecAllEnough(env, statements, st, fuel, more);
    case ExprStmt(expression) =>
      ExprStmtExec(env, s, st, fuel);
      ExprStmtExec(env, s, st, more);
      EvalEnough(env, expression, st, fuel, more);
    case Block(statements) =>
      BlockExec(env, s, st, fuel);
      BlockExec(env, s, st, more);
      ExecAllEnough(env, statements, PushScope(st, map[]), fuel, more);
    case If(_, _, _) => IfEnough(env, s, st, fuel, more);
    case While(_, _) => WhileEnough(env, s, st, fuel, more);
    case DoWhile(_, _) => DoWhileEnough(env, s, st, fuel, more);
    case For(_, _, _, _) => ForStatementEnough(env, s, st, fuel, more);
    case ForEach(_, _, _, _) => ForEachStatementEnough(env, s, st, fuel, more);
    case Return(Some(result)) =>
      ReturnExec(env, s, st, fuel);
      ReturnExec(env, s, st, more);
      EvalEnough(env, result, st, fuel, more);
    case Try(_, _, _) => TryEnough(env, s, st, fuel, more);
    case Throw(exception) =>
      ThrowExec(env, s, st, fuel);
      ThrowExec(env, s, st, more);
      EvalEnough(env, exception, st, fuel, more);
    case _ =>
      LeafExec(env, s, st, fuel);
      LeafExec(env, s, st, more);
  }

  lemma {:induction false} OptionalEnough(env: Env, s: Option<Stmt>, st: State, fuel: nat, more: nat)
    requires fuel <= more
    ensures s.Some? ==> Exec(env, s.value, st, fuel).out.OutOfFuel? || Exec(env, s.value, st, more) == Exec(env, s.value, st, fuel)
    decreases fuel, s, 4
  {
    hide Exec;
    if s.Some? { ExecEnough(env, s.value, st, fuel, more); }
  }

  lemma {:induction false} DeclareEnough(env: Env, ty: Type, ds: seq<Declarator>, st: State, fuel: nat, more: nat)
    requires fuel <= more
    ensures Declare(env, ty, ds, st, fuel).out.OutOfFuel? || Declare(env, ty, ds, st, more) == Declare(env, ty, ds, st, fuel)
    decreases fuel, ds, 0
  {
    hide Eval;
    if ds != [] {
      if ds[0].initializer.Some? { EvalEnough(env, ds[0].initializer.value, st, fuel, more); }
      var r := Initial(env, ty, ds[0].initializer, st, fuel);
      if r.out.Done? {
        DeclareEnough(env, ty, ds[1..], BindLocal(r.st, ds[0].name, ty, TypedValue(r.out.value, ty)), fuel, more);
      }
    }
  }

  lemma {:induction false} ExecAllEnough(env: Env, ss: seq<Stmt>, st: State, fuel: nat, more: nat)
    requires fuel <= more
    ensures ExecAll(env, ss, st, fuel).out.OutOfFuel? || ExecAll(env, ss, st, more) == ExecAll(env, ss, st, fuel)
    decreases fuel, ss, 0
  {
    hide Exec;
    if ss != [] {
      ExecEnough(env, ss[0], st, fuel, more);
      ExecAllEnough(env, ss[1..], Exec(env, ss[0], st, fuel).st, fuel, more);
    }
  }

  lemma {:induction false} IfEnough(env: Env, s: Stmt, st: State, fuel: nat, more: nat)
    requires fuel <= more && s.If?
    ensures Exec(env, s, st, fuel).out.OutOfFuel? || Exec(env, s, st, more) == Exec(env, s, st, fuel)
    decreases fuel, s, 1
  {
    IfExec(env, s, st, fuel);
    IfExec(env, s, st, more);
    hide Exec, EvalBoolean;
    BooleanEnough(env, s.condition, st, fuel, more);
    var c := EvalBoolean(env, s.condition, st, fuel);
    ExecEnough(env, s.thenBranch, c.st, fuel, more);
    OptionalEnough(env, s.elseBranch, c.st, fuel, more);
  }

  lemma {:induction false} WhileEnough(env: Env, s: Stmt, st: State, fuel: nat, more: nat)
    requires fuel <= more && s.While?
    ensures ExecWhile(env, s, st, fuel).out.OutOfFuel? || ExecWhile(env, s, st, more) == ExecWhile(env, s, st, fuel)
    decreases fuel, s, 0
  {
    hide Exec, EvalBoolean;
    BooleanEnough(env, s.condition, st, fuel, more);
    var c := EvalBoolean(env, s.condition, st, fuel);
    ExecEnough(env, s.body, c.st, fuel, more);
    if fuel > 0 { WhileEnough(env, s, Exec(env, s.body, c.st, fuel).st, fuel - 1, more - 1); }
  }

  lemma {:induction false} DoWhileEnough(env: Env, s: Stmt, st: State, fuel: nat, more: nat)
    requires fuel <= more && s.DoWhile?
    ensures ExecDoWhile(env, s, st, fuel).out.OutOfFuel? || ExecDoWhile(env, s, st, more) == ExecDoWhile(env, s, st, fuel)
    decreases fuel, s, 0
  {
    hide Exec, EvalBoolean;
    ExecEnough(env, s.body, st, fuel, more);
    var b := Exec(env, s.body, st, fuel);
    BooleanEnough(env, s.condition, b.st, fuel, more);
    if fuel > 0 { DoWhileEnough(env, s, EvalBoolean(env, s.condition, b.st, fuel).st, fuel - 1, more - 1); }
  }

  lemma {:induction false} ForStatementEnough(env: Env, s: Stmt, st: State, fuel: nat, more: nat)
    requires fuel <= more && s.For?
    ensures Exec(env, s, st, fuel).out.OutOfFuel? || Exec(env, s, st, more) == Exec(env, s, st, fuel)
    decreases fuel, s, 1
  {
    ForExec(env, s, st, fuel);
    ForExec(env, s, st, more);
    hide Exec, ExecFor;
    var outer := PushScope(st, map[]);
    OptionalEnough(env, s.initializer, outer, fuel, more);
    var i := if s.initializer.Some? then Exec(env, s.initializer.value, outer, fuel) else Res(Done(Normal), outer);
    ForEnough(env, s, i.st, fuel, more);
  }

  lemma {:induction false} ForEnough(env: Env, s: Stmt, st: State, fuel: nat, more: nat)
    requires fuel <= more && s.For?
    ensures ExecFor(env, s, st, fuel).out.OutOfFuel? || ExecFor(env, s, st, more) == ExecFor(env, s, st, fuel)
    decreases fuel, s, 0
  {
    hide Exec, EvalBoolean;
    if s.forCondition.Some? { BooleanEnough(env, s.forCondition.value, st, fuel, more); }
    var c := OptionalBoolean(env, s.forCondition, st, fuel);
    ExecEnough(env, s.body, c.st, fuel, more);
    var b := Exec(env, s.body, c.st, fuel);
    OptionalEnough(env, s.update, b.st, fuel, more);
    var u := if s.update.Some? then Exec(env, s.update.value, b.st, fuel) else Res(Done(Normal), b.st);
    if fuel > 0 { ForEnough(env, s, u.st, fuel - 1, more - 1); }
  }

  lemma {:induction false} ForEachStatementEnough(env: Env, s: Stmt, st: State, fuel: nat, more: nat)
    requires fuel <= more && s.ForEach?
    ensures Exec(env, s, st, fuel).out.OutOfFuel? || Exec(env, s, st, more) == Exec(env, s, st, fuel)
    decreases fuel, s, 1
  {
    ForEachExec(env, s, st, fuel);
    ForEachExec(env, s, st, more);
    hide Exec, Eval, ExecForEach;
    EvalEnough(env, s.iterable, st, fuel, more);
    var r := Eval(env, s.iterable, st, fuel);
    if r.out.Done? && AsCollection(r.out.value).Done? && AsCollection(r.out.value).value < |r.st.lists| {
      var id := AsCollection(r.out.value).value;
      ForEachEnough(env, s, r.st.lists[id].elements, EnterIteration(r.st, id), fuel, more);
    }
  }

  lemma {:induction false} ForEachEnough(env: Env, s: Stmt, elements: seq<Value>, st: State, fuel: nat, more: nat)
    requires fuel <= more && s.ForEach?
    ensures ExecForEach(env, s, elements, st, fuel).out.OutOfFuel? || ExecForEach(env, s, elements, st, more) == ExecForEach(env, s, elements, st, fuel)
    decreases fuel, s, 0, |elements|
  {
    hide Exec;
    if elements != [] {
      var bound := BindLocal(st, s.name, s.ty, TypedValue(elements[0], s.ty));
      ExecEnough(env, s.body, bound, fuel, more);
      ForEachEnough(env, s, elements[1..], Exec(env, s.body, bound, fuel).st, fuel, more);
    }
  }

  lemma {:induction false} TryEnough(env: Env, s: Stmt, st: State, fuel: nat, more: nat)
    requires fuel <= more && s.Try?
    ensures ExecTry(env, s, st, fuel).out.OutOfFuel? || ExecTry(env, s, st, more) == ExecTry(env, s, st, fuel)
    decreases fuel, s, 1
  {
    hide Exec, Handle;
    ExecEnough(env, s.tryBlock, st, fuel, more);
    var t := Exec(env, s.tryBlock, st, fuel);
    if t.out.Raise? { HandleEnough(env, s, AttachStack(t.out.exception, t.st.calls), t.st, fuel, more); }
    var h := if t.out.Raise? then Handle(env, s, AttachStack(t.out.exception, t.st.calls), t.st, fuel) else t;
    OptionalEnough(env, s.finallyBlock, h.st, fuel, more);
  }

  lemma {:induction false} HandleEnough(env: Env, s: Stmt, exception: Exn, st: State, fuel: nat, more: nat)
    requires fuel <= more && s.Try?
    ensures Handle(env, s, exception, st, fuel).out.OutOfFuel? || Handle(env, s, exception, st, more) == Handle(env, s, exception, st, fuel)
    decreases fuel, s, 0
  {
    hide Exec;
    var i := FindCatch(env.program.classes, exception, s.catches);
    if i < |s.catches| {
      var clause := s.catches[i];
      ExecEnough(env, clause.body, PushScope(st, map[clause.name := Slot(clause.ty, VException(exception))]), fuel, more);
    }
  }

  // ---------------------------------------------------------------- programs

  lemma RunEnough(env: Env, fuel: nat, more: nat)
    requires fuel <= more
    ensures Run(env, fuel).out.OutOfFuel? || Run(env, more) == Run(env, fuel)
  {
    hide ExecAll;
    ExecAllEnough(Library(env), env.program.statements, INITIAL, fuel, more);
  }

  /** A program has at most one result. */
  lemma ResultsAgree(env: Env, fuel: nat, other: nat)
    requires !Run(env, fuel).out.OutOfFuel? && !Run(env, other).out.OutOfFuel?
    ensures Run(env, fuel) == Run(env, other)
  {
    hide Run;
    if fuel <= other { RunEnough(env, fuel, other); } else { RunEnough(env, other, fuel); }
  }
}
