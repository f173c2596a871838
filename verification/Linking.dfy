/** Running a program whose calls are resolved among its first methods does not depend on the methods
    after them. The checker numbers methods in the order of their declaration and stores the number on
    a call, so declaring more methods at the end leaves every stored number meaning what it meant.
    `Linked` says of each form of syntax that its calls stay among the first methods; `Extends`
    relates the program to the longer one, in which the bodies of the first methods are linked as
    well, because a call may run any of them. The proofs follow the interpreter form by form, and for
    each form the lemmas of `ExprRules` and `StmtRules` unfold both runs, of the program and of the
    longer one, side by side. */
module Linking {
  import opened Wrappers
  import opened Syntax
  import opened Values
  import opened Semantics
  import opened ExprRules
  import opened StmtRules

  /** Every resolved call in the expression is to one of the first `n` methods. */
  predicate Linked(n: nat, e: Expr)
    decreases e, 0
  {
    match e
    case Assignment(target, _, value, _) => LinkedTarget(n, target) && Linked(n, value)
    case Mutation(target, _, _) => LinkedTarget(n, target)
    case NewList(_, elements) => LinkedAll(n, elements)
    case NewException(_, message) => LinkedOption(n, message)
    case Index(list, index) => Linked(n, list) && Linked(n, index)
    case Call(_, arguments, callee) => LinkedAll(n, arguments) && (callee.Some? ==> callee.value < n)
    case ListCall(receiver, _, arguments) => Linked(n, receiver) && LinkedAll(n, arguments)
    case Debug(argument) => Linked(n, argument)
    case Cast(_, operand) => Linked(n, operand)
    case Conditional(condition, whenTrue, whenFalse) => Linked(n, condition) && Linked(n, whenTrue) && Linked(n, whenFalse)
    case NullCoalesce(left, right) => Linked(n, left) && Linked(n, right)
    case Unary(_, operand, _) => Linked(n, operand)
    case Binary(left, _, right, _) => Linked(n, left) && Linked(n, right)
    case _ => true
  }

  predicate LinkedTarget(n: nat, target: Target)
    decreases target, 0
  {
    target.IndexTarget? ==> Linked(n, target.list) && Linked(n, target.index)
  }

  predicate LinkedAll(n: nat, es: seq<Expr>)
    decreases es, 0
  {
    forall i :: 0 <= i < |es| ==> Linked(n, es[i])
  }

  predicate LinkedOption(n: nat, e: Option<Expr>)
    decreases e, 0
  {
    e.Some? ==> Linked(n, e.value)
  }

  predicate LinkedStmt(n: nat, s: Stmt)
    decreases s, 0
  {
    match s
    case LocalDeclaration(_, declarators) => LinkedDeclarators(n, declarators)
    case Sequence(statements) => LinkedStmts(n, statements)
    case ExprStmt(expression) => Linked(n, expression)
    case Block(statements) => LinkedStmts(n, statements)
    case If(condition, thenBranch, elseBranch) =>
      Linked(n, condition) && LinkedStmt(n, thenBranch) && LinkedOptional(n, elseBranch)
    case While(condition, body) => Linked(n, condition) && LinkedStmt(n, body)
    case DoWhile(body, condition) => Linked(n, condition) && LinkedStmt(n, body)
    case For(initializer, condition, update, body) =>
      LinkedOptional(n, initializer) && LinkedOption(n, condition) && LinkedOptional(n, update) && LinkedStmt(n, body)
    case ForEach(_, _, iterable, body) => Linked(n, iterable) && LinkedStmt(n, body)
    case Return(result) => LinkedOption(n, result)
    case Try(tryBlock, catches, finallyBlock) =>
      && LinkedStmt(n, tryBlock) && LinkedOptional(n, finallyBlock)
      && forall i :: 0 <= i < |catches| ==> LinkedStmt(n, catches[i].body)
    case Throw(exception) => Linked(n, exception)
    case _ => true
  }

  predicate LinkedOptional(n: nat, s: Option<Stmt>)
    decreases s, 1
  {
    s.Some? ==> LinkedStmt(n, s.value)
  }

  predicate LinkedStmts(n: nat, ss: seq<Stmt>)
    decreases ss, 0
  {
    forall i :: 0 <= i < |ss| ==> LinkedStmt(n, ss[i])
  }

  predicate LinkedDeclarators(n: nat, ds: seq<Declarator>)
    decreases ds, 0
  {
    forall i :: 0 <= i < |ds| ==> LinkedOption(n, ds[i].initializer)
  }

  /** The same program with more methods at the end, and all calls among the first ones. */
  ghost predicate Extends(env: Env, more: Env) {
    && more.host == env.host && more.program.classes == env.program.classes
    && env.program.methods <= more.program.methods
    && forall i :: 0 <= i < |env.program.methods| ==> LinkedStmt(|env.program.methods|, env.program.methods[i].body)
  }

  function Count(env: Env): nat {
    |env.program.methods|
  }

  // ---------------------------------------------------------------- expressions

  lemma {:induction false} EvalSame(env: Env, more: Env, e: Expr, st: State, fuel: nat)
    requires Extends(env, more) && Linked(Count(env), e)
    ensures Eval(more, e, st, fuel) == Eval(env, e, st, fuel)
    decreases fuel, e, 2
  {
    hide Eval;
    match e
    case Assignment(_, _, _, _) => AssignmentSame(env, more, e, st, fuel);
    case Mutation(_, _, _) => MutationSame(env, more, e, st, fuel);
    case NewList(_, _) =>
      NewListEval(env, e, st, fuel);
      NewListEval(more, e, st, fuel);
      EvalAllSame(env, more, e.elements, st, fuel);
    case Call(_, _, _) => CallSame(env, more, e, st, fuel);
    case ListCall(receiver, _, arguments) =>
      ListCallEval(env, e, st, fuel);
      ListCallEval(more, e, st, fuel);
      EvalSame(env, more, receiver, st, fuel);
      EvalAllSame(env, more, arguments, Eval(env, receiver, st, fuel).st, fuel);
    case Index(list, index) =>
      IndexEval(env, e, st, fuel);
      IndexEval(more, e, st, fuel);
      EvalSame(env, more, list, st, fuel);
      EvalSame(env, more, index, Eval(env, list, st, fuel).st, fuel);
    case NullCoalesce(left, right) =>
      CoalesceEval(env, e, st, fuel);
      CoalesceEval(more, e, st, fuel);
      EvalSame(env, more, left, st, fuel);
      EvalSame(env, more, right, Eval(env, left, st, fuel).st, fuel);
    case Binary(_, _, _, _) => BinarySame(env, more, e, st, fuel);
    case Conditional(_, _, _) => ConditionalSame(env, more, e, st, fuel);
    case Unary(_, _, _) => UnarySame(env, more, e, st, fuel);
    case Debug(argument) =>
      DebugEval(env, e, st, fuel);
      DebugEval(more, e, st, fuel);
      EvalSame(env, more, argument, st, fuel);
    case Cast(_, operand) =>
      CastEval(env, e, st, fuel);
      CastEval(more, e, st, fuel);
      EvalSame(env, more, operand, st, fuel);
    case NewException(_, Some(message)) =>
      NewExceptionEval(env, e, st, fuel);
      NewExceptionEval(more, e, st, fuel);
      EvalSame(env, more, message, st, fuel);
    case _ => LeafSame(env, more, e, st, fuel);
  }

  lemma LeafSame(env: Env, more: Env, e: Expr, st: State, fuel: nat)
    requires e.StringLit? || e.BoolLit? || e.IntLit? || e.LongLit? || e.NullLit? || e.Var?
             || (e.NewException? && e.message.None?)
    ensures Eval(more, e, st, fuel) == Eval(env, e, st, fuel)
  {
  }

  lemma {:induction false} BooleanSame(env: Env, more: Env, e: Expr, st: State, fuel: nat)
    requires Extends(env, more) && Linked(Count(env), e)
    ensures EvalBoolean(more, e, st, fuel) == EvalBoolean(env, e, st, fuel)
    decreases fuel, e, 3
  {
    hide Eval;
    EvalSame(env, more, e, st, fuel);
  }

  lemma {:induction false} BinarySame(env: Env, more: Env, e: Expr, st: State, fuel: nat)
    requires Extends(env, more) && e.Binary? && Linked(Count(env), e)
    ensures Eval(more, e, st, fuel) == Eval(env, e, st, fuel)
    decreases fuel, e, 1
  {
    if e.binaryOp.And? || e.binaryOp.Or? {
      LazyEval(env, e, st, fuel);
      LazyEval(more, e, st, fuel);
      hide Eval, EvalBoolean;
      BooleanSame(env, more, e.left, st, fuel);
      BooleanSame(env, more, e.right, EvalBoolean(env, e.left, st, fuel).st, fuel);
    } else {
      StrictEval(env, e, st, fuel);
      StrictEval(more, e, st, fuel);
      hide Eval;
      EvalSame(env, more, e.left, st, fuel);
      EvalSame(env, more, e.right, Eval(env, e.left, st, fuel).st, fuel);
    }
  }

  lemma {:induction false} ConditionalSame(env: Env, more: Env, e: Expr, st: State, fuel: nat)
    requires Extends(env, more) && e.Conditional? && Linked(Count(env), e)
    ensures Eval(more, e, st, fuel) == Eval(env, e, st, fuel)
    decreases fuel, e, 1
  {
    ConditionalEval(env, e, st, fuel);
    ConditionalEval(more, e, st, fuel);
    hide Eval, EvalBoolean;
    BooleanSame(env, more, e.condition, st, fuel);
    var c := EvalBoolean(env, e.condition, st, fuel);
    EvalSame(env, more, e.whenTrue, c.st, fuel);
    EvalSame(env, more, e.whenFalse, c.st, fuel);
  }

  lemma {:induction false} UnarySame(env: Env, more: Env, e: Expr, st: State, fuel: nat)
    requires Extends(env, more) && e.Unary? && Linked(Count(env), e)
    ensures Eval(more, e, st, fuel) == Eval(env, e, st, fuel)
    decreases fuel, e, 1
  {
    BooleanSame(env, more, e.operand, st, fuel);
    EvalSame(env, more, e.operand, st, fuel);
  }

  lemma {:induction false} CallSame(env: Env, more: Env, e: Expr, st: State, fuel: nat)
    requires Extends(env, more) && e.Call? && Linked(Count(env), e)
    ensures Eval(more, e, st, fuel) == Eval(env, e, st, fuel)
    decreases fuel, e, 1
  {
    EvalAllSame(env, more, e.arguments, st, fuel);
    if e.callee.Some? {
      CallEval(env, e, st, fuel);
      CallEval(more, e, st, fuel);
      hide Eval;
      var m := env.program.methods[e.callee.value];
      assert more.program.methods[e.callee.value] == m;
      var r := EvalAll(env, e.arguments, st, fuel);
      if r.out.Done? && fuel > 0 {
        InvokeSame(env, more, m, r.out.value, r.st, fuel - 1);
      }
    }
  }

  lemma {:induction false} EvalAllSame(env: Env, more: Env, es: seq<Expr>, st: State, fuel: nat)
    requires Extends(env, more) && LinkedAll(Count(env), es)
    ensures EvalAll(more, es, st, fuel) == EvalAll(env, es, st, fuel)
    decreases fuel, es, 0
  {
    hide Eval;
    if es != [] {
      EvalSame(env, more, es[0], st, fuel);
      EvalAllSame(env, more, es[1..], Eval(env, es[0], st, fuel).st, fuel);
    }
  }

  lemma {:induction false} ResolveSame(env: Env, more: Env, target: Target, st: State, fuel: nat)
    requires Extends(env, more) && LinkedTarget(Count(env), target)
    ensures ResolvePlace(more, target, st, fuel) == ResolvePlace(env, target, st, fuel)
    decreases fuel, target, 0
  {
    hide Eval;
    if target.IndexTarget? {
      EvalSame(env, more, target.list, st, fuel);
      EvalSame(env, more, target.index, Eval(env, target.list, st, fuel).st, fuel);
    }
  }

  lemma {:induction false} AssignmentSame(env: Env, more: Env, e: Expr, st: State, fuel: nat)
    requires Extends(env, more) && e.Assignment? && Linked(Count(env), e)
    ensures Eval(more, e, st, fuel) == Eval(env, e, st, fuel)
    decreases fuel, e, 1
  {
    assert Eval(env, e, st, fuel) == EvalAssignment(env, e, st, fuel);
    assert Eval(more, e, st, fuel) == EvalAssignment(more, e, st, fuel);
    hide Eval, ResolvePlace, ApplyBinary, WritePlace;
    ResolveSame(env, more, e.target, st, fuel);
    EvalSame(env, more, e.value, ResolvePlace(env, e.target, st, fuel).st, fuel);
  }

  lemma {:induction false} MutationSame(env: Env, more: Env, e: Expr, st: State, fuel: nat)
    requires Extends(env, more) && e.Mutation? && Linked(Count(env), e)
    ensures Eval(more, e, st, fuel) == Eval(env, e, st, fuel)
    decreases fuel, e, 1
  {
    assert Eval(env, e, st, fuel) == EvalMutation(env, e, st, fuel);
    assert Eval(more, e, st, fuel) == EvalMutation(more, e, st, fuel);
    hide Eval, ResolvePlace, MutatePlace;
    ResolveSame(env, more, e.target, st, fuel);
  }

  lemma {:induction false} InvokeSame(env: Env, more: Env, m: Method, arguments: seq<Value>, st: State, fuel: nat)
    requires Extends(env, more) && LinkedStmt(Count(env), m.body)
    ensures Invoke(more, m, arguments, st, fuel) == Invoke(env, m, arguments, st, fuel)
    decreases fuel, m, 4
  {
    hide Exec;
    ExecSame(env, more, m.body, st.(scopes := [ParameterScope(m.parameters, arguments)], calls := st.calls + [m.name]), fuel);
  }

  // ---------------------------------------------------------------- statements

  lemma {:induction false} ExecSame(env: Env, more: Env, s: Stmt, st: State, fuel: nat)
    requires Extends(env, more) && LinkedStmt(Count(env), s)
    ensures Exec(more, s, st, fuel) == Exec(env, s, st, fuel)
    decreases fuel, s, 3
  {
    hide Exec, Eval;
    DelegatedExec(env, s, st, fuel);
    DelegatedExec(more, s, st, fuel);
    match s
    case LocalDeclaration(ty, declarators) => DeclareSame(env, more, ty, declarators, st, fuel);
    case Sequence(statements) => ExecAllSame(env, more, statements, st, fuel);
    case ExprStmt(expression) =>
      ExprStmtExec(env, s, st, fuel);
      ExprStmtExec(more, s, st, fuel);
      EvalSame(env, more, expression, st, fuel);
    case Block(statements) =>
      BlockExec(env, s, st, fuel);
      BlockExec(more, s, st, fuel);
      ExecAllSame(env, more, statements, PushScope(st, map[]), fuel);
    case If(_, _, _) => IfSame(env, more, s, st, fuel);
    case While(_, _) => WhileSame(env, more, s, st, fuel);
    case DoWhile(_, _) => DoWhileSame(env, more, s, st, fuel);
    case For(_, _, _, _) => ForStatementSame(env, more, s, st, fuel);
    case ForEach(_, _, _, _) => ForEachStatementSame(env, more, s, st, fuel);
    case Return(Some(result)) =>
      ReturnExec(env, s, st, fuel);
      ReturnExec(more, s, st, fuel);
      EvalSame(env, more, result, st, fuel);
    case Try(_, _, _) => TrySame(env, more, s, st, fuel);
    case Throw(exception) =>
      ThrowExec(env, s, st, fuel);
      ThrowExec(more, s, st, fuel);
      EvalSame(env, more, exception, st, fuel);
    case _ =>
      LeafExec(env, s, st, fuel);
      LeafExec(more, s, st, fuel);
  }

  lemma {:induction false} OptionalSame(env: Env, more: Env, s: Option<Stmt>, st: State, fuel: nat)
    requires Extends(env, more) && LinkedOptional(Count(env), s)
    ensures s.Some? ==> Exec(more, s.value, st, fuel) == Exec(env, s.value, st, fuel)
    decreases fuel, s, 4
  {
    hide Exec;
    if s.Some? { ExecSame(env, more, s.value, st, fuel); }
  }

  lemma {:induction false} DeclareSame(env: Env, more: Env, ty: Type, ds: seq<Declarator>, st: State, fuel: nat)
    requires Extends(env, more) && LinkedDeclarators(Count(env), ds)
    ensures Declare(more, ty, ds, st, fuel) == Declare(env, ty, ds, st, fuel)
    decreases fuel, ds, 0
  {
    hide Eval;
    if ds != [] {
      if ds[0].initializer.Some? { EvalSame(env, more, ds[0].initializer.value, st, fuel); }
      var r := Initial(env, ty, ds[0].initializer, st, fuel);
      if r.out.Done? {
        DeclareSame(env, more, ty, ds[1..], BindLocal(r.st, ds[0].name, ty, TypedValue(r.out.value, ty)), fuel);
      }
    }
  }

  lemma {:induction false} ExecAllSame(env: Env, more: Env, ss: seq<Stmt>, st: State, fuel: nat)
    requires Extends(env, more) && LinkedStmts(Count(env), ss)
    ensures ExecAll(more, ss, st, fuel) == ExecAll(env, ss, st, fuel)
    decreases fuel, ss, 0
  {
    hide Exec;
    if ss != [] {
      ExecSame(env, more, ss[0], st, fuel);
      ExecAllSame(env, more, ss[1..], Exec(env, ss[0], st, fuel).st, fuel);
    }
  }

  lemma {:induction false} IfSame(env: Env, more: Env, s: Stmt, st: State, fuel: nat)
    requires Extends(env, more) && s.If? && LinkedStmt(Count(env), s)
    ensures Exec(more, s, st, fuel) == Exec(env, s, st, fuel)
    decreases fuel, s, 1
  {
    IfExec(env, s, st, fuel);
    IfExec(more, s, st, fuel);
    hide Exec, EvalBoolean;
    BooleanSame(env, more, s.condition, st, fuel);
    var c := EvalBoolean(env, s.condition, st, fuel);
    ExecSame(env, more, s.thenBranch, c.st, fuel);
    OptionalSame(env, more, s.elseBranch, c.st, fuel);
  }

  lemma {:induction false} WhileSame(env: Env, more: Env, s: Stmt, st: State, fuel: nat)
    requires Extends(env, more) && s.While? && LinkedStmt(Count(env), s)
    ensures ExecWhile(more, s, st, fuel) == ExecWhile(env, s, st, fuel)
    decreases fuel, s, 0
  {
    hide Exec, EvalBoolean;
    BooleanSame(env, more, s.condition, st, fuel);
    var c := EvalBoolean(env, s.condition, st, fuel);
    ExecSame(env, more, s.body, c.st, fuel);
    if fuel > 0 { WhileSame(env, more, s, Exec(env, s.body, c.st, fuel).st, fuel - 1); }
  }

  lemma {:induction false} DoWhileSame(env: Env, more: Env, s: Stmt, st: State, fuel: nat)
    requires Extends(env, more) && s.DoWhile? && LinkedStmt(Count(env), s)
    ensures ExecDoWhile(more, s, st, fuel) == ExecDoWhile(env, s, st, fuel)
    decreases fuel, s, 0
  {
    hide Exec, EvalBoolean;
    ExecSame(env, more, s.body, st, fuel);
    var b := Exec(env, s.body, st, fuel);
    BooleanSame(env, more, s.condition, b.st, fuel);
    if fuel > 0 { DoWhileSame(env, more, s, EvalBoolean(env, s.condition, b.st, fuel).st, fuel - 1); }
  }

  lemma {:induction false} ForStatementSame(env: Env, more: Env, s: Stmt, st: State, fuel: nat)
    requires Extends(env, more) && s.For? && LinkedStmt(Count(env), s)
    ensures Exec(more, s, st, fuel) == Exec(env, s, st, fuel)
    decreases fuel, s, 1
  {
    ForExec(env, s, st, fuel);
    ForExec(more, s, st, fuel);
    hide Exec, ExecFor;
    var outer := PushScope(st, map[]);
    OptionalSame(env, more, s.initializer, outer, fuel);
    var i := if s.initializer.Some? then Exec(env, s.initializer.value, outer, fuel) else Res(Done(Normal), outer);
    ForSame(env, more, s, i.st, fuel);
  }

  lemma {:induction false} ForSame(env: Env, more: Env, s: Stmt, st: State, fuel: nat)
    requires Extends(env, more) && s.For? && LinkedStmt(Count(env), s)
    ensures ExecFor(more, s, st, fuel) == ExecFor(env, s, st, fuel)
    decreases fuel, s, 0
  {
    hide Exec, EvalBoolean;
    if s.forCondition.Some? { BooleanSame(env, more, s.forCondition.value, st, fuel); }
    var c := OptionalBoolean(env, s.forCondition, st, fuel);
    ExecSame(env, more, s.body, c.st, fuel);
    var b := Exec(env, s.body, c.st, fuel);
    OptionalSame(env, more, s.update, b.st, fuel);
    var u := if s.update.Some? then Exec(env, s.update.value, b.st, fuel) else Res(Done(Normal), b.st);
    if fuel > 0 { ForSame(env, more, s, u.st, fuel - 1); }
  }

  lemma {:induction false} ForEachStatementSame(env: Env, more: Env, s: Stmt, st: State, fuel: nat)
    requires Extends(env, more) && s.ForEach? && LinkedStmt(Count(env), s)
    ensures Exec(more, s, st, fuel) == Exec(env, s, st, fuel)
    decreases fuel, s, 1
  {
    ForEachExec(env, s, st, fuel);
    ForEachExec(more, s, st, fuel);
    hide Exec, Eval, ExecForEach;
    EvalSame(env, more, s.iterable, st, fuel);
    var r := Eval(env, s.iterable, st, fuel);
    if r.out.Done? && AsCollection(r.out.value).Done? && AsCollection(r.out.value).value < |r.st.lists| {
      var id := AsCollection(r.out.value).value;
      ForEachSame(env, more, s, r.st.lists[id].elements, EnterIteration(r.st, id), fuel);
    }
  }

  lemma {:induction false} ForEachSame(env: Env, more: Env, s: Stmt, elements: seq<Value>, st: State, fuel: nat)
    requires Extends(env, more) && s.ForEach? && LinkedStmt(Count(env), s)
    ensures ExecForEach(more, s, elements, st, fuel) == ExecForEach(env, s, elements, st, fuel)
    decreases fuel, s, 0, |elements|
  {
    hide Exec;
    if elements != [] {
      var bound := BindLocal(st, s.name, s.ty, TypedValue(elements[0], s.ty));
      ExecSame(env, more, s.body, bound, fuel);
      ForEachSame(env, more, s, elements[1..], Exec(env, s.body, bound, fuel).st, fuel);
    }
  }

  lemma {:induction false} TrySame(env: Env, more: Env, s: Stmt, st: State, fuel: nat)
    requires Extends(env, more) && s.Try? && LinkedStmt(Count(env), s)
    ensures ExecTry(more, s, st, fuel) == ExecTry(env, s, st, fuel)
    decreases fuel, s, 1
  {
    hide Exec, Handle;
    ExecSame(env, more, s.tryBlock, st, fuel);
    var t := Exec(env, s.tryBlock, st, fuel);
    if t.out.Raise? { HandleSame(env, more, s, AttachStack(t.out.exception, t.st.calls), t.st, fuel); }
    var h := if t.out.Raise? then Handle(env, s, AttachStack(t.out.exception, t.st.calls), t.st, fuel) else t;
    OptionalSame(env, more, s.finallyBlock, h.st, fuel);
  }

  lemma {:induction false} HandleSame(env: Env, more: Env, s: Stmt, exception: Exn, st: State, fuel: nat)
    requires Extends(env, more) && s.Try? && LinkedStmt(Count(env), s)
    ensures Handle(more, s, exception, st, fuel) == Handle(env, s, exception, st, fuel)
    decreases fuel, s, 0
  {
    hide Exec;
    var i := FindCatch(env.program.classes, exception, s.catches);
    if i < |s.catches| {
      var clause := s.catches[i];
      ExecSame(env, more, clause.body, PushScope(st, map[clause.name := Slot(clause.ty, VException(exception))]), fuel);
    }
  }
}
