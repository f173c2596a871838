/** For each statement form: what its acceptance says of its parts, and how its execution unfolds. The
    checker and the interpreter are two large recursive functions. A proof about one form that unfolds
    them directly sees the cases of all forms. Here each form has a lemma that says what acceptance of
    the whole says of the parts, ending in `Checked`, and one that says what running the whole is in
    terms of running the parts, ending in `Exec`; the proofs elsewhere hide the functions and call
    these. None of them says anything that is not in the definitions, so each is proved by unfolding
    alone, and none is a result in its own right: the results that rest on them are those of
    `ContextRestored`, `ShapeKept`, `Soundness`, `Repl` and `Interpreters`. */
module StmtRules {
  import opened Wrappers
  import opened Syntax
  import opened Values
  import opened Semantics
  import opened Typing
  import opened Checker

  // ---------------------------------------------------------------- acceptance

  lemma BlockChecked(cx: Context, scopes: seq<TypeScope>, s: Stmt)
    requires scopes != [] && s.Block? && CheckStmt(cx, scopes, s).Ok?
    ensures CheckStmts(cx, scopes + [map[]], s.statements).Ok?
    ensures CheckStmt(cx, scopes, s).value ==
              Bound(Block(CheckStmts(cx, scopes + [map[]], s.statements).value.syntax), scopes)
  {
  }

  lemma SequenceChecked(cx: Context, scopes: seq<TypeScope>, s: Stmt)
    requires scopes != [] && s.Sequence? && CheckStmt(cx, scopes, s).Ok?
    ensures CheckStmts(cx, scopes, s.statements).Ok?
    ensures var b := CheckStmts(cx, scopes, s.statements).value;
            CheckStmt(cx, scopes, s).value == Bound(Sequence(b.syntax), b.scopes)
  {
  }

  lemma StmtsChecked(cx: Context, scopes: seq<TypeScope>, ss: seq<Stmt>)
    requires scopes != [] && ss != [] && CheckStmts(cx, scopes, ss).Ok?
    ensures CheckStmt(cx, scopes, ss[0]).Ok?
    ensures var first := CheckStmt(cx, scopes, ss[0]).value;
            && CheckStmts(cx, first.scopes, ss[1..]).Ok?
            && var rest := CheckStmts(cx, first.scopes, ss[1..]).value;
               CheckStmts(cx, scopes, ss).value == Bound([first.syntax] + rest.syntax, rest.scopes)
  {
  }

  lemma ExprStmtChecked(cx: Context, scopes: seq<TypeScope>, s: Stmt)
    requires scopes != [] && s.ExprStmt? && CheckStmt(cx, scopes, s).Ok?
    ensures CheckExpr(cx, scopes, s.expression).Ok?
    ensures CheckStmt(cx, scopes, s).value == Bound(ExprStmt(CheckExpr(cx, scopes, s.expression).value.expr), scopes)
  {
  }

  lemma IfChecked(cx: Context, scopes: seq<TypeScope>, s: Stmt)
    requires scopes != [] && s.If? && CheckStmt(cx, scopes, s).Ok?
    ensures CheckBoolean(cx, scopes, s.condition).Ok? && CheckStmt(cx, scopes, s.thenBranch).Ok?
    ensures var t := CheckStmt(cx, scopes, s.thenBranch).value;
            && CheckOptional(cx, t.scopes, s.elseBranch).Ok?
            && var e := CheckOptional(cx, t.scopes, s.elseBranch).value;
               CheckStmt(cx, scopes, s).value ==
                 Bound(If(CheckBoolean(cx, scopes, s.condition).value, t.syntax, e.syntax), e.scopes)
  {
  }

  lemma OptionalChecked(cx: Context, scopes: seq<TypeScope>, s: Option<Stmt>)
    requires scopes != [] && CheckOptional(cx, scopes, s).Ok?
    ensures s.None? ==> CheckOptional(cx, scopes, s).value == Bound(None, scopes)
    ensures s.Some? ==> CheckStmt(cx, scopes, s.value).Ok?
                        && var b := CheckStmt(cx, scopes, s.value).value;
                           CheckOptional(cx, scopes, s).value == Bound(Some(b.syntax), b.scopes)
  {
  }

  lemma WhileChecked(cx: Context, scopes: seq<TypeScope>, s: Stmt)
    requires scopes != [] && s.While? && CheckStmt(cx, scopes, s).Ok?
    ensures CheckBoolean(cx, scopes, s.condition).Ok? && CheckStmt(cx.InLoop(), scopes, s.body).Ok?
    ensures var b := CheckStmt(cx.InLoop(), scopes, s.body).value;
            CheckStmt(cx, scopes, s).value == Bound(While(CheckBoolean(cx, scopes, s.condition).value, b.syntax), b.scopes)
  {
  }

  lemma DoWhileChecked(cx: Context, scopes: seq<TypeScope>, s: Stmt)
    requires scopes != [] && s.DoWhile? && CheckStmt(cx, scopes, s).Ok?
    ensures CheckStmt(cx.InLoop(), scopes, s.body).Ok?
    ensures var b := CheckStmt(cx.InLoop(), scopes, s.body).value;
            && CheckBoolean(cx, b.scopes, s.condition).Ok?
            && CheckStmt(cx, scopes, s).value == Bound(DoWhile(b.syntax, CheckBoolean(cx, b.scopes, s.condition).value), b.scopes)
  {
  }

  lemma ForChecked(cx: Context, scopes: seq<TypeScope>, s: Stmt)
    requires scopes != [] && s.For? && CheckStmt(cx, scopes, s).Ok?
    ensures CheckOptional(cx, scopes + [map[]], s.initializer).Ok?
    ensures var i := CheckOptional(cx, scopes + [map[]], s.initializer).value;
            && CheckOptionalBoolean(cx, i.scopes, s.forCondition).Ok?
            && CheckStmt(cx.InLoop(), i.scopes, s.body).Ok?
            && var b := CheckStmt(cx.InLoop(), i.scopes, s.body).value;
               && CheckOptional(cx.InLoop(), b.scopes, s.update).Ok?
               && CheckStmt(cx, scopes, s).value ==
                    Bound(For(i.syntax, CheckOptionalBoolean(cx, i.scopes, s.forCondition).value,
                              CheckOptional(cx.InLoop(), b.scopes, s.update).value.syntax, b.syntax), scopes)
  {
  }

  lemma ForEachChecked(cx: Context, scopes: seq<TypeScope>, s: Stmt)
    requires scopes != [] && s.ForEach? && CheckStmt(cx, scopes, s).Ok?
    ensures CheckExpr(cx, scopes, s.iterable).Ok?
    ensures var l := CheckExpr(cx, scopes, s.iterable).value;
            && l.ty.EValue? && l.ty.ty.TList?
            && IsAssignable(cx.classes, s.ty, EValue(l.ty.ty.element))
            && CheckStmt(cx.InLoop(), scopes + [map[s.name := s.ty]], s.body).Ok?
            && CheckStmt(cx, scopes, s).value ==
                 Bound(ForEach(s.ty, s.name, l.expr,
                               CheckStmt(cx.InLoop(), scopes + [map[s.name := s.ty]], s.body).value.syntax), scopes)
  {
  }

  lemma TryChecked(cx: Context, scopes: seq<TypeScope>, s: Stmt)
    requires scopes != [] && s.Try? && CheckStmt(cx, scopes, s).Ok?
    ensures CheckStmt(cx, scopes, s.tryBlock).Ok?
    ensures var t := CheckStmt(cx, scopes, s.tryBlock).value;
            && CheckCatches(cx, t.scopes, s.catches, [], false).Ok?
            && CheckOptional(cx, t.scopes, s.finallyBlock).Ok?
            && var f := CheckOptional(cx, t.scopes, s.finallyBlock).value;
               CheckStmt(cx, scopes, s).value ==
                 Bound(Try(t.syntax, CheckCatches(cx, t.scopes, s.catches, [], false).value, f.syntax), f.scopes)
  {
  }

  /** Every accepted clause was checked in a scope of its own that holds the clause variable. */
  lemma {:induction false} CatchChecked(cx: Context, scopes: seq<TypeScope>, catches: seq<Catch>, seen: seq<Type>, all: bool, i: nat)
    requires scopes != [] && i < |catches| && CheckCatches(cx, scopes, catches, seen, all).Ok?
    ensures var clause := catches[i];
            && IsExceptionType(cx.classes, clause.ty)
            && CheckBody(cx, scopes + [map[clause.name := clause.ty]], clause.body).Ok?
            && CheckCatches(cx, scopes, catches, seen, all).value[i] ==
                 Catch(clause.ty, clause.name, CheckBody(cx, scopes + [map[clause.name := clause.ty]], clause.body).value)
    decreases catches
  {
    hide CheckBody;
    if i > 0 {
      CatchChecked(cx, scopes, catches[1..], seen + [catches[0].ty], catches[0].ty == TException, i - 1);
    }
  }

  lemma ReturnChecked(cx: Context, scopes: seq<TypeScope>, s: Stmt)
    requires scopes != [] && s.Return? && CheckStmt(cx, scopes, s).Ok?
    ensures s.result.None? ==> (cx.returnType.None? || cx.returnType.value.RVoid?) && CheckStmt(cx, scopes, s).value == Bound(s, scopes)
    ensures s.result.Some? ==>
              && cx.returnType.Some? && cx.returnType.value.RValue?
              && CheckExpr(cx, scopes, s.result.value).Ok?
              && var e := CheckExpr(cx, scopes, s.result.value).value;
                 && IsAssignable(cx.classes, cx.returnType.value.ty, e.ty)
                 && CheckStmt(cx, scopes, s).value == Bound(Return(Some(e.expr)), scopes)
  {
  }

  lemma ThrowChecked(cx: Context, scopes: seq<TypeScope>, s: Stmt)
    requires scopes != [] && s.Throw? && CheckStmt(cx, scopes, s).Ok?
    ensures CheckExpr(cx, scopes, s.exception).Ok?
    ensures var e := CheckExpr(cx, scopes, s.exception).value;
            && (e.ty.ENull? || (e.ty.EValue? && IsExceptionType(cx.classes, e.ty.ty)))
            && CheckStmt(cx, scopes, s).value == Bound(Throw(e.expr), scopes)
  {
  }

  lemma JumpChecked(cx: Context, scopes: seq<TypeScope>, s: Stmt)
    requires scopes != [] && (s.Break? || s.Continue?) && CheckStmt(cx, scopes, s).Ok?
    ensures cx.loopDepth > 0 && CheckStmt(cx, scopes, s).value == Bound(s, scopes)
  {
  }

  lemma DeclarationChecked(cx: Context, scopes: seq<TypeScope>, s: Stmt)
    requires scopes != [] && s.LocalDeclaration? && CheckStmt(cx, scopes, s).Ok?
    ensures CheckDeclarators(cx, scopes, s.ty, s.declarators).Ok?
    ensures var d := CheckDeclarators(cx, scopes, s.ty, s.declarators).value;
            CheckStmt(cx, scopes, s).value == Bound(LocalDeclaration(s.ty, d.syntax), d.scopes)
  {
  }

  lemma DeclaratorsChecked(cx: Context, scopes: seq<TypeScope>, ty: Type, ds: seq<Declarator>)
    requires scopes != [] && ds != [] && CheckDeclarators(cx, scopes, ty, ds).Ok?
    ensures CheckInitializer(cx, scopes, ty, ds[0].initializer).Ok?
    ensures var bound := BindType(scopes, ds[0].name, ty);
            && CheckDeclarators(cx, bound, ty, ds[1..]).Ok?
            && var rest := CheckDeclarators(cx, bound, ty, ds[1..]).value;
               CheckDeclarators(cx, scopes, ty, ds).value ==
                 Bound([Declarator(ds[0].name, CheckInitializer(cx, scopes, ty, ds[0].initializer).value)] + rest.syntax, rest.scopes)
  {
  }

  lemma InitializerChecked(cx: Context, scopes: seq<TypeScope>, ty: Type, e: Option<Expr>)
    requires CheckInitializer(cx, scopes, ty, e).Ok?
    ensures e.None? ==> CheckInitializer(cx, scopes, ty, e).value == None
    ensures e.Some? ==>
              && CheckExpr(cx, scopes, e.value).Ok?
              && IsAssignable(cx.classes, ty, CheckExpr(cx, scopes, e.value).value.ty)
              && CheckInitializer(cx, scopes, ty, e).value == Some(CheckExpr(cx, scopes, e.value).value.expr)
  {
  }

  lemma BodyChecked(cx: Context, scopes: seq<TypeScope>, body: Stmt)
    requires scopes != [] && CheckBody(cx, scopes, body).Ok?
    ensures body.Block? ==> CheckStmts(cx, scopes, body.statements).Ok?
                            && CheckBody(cx, scopes, body).value == Block(CheckStmts(cx, scopes, body.statements).value.syntax)
    ensures !body.Block? ==> CheckStmt(cx, scopes, body).Ok?
                             && CheckBody(cx, scopes, body).value == CheckStmt(cx, scopes, body).value.syntax
  {
  }

  // ---------------------------------------------------------------- execution

  lemma LeafExec(env: Env, s: Stmt, st: State, fuel: nat)
    ensures s.Break? ==> Exec(env, s, st, fuel) == Res(Done(Breaking), st)
    ensures s.Continue? ==> Exec(env, s, st, fuel) == Res(Done(Continuing), st)
    ensures s == Return(None) ==> Exec(env, s, st, fuel) == Res(Done(Returning(None)), st)
  {
  }

  lemma DelegatedExec(env: Env, s: Stmt, st: State, fuel: nat)
    ensures s.LocalDeclaration? ==> Exec(env, s, st, fuel) == Declare(env, s.ty, s.declarators, st, fuel)
    ensures s.Sequence? ==> Exec(env, s, st, fuel) == ExecAll(env, s.statements, st, fuel)
    ensures s.While? ==> Exec(env, s, st, fuel) == ExecWhile(env, s, st, fuel)
    ensures s.DoWhile? ==> Exec(env, s, st, fuel) == ExecDoWhile(env, s, st, fuel)
    ensures s.Try? ==> Exec(env, s, st, fuel) == ExecTry(env, s, st, fuel)
  {
  }

  /** The first value of a declaration: its initializer's, or a typed null. */
  function Initial(env: Env, ty: Type, initializer: Option<Expr>, st: State, fuel: nat): Res<Value> {
    if initializer.Some? then Eval(env, initializer.value, st, fuel) else Res(Done(VNull(Some(ty))), st)
  }

  lemma DeclareUnfolds(env: Env, ty: Type, ds: seq<Declarator>, st: State, fuel: nat)
    requires ds != []
    ensures var r := Initial(env, ty, ds[0].initializer, st, fuel);
            Declare(env, ty, ds, st, fuel) ==
              if !r.out.Done? then Res(r.out.Propagate(), r.st)
              else Declare(env, ty, ds[1..], BindLocal(r.st, ds[0].name, ty, TypedValue(r.out.value, ty)), fuel)
  {
  }

  lemma ExecAllUnfolds(env: Env, ss: seq<Stmt>, st: State, fuel: nat)
    requires ss != []
    ensures var first := Exec(env, ss[0], st, fuel);
            ExecAll(env, ss, st, fuel) == if first.out == Done(Normal) then ExecAll(env, ss[1..], first.st, fuel) else first
  {
  }

  lemma BlockExec(env: Env, s: Stmt, st: State, fuel: nat)
    requires s.Block?
    ensures var r := ExecAll(env, s.statements, PushScope(st, map[]), fuel);
            Exec(env, s, st, fuel) == Res(r.out, PopScope(r.st))
  {
  }

  lemma ExprStmtExec(env: Env, s: Stmt, st: State, fuel: nat)
    requires s.ExprStmt?
    ensures var r := Eval(env, s.expression, st, fuel);
            Exec(env, s, st, fuel) == if r.out.Done? then Res(Done(Normal), r.st) else Res(r.out.Propagate(), r.st)
  {
  }

  lemma IfExec(env: Env, s: Stmt, st: State, fuel: nat)
    requires s.If?
    ensures var c := EvalBoolean(env, s.condition, st, fuel);
            Exec(env, s, st, fuel) ==
              if !c.out.Done? then Res(c.out.Propagate(), c.st)
              else if c.out.value then Exec(env, s.thenBranch, c.st, fuel)
              else if s.elseBranch.Some? then Exec(env, s.elseBranch.value, c.st, fuel)
              else Res(Done(Normal), c.st)
  {
  }

  /** An absent `for` condition holds. */
  function OptionalBoolean(env: Env, e: Option<Expr>, st: State, fuel: nat): Res<bool> {
    if e.Some? then EvalBoolean(env, e.value, st, fuel) else Res(Done(true), st)
  }

  lemma ForExec(env: Env, s: Stmt, st: State, fuel: nat)
    requires s.For?
    ensures var outer := PushScope(st, map[]);
            var i := if s.initializer.Some? then Exec(env, s.initializer.value, outer, fuel) else Res(Done(Normal), outer);
            var r := if i.out == Done(Normal) then ExecFor(env, s, i.st, fuel) else i;
            Exec(env, s, st, fuel) == Res(r.out, PopScope(r.st))
  {
  }

  lemma ForEachExec(env: Env, s: Stmt, st: State, fuel: nat)
    requires s.ForEach?
    ensures var r := Eval(env, s.iterable, st, fuel);
            Exec(env, s, st, fuel) ==
              if !r.out.Done? then Res(r.out.Propagate(), r.st)
              else
                var id := AsCollection(r.out.value);
                if !id.Done? then Res(id.Propagate(), r.st)
                else if id.value >= |r.st.lists| then Res(Panic, r.st)
                else
                  var loop := ExecForEach(env, s, r.st.lists[id.value].elements, EnterIteration(r.st, id.value), fuel);
                  Res(loop.out, LeaveIteration(loop.st, id.value))
  {
  }

  lemma ReturnExec(env: Env, s: Stmt, st: State, fuel: nat)
    requires s.Return? && s.result.Some?
    ensures var r := Eval(env, s.result.value, st, fuel);
            Exec(env, s, st, fuel) ==
              if r.out.Done? then Res(Done(Returning(Some(r.out.value))), r.st) else Res(r.out.Propagate(), r.st)
  {
  }

  lemma ThrowExec(env: Env, s: Stmt, st: State, fuel: nat)
    requires s.Throw?
    ensures var r := Eval(env, s.exception, st, fuel);
            Exec(env, s, st, fuel) == if r.out.Done? then Res(ThrowValue(r.out.value), r.st) else Res(r.out.Propagate(), r.st)
  {
  }
}
