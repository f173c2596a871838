/** A declaration as the bare body of a branch or loop. The checker binds the name in the scope it is in
    and so lets what follows use it; the interpreter binds it only when the body runs. Here is what is
    left in each case, when that agrees with what the checker assumed, and when it does not. */
module BareBranches {
  import opened Wrappers
  import opened Syntax
  import opened Values
  import opened Semantics
  import opened Typing
  import opened Checker
  import opened ContextKept
  import opened Findings

  /** `T x;` */
  function Bare(ty: Type, x: Name): Stmt {
    LocalDeclaration(ty, [Declarator(x, None)])
  }

  function Declared(ty: Type, x: Name, st: State): State {
    BindLocal(st, x, ty, VNull(Some(ty)))
  }

  /** The state is as the checker assumes it after the declaration: `x` is found with the type `ty`. */
  ghost predicate Agrees(ty: Type, x: Name, st: State) {
    Lookup(st.scopes, x).Some? && Lookup(st.scopes, x).value.ty == ty
  }

  lemma BareRuns(env: Env, ty: Type, x: Name, st: State, fuel: nat)
    requires st.scopes != []
    ensures Exec(env, Bare(ty, x), st, fuel) == Res(Done(Normal), Declared(ty, x, st))
    ensures Agrees(ty, x, Declared(ty, x, st)) && Declared(ty, x, st).scopes != []
  {
    assert Bare(ty, x).declarators[1..] == [];
    assert Declare(env, ty, Bare(ty, x).declarators, st, fuel) == Res(Done(Normal), Declared(ty, x, st));
  }

  lemma ConditionKeeps(env: Env, c: Expr, st: State, fuel: nat)
    requires st.scopes != []
    ensures Kept(st, EvalBoolean(env, c, st, fuel).st) && EvalBoolean(env, c, st, fuel).st.scopes != []
  {
    EvalKeeps(env, c, st, fuel);
  }

  // ---------------------------------------------------------------- branches

  /** `if (c) T x;` leaves what the checker assumed exactly when the branch is taken or an `x` of the
      same type was there before. */
  lemma BareThenExactly(env: Env, c: Expr, taken: bool, ty: Type, x: Name, st: State, after: State, fuel: nat)
    requires st.scopes != [] && EvalBoolean(env, c, st, fuel) == Res(Done(taken), after)
    ensures var left := if taken then Declared(ty, x, after) else after;
            && Exec(env, If(c, Bare(ty, x), None), st, fuel) == Res(Done(Normal), left)
            && (Agrees(ty, x, left) <==> taken || Agrees(ty, x, after))
  {
    ConditionKeeps(env, c, st, fuel);
    BareRuns(env, ty, x, after, fuel);
  }

  /** `if (c) s else T x;` likewise, where the first branch is any statement that completes. */
  lemma BareElseExactly(env: Env, c: Expr, taken: bool, s: Stmt, ty: Type, x: Name, st: State, after: State, ended: State, fuel: nat)
    requires st.scopes != [] && EvalBoolean(env, c, st, fuel) == Res(Done(taken), after)
    requires taken ==> Exec(env, s, after, fuel) == Res(Done(Normal), ended)
    ensures var left := if taken then ended else Declared(ty, x, after);
            && Exec(env, If(c, s, Some(Bare(ty, x))), st, fuel) == Res(Done(Normal), left)
            && (Agrees(ty, x, left) <==> !taken || Agrees(ty, x, ended))
  {
    ConditionKeeps(env, c, st, fuel);
    BareRuns(env, ty, x, after, fuel);
  }

  // ---------------------------------------------------------------- loops

  /** `while (c) T x;`, when it ends, leaves what the checker assumed exactly when it ran at least once
      or an `x` of the same type was there before. */
  lemma BareWhileExactly(env: Env, c: Expr, ty: Type, x: Name, st: State, fuel: nat)
    requires st.scopes != [] && Exec(env, While(c, Bare(ty, x)), st, fuel).out == Done(Normal)
    ensures var first := EvalBoolean(env, c, st, fuel);
            && first.out.Done?
            && (Agrees(ty, x, Exec(env, While(c, Bare(ty, x)), st, fuel).st) <==> first.out.value || Agrees(ty, x, first.st))
  {
    var s := While(c, Bare(ty, x));
    var first := EvalBoolean(env, c, st, fuel);
    assert Exec(env, s, st, fuel) == ExecWhile(env, s, st, fuel);
    ConditionKeeps(env, c, st, fuel);
    if first.out.Done? && first.out.value {
      BareRuns(env, ty, x, first.st, fuel);
      if fuel > 0 { StaysBound(env, c, ty, x, Declared(ty, x, first.st), fuel - 1); }
    }
  }

  ghost predicate Innermost(ty: Type, x: Name, st: State) {
    && st.scopes != []
    && x in st.scopes[|st.scopes| - 1] && st.scopes[|st.scopes| - 1][x].ty == ty
  }

  lemma {:induction false} StaysBound(env: Env, c: Expr, ty: Type, x: Name, st: State, fuel: nat)
    requires Innermost(ty, x, st) && ExecWhile(env, While(c, Bare(ty, x)), st, fuel).out == Done(Normal)
    ensures Agrees(ty, x, ExecWhile(env, While(c, Bare(ty, x)), st, fuel).st)
    decreases fuel
  {
    var first := EvalBoolean(env, c, st, fuel);
    ConditionKeeps(env, c, st, fuel);
    assert SameShape(st.scopes[|st.scopes| - 1], first.st.scopes[|st.scopes| - 1]);
    if first.out.Done? && first.out.value {
      BareRuns(env, ty, x, first.st, fuel);
      if fuel > 0 { StaysBound(env, c, ty, x, Declared(ty, x, first.st), fuel - 1); }
    }
  }

  /** `do T x; while (c);`, when it ends, leaves what the checker assumed: the body always ran. */
  lemma BareDoWhileAgrees(env: Env, c: Expr, ty: Type, x: Name, st: State, fuel: nat)
    requires st.scopes != [] && Exec(env, DoWhile(Bare(ty, x), c), st, fuel).out == Done(Normal)
    ensures Agrees(ty, x, Exec(env, DoWhile(Bare(ty, x), c), st, fuel).st)
  {
    var s := DoWhile(Bare(ty, x), c);
    assert Exec(env, s, st, fuel) == ExecDoWhile(env, s, st, fuel);
    RunsAtLeastOnce(env, c, ty, x, st, fuel);
  }

  lemma {:induction false} RunsAtLeastOnce(env: Env, c: Expr, ty: Type, x: Name, st: State, fuel: nat)
    requires st.scopes != [] && ExecDoWhile(env, DoWhile(Bare(ty, x), c), st, fuel).out == Done(Normal)
    ensures Agrees(ty, x, ExecDoWhile(env, DoWhile(Bare(ty, x), c), st, fuel).st)
    decreases fuel
  {
    BareRuns(env, ty, x, st, fuel);
    var bound := Declared(ty, x, st);
    var again := EvalBoolean(env, c, bound, fuel);
    ConditionKeeps(env, c, bound, fuel);
    assert SameShape(bound.scopes[|bound.scopes| - 1], again.st.scopes[|bound.scopes| - 1]);
    if again.out.Done? && again.out.value && fuel > 0 {
      RunsAtLeastOnce(env, c, ty, x, again.st, fuel - 1);
    }
  }

  /** As the body of `for` and `for`-each the declaration stays within the loop, for both sides. */
  lemma BareForConfined(env: Env, cx: Context, scopes: seq<TypeScope>, s: Stmt, st: State, fuel: nat)
    requires s.For? || s.ForEach?
    requires st.scopes != [] && scopes != [] && CheckStmt(cx, scopes, s).Ok?
    ensures CheckStmt(cx, scopes, s).value.scopes == scopes && ScopesKept(st.scopes, Exec(env, s, st, fuel).st.scopes)
  {
    if s.For? { ForStatementKeeps(env, s, st, fuel); } else { ForEachStatementKeeps(env, s, st, fuel); }
  }

  // ---------------------------------------------------------------- uses

  /** `if (c) T x;` followed by a use of `x`. If the branch was not taken, the use is an internal error
      exactly when there is no outer `x`, and otherwise it sees that one, whatever its type. */
  lemma BareDeclarationFailsExactly(env: Env, c: Expr, taken: bool, ty: Type, x: Name, st: State, after: State, fuel: nat)
    requires st.scopes != [] && EvalBoolean(env, c, st, fuel) == Res(Done(taken), after)
    ensures var s := If(c, Bare(ty, x), None);
            var left := Exec(env, s, st, fuel).st;
            && (Eval(env, Var(x), left, fuel).out == Fails(Fault.UnknownVariable) <==> !taken && Lookup(after.scopes, x).None?)
            && (!taken && Lookup(after.scopes, x).Some? ==> Lookup(left.scopes, x) == Lookup(after.scopes, x))
            && (ExecAll(env, [s, ExprStmt(Debug(Var(x)))], st, fuel).out == Fails(Fault.UnknownVariable) <==>
                  !taken && Lookup(after.scopes, x).None?)
  {
    var s := If(c, Bare(ty, x), None);
    var use := ExprStmt(Debug(Var(x)));
    BareThenExactly(env, c, taken, ty, x, st, after, fuel);
    var left := Exec(env, s, st, fuel).st;
    hide EvalBoolean;
    RunsThen(env, s, [use], st, left, fuel);
    RunsOne(env, use, left, fuel);
    assert [s] + [use] == [s, use];
    assert Eval(env, Var(x), left, fuel) == Res(ReadPlace(left, LocalPlace(x)), left);
  }

  /** The checker accepts the use after each of the three forms, whether or not there is an outer `x`. */
  lemma BareDeclarationIsAccepted(cx: Context, scopes: seq<TypeScope>, c: Expr, ty: Type, x: Name)
    requires scopes != [] && CheckBoolean(cx, scopes, c) == Ok(c)
    requires ValidType(cx.classes, ty) && x !in scopes[|scopes| - 1]
    ensures var use := ExprStmt(Debug(Var(x)));
            && CheckStmts(cx, scopes, [If(c, Bare(ty, x), None), use]).Ok?
            && CheckStmts(cx, scopes, [If(c, Block([]), Some(Bare(ty, x))), use]).Ok?
            && CheckStmts(cx, scopes, [While(c, Bare(ty, x)), use]).Ok?
  {
    var use := ExprStmt(Debug(Var(x)));
    var after := BindType(scopes, x, ty);
    hide CheckExpr, CheckStmt, CheckStmts, CheckBoolean, ValidType;
    assert CheckInitializer(cx, scopes, ty, None) == Ok(None);
    assert CheckInitializer(cx.InLoop(), scopes, ty, None) == Ok(None);
    DeclaresOne(cx, scopes, ty, x, None);
    DeclaresOne(cx.InLoop(), scopes, ty, x, None);
    UseChecks(cx, after, x);
    IfChecks(cx, scopes, c, Bare(ty, x), after);
    ElseChecks(cx, scopes, c, Bare(ty, x), after);
    WhileChecks(cx, scopes, c, Bare(ty, x), after);
    ChecksBoth(cx, scopes, If(c, Bare(ty, x), None), after, use, after);
    ChecksBoth(cx, scopes, If(c, Block([]), Some(Bare(ty, x))), after, use, after);
    ChecksBoth(cx, scopes, While(c, Bare(ty, x)), after, use, after);
  }

  lemma UseChecks(cx: Context, scopes: seq<TypeScope>, x: Name)
    requires scopes != [] && LookupType(scopes, x).Some?
    ensures CheckStmt(cx, scopes, ExprStmt(Debug(Var(x)))) == Ok(Bound(ExprStmt(Debug(Var(x))), scopes))
  {
    assert CheckExpr(cx, scopes, Var(x)) == Ok(Typed(Var(x), EValue(LookupType(scopes, x).value)));
    assert CheckExpr(cx, scopes, Debug(Var(x))) == Ok(Typed(Debug(Var(x)), EVoid));
  }

  lemma IfChecks(cx: Context, scopes: seq<TypeScope>, c: Expr, s: Stmt, after: seq<TypeScope>)
    requires scopes != [] && after != [] && CheckBoolean(cx, scopes, c) == Ok(c)
    requires CheckStmt(cx, scopes, s) == Ok(Bound(s, after))
    ensures CheckStmt(cx, scopes, If(c, s, None)) == Ok(Bound(If(c, s, None), after))
  {
    hide CheckExpr, CheckBoolean;
    assert CheckOptional(cx, after, None) == Ok(Bound(None, after));
  }

  lemma ElseChecks(cx: Context, scopes: seq<TypeScope>, c: Expr, s: Stmt, after: seq<TypeScope>)
    requires scopes != [] && after != [] && CheckBoolean(cx, scopes, c) == Ok(c)
    requires CheckStmt(cx, scopes, s) == Ok(Bound(s, after))
    ensures CheckStmt(cx, scopes, If(c, Block([]), Some(s))) == Ok(Bound(If(c, Block([]), Some(s)), after))
  {
    hide CheckExpr, CheckBoolean;
    assert CheckStmts(cx, scopes + [map[]], []) == Ok(Bound([], scopes + [map[]]));
    assert CheckStmt(cx, scopes, Block([])) == Ok(Bound(Block([]), scopes));
    assert CheckOptional(cx, scopes, Some(s)) == Ok(Bound(Some(s), after));
  }

  lemma WhileChecks(cx: Context, scopes: seq<TypeScope>, c: Expr, s: Stmt, after: seq<TypeScope>)
    requires scopes != [] && after != [] && CheckBoolean(cx, scopes, c) == Ok(c)
    requires CheckStmt(cx.InLoop(), scopes, s) == Ok(Bound(s, after))
    ensures CheckStmt(cx, scopes, While(c, s)) == Ok(Bound(While(c, s), after))
  {
    hide CheckExpr, CheckBoolean;
  }

  // ---------------------------------------------------------------- an outer variable of another type

  /** `String x = 'a'; { if (false) Integer x; x++; }` */
  const OUTER_X := LocalDeclaration(TString, [Declarator("x", Some(StringLit("a")))])
  const BARE_X := If(BoolLit(false), Bare(TInteger, "x"), None)
  const INNER := Block([BARE_X, INCREMENT_X])
  const SHADOWED := Program(NO_CLASSES, [], [OUTER_X, INNER])

  /** Accepted, and the increment that was checked for the Integer runs on the String. */
  lemma ShadowedUseSeesOuter(host: Host, fuel: nat)
    ensures CheckProgram(SHADOWED) == Ok(SHADOWED)
    ensures Run(Env(SHADOWED, host), fuel).out == Escaped(WrongOperands)
  {
    ShadowedIsAccepted();
    hide CheckProgram, CheckStmt, CheckExpr;
    var env := Library(Env(SHADOWED, host));
    var st := BindLocal(INITIAL, "x", TString, VString("a"));
    assert OUTER_X.declarators[1..] == [];
    assert Eval(env, StringLit("a"), INITIAL, fuel) == Res(Done(VString("a")), INITIAL);
    assert Declare(env, TString, OUTER_X.declarators, INITIAL, fuel) == Res(Done(Normal), st);
    RunsThen(env, OUTER_X, [INNER], INITIAL, st, fuel);
    RunsOne(env, INNER, st, fuel);
    InnerEscapes(env, st, fuel);
    assert [OUTER_X] + [INNER] == [OUTER_X, INNER];
  }

  lemma InnerEscapes(env: Env, st: State, fuel: nat)
    requires Lookup(st.scopes, "x") == Some(Slot(TString, VString("a")))
    ensures Exec(env, INNER, st, fuel).out == Escaped(WrongOperands)
  {
    var inner := PushScope(st, map[]);
    assert inner.scopes[..|st.scopes|] == st.scopes;
    assert Lookup(inner.scopes, "x") == Lookup(st.scopes, "x");
    assert EvalBoolean(env, BoolLit(false), inner, fuel) == Res(Done(false), inner);
    BareThenExactly(env, BoolLit(false), false, TInteger, "x", inner, inner, fuel);
    RunsThen(env, BARE_X, [INCREMENT_X], inner, inner, fuel);
    RunsOne(env, INCREMENT_X, inner, fuel);
    assert [BARE_X] + [INCREMENT_X] == [BARE_X, INCREMENT_X];
    assert ResolvePlace(env, VarTarget("x"), inner, fuel) == Res(Done(LocalPlace("x")), inner);
    assert Eval(env, INCREMENT_X.expression, inner, fuel) == MutatePlace(inner, LocalPlace("x"), 1, true);
  }

  lemma ShadowedIsAccepted()
    ensures CheckProgram(SHADOWED) == Ok(SHADOWED)
  {
    var cx := Context(NO_CLASSES, [], 0, None);
    var before: seq<TypeScope> := [map[]];
    var after := BindType(before, "x", TString);
    assert CheckExpr(cx, before, StringLit("a")) == Ok(Typed(StringLit("a"), EValue(TString)));
    assert CheckInitializer(cx, before, TString, Some(StringLit("a"))) == Ok(Some(StringLit("a")));
    DeclaresOne(cx, before, TString, "x", Some(StringLit("a")));
    InnerIsAccepted(cx, after);
    ChecksBoth(cx, before, OUTER_X, after, INNER, after);
    assert CheckMethods(cx, []) == Ok([]);
  }

  lemma InnerIsAccepted(cx: Context, scopes: seq<TypeScope>)
    requires scopes != []
    ensures CheckStmt(cx, scopes, INNER) == Ok(Bound(INNER, scopes))
  {
    var inner := scopes + [map[]];
    var after := BindType(inner, "x", TInteger);
    assert CheckExpr(cx, inner, BoolLit(false)) == Ok(Typed(BoolLit(false), EValue(TBoolean)));
    assert CheckBoolean(cx, inner, BoolLit(false)) == Ok(BoolLit(false));
    DeclaresOne(cx, inner, TInteger, "x", None);
    IfChecks(cx, inner, BoolLit(false), Bare(TInteger, "x"), after);
    assert CheckTarget(cx, after, VarTarget("x")) == Ok((VarTarget("x"), TInteger));
    assert CheckExpr(cx, after, INCREMENT_X.expression) == Ok(Typed(INCREMENT_X.expression, EValue(TInteger)));
    ChecksBoth(cx, inner, BARE_X, after, INCREMENT_X, after);
  }
}
