/** Accepted programs that still misbehave, and exactly when they do. Each finding is a pair: a
    concrete program or expression that the checker accepts and the interpreter rejects, and a
    statement for all inputs of the condition under which it happens. */
module Findings {
  import opened Wrappers
  import opened Syntax
  import opened Values
  import opened Semantics
  import opened Typing
  import opened Checker

  predicate Escapes<T>(out: Outcome<T>) {
    out.Raise? && out.exception.escape.Some?
  }

  // ---------------------------------------------------------------- incrementing

  /** `++` and `--` on a stored number escape exactly on null and on an Integer beyond 32 bits. */
  lemma IncrementEscapesExactly(kind: NumericKind, value: Value, delta: int)
    requires MutationKind(value) == Done(kind) && -1 <= delta <= 1
    ensures Escapes(Increment(kind, value, delta)) <==>
              value.VNull? || (value.VInteger? && !(MIN_INT <= value.number <= MAX_INT))
  {
  }

  /** `++` and `--` on a stored value of any kind escape exactly on a null declared Integer or Long, on
      an Integer beyond 32 bits, and on what is no number at all. */
  predicate IncrementRejects(value: Value) {
    match value
    case VInteger(n) => !(MIN_INT <= n <= MAX_INT)
    case VLong(_) => false
    case VNull(ty) => ty == Some(TInteger) || ty == Some(TLong)
    case _ => true
  }

  /** For `x++` in every state in which `x` is bound, whatever it holds. */
  lemma LocalIncrementEscapesExactly(env: Env, x: Name, delta: int, returnOld: bool, st: State, fuel: nat)
    requires Lookup(st.scopes, x).Some? && -1 <= delta <= 1
    ensures Escapes(Eval(env, Mutation(VarTarget(x), delta, returnOld), st, fuel).out) <==>
              IncrementRejects(Lookup(st.scopes, x).value.value)
  {
    var value := Lookup(st.scopes, x).value.value;
    if MutationKind(value).Done? {
      IncrementEscapesExactly(MutationKind(value).value, value, delta);
    }
    var e := Mutation(VarTarget(x), delta, returnOld);
    assert ResolvePlace(env, e.target, st, fuel) == Res(Done(LocalPlace(x)), st);
    assert Eval(env, e, st, fuel) == MutatePlace(st, LocalPlace(x), delta, returnOld);
  }

  // ---------------------------------------------------------------- building small programs

  const NO_CLASSES := ClassTable([], [])

  /** Two statements whose checked forms are themselves. */
  lemma ChecksBoth(cx: Context, scopes: seq<TypeScope>, s: Stmt, middle: seq<TypeScope>, t: Stmt, after: seq<TypeScope>)
    requires scopes != [] && middle != [] && after != []
    requires CheckStmt(cx, scopes, s) == Ok(Bound(s, middle)) && CheckStmt(cx, middle, t) == Ok(Bound(t, after))
    ensures CheckStmts(cx, scopes, [s, t]) == Ok(Bound([s, t], after))
  {
    hide CheckStmt;
    assert [s, t][1..] == [t] && [t][1..] == [];
    assert CheckStmts(cx, after, []) == Ok(Bound([], after));
    assert [t] + [] == [t] && [s] + [t] == [s, t];
    assert CheckStmts(cx, middle, [t]) == Ok(Bound([t], after));
  }

  lemma DeclaresOne(cx: Context, scopes: seq<TypeScope>, ty: Type, name: Name, initializer: Option<Expr>)
    requires scopes != [] && ValidType(cx.classes, ty) && name !in scopes[|scopes| - 1]
    requires CheckInitializer(cx, scopes, ty, initializer) == Ok(initializer)
    ensures var s := LocalDeclaration(ty, [Declarator(name, initializer)]);
            CheckStmt(cx, scopes, s) == Ok(Bound(s, BindType(scopes, name, ty)))
  {
    var d := Declarator(name, initializer);
    assert [d][1..] == [] && [d] + [] == [d];
    assert CheckDeclarators(cx, BindType(scopes, name, ty), ty, []) == Ok(Bound([], BindType(scopes, name, ty)));
  }

  lemma RunsThen(env: Env, s: Stmt, ss: seq<Stmt>, st: State, middle: State, fuel: nat)
    requires Exec(env, s, st, fuel) == Res(Done(Normal), middle)
    ensures ExecAll(env, [s] + ss, st, fuel) == ExecAll(env, ss, middle, fuel)
  {
    assert ([s] + ss)[1..] == ss;
  }

  lemma RunsOne(env: Env, s: Stmt, st: State, fuel: nat)
    ensures ExecAll(env, [s], st, fuel).out == Exec(env, s, st, fuel).out
  {
    var r := Exec(env, s, st, fuel);
    assert [s][1..] == [];
    assert ExecAll(env, [], r.st, fuel) == Res(Done(Normal), r.st);
  }

  // ---------------------------------------------------------------- a null counter

  /** `Integer x; x++;` */
  const DECLARE_X := LocalDeclaration(TInteger, [Declarator("x", None)])
  const INCREMENT_X := ExprStmt(Mutation(VarTarget("x"), 1, true))
  const NULL_INCREMENT := Program(NO_CLASSES, [], [DECLARE_X, INCREMENT_X])

  /** The checker accepts a program that increments a null Integer, and running it reports operands
      that escaped validation. */
  lemma NullIncrementEscapes(host: Host, fuel: nat)
    ensures CheckProgram(NULL_INCREMENT) == Ok(NULL_INCREMENT)
    ensures Run(Env(NULL_INCREMENT, host), fuel).out == Escaped(NullOperand)
  {
    NullIncrementIsAccepted();
    hide CheckProgram, CheckStmt, CheckExpr;
    var env := Library(Env(NULL_INCREMENT, host));
    var st := BindLocal(INITIAL, "x", TInteger, VNull(Some(TInteger)));
    assert DECLARE_X.declarators[1..] == [];
    assert Declare(env, TInteger, DECLARE_X.declarators, INITIAL, fuel) == Res(Done(Normal), st);
    RunsThen(env, DECLARE_X, [INCREMENT_X], INITIAL, st, fuel);
    RunsOne(env, INCREMENT_X, st, fuel);
    assert ResolvePlace(env, VarTarget("x"), st, fuel) == Res(Done(LocalPlace("x")), st);
    assert Eval(env, INCREMENT_X.expression, st, fuel) == MutatePlace(st, LocalPlace("x"), 1, true);
  }

  lemma NullIncrementIsAccepted()
    ensures CheckProgram(NULL_INCREMENT) == Ok(NULL_INCREMENT)
  {
    var cx := Context(NO_CLASSES, [], 0, None);
    var before: seq<TypeScope> := [map[]];
    var after := BindType(before, "x", TInteger);
    DeclaresOne(cx, before, TInteger, "x", None);
    assert CheckTarget(cx, after, VarTarget("x")) == Ok((VarTarget("x"), TInteger));
    assert CheckExpr(cx, after, INCREMENT_X.expression) == Ok(Typed(INCREMENT_X.expression, EValue(TInteger)));
    ChecksBoth(cx, before, DECLARE_X, after, INCREMENT_X, after);
    assert CheckMethods(cx, []) == Ok([]);
  }

  // ---------------------------------------------------------------- oversized literals

  /** An unsuffixed literal has its recorded type exactly when it fits 32 bits. */
  lemma LiteralConformsExactly(cx: Context, scopes: seq<TypeScope>, env: Env, n: nat, st: State, fuel: nat)
    ensures CheckExpr(cx, scopes, IntLit(n)).Ok?
    ensures var t := CheckExpr(cx, scopes, IntLit(n)).value;
            var r := Eval(env, t.expr, st, fuel);
            t.ty.EValue? && r.out.Done? &&
            (ValueHasType(env.program.classes, st.lists, r.out.value, t.ty.ty) <==> n <= MAX_INT)
  {
  }

  /** `e + 1` for an Integer expression whose checked form is itself. */
  function PlusOne(e: Expr): Expr {
    Binary(e, Add, IntLit(1), Some(Numeric(Add, IntegerKind)))
  }

  lemma PlusOneChecks(cx: Context, scopes: seq<TypeScope>, e: Expr)
    requires CheckExpr(cx, scopes, e) == Ok(Typed(e, EValue(TInteger)))
    ensures CheckExpr(cx, scopes, Binary(e, Add, IntLit(1), None)) == Ok(Typed(PlusOne(e), EValue(TInteger)))
  {
    hide SelectMethod;
    assert CheckExpr(cx, scopes, IntLit(1)) == Ok(Typed(IntLit(1), EValue(TInteger)));
  }

  lemma PlusOneEscapesExactly(env: Env, e: Expr, n: nat, st: State, after: State, fuel: nat)
    requires Eval(env, e, st, fuel) == Res(Done(VInteger(n)), after)
    ensures Escapes(Eval(env, PlusOne(e), st, fuel).out) <==> n > MAX_INT
  {
    assert Eval(env, IntLit(1), after, fuel) == Res(Done(VInteger(1)), after);
  }

  /** `(Integer) n + 1` is accepted for every literal; it escapes exactly beyond 32 bits. */
  lemma CastLiteralEscapesExactly(cx: Context, scopes: seq<TypeScope>, env: Env, n: nat, st: State, fuel: nat)
    ensures var e := Binary(Cast(TInteger, IntLit(n)), Add, IntLit(1), None);
            && CheckExpr(cx, scopes, e).Ok?
            && (Escapes(Eval(env, CheckExpr(cx, scopes, e).value.expr, st, fuel).out) <==> n > MAX_INT)
  {
    var cast := Cast(TInteger, IntLit(n));
    CastLiteralChecks(cx, scopes, n);
    PlusOneChecks(cx, scopes, cast);
    assert Eval(env, cast, st, fuel) == Res(Done(VInteger(n)), st) by {
      assert Eval(env, IntLit(n), st, fuel) == Res(Done(VInteger(n)), st);
    }
    hide CheckExpr, Eval;
    PlusOneEscapesExactly(env, cast, n, st, st, fuel);
  }

  lemma CastLiteralChecks(cx: Context, scopes: seq<TypeScope>, n: nat)
    ensures CheckExpr(cx, scopes, Cast(TInteger, IntLit(n))) == Ok(Typed(Cast(TInteger, IntLit(n)), EValue(TInteger)))
  {
    assert CheckExpr(cx, scopes, IntLit(n)).value.expr == IntLit(n);
  }

  // ---------------------------------------------------------------- the size of a list

  /** `e.size()` is an Integer in range exactly when the list has at most as many elements as an Integer
      can count. */
  lemma SizeConformsExactly(env: Env, e: Expr, st: State, fuel: nat)
    requires Eval(env, e, st, fuel).out.Done? && Eval(env, e, st, fuel).out.value.VCollection?
    requires Eval(env, e, st, fuel).out.value.id < |Eval(env, e, st, fuel).st.lists|
    ensures var r := Eval(env, e, st, fuel);
            var length := |r.st.lists[r.out.value.id].elements|;
            var size := Eval(env, ListCall(e, ListSize, []), st, fuel);
            && size.st == r.st
            && size.out == (if length <= MAX_LONG then Done(VInteger(length)) else Raised(ListError))
            && (size.out.Done? && MIN_INT <= size.out.value.number <= MAX_INT <==> length <= MAX_INT)
  {
    var r := Eval(env, e, st, fuel);
    assert EvalAll(env, [], r.st, fuel) == Res(Done([]), r.st);
    assert Eval(env, ListCall(e, ListSize, []), st, fuel) == CallListMethod(r.st, r.out.value, ListSize, []);
  }

  /** `xs.size() + 1` is accepted for every list variable, and its operand escapes exactly when the list
      is longer than an Integer can count, though not too long for `size` itself. */
  lemma SizePlusOneEscapesExactly(cx: Context, scopes: seq<TypeScope>, env: Env, xs: Name, element: Type, id: nat, st: State, fuel: nat)
    requires LookupType(scopes, xs) == Some(TList(element))
    requires Lookup(st.scopes, xs) == Some(Slot(TList(element), VCollection(id))) && id < |st.lists|
    ensures var e := Binary(ListCall(Var(xs), ListSize, []), Add, IntLit(1), None);
            && CheckExpr(cx, scopes, e).Ok?
            && (Escapes(Eval(env, CheckExpr(cx, scopes, e).value.expr, st, fuel).out) <==>
                  MAX_INT < |st.lists[id].elements| <= MAX_LONG)
  {
    var size := ListCall(Var(xs), ListSize, []);
    SizeChecks(cx, scopes, xs, element);
    PlusOneChecks(cx, scopes, size);
    assert Eval(env, Var(xs), st, fuel) == Res(Done(VCollection(id)), st);
    SizeConformsExactly(env, Var(xs), st, fuel);
    var length := |st.lists[id].elements|;
    if length <= MAX_LONG {
      hide CheckExpr, Eval;
      PlusOneEscapesExactly(env, size, length, st, st, fuel);
    } else {
      hide CheckExpr;
      assert Eval(env, PlusOne(size), st, fuel).out == Raised(ListError);
    }
  }

  lemma SizeChecks(cx: Context, scopes: seq<TypeScope>, xs: Name, element: Type)
    requires LookupType(scopes, xs) == Some(TList(element))
    ensures var size := ListCall(Var(xs), ListSize, []);
            CheckExpr(cx, scopes, size) == Ok(Typed(size, EValue(TInteger)))
  {
    hide SelectMethod;
    assert CheckExpr(cx, scopes, Var(xs)) == Ok(Typed(Var(xs), EValue(TList(element))));
    assert CheckExprs(cx, scopes, []) == Ok([]) && Exprs([]) == [];
  }
}
