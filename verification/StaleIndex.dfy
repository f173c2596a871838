/** A list element assigned from an expression that shortens the list. The position is checked before the
    right-hand side runs and used after it. */
module StaleIndex {
  import opened Wrappers
  import opened Syntax
  import opened Values
  import opened Semantics
  import opened Typing
  import opened Completion
  import opened Checker
  import opened ExprRules
  import opened Findings

  /** The assignment gets as far as the write: a plain one always, a compound one if its operation on the
      old element and the new operand gives a value. */
  predicate ReachesWrite(env: Env, e: Expr, old_: Value, lists: Lists, operand: Value)
    requires e.Assignment?
  {
    e.op.Assign? || (e.fact.Some? && ApplyBinary(env.host, lists, e.fact.value, old_, operand).Done?)
  }

  /** `xs[i] = e` and `xs[i] op= e` crash the process exactly when they get as far as the write and
      evaluating `e` left the list too short for the position checked before. */
  lemma StaleIndexPanicsExactly(env: Env, e: Expr, st: State, fuel: nat)
    requires e.Assignment?
    requires ResolvePlace(env, e.target, st, fuel).out.Done? && ResolvePlace(env, e.target, st, fuel).out.value.ListPlace?
    requires Eval(env, e.value, ResolvePlace(env, e.target, st, fuel).st, fuel).out.Done?
    ensures var resolved := ResolvePlace(env, e.target, st, fuel);
            var place := resolved.out.value;
            var value := Eval(env, e.value, resolved.st, fuel);
            var lists := value.st.lists;
            && ReadPlace(resolved.st, place).Done?
            && (Eval(env, e, st, fuel).out.Panic? <==>
                  && ReachesWrite(env, e, ReadPlace(resolved.st, place).value, lists, value.out.value)
                  && (place.id >= |lists| || |lists[place.id].elements| <= place.index))
  {
    ResolvedInBounds(env, e.target, st, fuel);
    hide ResolvePlace;
    assert Eval(env, e, st, fuel) == EvalAssignment(env, e, st, fuel);
    hide Eval;
    if !e.op.Assign? && e.fact.Some? {
      var resolved := ResolvePlace(env, e.target, st, fuel);
      var value := Eval(env, e.value, resolved.st, fuel);
      OperationsDoNotPanic(env.host, value.st.lists, e.fact.value, ReadPlace(resolved.st, resolved.out.value).value, value.out.value);
      hide ApplyBinary;
    }
  }

  lemma ResolvedInBounds(env: Env, target: Target, st: State, fuel: nat)
    ensures var r := ResolvePlace(env, target, st, fuel);
            r.out.Done? && r.out.value.ListPlace? ==> ReadPlace(r.st, r.out.value).Done?
  {
    hide Eval;
  }

  lemma OperationsDoNotPanic(host: Host, lists: Lists, fact: BinaryFact, left: Value, right: Value)
    ensures !ApplyBinary(host, lists, fact, left, right).Panic?
  {
    hide Quotient, RemainderOf;
  }

  // ---------------------------------------------------------------- whole programs

  /** `Integer f(List<Integer> xs) { xs.clear(); return 1; }` */
  const CLEAR_XS := ExprStmt(ListCall(Var("xs"), ListClear, []))
  const RETURN_ONE := Return(Some(IntLit(1)))
  const CLEARS := Method("f", [Parameter(TList(TInteger), "xs")], RValue(TInteger), Block([CLEAR_XS, RETURN_ONE]))

  const CALL_F := Call("f", [Var("xs")], Some(0))
  const PLUS := Numeric(Add, IntegerKind)

  /** `xs[0] = f(xs)` or `xs[0] += f(xs)`, as checked. */
  function Store(plus: bool): Expr {
    Assignment(IndexTarget(Var("xs"), IntLit(0)), if plus then AddAssign else Assign, CALL_F, if plus then Some(PLUS) else None)
  }

  /** `List<Integer> xs = new List<Integer>{ 1 };` */
  const ONE := NewList(TInteger, [IntLit(1)])
  const DECLARE_XS := LocalDeclaration(TList(TInteger), [Declarator("xs", Some(ONE))])

  /** The declaration followed by the assignment. */
  function Stale(plus: bool): Program {
    Program(NO_CLASSES, [CLEARS], [DECLARE_XS, ExprStmt(Store(plus))])
  }

  /** Both programs are accepted, and running them aborts the process. */
  lemma StaleIndexPanics(host: Host, plus: bool, fuel: nat)
    requires fuel > 0
    ensures CheckProgram(Stale(plus)) == Ok(Stale(plus))
    ensures Run(Env(Stale(plus), host), fuel).out.Panic?
  {
    StaleIsAccepted(plus);
    hide CheckProgram;
    var env := Library(Env(Stale(plus), host));
    var declared := State([map["xs" := Slot(TList(TInteger), VCollection(0))]], [ListObject(TInteger, [VInteger(1)], 0)], [], []);
    DeclarationRuns(env, declared, fuel);
    RunsThen(env, DECLARE_XS, [ExprStmt(Store(plus))], INITIAL, declared, fuel);
    RunsOne(env, ExprStmt(Store(plus)), declared, fuel);
    StorePanics(env, plus, declared, fuel);
    assert [DECLARE_XS] + [ExprStmt(Store(plus))] == Stale(plus).statements;
  }

  lemma DeclarationRuns(env: Env, declared: State, fuel: nat)
    requires declared == State([map["xs" := Slot(TList(TInteger), VCollection(0))]], [ListObject(TInteger, [VInteger(1)], 0)], [], [])
    ensures Exec(env, DECLARE_XS, INITIAL, fuel) == Res(Done(Normal), declared)
  {
    assert Eval(env, IntLit(1), INITIAL, fuel) == Res(Done(VInteger(1)), INITIAL);
    AllEval(env, [IntLit(1)], INITIAL, fuel);
    assert [IntLit(1)][1..] == [] && [VInteger(1)] + [] == [VInteger(1)];
    assert EvalAll(env, [], INITIAL, fuel) == Res(Done([]), INITIAL);
    assert AllTyped([VInteger(1)], TInteger) == [VInteger(1)];
    assert Eval(env, ONE, INITIAL, fuel) == Allocate(INITIAL, TInteger, [VInteger(1)]);
    assert DECLARE_XS.declarators[1..] == [];
    hide Eval;
    assert Declare(env, TList(TInteger), DECLARE_XS.declarators, INITIAL, fuel) == Res(Done(Normal), declared);
  }

  /** The body of `f` empties the list its parameter refers to. */
  lemma ClearRuns(env: Env, st: State, fuel: nat)
    requires Lookup(st.scopes, "xs") == Some(Slot(TList(TInteger), VCollection(0)))
    requires |st.lists| == 1 && st.lists[0].iterationDepth == 0
    ensures ExecAll(env, [CLEAR_XS, RETURN_ONE], st, fuel) ==
              Res(Done(Returning(Some(VInteger(1)))), st.(lists := SetElements(st.lists, 0, [])))
  {
    assert Eval(env, Var("xs"), st, fuel) == Res(Done(VCollection(0)), st);
    var cleared := st.(lists := SetElements(st.lists, 0, []));
    assert EvalAll(env, [], st, fuel) == Res(Done([]), st);
    assert Eval(env, CLEAR_XS.expression, st, fuel) == Res(Done(VVoid), cleared);
    RunsThen(env, CLEAR_XS, [RETURN_ONE], st, cleared, fuel);
    assert Exec(env, RETURN_ONE, cleared, fuel) == Res(Done(Returning(Some(VInteger(1)))), cleared);
    assert [CLEAR_XS] + [RETURN_ONE] == [CLEAR_XS, RETURN_ONE];
  }

  lemma ClearsRuns(env: Env, st: State, fuel: nat)
    requires |st.lists| == 1 && st.lists[0].iterationDepth == 0
    ensures Invoke(env, CLEARS, [VCollection(0)], st, fuel) ==
              Res(Done(VInteger(1)), st.(lists := SetElements(st.lists, 0, [])))
  {
    hide ExecAll, Eval;
    var scope: Scope := map["xs" := Slot(TList(TInteger), VCollection(0))];
    assert CLEARS.parameters[..0] == [] && [VCollection(0)][..0] == [];
    assert ParameterScope(CLEARS.parameters, [VCollection(0)]) == scope;
    var inner := PushScope(st.(scopes := [scope], calls := st.calls + ["f"]), map[]);
    assert inner.scopes[..1] == [scope];
    assert Lookup([scope], "xs") == Some(scope["xs"]);
    ClearRuns(env, inner, fuel);
    assert PopCall(inner.calls) == st.calls;
  }

  lemma StorePanics(env: Env, plus: bool, st: State, fuel: nat)
    requires env.program.methods == [CLEARS] && fuel > 0
    requires Lookup(st.scopes, "xs") == Some(Slot(TList(TInteger), VCollection(0)))
    requires st.lists == [ListObject(TInteger, [VInteger(1)], 0)]
    ensures Eval(env, Store(plus), st, fuel).out.Panic? && Exec(env, ExprStmt(Store(plus)), st, fuel).out.Panic?
  {
    StoreParts(env, plus, st, fuel);
    hide Eval, ResolvePlace, EvalAll;
    CallEval(env, CALL_F, st, fuel);
    ClearsRuns(env, st, fuel - 1);
    StaleIndexPanicsExactly(env, Store(plus), st, fuel);
  }

  lemma StoreParts(env: Env, plus: bool, st: State, fuel: nat)
    requires Lookup(st.scopes, "xs") == Some(Slot(TList(TInteger), VCollection(0)))
    requires st.lists == [ListObject(TInteger, [VInteger(1)], 0)]
    ensures ResolvePlace(env, Store(plus).target, st, fuel) == Res(Done(ListPlace(0, 0)), st)
    ensures EvalAll(env, CALL_F.arguments, st, fuel) == Res(Done([VCollection(0)]), st)
  {
    assert Eval(env, Var("xs"), st, fuel) == Res(Done(VCollection(0)), st);
    assert Eval(env, IntLit(0), st, fuel) == Res(Done(VInteger(0)), st);
    AllEval(env, [Var("xs")], st, fuel);
    assert [Var("xs")][1..] == [] && [VCollection(0)] + [] == [VCollection(0)];
    assert EvalAll(env, [], st, fuel) == Res(Done([]), st);
  }

  // ---------------------------------------------------------------- acceptance

  lemma StaleIsAccepted(plus: bool)
    ensures CheckProgram(Stale(plus)) == Ok(Stale(plus))
  {
    var cx := Context(NO_CLASSES, [CLEARS], 0, None);
    var before: seq<TypeScope> := [map[]];
    var after := BindType(before, "xs", TList(TInteger));
    DeclarationChecks(cx, before);
    StoreChecks(cx, after, plus);
    ChecksBoth(cx, before, DECLARE_XS, after, ExprStmt(Store(plus)), after);
    MethodChecks(cx);
    hide CheckStmt, CheckStmts, CheckMethod;
    assert [CLEARS][1..] == [] && [CLEARS] + [] == [CLEARS];
    assert CheckMethods(cx, []) == Ok([]);
    assert CheckMethods(cx, [CLEARS]) == Ok([CLEARS]);
  }

  lemma DeclarationChecks(cx: Context, scopes: seq<TypeScope>)
    requires scopes == [map[]]
    ensures CheckStmt(cx, scopes, DECLARE_XS) == Ok(Bound(DECLARE_XS, BindType(scopes, "xs", TList(TInteger))))
  {
    hide SelectMethod;
    var one := Typed(IntLit(1), EValue(TInteger));
    assert CheckExpr(cx, scopes, IntLit(1)) == Ok(one);
    assert [IntLit(1)][1..] == [] && [one] + [] == [one];
    assert CheckExprs(cx, scopes, []) == Ok([]);
    assert CheckExprs(cx, scopes, [IntLit(1)]) == Ok([one]);
    assert Exprs([one]) == [IntLit(1)];
    assert CheckExpr(cx, scopes, ONE) == Ok(Typed(ONE, EValue(TList(TInteger))));
    hide CheckExpr;
    assert CheckInitializer(cx, scopes, TList(TInteger), Some(ONE)) == Ok(Some(ONE));
    DeclaresOne(cx, scopes, TList(TInteger), "xs", Some(ONE));
  }

  lemma StoreChecks(cx: Context, scopes: seq<TypeScope>, plus: bool)
    requires cx.methods == [CLEARS] && scopes != [] && LookupType(scopes, "xs") == Some(TList(TInteger))
    ensures CheckStmt(cx, scopes, ExprStmt(Store(plus))) == Ok(Bound(ExprStmt(Store(plus)), scopes))
  {
    CallChecks(cx, scopes);
    TargetChecks(cx, scopes);
    hide SelectMethod, CheckTarget;
    assert CheckExpr(cx, scopes, Store(plus)) == Ok(Typed(Store(plus), EValue(TInteger)));
  }

  lemma TargetChecks(cx: Context, scopes: seq<TypeScope>)
    requires LookupType(scopes, "xs") == Some(TList(TInteger))
    ensures CheckTarget(cx, scopes, Store(true).target) == Ok((Store(true).target, TInteger))
    ensures Store(false).target == Store(true).target
  {
    assert CheckExpr(cx, scopes, Var("xs")) == Ok(Typed(Var("xs"), EValue(TList(TInteger))));
    assert CheckExpr(cx, scopes, IntLit(0)) == Ok(Typed(IntLit(0), EValue(TInteger)));
  }

  lemma CallChecks(cx: Context, scopes: seq<TypeScope>)
    requires cx.methods == [CLEARS] && LookupType(scopes, "xs") == Some(TList(TInteger))
    ensures CheckExpr(cx, scopes, CALL_F) == Ok(Typed(CALL_F, EValue(TInteger)))
  {
    var xs := Typed(Var("xs"), EValue(TList(TInteger)));
    SelectsOnly(cx.classes, [xs.ty]);
    hide SelectMethod;
    assert CheckExpr(cx, scopes, Var("xs")) == Ok(xs);
    assert [Var("xs")][1..] == [] && [xs] + [] == [xs];
    assert CheckExprs(cx, scopes, []) == Ok([]);
    assert CheckExprs(cx, scopes, [Var("xs")]) == Ok([xs]);
    assert Types([xs]) == [xs.ty] && Exprs([xs]) == [Var("xs")];
  }

  lemma MethodChecks(cx: Context)
    ensures CheckMethod(cx, CLEARS) == Ok(CLEARS)
  {
    var inner := cx.(loopDepth := 0, returnType := Some(RValue(TInteger)));
    var scope: TypeScope := map["xs" := TList(TInteger)];
    BodyChecks(inner, [scope]);
    hide CheckStmts;
    assert CLEARS.parameters[..0] == [];
    assert BindParameters(cx.classes, []) == Ok(map[]);
    assert ValidType(cx.classes, TInteger) && ValidType(cx.classes, TList(TInteger));
    assert BindParameters(cx.classes, CLEARS.parameters) == Ok(scope);
    assert CheckBody(inner, [scope], CLEARS.body) == Ok(CLEARS.body);
    BodyReturns();
  }

  lemma BodyChecks(cx: Context, scopes: seq<TypeScope>)
    requires cx.returnType == Some(RValue(TInteger)) && scopes == [map["xs" := TList(TInteger)]]
    ensures CheckStmts(cx, scopes, [CLEAR_XS, RETURN_ONE]) == Ok(Bound([CLEAR_XS, RETURN_ONE], scopes))
  {
    ClearChecks(cx, scopes);
    hide CheckExpr;
    assert CheckStmt(cx, scopes, CLEAR_XS) == Ok(Bound(CLEAR_XS, scopes));
    assert CheckStmt(cx, scopes, RETURN_ONE) == Ok(Bound(RETURN_ONE, scopes));
    hide CheckStmt, CheckStmts;
    ChecksBoth(cx, scopes, CLEAR_XS, scopes, RETURN_ONE, scopes);
  }

  lemma ClearChecks(cx: Context, scopes: seq<TypeScope>)
    requires LookupType(scopes, "xs") == Some(TList(TInteger))
    ensures CheckExpr(cx, scopes, CLEAR_XS.expression) == Ok(Typed(CLEAR_XS.expression, EVoid))
    ensures CheckExpr(cx, scopes, IntLit(1)) == Ok(Typed(IntLit(1), EValue(TInteger)))
  {
    hide SelectMethod;
    assert CheckExpr(cx, scopes, Var("xs")) == Ok(Typed(Var("xs"), EValue(TList(TInteger))));
    assert CheckExprs(cx, scopes, []) == Ok([]) && Exprs([]) == [];
  }

  lemma BodyReturns()
    ensures DefinitelyReturnsOrThrows(CLEARS.body)
  {
    assert [CLEAR_XS, RETURN_ONE][1..] == [RETURN_ONE] && [RETURN_ONE][1..] == [];
    assert CompletesAll([]) == NORMAL;
    assert CompletesAll([RETURN_ONE]) == NOTHING.(returned := true);
    assert CompletesAll([CLEAR_XS, RETURN_ONE]) == NOTHING.(returned := true);
  }

  lemma SelectsOnly(classes: ClassTable, arguments: seq<ExprType>)
    requires arguments == [EValue(TList(TInteger))]
    ensures SelectMethod(classes, [CLEARS], "f", arguments) == Ok(0)
  {
    assert [CLEARS][0].name == "f";
    assert ParameterTypes(CLEARS.parameters) == [TList(TInteger)];
    assert Applicable(classes, [TList(TInteger)], arguments);
    assert ApplicableMethods(classes, [CLEARS], "f", arguments, 1) == [];
    assert ApplicableMethods(classes, [CLEARS], "f", arguments, 0) == [0];
    var candidates := CandidateTypes([CLEARS], [0]);
    assert UndominatedFrom(classes, candidates, 1) == [];
    assert Undominated(classes, candidates, 0);
  }
}
