/** The invariants of the soundness argument for statements. A statement may end normally, by `break`,
    by `continue`, by `return`, by an exception, or run out of fuel; `FlowOk` says which of these the
    context of the checker permits and what a returned value must be. `Advances` is `Steps` for a
    state in which the innermost scope may have grown, `Settled` and `Ran` say what holds after a
    statement, without and with the scopes the checker computed for what follows. The lemmas move
    these predicates between the scopes inside and outside of a block, a loop, a clause or a method,
    and hand on to the parts of a statement what is known of the whole: that the parser could have
    made it, that it is scoped, and that the allowance covers it. */
module FlowSetting {
  import opened Wrappers
  import opened Syntax
  import opened Shapes
  import opened Values
  import opened Semantics
  import opened Typing
  import opened Checker
  import opened ShapeKept
  import opened ContextKept
  import opened Conformance
  import opened Permits
  import opened Scoping
  import opened SoundSetting
  import opened ExprRules
  import opened StmtRules

  /** As `Steps`, but the innermost scope may have gained declarations. */
  ghost predicate Advances(w: Setting, before: State, after: State) {
    && Grown(before, after)
    && StateOk(w.allowance, w.source.classes, after)
    && NoShrink(w.allowance, before.lists, after.lists)
  }

  /** A returned value, once converted, has the declared return type. */
  ghost predicate ReturnOk(w: Setting, lists: Lists, result: Option<Value>) {
    if w.cx.returnType.None? || w.cx.returnType.value.RVoid? then result.None?
    else
      var ty := w.cx.returnType.value.ty;
      result.Some? && Holds(w.allowance, w.source.classes, lists, TypedValue(result.value, ty), ty)
  }

  /** No internal error, `break` and `continue` only inside a loop, `return` as declared. */
  ghost predicate FlowOk(w: Setting, lists: Lists, out: Outcome<Flow>) {
    && Safe(w.allowance, lists, out)
    && match out
       case Done(Breaking) => w.cx.loopDepth > 0
       case Done(Continuing) => w.cx.loopDepth > 0
       case Done(Returning(result)) => ReturnOk(w, lists, result)
       case _ => true
  }

  /** The checker accepts the statement in this setting and the state is as it assumed. */
  ghost predicate JudgedStmt(w: Setting, s: Stmt, st: State) {
    && Valid(w) && Ready(w, st) && w.types != [] && st.scopes != []
    && Parsed(s) && Scoped(s) && PermitsStmt(w.allowance, s) && CheckStmt(w.cx, w.types, s).Ok?
  }

  ghost predicate JudgedStmts(w: Setting, ss: seq<Stmt>, st: State) {
    && Valid(w) && Ready(w, st) && w.types != [] && st.scopes != []
    && (forall i :: 0 <= i < |ss| ==> Parsed(ss[i]) && Scoped(ss[i]) && PermitsStmt(w.allowance, ss[i]))
    && CheckStmts(w.cx, w.types, ss).Ok?
  }

  /** A block body, or any other body, checked in the current scope. */
  ghost predicate JudgedBody(w: Setting, body: Stmt, st: State) {
    && Valid(w) && Ready(w, st) && w.types != [] && st.scopes != []
    && Parsed(body) && Scoped(body) && PermitsStmt(w.allowance, body) && CheckBody(w.cx, w.types, body).Ok?
  }

  /** What an accepted statement leaves: a sound state, an outcome it may have, and after normal
      completion the scopes the checker expects. */
  ghost predicate Ran(w: Setting, st: State, r: Res<Flow>, types: seq<TypeScope>) {
    && Advances(w, st, r.st)
    && FlowOk(w, r.st.lists, r.out)
    && (r.out == Done(Normal) ==> Agree(types, r.st.scopes))
  }

  /** What an accepted statement that declares nothing leaves. */
  ghost predicate Settled(w: Setting, st: State, r: Res<Flow>) {
    Steps(w, st, r.st) && FlowOk(w, r.st.lists, r.out)
  }

  function CheckedStmt(w: Setting, s: Stmt): Bound<Stmt>
    requires w.types != [] && CheckStmt(w.cx, w.types, s).Ok?
  {
    CheckStmt(w.cx, w.types, s).value
  }

  function CheckedStmts(w: Setting, ss: seq<Stmt>): Bound<seq<Stmt>>
    requires w.types != [] && CheckStmts(w.cx, w.types, ss).Ok?
  {
    CheckStmts(w.cx, w.types, ss).value
  }

  ghost predicate Executes(w: Setting, s: Stmt, st: State, fuel: nat)
    requires w.types != [] && CheckStmt(w.cx, w.types, s).Ok?
  {
    var c := CheckedStmt(w, s);
    var r := Exec(w.env, c.syntax, st, fuel);
    Ran(w, st, r, c.scopes) && (!s.LocalDeclaration? ==> Settled(w, st, r))
  }

  function In(w: Setting, types: seq<TypeScope>): Setting {
    w.(types := types)
  }

  function InLoop(w: Setting): Setting {
    w.(cx := w.cx.InLoop())
  }

  // ---------------------------------------------------------------- moving between settings

  lemma ValidMoved(w: Setting, types: seq<TypeScope>, loopDepth: nat, returnType: Option<ReturnType>)
    requires Valid(w)
    ensures Valid(w.(types := types, cx := w.cx.(loopDepth := loopDepth, returnType := returnType)))
  {
    var v := w.(types := types, cx := w.cx.(loopDepth := loopDepth, returnType := returnType));
    forall i | 0 <= i < |w.source.methods|
      ensures MethodOk(v, i)
    {
      assert MethodOk(w, i);
    }
  }

  lemma AdvancesTransitive(w: Setting, x: State, y: State, z: State)
    requires Advances(w, x, y) && Advances(w, y, z)
    ensures Advances(w, x, z)
  {
    GrownTransitive(x, y, z);
  }

  lemma RanReady(w: Setting, st: State, r: Res<Flow>, types: seq<TypeScope>)
    requires Ran(w, st, r, types) && r.out == Done(Normal) && st.scopes != []
    ensures Ready(In(w, types), r.st) && r.st.scopes != [] && Advances(In(w, types), st, r.st)
  {
  }

  /** What holds of a block, sequence or loop body holds of its parts. */
  lemma ListParts(a: Allowance, s: Stmt)
    requires s.Block? || s.Sequence?
    requires Parsed(s) && Scoped(s) && PermitsStmt(a, s)
    ensures forall i :: 0 <= i < |s.statements| ==> Parsed(s.statements[i]) && Scoped(s.statements[i]) && PermitsStmt(a, s.statements[i])
  {
  }

  lemma LoopParts(a: Allowance, s: Stmt)
    requires s.While? || s.DoWhile?
    requires Parsed(s) && Scoped(s) && PermitsStmt(a, s)
    ensures !s.body.LocalDeclaration? && Parsed(s.body) && Scoped(s.body) && PermitsStmt(a, s.body) && PermitsExpr(a, s.condition)
  {
    assert ScopedBranch(s.body);
  }

  lemma StepsAdvances(w: Setting, x: State, y: State)
    requires Steps(w, x, y)
    ensures Advances(w, x, y)
  {
    KeptGrows(x, y);
  }

  lemma SettledAdvances(w: Setting, st: State, r: Res<Flow>)
    requires Settled(w, st, r)
    ensures Advances(w, st, r.st)
  {
    StepsAdvances(w, st, r.st);
  }

  /** A statement that declares nothing leaves the checker's scopes and the interpreter's in agreement. */
  lemma SettledRan(w: Setting, st: State, r: Res<Flow>)
    requires Settled(w, st, r) && Ready(w, st)
    ensures Ran(w, st, r, w.types)
  {
    StepsAdvances(w, st, r.st);
    AgreeKept(w.types, st.scopes, r.st.scopes);
  }

  lemma FlowLater(w: Setting, before: Lists, after: Lists, out: Outcome<Flow>)
    requires FlowOk(w, before, out) && ListsKept(before, after) && NoShrink(w.allowance, before, after)
    ensures FlowOk(w, after, out)
  {
    hide Oversized;
    if Oversized(w.allowance, before) { OversizedLater(w.allowance, before, after); }
    if out.Done? && out.value.Returning? && out.value.result.Some? && w.cx.returnType.Some? && w.cx.returnType.value.RValue? {
      var ty := w.cx.returnType.value.ty;
      HoldsLater(w.allowance, w.source.classes, before, after, TypedValue(out.value.result.value, ty), ty);
    }
  }

  /** An outcome without a value stays safe as the outcome of the statement around it. */
  lemma RaisedFlow<T>(w: Setting, lists: Lists, out: Outcome<T>)
    requires Safe(w.allowance, lists, out) && !out.Done?
    ensures FlowOk(w, lists, out.Propagate())
  {
  }

  lemma AttachedFlow(w: Setting, lists: Lists, out: Outcome<Flow>, calls: seq<Name>)
    requires FlowOk(w, lists, out)
    ensures FlowOk(w, lists, if out.Raise? then Raise(AttachStack(out.exception, calls)) else out)
    ensures out.Raise? ==> AllowedExn(w.allowance, lists, AttachStack(out.exception, calls))
  {
  }

  /** Binding a converted value on both sides. */
  lemma DeclaratorReady(w: Setting, before: State, st: State, name: Name, ty: Type, value: Value)
    requires Valid(w) && Ready(w, before) && w.types != [] && before.scopes != []
    requires Steps(w, before, st) && Holds(w.allowance, w.source.classes, st.lists, value, ty)
    ensures var v := In(w, BindType(w.types, name, ty));
            Valid(v) && Ready(v, BindLocal(st, name, ty, value))
    ensures Advances(w, st, BindLocal(st, name, ty, value)) && st.scopes != []
  {
    ReadyLater(w, before, st);
    ValidMoved(w, BindType(w.types, name, ty), w.cx.loopDepth, w.cx.returnType);
    AgreeBind(w.types, st.scopes, name, ty, value);
    BindOk(w.allowance, w.source.classes, st.lists, st.scopes, name, Slot(ty, value));
    BindGrows(st, name, ty, value);
  }

  lemma StillReady(w: Setting, before: State, after: State)
    requires Ready(w, before) && Steps(w, before, after) && before.scopes != []
    ensures Ready(w, after) && after.scopes != []
  {
    ReadyLater(w, before, after);
  }

  lemma KeptFlow(w: Setting, before: State, after: State, out: Outcome<Flow>)
    requires FlowOk(w, before.lists, out) && Steps(w, before, after)
    ensures FlowOk(w, after.lists, out)
  {
    FlowLater(w, before.lists, after.lists, out);
  }

  lemma SettledAfter(w: Setting, x: State, y: State, r: Res<Flow>)
    requires Steps(w, x, y) && Settled(w, y, r)
    ensures Settled(w, x, r)
  {
    StepsTransitive(w, x, y, r.st);
  }

  /** Leaving a loop body for good leaves the loop in a way the statement around it allows. */
  lemma LoopExitOk(w: Setting, lists: Lists, out: Outcome<Flow>)
    requires FlowOk(InLoop(w), lists, out) && !Continues(out)
    ensures FlowOk(w, lists, LoopExit(out))
  {
  }

  // ---------------------------------------------------------------- pushing and popping scopes

  lemma PushReady(w: Setting, st: State, typeScope: TypeScope, scope: Scope)
    requires Ready(w, st)
    requires typeScope.Keys == scope.Keys && forall x :: x in typeScope ==> scope[x].ty == typeScope[x]
    requires ScopeOk(w.allowance, w.source.classes, st.lists, scope)
    ensures Ready(In(w, w.types + [typeScope]), PushScope(st, scope))
  {
    AgreePush(w.types, st.scopes, typeScope, scope);
  }

  /** The interpreter's extra scope for the statements of a body block. */
  lemma PushEmptyReady(w: Setting, st: State)
    requires Ready(w, st)
    ensures Ready(w, PushScope(st, map[]))
  {
    AgreePushEmpty(w.types, st.scopes);
    var empty: Scope := map[];
    assert ScopeOk(w.allowance, w.source.classes, st.lists, empty);
  }

  lemma PopStateOk(w: Setting, st: State)
    requires StateOk(w.allowance, w.source.classes, st)
    ensures StateOk(w.allowance, w.source.classes, PopScope(st))
  {
  }

  /** Running a body in a pushed scope and popping it. */
  lemma PopSettled(w: Setting, inner: Setting, st: State, scope: Scope, r: Res<Flow>)
    requires Advances(inner, PushScope(st, scope), r.st) && FlowOk(inner, r.st.lists, r.out)
    requires inner.allowance == w.allowance && inner.source == w.source && inner.cx == w.cx
    ensures Settled(w, st, Res(r.out, PopScope(r.st)))
  {
    PopKeeps(st, scope, r.st);
    PopStateOk(w, r.st);
  }

  // ---------------------------------------------------------------- iteration

  lemma DepthStateOk(w: Setting, st: State, id: nat, depth: nat)
    requires StateOk(w.allowance, w.source.classes, st) && id < |st.lists|
    ensures StateOk(w.allowance, w.source.classes, st.(lists := ChangeDepth(st.lists, id, depth)))
  {
    var a, classes := w.allowance, w.source.classes;
    var lists := ChangeDepth(st.lists, id, depth);
    hide Oversized;
    if Oversized(a, st.lists) { OversizedLater(a, st.lists, lists); }
    forall v, t | Holds(a, classes, st.lists, v, t)
      ensures Holds(a, classes, lists, v, t)
    {
    }
    forall j, x | 0 <= j < |st.scopes| && x in st.scopes[j]
      ensures Holds(a, classes, lists, st.scopes[j][x].value, st.scopes[j][x].ty)
    {
      assert ScopeOk(a, classes, st.lists, st.scopes[j]);
    }
  }

  lemma EnterReady(w: Setting, st: State, id: nat)
    requires StateOk(w.allowance, w.source.classes, st) && id < |st.lists|
    ensures StateOk(w.allowance, w.source.classes, EnterIteration(st, id))
    ensures NoShrink(w.allowance, st.lists, EnterIteration(st, id).lists)
  {
    var counted := st.(lists := ChangeDepth(st.lists, id, st.lists[id].iterationDepth + 1));
    DepthStateOk(w, st, id, st.lists[id].iterationDepth + 1);
    var empty: Scope := map[];
    assert ScopeOk(w.allowance, w.source.classes, counted.lists, empty);
  }

  lemma LeaveSettled(w: Setting, st: State, id: nat, r: Res<Flow>)
    requires id < |st.lists|
    requires Advances(w, EnterIteration(st, id), r.st) && FlowOk(w, r.st.lists, r.out)
    ensures Settled(w, st, Res(r.out, LeaveIteration(r.st, id)))
  {
    var after := LeaveIteration(r.st, id);
    IterationKeeps(st, id, r.st);
    PopStateOk(w, r.st);
    var popped := PopScope(r.st);
    DepthStateOk(w, popped, id, popped.lists[id].iterationDepth - 1);
    hide Oversized;
    if Oversized(w.allowance, r.st.lists) { OversizedLater(w.allowance, r.st.lists, after.lists); }
    if r.out.Done? && r.out.value.Returning? && r.out.value.result.Some? && w.cx.returnType.Some? && w.cx.returnType.value.RValue? {
      var ty := w.cx.returnType.value.ty;
      DepthHolds(w, r.st.lists, id, popped.lists[id].iterationDepth - 1, TypedValue(r.out.value.result.value, ty), ty);
    }
  }

  lemma DepthHolds(w: Setting, lists: Lists, id: nat, depth: nat, value: Value, ty: Type)
    requires id < |lists| && Holds(w.allowance, w.source.classes, lists, value, ty)
    ensures Holds(w.allowance, w.source.classes, ChangeDepth(lists, id, depth), value, ty)
  {
    hide Oversized;
    if Oversized(w.allowance, lists) { OversizedLater(w.allowance, lists, ChangeDepth(lists, id, depth)); }
  }

  /** Between iterations: the outer scopes agree and the loop's own scope holds at most the variable. */
  ghost predicate BetweenIterations(w: Setting, name: Name, st: State) {
    && st.scopes != []
    && StateOk(w.allowance, w.source.classes, st)
    && Agree(w.types, st.scopes[..|st.scopes| - 1])
    && st.scopes[|st.scopes| - 1].Keys <= {name}
  }

  lemma BindIteration(w: Setting, name: Name, ty: Type, st: State, value: Value)
    requires BetweenIterations(w, name, st)
    requires Holds(w.allowance, w.source.classes, st.lists, value, ty)
    ensures Ready(In(w, w.types + [map[name := ty]]), BindLocal(st, name, ty, value))
    ensures Advances(w, st, BindLocal(st, name, ty, value))
  {
    var last := |st.scopes| - 1;
    var bound := BindLocal(st, name, ty, value);
    BindOk(w.allowance, w.source.classes, st.lists, st.scopes, name, Slot(ty, value));
    BindGrows(st, name, ty, value);
    var typeScope: TypeScope := map[name := ty];
    AgreePush(w.types, st.scopes[..last], typeScope, bound.scopes[last]);
    assert bound.scopes == st.scopes[..last] + [bound.scopes[last]];
  }

  lemma AfterIteration(w: Setting, name: Name, ty: Type, st: State, value: Value, after: State)
    requires BetweenIterations(w, name, st)
    requires Steps(w, BindLocal(st, name, ty, value), after)
    ensures BetweenIterations(w, name, after)
  {
    var last := |st.scopes| - 1;
    var bound := BindLocal(st, name, ty, value);
    assert SameShape(bound.scopes[last], after.scopes[last]);
    assert bound.scopes[..last] == st.scopes[..last];
    AgreeKept(w.types, st.scopes[..last], after.scopes[..last]);
  }

  // ---------------------------------------------------------------- for statements

  /** The loop of an accepted `for`, in the scopes after its initializer; `c` is its checked form. */
  ghost predicate JudgedFor(w: Setting, s: Stmt, c: Stmt, st: State)
    requires s.For? && c.For?
  {
    && Valid(w) && Ready(w, st) && w.types != [] && st.scopes != []
    && PermitsOption(w.allowance, s.forCondition)
    && CheckOptionalBoolean(w.cx, w.types, s.forCondition) == Ok(c.forCondition)
    && JudgedStmt(InLoop(w), s.body, st) && !s.body.LocalDeclaration?
    && c.body == CheckedStmt(InLoop(w), s.body).syntax
    && (s.update.Some? <==> c.update.Some?)
    && (s.update.Some? ==>
          && JudgedStmt(InLoop(w), s.update.value, st) && IsSimple(s.update.value)
          && c.update.value == CheckedStmt(InLoop(w), s.update.value).syntax)
  }

  /** After the initializer the parts of an accepted `for` are judged in the scopes it left. */
  lemma ForJudged(w: Setting, s: Stmt, st: State)
    requires Valid(w) && w.types != [] && s.For? && Parsed(s) && Scoped(s) && PermitsStmt(w.allowance, s)
    requires CheckStmt(w.cx, w.types, s).Ok? && CheckOptional(w.cx, w.types + [map[]], s.initializer).Ok?
    requires Ready(In(w, CheckOptional(w.cx, w.types + [map[]], s.initializer).value.scopes), st) && st.scopes != []
    ensures CheckedStmt(w, s).syntax.For?
    ensures JudgedFor(In(w, CheckOptional(w.cx, w.types + [map[]], s.initializer).value.scopes), s, CheckedStmt(w, s).syntax, st)
  {
    hide CheckStmt, CheckExpr;
    ForChecked(w.cx, w.types, s);
    var types := CheckOptional(w.cx, w.types + [map[]], s.initializer).value.scopes;
    ScopesUnchanged(w.cx.InLoop(), types, s.body);
    OptionalChecked(w.cx.InLoop(), types, s.update);
    ValidMoved(w, types, w.cx.loopDepth, w.cx.returnType);
    ValidMoved(w, types, w.cx.loopDepth + 1, w.cx.returnType);
  }

  lemma JudgedForLater(w: Setting, s: Stmt, c: Stmt, before: State, after: State)
    requires s.For? && c.For? && JudgedFor(w, s, c, before)
    requires Ready(w, after) && after.scopes != []
    ensures JudgedFor(w, s, c, after)
  {
  }

  // ---------------------------------------------------------------- for-each statements

  ghost predicate AllHold(w: Setting, lists: Lists, elements: seq<Value>, element: Type) {
    forall i :: 0 <= i < |elements| ==> Holds(w.allowance, w.source.classes, lists, elements[i], element)
  }

  lemma AllHoldLater(w: Setting, before: Lists, after: Lists, elements: seq<Value>, element: Type)
    requires AllHold(w, before, elements, element) && ListsKept(before, after) && NoShrink(w.allowance, before, after)
    ensures AllHold(w, after, elements, element)
  {
  }

  lemma KeptElements(w: Setting, before: State, after: State, elements: seq<Value>, element: Type)
    requires elements != [] && AllHold(w, before.lists, elements, element) && Steps(w, before, after)
    ensures AllHold(w, after.lists, elements[1..], element)
  {
    AllHoldLater(w, before.lists, after.lists, elements, element);
  }

  /** Entering an iteration over an accepted list. */
  lemma IterationReady(w: Setting, st: State, value: Value, element: Type, name: Name)
    requires Ready(w, st) && Conforms(w.allowance, w.source.classes, st.lists, value, EValue(TList(element)))
    ensures Safe(w.allowance, st.lists, AsCollection(value))
    ensures AsCollection(value).Done? ==>
              var id := AsCollection(value).value;
              && id < |st.lists|
              && BetweenIterations(w, name, EnterIteration(st, id))
              && AllHold(w, EnterIteration(st, id).lists, st.lists[id].elements, element)
  {
    if AsCollection(value).Done? {
      var id := AsCollection(value).value;
      EnterReady(w, st, id);
      var entered := EnterIteration(st, id);
      assert entered.scopes[..|entered.scopes| - 1] == st.scopes;
      forall i | 0 <= i < |st.lists[id].elements|
        ensures Holds(w.allowance, w.source.classes, entered.lists, st.lists[id].elements[i], element)
      {
        DepthHolds(w, st.lists, id, st.lists[id].iterationDepth + 1, st.lists[id].elements[i], element);
      }
    }
  }

  // ---------------------------------------------------------------- calls

  /** The setting in which the body of an accepted method was checked. */
  function MethodSetting(w: Setting, m: Method): Setting
    requires BindParameters(w.source.classes, m.parameters).Ok?
  {
    w.(cx := Context(w.source.classes, w.source.methods, 0, Some(m.returnType)),
       types := [BindParameters(w.source.classes, m.parameters).value])
  }

  lemma MethodReady(w: Setting, callee: nat, arguments: seq<Value>, types: seq<ExprType>, st: State)
    requires Valid(w) && StateOk(w.allowance, w.source.classes, st) && callee < |w.source.methods|
    requires |arguments| == |types| && Applicable(w.source.classes, ParameterTypes(w.source.methods[callee].parameters), types)
    requires forall i :: 0 <= i < |arguments| ==> Conforms(w.allowance, w.source.classes, st.lists, arguments[i], types[i])
    ensures var m := w.source.methods[callee];
            && BindParameters(w.source.classes, m.parameters).Ok?
            && JudgedBody(MethodSetting(w, m), m.body,
                          st.(scopes := [ParameterScope(m.parameters, arguments)], calls := st.calls + [m.name]))
  {
    hide CheckBody, Conforms, Agree, ListsOk, ScopesOk, ScopeOk, IsAssignable;
    assert MethodOk(w, callee);
    var m := w.source.methods[callee];
    var scope := ParameterScope(m.parameters, arguments);
    ParametersAgree(w.allowance, w.source.classes, st.lists, m.parameters, arguments, types);
    ValidMoved(w, MethodSetting(w, m).types, 0, Some(m.returnType));
    OneScopeReady(MethodSetting(w, m), st.(calls := st.calls + [m.name]), scope);
  }

  lemma OneScopeReady(w: Setting, st: State, scope: Scope)
    requires |w.types| == 1 && w.types[0].Keys == scope.Keys && forall x :: x in scope ==> scope[x].ty == w.types[0][x]
    requires ListsOk(w.allowance, w.source.classes, st.lists) && ScopeOk(w.allowance, w.source.classes, st.lists, scope)
    ensures Ready(w, st.(scopes := [scope]))
  {
    var noTypes: seq<TypeScope> := [];
    var noScopes: seq<Scope> := [];
    AgreePush(noTypes, noScopes, w.types[0], scope);
    assert noTypes + [w.types[0]] == w.types;
    assert noScopes + [scope] == [scope];
  }

  /** A caught exception in the scope of its clause. */
  lemma ClauseReady(w: Setting, st: State, name: Name, ty: Type, exception: Exn)
    requires Ready(w, st) && AllowedExn(w.allowance, st.lists, exception) && Matches(w.source.classes, exception, ty)
    requires IsExceptionType(w.source.classes, ty)
    ensures Ready(In(w, w.types + [map[name := ty]]), PushScope(st, map[name := Slot(ty, VException(exception))]))
  {
    PushReady(w, st, map[name := ty], map[name := Slot(ty, VException(exception))]);
  }

  /** Back in the caller: its scopes were out of reach of the call. */
  lemma LeaveCall(w: Setting, st: State, inner: State, body: State, calls: seq<Name>)
    requires StateOk(w.allowance, w.source.classes, st) && inner.lists == st.lists
    requires Advances(w, inner, body)
    ensures StateOk(w.allowance, w.source.classes, body.(scopes := st.scopes, calls := calls))
    ensures NoShrink(w.allowance, st.lists, body.lists)
  {
    ScopesOkLater(w.allowance, w.source.classes, st.lists, body.lists, st.scopes);
  }

  lemma CallResultDelivers(w: Setting, lists: Lists, out: Outcome<Flow>, returnType: ReturnType)
    requires w.cx.returnType == Some(returnType) && w.cx.loopDepth == 0 && FlowOk(w, lists, out)
    requires returnType.RValue? && out.Done? ==> out.value.Returning?
    ensures Delivers(w.allowance, w.source.classes, lists, CallResult(returnType, out), ResultType(returnType))
  {
  }
}
