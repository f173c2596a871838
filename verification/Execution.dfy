/** What statements do. */
module Execution {
  // What statements do, in terms of the executions of their parts: which part runs, in which state, how
  // often and in which order, and how the outcome of the whole follows from the outcomes of the parts.

  import opened Wrappers
  import opened Syntax
  import opened Values
  import opened Semantics
  import opened ExprRules
  import opened StmtRules
  import opened Evaluation
  import opened Storing

  // ---------------------------------------------------------------- scopes

  /** The same state in one more scope. */
  predicate Entered(st: State, scope: Scope, inner: State) {
    inner == st.(scopes := inner.scopes) && |inner.scopes| == |st.scopes| + 1
    && inner.scopes[..|st.scopes|] == st.scopes && inner.scopes[|st.scopes|] == scope
  }

  /** The same state without its innermost scope. */
  predicate Left(inner: State, st: State) {
    st == inner.(scopes := st.scopes)
    && |st.scopes| == (if |inner.scopes| == 0 then 0 else |inner.scopes| - 1) && st.scopes <= inner.scopes
  }

  /** The name has a new slot in the innermost scope, and nothing else is different. */
  ghost predicate BindsNew(st: State, x: Name, ty: Type, value: Value, after: State) {
    && after == st.(scopes := after.scopes) && |after.scopes| == |st.scopes|
    && (st.scopes != [] ==>
          var last := |st.scopes| - 1;
          && after.scopes[..last] == st.scopes[..last]
          && x in after.scopes[last] && after.scopes[last][x].ty == ty && Conversion(value, ty, after.scopes[last][x].value)
          && forall y :: y != x ==>
               && (y in st.scopes[last] <==> y in after.scopes[last])
               && (y in st.scopes[last] ==> st.scopes[last][y] == after.scopes[last][y]))
  }

  lemma ScopePushed(st: State, scope: Scope)
    ensures Entered(st, scope, PushScope(st, scope))
  {
  }

  lemma ScopePopped(st: State)
    ensures Left(st, PopScope(st))
  {
  }

  lemma LocalBound(st: State, x: Name, ty: Type, value: Value)
    ensures BindsNew(st, x, ty, value, BindLocal(st, x, ty, TypedValue(value, ty)))
  {
  }

  // ---------------------------------------------------------------- simple statements

  lemma JumpsAre(env: Env, st: State, fuel: nat)
    ensures Exec(env, Break, st, fuel) == Res(Done(Breaking), st)
    ensures Exec(env, Continue, st, fuel) == Res(Done(Continuing), st)
    ensures Exec(env, Return(None), st, fuel) == Res(Done(Returning(None)), st)
  {
  }

  /** An outcome that is no value, as the outcome of the statement around the expression. */
  predicate Passes(out: Outcome<Value>, statement: Outcome<Flow>) {
    match out
    case Done(_) => false
    case Raise(e) => statement == Raise(e)
    case Fails(f) => statement == Fails(f)
    case Panic => statement == Panic
    case OutOfFuel => statement == OutOfFuel
  }

  /** An expression statement drops the value; `return` gives it to the caller; `throw` raises it. */
  lemma ExpressionStatements(env: Env, e: Expr, st: State, fuel: nat)
    ensures var v := Eval(env, e, st, fuel);
            var dropped := Exec(env, ExprStmt(e), st, fuel);
            var returned := Exec(env, Return(Some(e)), st, fuel);
            var thrown := Exec(env, Throw(e), st, fuel);
            && dropped.st == returned.st == thrown.st == v.st
            && (!v.out.Done? ==> Passes(v.out, dropped.out) && Passes(v.out, returned.out) && Passes(v.out, thrown.out))
            && (v.out.Done? ==>
                  && dropped.out == Done(Normal)
                  && returned.out == Done(Returning(Some(v.out.value)))
                  && (v.out.value.VException? ==> thrown.out == Raise(v.out.value.exception))
                  && (v.out.value.VNull? ==> RaisesKind(thrown.out, NullPointer))
                  && (!v.out.value.VException? && !v.out.value.VNull? ==> thrown.out.Fails?))
  {
    ExprStmtExec(env, ExprStmt(e), st, fuel);
    ReturnExec(env, Return(Some(e)), st, fuel);
    ThrowExec(env, Throw(e), st, fuel);
    hide Eval, Exec;
  }

  /** How a condition that is neither true nor false ends the statement: null raises, other values escape. */
  predicate TestStops(out: Outcome<Value>, statement: Outcome<Flow>) {
    match out
    case Done(VBoolean(_)) => false
    case Done(VNull(_)) => RaisesKind(statement, NullPointer)
    case Done(_) => statement == Raise(Exn(TBuiltin(TypeError), "", Some(WrongOperands), []))
    case _ => Passes(out, statement)
  }

  lemma TestIs(env: Env, e: Expr, st: State, fuel: nat)
    ensures var t := Eval(env, e, st, fuel);
            var c := EvalBoolean(env, e, st, fuel);
            && c.st == t.st
            && (t.out.Done? && t.out.value.VBoolean? ==> c.out == Done(t.out.value.truth))
            && (!(t.out.Done? && t.out.value.VBoolean?) ==> !c.out.Done? && TestStops(t.out, c.out.Propagate()))
  {
    hide Eval;
  }

  /** `if` runs the branch its condition chooses, in the state the condition left, and no other. */
  lemma IfRuns(env: Env, c: Expr, t: Stmt, e: Option<Stmt>, st: State, fuel: nat)
    ensures var test := Eval(env, c, st, fuel);
            var r := Exec(env, If(c, t, e), st, fuel);
            && (test.out == Done(VBoolean(true)) ==> r == Exec(env, t, test.st, fuel))
            && (test.out == Done(VBoolean(false)) ==> r == if e.Some? then Exec(env, e.value, test.st, fuel) else Res(Done(Normal), test.st))
            && (test.out != Done(VBoolean(true)) && test.out != Done(VBoolean(false)) ==> r.st == test.st && TestStops(test.out, r.out))
  {
    IfExec(env, If(c, t, e), st, fuel);
    TestIs(env, c, st, fuel);
    hide Eval, Exec, EvalBoolean;
  }

  // ---------------------------------------------------------------- statements in order

  /** The statements up to the last state all completed normally, each starting where the one before ended. */
  predicate Completed(env: Env, ss: seq<Stmt>, fuel: nat, states: seq<State>) {
    && 1 <= |states| <= |ss| + 1
    && forall i :: 0 <= i < |states| - 1 ==> Exec(env, ss[i], states[i], fuel) == Res(Done(Normal), states[i + 1])
  }

  /** A run of a list of statements: some complete normally, and then the list ends or the next does not. */
  predicate RunsInOrder(env: Env, ss: seq<Stmt>, fuel: nat, st: State, states: seq<State>, r: Res<Flow>) {
    && Completed(env, ss, fuel, states) && states[0] == st
    && var n := |states| - 1;
       if n == |ss| then r == Res(Done(Normal), states[n])
       else r == Exec(env, ss[n], states[n], fuel) && r.out != Done(Normal)
  }

  lemma {:induction false} StatementsRun(env: Env, ss: seq<Stmt>, st: State, fuel: nat) returns (states: seq<State>)
    ensures RunsInOrder(env, ss, fuel, st, states, ExecAll(env, ss, st, fuel))
    decreases |ss|
  {
    hide Exec;
    if ss == [] {
      return [st];
    }
    var first := Exec(env, ss[0], st, fuel);
    if first.out == Done(Normal) {
      var rest := StatementsRun(env, ss[1..], first.st, fuel);
      states := [st] + rest;
    } else {
      states := [st];
    }
  }

  /** A block runs its statements in order in a scope of its own, which is gone afterwards however it ends;
      a sequence runs them in the scope it finds. */
  lemma BlocksRun(env: Env, ss: seq<Stmt>, st: State, fuel: nat)
    ensures var r := Exec(env, Block(ss), st, fuel);
            exists inner, states, end ::
              Entered(st, map[], inner) && RunsInOrder(env, ss, fuel, inner, states, end) && r.out == end.out && Left(end.st, r.st)
    ensures exists states :: RunsInOrder(env, ss, fuel, st, states, Exec(env, Sequence(ss), st, fuel))
  {
    BlockExec(env, Block(ss), st, fuel);
    DelegatedExec(env, Sequence(ss), st, fuel);
    hide Exec, ExecAll, RunsInOrder;
    var inner := PushScope(st, map[]);
    ScopePushed(st, map[]);
    var states := StatementsRun(env, ss, inner, fuel);
    var end := ExecAll(env, ss, inner, fuel);
    ScopePopped(end.st);
    assert Entered(st, map[], inner) && RunsInOrder(env, ss, fuel, inner, states, end);
    var same := StatementsRun(env, ss, st, fuel);
  }

  /** One declarator: its initializer, or null of the declared type, goes converted into a new slot. */
  ghost predicate Declares(env: Env, ty: Type, d: Declarator, fuel: nat, st: State, after: State) {
    if d.initializer.None? then BindsNew(st, d.name, ty, VNull(Some(ty)), after)
    else
      var v := Eval(env, d.initializer.value, st, fuel);
      v.out.Done? && BindsNew(v.st, d.name, ty, v.out.value, after)
  }

  /** A run of a declaration: declarators one after the other, up to an initializer without a value. */
  ghost predicate DeclaresInOrder(env: Env, ty: Type, ds: seq<Declarator>, fuel: nat, n: nat, st: State, r: Res<Flow>)
    decreases n
  {
    n <= |ds| &&
    if n > 0 then
      exists next :: Declares(env, ty, ds[0], fuel, st, next) && DeclaresInOrder(env, ty, ds[1..], fuel, n - 1, next, r)
    else if ds == [] then r == Res(Done(Normal), st)
    else
      && ds[0].initializer.Some?
      && var v := Eval(env, ds[0].initializer.value, st, fuel);
         Passes(v.out, r.out) && r.st == v.st
  }

  lemma {:induction false} DeclareRuns(env: Env, ty: Type, ds: seq<Declarator>, st: State, fuel: nat) returns (n: nat)
    ensures DeclaresInOrder(env, ty, ds, fuel, n, st, Declare(env, ty, ds, st, fuel))
    decreases |ds|
  {
    hide Eval, BindsNew;
    n := 0;
    if ds != [] {
      DeclareUnfolds(env, ty, ds, st, fuel);
      var v := Initial(env, ty, ds[0].initializer, st, fuel);
      if v.out.Done? {
        LocalBound(v.st, ds[0].name, ty, v.out.value);
        var next := BindLocal(v.st, ds[0].name, ty, TypedValue(v.out.value, ty));
        assert Declares(env, ty, ds[0], fuel, st, next);
        hide Declares, Initial, BindLocal;
        var m := DeclareRuns(env, ty, ds[1..], next, fuel);
        n := m + 1;
      }
    }
  }

  lemma DeclarationRuns(env: Env, ty: Type, ds: seq<Declarator>, st: State, fuel: nat)
    ensures exists n :: DeclaresInOrder(env, ty, ds, fuel, n, st, Exec(env, LocalDeclaration(ty, ds), st, fuel))
  {
    DelegatedExec(env, LocalDeclaration(ty, ds), st, fuel);
    hide Exec, Declare, DeclaresInOrder;
    var n := DeclareRuns(env, ty, ds, st, fuel);
  }

  // ---------------------------------------------------------------- loops

  predicate GoesOn(body: Outcome<Flow>) {
    match body
    case Done(Normal) => true
    case Done(Continuing) => true
    case _ => false
  }

  /** A body that does not go on ends the loop: `break` normally, everything else as it is. */
  predicate EndsLoop(body: Outcome<Flow>, loop: Outcome<Flow>) {
    !GoesOn(body) && if body == Done(Breaking) then loop == Done(Normal) else loop == body
  }

  /** The condition, which holds when it is absent, is true and leaves a state. */
  predicate Holds(env: Env, c: Option<Expr>, st: State, fuel: nat, after: State) {
    if c.None? then after == st else Gives(env, c.value, st, fuel, VBoolean(true), after)
  }

  predicate Updates(env: Env, u: Option<Stmt>, st: State, fuel: nat, r: Res<Flow>) {
    if u.None? then r == Res(Done(Normal), st) else r == Exec(env, u.value, st, fuel)
  }

  /** One whole iteration: the condition once, the body once and the update once. */
  predicate Iterates(env: Env, c: Option<Expr>, u: Option<Stmt>, body: Stmt, fuel: nat, st: State, tested: State, ended: State, after: State) {
    && Holds(env, c, st, fuel, tested)
    && Exec(env, body, tested, fuel).st == ended && GoesOn(Exec(env, body, tested, fuel).out)
    && Updates(env, u, ended, fuel, Res(Done(Normal), after))
  }

  /** The last iteration: it stops at the condition, in the body, in the update, or when there is no fuel
      for another. */
  ghost predicate Stops(env: Env, c: Option<Expr>, u: Option<Stmt>, body: Stmt, fuel: nat, spent: bool, st: State, r: Res<Flow>) {
    || (c.Some? && Eval(env, c.value, st, fuel) == Res(Done(VBoolean(false)), r.st) && r.out == Done(Normal))
    || (c.Some? && Eval(env, c.value, st, fuel).st == r.st && TestStops(Eval(env, c.value, st, fuel).out, r.out))
    || exists tested :: Holds(env, c, st, fuel, tested) &&
         var b := Exec(env, body, tested, fuel);
         || (EndsLoop(b.out, r.out) && r.st == b.st)
         || (GoesOn(b.out) && Updates(env, u, b.st, fuel, r) && r.out != Done(Normal))
         || (spent && GoesOn(b.out) && Updates(env, u, b.st, fuel, Res(Done(Normal), r.st)) && r.out == OutOfFuel)
  }

  /** `n` whole iterations one after the other, each for one unit of fuel, and then the last one. */
  ghost predicate Loops(env: Env, c: Option<Expr>, u: Option<Stmt>, body: Stmt, fuel: nat, n: nat, st: State, r: Res<Flow>)
    decreases n
  {
    n <= fuel &&
    if n == 0 then Stops(env, c, u, body, fuel, fuel == 0, st, r)
    else
      exists tested, ended, next ::
        Iterates(env, c, u, body, fuel, st, tested, ended, next) && Loops(env, c, u, body, fuel - 1, n - 1, next, r)
  }

  lemma {:induction false} WhileLoops(env: Env, s: Stmt, st: State, fuel: nat) returns (n: nat)
    requires s.While?
    ensures Loops(env, Some(s.condition), None, s.body, fuel, n, st, ExecWhile(env, s, st, fuel))
    decreases fuel
  {
    TestIs(env, s.condition, st, fuel);
    hide Exec, Eval, EvalBoolean;
    var c := EvalBoolean(env, s.condition, st, fuel);
    n := 0;
    if c.out == Done(true) {
      var b := Exec(env, s.body, c.st, fuel);
      assert Holds(env, Some(s.condition), st, fuel, c.st);
      if GoesOn(b.out) && fuel > 0 {
        var m := WhileLoops(env, s, b.st, fuel - 1);
        assert Iterates(env, Some(s.condition), None, s.body, fuel, st, c.st, b.st, b.st);
        n := m + 1;
      }
    }
  }

  /** `while`: condition and body alternate until the condition is false or the body ends the loop. */
  lemma WhileRuns(env: Env, c: Expr, body: Stmt, st: State, fuel: nat)
    ensures exists n :: Loops(env, Some(c), None, body, fuel, n, st, Exec(env, While(c, body), st, fuel))
  {
    DelegatedExec(env, While(c, body), st, fuel);
    hide Exec, ExecWhile, Loops;
    var n := WhileLoops(env, While(c, body), st, fuel);
  }

  lemma {:induction false} ForLoops(env: Env, s: Stmt, st: State, fuel: nat) returns (n: nat)
    requires s.For?
    ensures Loops(env, s.forCondition, s.update, s.body, fuel, n, st, ExecFor(env, s, st, fuel))
    decreases fuel
  {
    if s.forCondition.Some? { TestIs(env, s.forCondition.value, st, fuel); }
    hide Exec, Eval, EvalBoolean;
    var c := OptionalBoolean(env, s.forCondition, st, fuel);
    n := 0;
    if c.out == Done(true) {
      var b := Exec(env, s.body, c.st, fuel);
      assert Holds(env, s.forCondition, st, fuel, c.st);
      if GoesOn(b.out) {
        var next := if s.update.Some? then Exec(env, s.update.value, b.st, fuel) else Res(Done(Normal), b.st);
        if next.out == Done(Normal) && fuel > 0 {
          var m := ForLoops(env, s, next.st, fuel - 1);
          assert Iterates(env, s.forCondition, s.update, s.body, fuel, st, c.st, b.st, next.st);
          n := m + 1;
        } else {
          assert Updates(env, s.update, b.st, fuel, next);
        }
      }
    }
  }

  /** `for`: the initializer once, in a scope around the loop; then condition, body and update alternate.
      An initializer that does not complete normally ends the statement. */
  lemma ForRuns(env: Env, i: Option<Stmt>, c: Option<Expr>, u: Option<Stmt>, body: Stmt, st: State, fuel: nat)
    ensures var r := Exec(env, For(i, c, u, body), st, fuel);
            exists outer, first, end ::
              && Entered(st, map[], outer) && Updates(env, i, outer, fuel, first)
              && (if first.out == Done(Normal) then exists n :: Loops(env, c, u, body, fuel, n, first.st, end) else end == first)
              && r.out == end.out && Left(end.st, r.st)
  {
    var s := For(i, c, u, body);
    ForExec(env, s, st, fuel);
    hide Exec, ExecFor, Loops, Entered, Left;
    var outer := PushScope(st, map[]);
    ScopePushed(st, map[]);
    var first := if i.Some? then Exec(env, i.value, outer, fuel) else Res(Done(Normal), outer);
    var end := if first.out == Done(Normal) then ExecFor(env, s, first.st, fuel) else first;
    ScopePopped(end.st);
    if first.out == Done(Normal) { var n := ForLoops(env, s, first.st, fuel); }
    assert Entered(st, map[], outer) && Updates(env, i, outer, fuel, first);
  }

  /** A run of `do`: the body first, then the condition; a condition that is false ends the loop. */
  ghost predicate RepeatLoops(env: Env, body: Stmt, c: Expr, fuel: nat, n: nat, st: State, r: Res<Flow>)
    decreases n
  {
    var b := Exec(env, body, st, fuel);
    var t := Eval(env, c, b.st, fuel);
    if n > 0 then
      n <= fuel && GoesOn(b.out) && t.out == Done(VBoolean(true)) && RepeatLoops(env, body, c, fuel - 1, n - 1, t.st, r)
    else
      || (EndsLoop(b.out, r.out) && r.st == b.st)
      || (GoesOn(b.out) && t == Res(Done(VBoolean(false)), r.st) && r.out == Done(Normal))
      || (GoesOn(b.out) && t.st == r.st && TestStops(t.out, r.out))
      || (GoesOn(b.out) && t == Res(Done(VBoolean(true)), r.st) && fuel == 0 && r.out == OutOfFuel)
  }

  lemma {:induction false} DoWhileLoops(env: Env, s: Stmt, st: State, fuel: nat) returns (n: nat)
    requires s.DoWhile?
    ensures RepeatLoops(env, s.body, s.condition, fuel, n, st, ExecDoWhile(env, s, st, fuel))
    decreases fuel
  {
    hide Exec, Eval, EvalBoolean;
    var b := Exec(env, s.body, st, fuel);
    TestIs(env, s.condition, b.st, fuel);
    n := 0;
    if GoesOn(b.out) && EvalBoolean(env, s.condition, b.st, fuel).out == Done(true) && fuel > 0 {
      var m := DoWhileLoops(env, s, EvalBoolean(env, s.condition, b.st, fuel).st, fuel - 1);
      n := m + 1;
    }
  }

  lemma DoWhileRuns(env: Env, body: Stmt, c: Expr, st: State, fuel: nat)
    ensures exists n :: RepeatLoops(env, body, c, fuel, n, st, Exec(env, DoWhile(body, c), st, fuel))
  {
    DelegatedExec(env, DoWhile(body, c), st, fuel);
    hide Exec, ExecDoWhile, RepeatLoops;
    var n := DoWhileLoops(env, DoWhile(body, c), st, fuel);
  }

  /** A run over the elements of a list: the body runs once for the first, with the variable bound to it, and
      then for the others in their order, up to the end of the list or of the loop. */
  ghost predicate Visits(env: Env, ty: Type, x: Name, body: Stmt, fuel: nat, elements: seq<Value>, st: State, r: Res<Flow>)
    decreases |elements|
  {
    if elements == [] then r == Res(Done(Normal), st)
    else
      exists bound :: BindsNew(st, x, ty, elements[0], bound) &&
        var b := Exec(env, body, bound, fuel);
        if GoesOn(b.out) then Visits(env, ty, x, body, fuel, elements[1..], b.st, r) else r.st == b.st && EndsLoop(b.out, r.out)
  }

  lemma {:induction false} ForEachVisits(env: Env, s: Stmt, elements: seq<Value>, st: State, fuel: nat)
    requires s.ForEach?
    ensures Visits(env, s.ty, s.name, s.body, fuel, elements, st, ExecForEach(env, s, elements, st, fuel))
    decreases |elements|
  {
    hide Exec, BindsNew, BindLocal;
    if elements != [] {
      var bound := BindLocal(st, s.name, s.ty, TypedValue(elements[0], s.ty));
      LocalBound(st, s.name, s.ty, elements[0]);
      ForEachVisits(env, s, elements[1..], Exec(env, s.body, bound, fuel).st, fuel);
      assert BindsNew(st, s.name, s.ty, elements[0], bound);
    }
  }

  /** While the elements of a list are visited the list is marked, in a scope of the loop's own. */
  predicate Marked(st: State, id: nat, inner: State) {
    && id < |st.lists| && Entered(st.(lists := inner.lists), map[], inner) && OtherLists(st.lists, inner.lists, id)
    && inner.lists[id] == st.lists[id].(iterationDepth := st.lists[id].iterationDepth + 1)
  }

  predicate Unmarked(inner: State, id: nat, st: State) {
    && Left(inner.(lists := st.lists), st)
    && if id < |inner.lists| && inner.lists[id].iterationDepth > 0 then
         && OtherLists(inner.lists, st.lists, id)
         && st.lists[id] == inner.lists[id].(iterationDepth := inner.lists[id].iterationDepth - 1)
       else st.lists == inner.lists
  }

  predicate OtherLists(before: Lists, after: Lists, id: nat) {
    |after| == |before| && forall j :: 0 <= j < |before| && j != id ==> after[j] == before[j]
  }

  lemma IterationMarked(st: State, id: nat)
    requires id < |st.lists|
    ensures Marked(st, id, EnterIteration(st, id))
  {
  }

  lemma IterationUnmarked(inner: State, id: nat)
    ensures Unmarked(inner, id, LeaveIteration(inner, id))
  {
  }

  /** `for` over a list visits the elements it has when the loop starts, whatever the body does to it. */
  lemma ForEachRuns(env: Env, ty: Type, x: Name, list: Expr, body: Stmt, st: State, fuel: nat)
    ensures var l := Eval(env, list, st, fuel);
            var r := Exec(env, ForEach(ty, x, list, body), st, fuel);
            && (!l.out.Done? ==> r.st == l.st && Passes(l.out, r.out))
            && (l.out.Done? && l.out.value.VNull? ==> r.st == l.st && RaisesKind(r.out, NullPointer))
            && (l.out.Done? && l.out.value.VCollection? && l.out.value.id < |l.st.lists| ==>
                  exists inner, end ::
                    && Marked(l.st, l.out.value.id, inner)
                    && Visits(env, ty, x, body, fuel, l.st.lists[l.out.value.id].elements, inner, end)
                    && r.out == end.out && Unmarked(end.st, l.out.value.id, r.st))
  {
    var s := ForEach(ty, x, list, body);
    ForEachExec(env, s, st, fuel);
    hide Exec, Eval, ExecForEach, Visits;
    var l := Eval(env, list, st, fuel);
    if l.out.Done? && l.out.value.VCollection? && l.out.value.id < |l.st.lists| {
      var id := l.out.value.id;
      var inner := EnterIteration(l.st, id);
      ForEachVisits(env, s, l.st.lists[id].elements, inner, fuel);
      var end := ExecForEach(env, s, l.st.lists[id].elements, inner, fuel);
      IterationMarked(l.st, id);
      IterationUnmarked(end.st, id);
      hide EnterIteration, LeaveIteration, Marked, Unmarked;
      assert Marked(l.st, id, inner);
    }
  }

  // ---------------------------------------------------------------- try

  /** An exception that has no trace yet gets that of the calls in progress, innermost first. */
  predicate Traced(e: Exn, calls: seq<Name>, traced: Exn) {
    && traced == e.(trace := traced.trace)
    && (e.trace != [] ==> traced.trace == e.trace)
    && (e.trace == [] ==> |traced.trace| == |calls| && forall i :: 0 <= i < |calls| ==> traced.trace[i] == calls[|calls| - 1 - i])
  }

  predicate FirstMatch(classes: ClassTable, e: Exn, catches: seq<Catch>, i: nat) {
    i < |catches| && Matches(classes, e, catches[i].ty) && forall j :: 0 <= j < i ==> !Matches(classes, e, catches[j].ty)
  }

  predicate NoMatch(classes: ClassTable, e: Exn, catches: seq<Catch>) {
    forall j :: 0 <= j < |catches| ==> !Matches(classes, e, catches[j].ty)
  }

  /** Unless the guarded block raises, no clause runs. */
  lemma UnraisedSkipsClauses(env: Env, t: Stmt, catches: seq<Catch>, st: State, fuel: nat)
    requires !Exec(env, t, st, fuel).out.Raise?
    ensures Exec(env, Try(t, catches, None), st, fuel) == Exec(env, t, st, fuel)
  {
    DelegatedExec(env, Try(t, catches, None), st, fuel);
    hide Exec;
  }

  /** An exception no clause matches runs none of them: it leaves the statement, with its trace. */
  lemma UncaughtLeaves(env: Env, t: Stmt, catches: seq<Catch>, st: State, fuel: nat, e: Exn)
    requires Exec(env, t, st, fuel).out.Raise?
    requires Traced(Exec(env, t, st, fuel).out.exception, Exec(env, t, st, fuel).st.calls, e)
    requires NoMatch(env.program.classes, e, catches)
    ensures Exec(env, Try(t, catches, None), st, fuel) == Res(Raise(e), Exec(env, t, st, fuel).st)
  {
    DelegatedExec(env, Try(t, catches, None), st, fuel);
    hide Exec;
    TraceAttached(Exec(env, t, st, fuel).out.exception, Exec(env, t, st, fuel).st.calls, e);
  }

  lemma TraceAttached(e: Exn, calls: seq<Name>, traced: Exn)
    requires Traced(e, calls, traced)
    ensures AttachStack(e, calls) == traced
  {
    assert AttachStack(e, calls).trace == traced.trace;
  }

  /** A caught exception runs the body of the first clause that matches, and of no other, in a scope that
      holds the exception under the name of the clause; the clause decides how the statement ends. */
  lemma CaughtRunsFirstMatch(env: Env, t: Stmt, catches: seq<Catch>, st: State, fuel: nat, e: Exn, i: nat)
    requires Exec(env, t, st, fuel).out.Raise?
    requires Traced(Exec(env, t, st, fuel).out.exception, Exec(env, t, st, fuel).st.calls, e)
    requires FirstMatch(env.program.classes, e, catches, i)
    ensures var r := Exec(env, Try(t, catches, None), st, fuel);
            exists inner ::
              && Entered(Exec(env, t, st, fuel).st, map[catches[i].name := Slot(catches[i].ty, VException(e))], inner)
              && r.out == Exec(env, catches[i].body, inner, fuel).out
              && Left(Exec(env, catches[i].body, inner, fuel).st, r.st)
  {
    var s := Try(t, catches, None);
    DelegatedExec(env, s, st, fuel);
    hide Exec;
    var raised := Exec(env, t, st, fuel);
    TraceAttached(raised.out.exception, raised.st.calls, e);
    assert FindCatch(env.program.classes, e, catches) == i;
    var scope := map[catches[i].name := Slot(catches[i].ty, VException(e))];
    var inner := PushScope(raised.st, scope);
    ScopePushed(raised.st, scope);
    ScopePopped(Exec(env, catches[i].body, inner, fuel).st);
    assert Entered(raised.st, scope, inner);
  }

  /** The `finally` block runs in the state the rest of the statement left, however that ended, exceptions
      and jumps included; its own outcome wins unless it completes normally. Only a crash, or the end of the
      fuel, keeps it from running. */
  lemma FinallyAlwaysRuns(env: Env, t: Stmt, catches: seq<Catch>, f: Stmt, st: State, fuel: nat)
    ensures var rest := Exec(env, Try(t, catches, None), st, fuel);
            var r := Exec(env, Try(t, catches, Some(f)), st, fuel);
            if rest.out.Panic? || rest.out.OutOfFuel? then r == rest
            else
              && r.st == Exec(env, f, rest.st, fuel).st
              && r.out == if Exec(env, f, rest.st, fuel).out == Done(Normal) then rest.out else Exec(env, f, rest.st, fuel).out
  {
    DelegatedExec(env, Try(t, catches, None), st, fuel);
    DelegatedExec(env, Try(t, catches, Some(f)), st, fuel);
    hide Exec;
  }

  // ---------------------------------------------------------------- programs

  /** How the end of the statements becomes the end of the run. */
  predicate EndsRun(statements: Outcome<Flow>, run: Outcome<()>) {
    match statements
    case Done(Normal) => run == Done(())
    case Done(Returning(None)) => run == Done(())
    case Done(_) => run.Fails?
    case Raise(e) => run == Raise(e)
    case Fails(f) => run == Fails(f)
    case Panic => run == Panic
    case OutOfFuel => run == OutOfFuel
  }

  /** A run starts with one empty scope, no lists, no open calls and no output, and runs the statements of
      the program in order up to the first that does not complete normally. */
  lemma RunRuns(env: Env, fuel: nat)
    ensures exists states, end ::
              && RunsInOrder(Library(env), env.program.statements, fuel, State([map[]], [], [], []), states, end)
              && Run(env, fuel).st == end.st && EndsRun(end.out, Run(env, fuel).out)
  {
    hide Exec, ExecAll, RunsInOrder;
    var states := StatementsRun(Library(env), env.program.statements, INITIAL, fuel);
  }
}
