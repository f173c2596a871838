/** The completion analysis covers every way a statement really ends: falling through, leaving by
    `break` or `continue`, returning or throwing. The proof follows the interpreter, so that a body
    the analysis calls definitely returning never falls off its end, whatever its loops and handlers
    do. */
module CompletionSound {
  import opened Wrappers
  import opened Syntax
  import opened Shapes
  import opened Values
  import opened Semantics
  import opened Completion

  ghost predicate Covers(c: Completions, out: Outcome<Flow>) {
    match out
    case Done(Normal) => c.normal
    case Done(Breaking) => c.broken
    case Done(Continuing) => c.continued
    case Done(Returning(_)) => c.returned
    case _ => true
  }

  /** `b` allows every ending that `a` allows, apart from exceptions. */
  ghost predicate Within(a: Completions, b: Completions) {
    (a.normal ==> b.normal) && (a.returned ==> b.returned) && (a.broken ==> b.broken) && (a.continued ==> b.continued)
  }

  lemma {:induction false} CatchesInclude(pending: Completions, catches: seq<Catch>, i: nat)
    requires i < |catches|
    ensures Within(pending, CompletesCatches(pending, catches))
    ensures Within(Completes(catches[i].body), CompletesCatches(pending, catches))
    decreases catches
  {
    var next := pending.Union(Completes(catches[0].body));
    if i > 0 {
      CatchesInclude(next, catches[1..], i - 1);
    } else if |catches| > 1 {
      CatchesInclude(next, catches[1..], 0);
    }
  }

  /** However a statement ends, the analysis predicted it. */
  lemma {:induction false} ExecCovered(env: Env, s: Stmt, st: State, fuel: nat)
    requires Parsed(s)
    ensures Covers(Completes(s), Exec(env, s, st, fuel).out)
    decreases fuel, s, 2
  {
    match s
    case LocalDeclaration(ty, declarators) => DeclareCovered(env, ty, declarators, st, fuel);
    case Sequence(statements) => ExecAllCovered(env, statements, st, fuel);
    case Block(statements) => ExecAllCovered(env, statements, PushScope(st, map[]), fuel);
    case If(condition, thenBranch, elseBranch) =>
      var c := EvalBoolean(env, condition, st, fuel);
      ExecCovered(env, thenBranch, c.st, fuel);
      if elseBranch.Some? { ExecCovered(env, elseBranch.value, c.st, fuel); }
    case While(_, _) => WhileCovered(env, s, st, fuel);
    case DoWhile(_, _) => DoWhileCovered(env, s, st, fuel);
    case For(_, _, _, _) => ForStatementCovered(env, s, st, fuel);
    case ForEach(_, _, _, _) => ForEachStatementCovered(env, s, st, fuel);
    case Try(_, _, _) => TryCovered(env, s, st, fuel);
    case _ =>
  }

  lemma {:induction false} DeclareCovered(env: Env, ty: Type, declarators: seq<Declarator>, st: State, fuel: nat)
    ensures Covers(NORMAL, Declare(env, ty, declarators, st, fuel).out)
    decreases fuel, declarators, 0
  {
    if declarators != [] {
      var d := declarators[0];
      var r := if d.initializer.Some? then Eval(env, d.initializer.value, st, fuel) else Res(Done(VNull(Some(ty))), st);
      if r.out.Done? {
        DeclareCovered(env, ty, declarators[1..], BindLocal(r.st, d.name, ty, TypedValue(r.out.value, ty)), fuel);
      }
    }
  }

  lemma {:induction false} ExecAllCovered(env: Env, ss: seq<Stmt>, st: State, fuel: nat)
    requires forall i :: 0 <= i < |ss| ==> Parsed(ss[i])
    ensures Covers(CompletesAll(ss), ExecAll(env, ss, st, fuel).out)
    decreases fuel, ss, 0
  {
    if ss != [] {
      ExecCovered(env, ss[0], st, fuel);
      ExecAllCovered(env, ss[1..], Exec(env, ss[0], st, fuel).st, fuel);
    }
  }

  lemma {:induction false} WhileCovered(env: Env, s: Stmt, st: State, fuel: nat)
    requires s.While? && Parsed(s)
    ensures Covers(LoopCompletes(Completes(s.body)), ExecWhile(env, s, st, fuel).out)
    decreases fuel, s, 0
  {
    var c := EvalBoolean(env, s.condition, st, fuel);
    if c.out == Done(true) {
      var b := Exec(env, s.body, c.st, fuel);
      ExecCovered(env, s.body, c.st, fuel);
      if Continues(b.out) && fuel > 0 { WhileCovered(env, s, b.st, fuel - 1); }
    }
  }

  lemma {:induction false} DoWhileCovered(env: Env, s: Stmt, st: State, fuel: nat)
    requires s.DoWhile? && Parsed(s)
    ensures Covers(Completes(s), ExecDoWhile(env, s, st, fuel).out)
    decreases fuel, s, 0
  {
    var b := Exec(env, s.body, st, fuel);
    ExecCovered(env, s.body, st, fuel);
    if Continues(b.out) {
      var c := EvalBoolean(env, s.condition, b.st, fuel);
      if c.out == Done(true) && fuel > 0 { DoWhileCovered(env, s, c.st, fuel - 1); }
    }
  }

  lemma {:induction false} ForStatementCovered(env: Env, s: Stmt, st: State, fuel: nat)
    requires s.For? && Parsed(s)
    ensures Covers(Completes(s), Exec(env, s, st, fuel).out)
    decreases fuel, s, 1
  {
    var outer := PushScope(st, map[]);
    var i := if s.initializer.Some? then Exec(env, s.initializer.value, outer, fuel) else Res(Done(Normal), outer);
    if s.initializer.Some? { SimpleCovered(env, s.initializer.value, outer, fuel); }
    if i.out == Done(Normal) { ForCovered(env, s, i.st, fuel); }
  }

  lemma {:induction false} ForCovered(env: Env, s: Stmt, st: State, fuel: nat)
    requires s.For? && Parsed(s)
    ensures Covers(LoopCompletes(Completes(s.body)), ExecFor(env, s, st, fuel).out)
    decreases fuel, s, 0
  {
    var c := if s.forCondition.Some? then EvalBoolean(env, s.forCondition.value, st, fuel) else Res(Done(true), st);
    if c.out == Done(true) {
      var b := Exec(env, s.body, c.st, fuel);
      ExecCovered(env, s.body, c.st, fuel);
      if Continues(b.out) {
        var u := if s.update.Some? then Exec(env, s.update.value, b.st, fuel) else Res(Done(Normal), b.st);
        if s.update.Some? { SimpleCovered(env, s.update.value, b.st, fuel); }
        if u.out == Done(Normal) && fuel > 0 { ForCovered(env, s, u.st, fuel - 1); }
      }
    }
  }

  lemma {:induction false} SimplesCovered(env: Env, ss: seq<Stmt>, st: State, fuel: nat)
    requires forall i :: 0 <= i < |ss| ==> ss[i].ExprStmt?
    ensures Covers(NORMAL, ExecAll(env, ss, st, fuel).out)
  {
    if ss != [] {
      SimplesCovered(env, ss[1..], Exec(env, ss[0], st, fuel).st, fuel);
    }
  }

  /** The clauses of a `for` statement can only complete normally or raise. */
  lemma SimpleCovered(env: Env, s: Stmt, st: State, fuel: nat)
    requires s.LocalDeclaration? || IsSimple(s)
    ensures Covers(NORMAL, Exec(env, s, st, fuel).out)
  {
    match s
    case LocalDeclaration(ty, declarators) => DeclareCovered(env, ty, declarators, st, fuel);
    case Sequence(statements) => SimplesCovered(env, statements, st, fuel);
    case ExprStmt(_) =>
  }

  lemma {:induction false} ForEachStatementCovered(env: Env, s: Stmt, st: State, fuel: nat)
    requires s.ForEach? && Parsed(s)
    ensures Covers(Completes(s), Exec(env, s, st, fuel).out)
    decreases fuel, s, 1
  {
    var r := Eval(env, s.iterable, st, fuel);
    if r.out.Done? && AsCollection(r.out.value).Done? {
      var id := AsCollection(r.out.value).value;
      if id < |r.st.lists| {
        ForEachCovered(env, s, r.st.lists[id].elements, EnterIteration(r.st, id), fuel);
      }
    }
  }

  lemma {:induction false} ForEachCovered(env: Env, s: Stmt, elements: seq<Value>, st: State, fuel: nat)
    requires s.ForEach? && Parsed(s)
    ensures Covers(LoopCompletes(Completes(s.body)), ExecForEach(env, s, elements, st, fuel).out)
    decreases fuel, s, 0, |elements|
  {
    if elements != [] {
      var bound := BindLocal(st, s.name, s.ty, TypedValue(elements[0], s.ty));
      ExecCovered(env, s.body, bound, fuel);
      ForEachCovered(env, s, elements[1..], Exec(env, s.body, bound, fuel).st, fuel);
    }
  }

  lemma {:induction false} TryCovered(env: Env, s: Stmt, st: State, fuel: nat)
    requires s.Try? && Parsed(s)
    ensures Covers(Completes(s), ExecTry(env, s, st, fuel).out)
    decreases fuel, s, 1
  {
    var t := Exec(env, s.tryBlock, st, fuel);
    ExecCovered(env, s.tryBlock, st, fuel);
    if s.catches != [] {
      CatchesInclude(Completes(s.tryBlock).(thrown := false), s.catches, 0);
    }
    var h := if t.out.Raise? then Handle(env, s, AttachStack(t.out.exception, t.st.calls), t.st, fuel) else t;
    if t.out.Raise? {
      HandleCovered(env, s, AttachStack(t.out.exception, t.st.calls), t.st, fuel);
    }
    assert Covers(Escaping(s), h.out);
    if s.finallyBlock.Some? {
      ExecCovered(env, s.finallyBlock.value, h.st, fuel);
    }
  }

  lemma {:induction false} HandleCovered(env: Env, s: Stmt, exception: Exn, st: State, fuel: nat)
    requires s.Try? && Parsed(s)
    ensures Covers(Escaping(s), Handle(env, s, exception, st, fuel).out)
    decreases fuel, s, 0
  {
    var i := FindCatch(env.program.classes, exception, s.catches);
    if i < |s.catches| {
      var clause := s.catches[i];
      var scope: Scope := map[clause.name := Slot(clause.ty, VException(exception))];
      ExecCovered(env, clause.body, PushScope(st, scope), fuel);
      CatchesInclude(Completes(s.tryBlock).(thrown := false), s.catches, i);
    }
  }

  /** A body that definitely returns or throws never falls off its end, nor leaves by `break` or
      `continue`. */
  lemma DefiniteReturn(env: Env, s: Stmt, st: State, fuel: nat)
    requires Parsed(s) && DefinitelyReturnsOrThrows(s)
    ensures var out := Exec(env, s, st, fuel).out;
            out.Done? ==> out.value.Returning?
  {
    ExecCovered(env, s, st, fuel);
  }
}
