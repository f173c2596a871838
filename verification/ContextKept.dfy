/** Every expression, statement and call gives the interpreter's context back, however it ends: the
    scopes with their names and declared types, the call stack, the iteration depth of every list and
    the output so far. A statement may declare names in the innermost scope; `ScopesGrown` allows just
    that. Nothing here assumes that the program was accepted. */
module ContextKept {
  import opened Wrappers
  import opened Syntax
  import opened Values
  import opened Semantics

  // ---------------------------------------------------------------- what is kept

  ghost predicate SameShape(a: Scope, b: Scope) {
    a.Keys == b.Keys && forall x :: x in a ==> a[x].ty == b[x].ty
  }

  /** The same scopes, names and declared types; only values may differ. */
  ghost predicate ScopesKept(a: seq<Scope>, b: seq<Scope>) {
    |a| == |b| && forall i :: 0 <= i < |a| ==> SameShape(a[i], b[i])
  }

  /** As `ScopesKept`, but the innermost scope may have gained or re-declared names. */
  ghost predicate ScopesGrown(a: seq<Scope>, b: seq<Scope>) {
    && |a| == |b|
    && (forall i :: 0 <= i < |a| - 1 ==> SameShape(a[i], b[i]))
    && (a != [] ==> a[|a| - 1].Keys <= b[|b| - 1].Keys)
  }

  /** No list is lost, retyped or left under iteration, and a list under iteration keeps its elements. */
  ghost predicate ListsKept(a: Lists, b: Lists) {
    && |a| <= |b|
    && (forall id :: 0 <= id < |a| ==>
          && b[id].element == a[id].element
          && b[id].iterationDepth == a[id].iterationDepth
          && (a[id].iterationDepth > 0 ==> b[id].elements == a[id].elements))
    && (forall id :: |a| <= id < |b| ==> b[id].iterationDepth == 0)
  }

  ghost predicate RestKept(a: State, b: State) {
    && ListsKept(a.lists, b.lists)
    && b.calls == a.calls
    && a.output <= b.output
  }

  ghost predicate Kept(a: State, b: State) {
    ScopesKept(a.scopes, b.scopes) && RestKept(a, b)
  }

  ghost predicate Grown(a: State, b: State) {
    ScopesGrown(a.scopes, b.scopes) && RestKept(a, b)
  }

  lemma KeptReflexive(a: State)
    ensures Kept(a, a)
  {
  }

  lemma KeptTransitive(a: State, b: State, c: State)
    requires Kept(a, b) && Kept(b, c)
    ensures Kept(a, c)
  {
    RestKeptTransitive(a, b, c);
  }

  lemma RestKeptTransitive(a: State, b: State, c: State)
    requires RestKept(a, b) && RestKept(b, c)
    ensures RestKept(a, c)
  {
  }

  lemma GrownTransitive(a: State, b: State, c: State)
    requires Grown(a, b) && Grown(b, c)
    ensures Grown(a, c)
  {
    RestKeptTransitive(a, b, c);
  }

  lemma KeptGrows(a: State, b: State)
    requires Kept(a, b)
    ensures Grown(a, b)
  {
  }

  /** What a statement run in a pushed scope leaves after the pop. */
  lemma PopKeeps(a: State, scope: Scope, b: State)
    requires Grown(PushScope(a, scope), b)
    ensures Kept(a, PopScope(b))
  {
    var pushed := PushScope(a, scope);
    forall i | 0 <= i < |a.scopes|
      ensures SameShape(a.scopes[i], PopScope(b).scopes[i])
    {
      assert pushed.scopes[i] == a.scopes[i];
    }
  }

  lemma BindGrows(st: State, name: Name, ty: Type, value: Value)
    requires st.scopes != []
    ensures Grown(st, BindLocal(st, name, ty, value))
  {
  }

  // ---------------------------------------------------------------- the primitive effects

  lemma {:induction false} StoreKeeps(scopes: seq<Scope>, name: Name, value: Value)
    requires Lookup(scopes, name).Some?
    ensures ScopesKept(scopes, Store(scopes, name, value))
  {
    var last := |scopes| - 1;
    if name !in scopes[last] {
      StoreKeeps(scopes[..last], name, value);
    }
  }

  lemma WriteKeeps(st: State, place: Place, value: Value)
    requires place.ListPlace? && place.id < |st.lists| ==> st.lists[place.id].iterationDepth == 0
    ensures Kept(st, WritePlace(st, place, value).st)
  {
    match place
    case LocalPlace(name) =>
      if Lookup(st.scopes, name).Some? {
        StoreKeeps(st.scopes, name, TypedValue(value, Lookup(st.scopes, name).value.ty));
      }
    case ListPlace(id, index) =>
  }

  lemma ListMethodKeeps(st: State, receiver: Value, method_: ListMethod, arguments: seq<Value>)
    ensures Kept(st, CallListMethod(st, receiver, method_, arguments).st)
  {
  }

  /** A list place is only resolved on a list that no loop iterates over. */
  lemma {:induction false} ResolvedIsMutable(env: Env, target: Target, st: State, fuel: nat)
    ensures var r := ResolvePlace(env, target, st, fuel);
            r.out.Done? && r.out.value.ListPlace? ==>
              r.out.value.id < |r.st.lists| && r.st.lists[r.out.value.id].iterationDepth == 0
  {
  }

  // ---------------------------------------------------------------- expressions

  lemma {:induction false} EvalKeeps(env: Env, e: Expr, st: State, fuel: nat)
    ensures Kept(st, Eval(env, e, st, fuel).st)
    decreases fuel, e, 0
  {
    hide Eval;
    match e
    case Assignment(_, _, _, _) =>
      AssignmentKeeps(env, e, st, fuel);
      AssignmentEval(env, e, st, fuel);
    case Mutation(_, _, _) =>
      MutationKeeps(env, e, st, fuel);
      AssignmentEval(env, e, st, fuel);
    case NewList(_, _) => NewListKeeps(env, e, st, fuel);
    case Call(_, _, _) => CallKeeps(env, e, st, fuel);
    case ListCall(_, _, _) => ListCallKeeps(env, e, st, fuel);
    case Debug(_) => DebugKeeps(env, e, st, fuel);
    case Index(list, index) => TwoOperandsKeep(env, e, list, index, st, fuel);
    case NullCoalesce(left, right) => TwoOperandsKeep(env, e, left, right, st, fuel);
    case Binary(left, _, right, _) => TwoOperandsKeep(env, e, left, right, st, fuel);
    case Conditional(_, _, _) => ConditionalKeeps(env, e, st, fuel);
    case NewException(_, Some(message)) => OneOperandKeeps(env, e, message, st, fuel);
    case Cast(_, operand) => OneOperandKeeps(env, e, operand, st, fuel);
    case Unary(_, operand, _) => OneOperandKeeps(env, e, operand, st, fuel);
    case _ => LeafKeeps(env, e, st, fuel);
  }

  lemma AssignmentEval(env: Env, e: Expr, st: State, fuel: nat)
    ensures e.Assignment? ==> Eval(env, e, st, fuel) == EvalAssignment(env, e, st, fuel)
    ensures e.Mutation? ==> Eval(env, e, st, fuel) == EvalMutation(env, e, st, fuel)
  {
  }

  lemma LeafKeeps(env: Env, e: Expr, st: State, fuel: nat)
    requires e.StringLit? || e.BoolLit? || e.IntLit? || e.LongLit? || e.NullLit? || e.Var?
             || (e.NewException? && e.message.None?)
    ensures Kept(st, Eval(env, e, st, fuel).st)
  {
  }

  lemma {:induction false} OneOperandKeeps(env: Env, e: Expr, operand: Expr, st: State, fuel: nat)
    requires match e
             case NewException(_, Some(message)) => operand == message
             case Cast(_, o) => operand == o
             case Unary(_, o, _) => operand == o
             case _ => false
    ensures Kept(st, Eval(env, e, st, fuel).st)
    decreases fuel, e, -1
  {
    KeptReflexive(st);
    hide Kept;
    EvalKeeps(env, operand, st, fuel);
  }

  lemma {:induction false} TwoOperandsKeep(env: Env, e: Expr, left: Expr, right: Expr, st: State, fuel: nat)
    requires match e
             case Index(l, i) => left == l && right == i
             case NullCoalesce(l, r) => left == l && right == r
             case Binary(l, _, r, _) => left == l && right == r
             case _ => false
    ensures Kept(st, Eval(env, e, st, fuel).st)
    decreases fuel, e, -1
  {
    hide Kept;
    var l := Eval(env, left, st, fuel);
    EvalKeeps(env, left, st, fuel);
    EvalKeeps(env, right, l.st, fuel);
    KeptTransitive(st, l.st, Eval(env, right, l.st, fuel).st);
  }

  lemma {:induction false} ConditionalKeeps(env: Env, e: Expr, st: State, fuel: nat)
    requires e.Conditional?
    ensures Kept(st, Eval(env, e, st, fuel).st)
    decreases fuel, e, -1
  {
    hide Kept;
    var c := EvalBoolean(env, e.condition, st, fuel);
    EvalKeeps(env, e.condition, st, fuel);
    EvalKeeps(env, e.whenTrue, c.st, fuel);
    EvalKeeps(env, e.whenFalse, c.st, fuel);
    KeptTransitive(st, c.st, Eval(env, e.whenTrue, c.st, fuel).st);
    KeptTransitive(st, c.st, Eval(env, e.whenFalse, c.st, fuel).st);
  }

  lemma {:induction false} NewListKeeps(env: Env, e: Expr, st: State, fuel: nat)
    requires e.NewList?
    ensures Kept(st, Eval(env, e, st, fuel).st)
    decreases fuel, e, -1
  {
    var r := EvalAll(env, e.elements, st, fuel);
    EvalAllKeeps(env, e.elements, st, fuel);
    if r.out.Done? {
      KeptTransitive(st, r.st, Allocate(r.st, e.element, r.out.value).st);
    }
  }

  lemma {:induction false} DebugKeeps(env: Env, e: Expr, st: State, fuel: nat)
    requires e.Debug?
    ensures Kept(st, Eval(env, e, st, fuel).st)
    decreases fuel, e, -1
  {
    var r := Eval(env, e.argument, st, fuel);
    EvalKeeps(env, e.argument, st, fuel);
    if r.out.Done? {
      KeptTransitive(st, r.st, DebugLine(env.host, r.st, r.out.value).st);
    }
  }

  lemma {:induction false} CallKeeps(env: Env, e: Expr, st: State, fuel: nat)
    requires e.Call?
    ensures Kept(st, Eval(env, e, st, fuel).st)
    decreases fuel, e, -1
  {
    KeptReflexive(st);
    hide Kept;
    var r := EvalAll(env, e.arguments, st, fuel);
    EvalAllKeeps(env, e.arguments, st, fuel);
    if e.callee.Some? && r.out.Done? && e.callee.value < |env.program.methods| && fuel > 0 {
      var m := env.program.methods[e.callee.value];
      InvokeKeeps(env, m, r.out.value, r.st, fuel - 1);
      KeptTransitive(st, r.st, Invoke(env, m, r.out.value, r.st, fuel - 1).st);
    }
  }

  lemma {:induction false} ListCallKeeps(env: Env, e: Expr, st: State, fuel: nat)
    requires e.ListCall?
    ensures Kept(st, Eval(env, e, st, fuel).st)
    decreases fuel, e, -1
  {
    hide Kept;
    var l := Eval(env, e.receiver, st, fuel);
    EvalKeeps(env, e.receiver, st, fuel);
    if l.out.Done? {
      var r := EvalAll(env, e.arguments, l.st, fuel);
      EvalAllKeeps(env, e.arguments, l.st, fuel);
      KeptTransitive(st, l.st, r.st);
      if r.out.Done? {
        ListMethodKeeps(r.st, l.out.value, e.method_, r.out.value);
        KeptTransitive(st, r.st, CallListMethod(r.st, l.out.value, e.method_, r.out.value).st);
      }
    }
  }

  lemma {:induction false} EvalAllKeeps(env: Env, es: seq<Expr>, st: State, fuel: nat)
    ensures Kept(st, EvalAll(env, es, st, fuel).st)
    decreases fuel, es, 0
  {
    if es != [] {
      var first := Eval(env, es[0], st, fuel);
      EvalKeeps(env, es[0], st, fuel);
      if first.out.Done? {
        EvalAllKeeps(env, es[1..], first.st, fuel);
        KeptTransitive(st, first.st, EvalAll(env, es[1..], first.st, fuel).st);
      }
    }
  }

  lemma {:induction false} ResolveKeeps(env: Env, target: Target, st: State, fuel: nat)
    ensures Kept(st, ResolvePlace(env, target, st, fuel).st)
    decreases fuel, target, 0
  {
    match target
    case VarTarget(_) =>
    case IndexTarget(list, index) =>
      var l := Eval(env, list, st, fuel);
      EvalKeeps(env, list, st, fuel);
      EvalKeeps(env, index, l.st, fuel);
      KeptTransitive(st, l.st, Eval(env, index, l.st, fuel).st);
  }

  lemma {:induction false} AssignmentKeeps(env: Env, e: Expr, st: State, fuel: nat)
    requires e.Assignment?
    ensures Kept(st, EvalAssignment(env, e, st, fuel).st)
    decreases fuel, e, -1
  {
    var place := ResolvePlace(env, e.target, st, fuel);
    ResolveKeeps(env, e.target, st, fuel);
    ResolvedIsMutable(env, e.target, st, fuel);
    if place.out.Done? {
      var value := Eval(env, e.value, place.st, fuel);
      EvalKeeps(env, e.value, place.st, fuel);
      KeptTransitive(st, place.st, value.st);
      if value.out.Done? {
        AssignedKeeps(st, place.st, value.st, place.out.value, value.out.value);
        if !e.op.Assign? && e.fact.Some? {
          var left := ReadPlace(place.st, place.out.value);
          if left.Done? {
            var result := ApplyBinary(env.host, value.st.lists, e.fact.value, left.value, value.out.value);
            if result.Done? {
              AssignedKeeps(st, place.st, value.st, place.out.value, result.value);
            }
          }
        }
      }
    }
  }

  /** A place resolved before the right-hand side ran may still be written after it. */
  lemma AssignedKeeps(st: State, resolved: State, evaluated: State, place: Place, value: Value)
    requires Kept(st, evaluated) && Kept(resolved, evaluated)
    requires place.ListPlace? ==> place.id < |resolved.lists| && resolved.lists[place.id].iterationDepth == 0
    ensures Kept(st, WritePlace(evaluated, place, value).st)
  {
    WriteKeeps(evaluated, place, value);
    KeptTransitive(st, evaluated, WritePlace(evaluated, place, value).st);
  }

  lemma {:induction false} MutationKeeps(env: Env, e: Expr, st: State, fuel: nat)
    requires e.Mutation?
    ensures Kept(st, EvalMutation(env, e, st, fuel).st)
    decreases fuel, e, -1
  {
    var place := ResolvePlace(env, e.target, st, fuel);
    ResolveKeeps(env, e.target, st, fuel);
    ResolvedIsMutable(env, e.target, st, fuel);
    if place.out.Done? {
      MutatePlaceKeeps(place.st, place.out.value, e.delta, e.returnOld);
      KeptTransitive(st, place.st, MutatePlace(place.st, place.out.value, e.delta, e.returnOld).st);
    }
  }

  lemma MutatePlaceKeeps(st: State, place: Place, delta: int, returnOld: bool)
    requires place.ListPlace? && place.id < |st.lists| ==> st.lists[place.id].iterationDepth == 0
    ensures Kept(st, MutatePlace(st, place, delta, returnOld).st)
  {
    var old_ := ReadPlace(st, place);
    if old_.Done? {
      var kind := MutationKind(old_.value);
      if kind.Done? {
        var new_ := Increment(kind.value, old_.value, delta);
        if new_.Done? {
          WriteKeeps(st, place, new_.value);
        }
      }
    }
  }

  lemma {:induction false} InvokeKeeps(env: Env, m: Method, arguments: seq<Value>, st: State, fuel: nat)
    ensures Kept(st, Invoke(env, m, arguments, st, fuel).st)
    decreases fuel, m, 3
  {
    var inner := st.(scopes := [ParameterScope(m.parameters, arguments)], calls := st.calls + [m.name]);
    ExecKeeps(env, m.body, inner, fuel);
    var body := Exec(env, m.body, inner, fuel);
    assert PopCall(body.st.calls) == st.calls;
  }

  // ---------------------------------------------------------------- statements

  lemma {:induction false} ExecKeeps(env: Env, s: Stmt, st: State, fuel: nat)
    requires st.scopes != []
    ensures Grown(st, Exec(env, s, st, fuel).st)
    decreases fuel, s, 2
  {
    match s
    case If(_, _, _) => IfKeeps(env, s, st, fuel);
    case For(_, _, _, _) => ForStatementKeeps(env, s, st, fuel);
    case ForEach(_, _, _, _) => ForEachStatementKeeps(env, s, st, fuel);
    case Block(statements) =>
      ExecAllKeeps(env, statements, PushScope(st, map[]), fuel);
      PopKeeps(st, map[], ExecAll(env, statements, PushScope(st, map[]), fuel).st);
    case _ => OtherKeeps(env, s, st, fuel);
  }

  lemma {:induction false} IfKeeps(env: Env, s: Stmt, st: State, fuel: nat)
    requires s.If? && st.scopes != []
    ensures Grown(st, Exec(env, s, st, fuel).st)
    decreases fuel, s, 1
  {
    hide Grown;
    var c := EvalBoolean(env, s.condition, st, fuel);
    EvalKeeps(env, s.condition, st, fuel);
    KeptGrows(st, c.st);
    if c.out == Done(true) {
      ExecKeeps(env, s.thenBranch, c.st, fuel);
      GrownTransitive(st, c.st, Exec(env, s.thenBranch, c.st, fuel).st);
    } else if c.out == Done(false) && s.elseBranch.Some? {
      ExecKeeps(env, s.elseBranch.value, c.st, fuel);
      GrownTransitive(st, c.st, Exec(env, s.elseBranch.value, c.st, fuel).st);
    }
  }

  lemma {:induction false} OtherKeeps(env: Env, s: Stmt, st: State, fuel: nat)
    requires !s.If? && !s.For? && !s.ForEach? && !s.Block? && st.scopes != []
    ensures Grown(st, Exec(env, s, st, fuel).st)
    decreases fuel, s, 1
  {
    KeptReflexive(st);
    KeptGrows(st, st);
    match s
    case LocalDeclaration(ty, declarators) => DeclareKeeps(env, ty, declarators, st, fuel);
    case Sequence(statements) => ExecAllKeeps(env, statements, st, fuel);
    case ExprStmt(expression) => EvalKeeps(env, expression, st, fuel);
    case While(_, _) => WhileKeeps(env, s, st, fuel);
    case DoWhile(_, _) => DoWhileKeeps(env, s, st, fuel);
    case Return(result) => if result.Some? { EvalKeeps(env, result.value, st, fuel); }
    case Try(_, _, _) => TryKeeps(env, s, st, fuel);
    case Throw(exception) => EvalKeeps(env, exception, st, fuel);
    case Break =>
    case Continue =>
  }

  lemma {:induction false} DeclareKeeps(env: Env, ty: Type, declarators: seq<Declarator>, st: State, fuel: nat)
    requires st.scopes != []
    ensures Grown(st, Declare(env, ty, declarators, st, fuel).st)
    decreases fuel, declarators, 0
  {
    if declarators != [] {
      var d := declarators[0];
      var r := if d.initializer.Some? then Eval(env, d.initializer.value, st, fuel) else Res(Done(VNull(Some(ty))), st);
      if d.initializer.Some? { EvalKeeps(env, d.initializer.value, st, fuel); }
      KeptGrows(st, r.st);
      if r.out.Done? {
        var bound := BindLocal(r.st, d.name, ty, TypedValue(r.out.value, ty));
        BindGrows(r.st, d.name, ty, TypedValue(r.out.value, ty));
        DeclareKeeps(env, ty, declarators[1..], bound, fuel);
        GrownTransitive(st, r.st, bound);
        GrownTransitive(st, bound, Declare(env, ty, declarators[1..], bound, fuel).st);
      }
    }
  }

  lemma {:induction false} ExecAllKeeps(env: Env, ss: seq<Stmt>, st: State, fuel: nat)
    requires st.scopes != []
    ensures Grown(st, ExecAll(env, ss, st, fuel).st)
    decreases fuel, ss, 0
  {
    if ss != [] {
      var first := Exec(env, ss[0], st, fuel);
      ExecKeeps(env, ss[0], st, fuel);
      if first.out == Done(Normal) {
        ExecAllKeeps(env, ss[1..], first.st, fuel);
        GrownTransitive(st, first.st, ExecAll(env, ss[1..], first.st, fuel).st);
      }
    }
  }

  lemma {:induction false} WhileKeeps(env: Env, s: Stmt, st: State, fuel: nat)
    requires s.While? && st.scopes != []
    ensures Grown(st, ExecWhile(env, s, st, fuel).st)
    decreases fuel, s, 0
  {
    var c := EvalBoolean(env, s.condition, st, fuel);
    EvalKeeps(env, s.condition, st, fuel);
    KeptGrows(st, c.st);
    if c.out == Done(true) {
      var b := Exec(env, s.body, c.st, fuel);
      ExecKeeps(env, s.body, c.st, fuel);
      GrownTransitive(st, c.st, b.st);
      if Continues(b.out) && fuel > 0 {
        WhileKeeps(env, s, b.st, fuel - 1);
        GrownTransitive(st, b.st, ExecWhile(env, s, b.st, fuel - 1).st);
      }
    }
  }

  lemma {:induction false} DoWhileKeeps(env: Env, s: Stmt, st: State, fuel: nat)
    requires s.DoWhile? && st.scopes != []
    ensures Grown(st, ExecDoWhile(env, s, st, fuel).st)
    decreases fuel, s, 0
  {
    var b := Exec(env, s.body, st, fuel);
    ExecKeeps(env, s.body, st, fuel);
    if Continues(b.out) {
      var c := EvalBoolean(env, s.condition, b.st, fuel);
      EvalKeeps(env, s.condition, b.st, fuel);
      KeptGrows(b.st, c.st);
      GrownTransitive(st, b.st, c.st);
      if c.out == Done(true) && fuel > 0 {
        DoWhileKeeps(env, s, c.st, fuel - 1);
        GrownTransitive(st, c.st, ExecDoWhile(env, s, c.st, fuel - 1).st);
      }
    }
  }

  lemma {:induction false} ForStatementKeeps(env: Env, s: Stmt, st: State, fuel: nat)
    requires s.For? && st.scopes != []
    ensures Kept(st, Exec(env, s, st, fuel).st)
    decreases fuel, s, 1
  {
    var outer := PushScope(st, map[]);
    var i := if s.initializer.Some? then Exec(env, s.initializer.value, outer, fuel) else Res(Done(Normal), outer);
    if s.initializer.Some? { ExecKeeps(env, s.initializer.value, outer, fuel); }
    if i.out == Done(Normal) {
      ForKeeps(env, s, i.st, fuel);
      GrownTransitive(outer, i.st, ExecFor(env, s, i.st, fuel).st);
      PopKeeps(st, map[], ExecFor(env, s, i.st, fuel).st);
    } else {
      PopKeeps(st, map[], i.st);
    }
  }

  lemma {:induction false} ForKeeps(env: Env, s: Stmt, st: State, fuel: nat)
    requires s.For? && st.scopes != []
    ensures Grown(st, ExecFor(env, s, st, fuel).st)
    decreases fuel, s, 0
  {
    var c := if s.forCondition.Some? then EvalBoolean(env, s.forCondition.value, st, fuel) else Res(Done(true), st);
    if s.forCondition.Some? { EvalKeeps(env, s.forCondition.value, st, fuel); }
    KeptGrows(st, c.st);
    if c.out == Done(true) {
      var b := Exec(env, s.body, c.st, fuel);
      ExecKeeps(env, s.body, c.st, fuel);
      GrownTransitive(st, c.st, b.st);
      if Continues(b.out) {
        var u := if s.update.Some? then Exec(env, s.update.value, b.st, fuel) else Res(Done(Normal), b.st);
        if s.update.Some? { ExecKeeps(env, s.update.value, b.st, fuel); }
        GrownTransitive(st, b.st, u.st);
        if u.out == Done(Normal) && fuel > 0 {
          ForKeeps(env, s, u.st, fuel - 1);
          GrownTransitive(st, u.st, ExecFor(env, s, u.st, fuel - 1).st);
        }
      }
    }
  }

  lemma {:induction false} ForEachStatementKeeps(env: Env, s: Stmt, st: State, fuel: nat)
    requires s.ForEach? && st.scopes != []
    ensures Kept(st, Exec(env, s, st, fuel).st)
    decreases fuel, s, 1
  {
    var r := Eval(env, s.iterable, st, fuel);
    EvalKeeps(env, s.iterable, st, fuel);
    if r.out.Done? && AsCollection(r.out.value).Done? {
      var id := AsCollection(r.out.value).value;
      if id < |r.st.lists| {
        var entered := EnterIteration(r.st, id);
        var elements := r.st.lists[id].elements;
        ForEachKeeps(env, s, elements, entered, fuel);
        IterationKeeps(r.st, id, ExecForEach(env, s, elements, entered, fuel).st);
        KeptTransitive(st, r.st, LeaveIteration(ExecForEach(env, s, elements, entered, fuel).st, id));
      }
    }
  }

  /** Entering and leaving an iteration cancel, and the elements are those at entry. */
  lemma IterationKeeps(st: State, id: nat, after: State)
    requires id < |st.lists| && Grown(EnterIteration(st, id), after)
    ensures Kept(st, LeaveIteration(after, id))
    ensures LeaveIteration(after, id).lists[id].elements == st.lists[id].elements
  {
    var counted := st.(lists := ChangeDepth(st.lists, id, st.lists[id].iterationDepth + 1));
    assert EnterIteration(st, id) == PushScope(counted, map[]);
    PopKeeps(counted, map[], after);
  }

  lemma {:induction false} ForEachKeeps(env: Env, s: Stmt, elements: seq<Value>, st: State, fuel: nat)
    requires s.ForEach? && st.scopes != []
    ensures Grown(st, ExecForEach(env, s, elements, st, fuel).st)
    decreases fuel, s, 0, |elements|
  {
    if elements != [] {
      var bound := BindLocal(st, s.name, s.ty, TypedValue(elements[0], s.ty));
      BindGrows(st, s.name, s.ty, TypedValue(elements[0], s.ty));
      var b := Exec(env, s.body, bound, fuel);
      ExecKeeps(env, s.body, bound, fuel);
      GrownTransitive(st, bound, b.st);
      if Continues(b.out) {
        ForEachKeeps(env, s, elements[1..], b.st, fuel);
        GrownTransitive(st, b.st, ExecForEach(env, s, elements[1..], b.st, fuel).st);
      }
    }
  }

  lemma {:induction false} TryKeeps(env: Env, s: Stmt, st: State, fuel: nat)
    requires s.Try? && st.scopes != []
    ensures Grown(st, ExecTry(env, s, st, fuel).st)
    decreases fuel, s, 0, 1
  {
    var t := Exec(env, s.tryBlock, st, fuel);
    ExecKeeps(env, s.tryBlock, st, fuel);
    var h := if t.out.Raise? then Handle(env, s, AttachStack(t.out.exception, t.st.calls), t.st, fuel) else t;
    if t.out.Raise? {
      HandleKeeps(env, s, AttachStack(t.out.exception, t.st.calls), t.st, fuel);
      KeptGrows(t.st, h.st);
      GrownTransitive(st, t.st, h.st);
    }
    if s.finallyBlock.Some? && !h.out.Panic? && !h.out.OutOfFuel? {
      ExecKeeps(env, s.finallyBlock.value, h.st, fuel);
      GrownTransitive(st, h.st, Exec(env, s.finallyBlock.value, h.st, fuel).st);
    }
  }

  lemma {:induction false} HandleKeeps(env: Env, s: Stmt, exception: Exn, st: State, fuel: nat)
    requires s.Try? && st.scopes != []
    ensures Kept(st, Handle(env, s, exception, st, fuel).st)
    decreases fuel, s, 0, 0
  {
    var i := FindCatch(env.program.classes, exception, s.catches);
    if i < |s.catches| {
      var clause := s.catches[i];
      var scope: Scope := map[clause.name := Slot(clause.ty, VException(exception))];
      ExecKeeps(env, clause.body, PushScope(st, scope), fuel);
      PopKeeps(st, scope, Exec(env, clause.body, PushScope(st, scope), fuel).st);
    }
  }
}
