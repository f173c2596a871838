/** The interpreter itself: an object that pushes, replaces and restores its fields step by step.
    Every method computes what the functions of `Semantics` say, outcome and whole new state, so that
    what is proved of those functions holds of it. Loops of the source are loops here: the search for
    a name, the evaluation of arguments and elements, the statements of a block, the iterations of
    every kind of loop and the choice of a `catch` clause. Their invariants say that what the function
    computes from the start is what was done so far followed by what the function computes from the
    current state. The fields are replaced before a part runs and put back after it whatever its
    outcome was, as the source does. */
module Interpreters {
  import opened Wrappers
  import opened Syntax
  import opened Values
  import opened Semantics
  import opened ExprRules
  import opened StmtRules

  class Interpreter {
    const env: Env
    var scopes: seq<Scope>
    var lists: Lists
    var calls: seq<Name>
    var output: seq<string>

    constructor (env: Env)
      ensures this.env == env && Now() == INITIAL
    {
      this.env := env;
      scopes, lists, calls, output := [map[]], [], [], [];
    }

    function Now(): State
      reads this
    {
      State(scopes, lists, calls, output)
    }

    // -------------------------------------------------------------- scopes and lists

    /** Searches the scopes from the innermost outward. */
    method Find(name: Name) returns (slot: Option<Slot>)
      ensures slot == Lookup(scopes, name)
    {
      var i := |scopes|;
      assert scopes[..i] == scopes;
      while i > 0
        invariant 0 <= i <= |scopes|
        invariant Lookup(scopes, name) == Lookup(scopes[..i], name)
      {
        i := i - 1;
        assert scopes[..i + 1][..i] == scopes[..i];
        if name in scopes[i] {
          return Some(scopes[i][name]);
        }
      }
      return None;
    }

    /** Overwrites the innermost slot of a name. */
    method Overwrite(name: Name, value: Value)
      requires Lookup(scopes, name).Some?
      modifies this`scopes
      ensures Now() == old(Now()).(scopes := Store(old(scopes), name, value))
    {
      var i := |scopes|;
      assert scopes[..i] == scopes && Store(scopes, name, value) == Store(scopes, name, value) + scopes[i..];
      hide Store;
      ghost var before := scopes;
      while name !in scopes[i - 1]
        invariant scopes == before
        invariant 0 < i <= |scopes|
        invariant Lookup(scopes[..i], name).Some?
        invariant Store(scopes, name, value) == Store(scopes[..i], name, value) + scopes[i..]
        decreases i
      {
        StoreOutward(scopes, i, name, value);
        i := i - 1;
      }
      StoreHere(scopes, i, name, value);
      var slot := scopes[i - 1][name];
      scopes := scopes[i - 1 := scopes[i - 1][name := Slot(slot.ty, value)]];
    }

    method Read(place: Place) returns (out: Outcome<Value>)
      ensures out == ReadPlace(Now(), place)
    {
      match place
      case LocalPlace(name) =>
        var slot := Find(name);
        out := if slot.Some? then Done(slot.value.value) else Fails(UnknownVariable);
      case ListPlace(id, index) =>
        out := if id < |lists| && index < |lists[id].elements| then Done(lists[id].elements[index]) else Panic;
    }

    method Write(place: Place, value: Value) returns (out: Outcome<Value>)
      modifies this
      ensures Res(out, Now()) == WritePlace(old(Now()), place, value)
    {
      match place
      case LocalPlace(name) =>
        var slot := Find(name);
        if slot.None? {
          return Fails(UnknownVariable);
        }
        var typed := TypedValue(value, slot.value.ty);
        Overwrite(name, typed);
        out := Done(typed);
      case ListPlace(id, index) =>
        if id >= |lists| || index >= |lists[id].elements| {
          return Panic;
        }
        var typed := TypedValue(value, lists[id].element);
        lists := lists[id := lists[id].(elements := lists[id].elements[index := typed])];
        out := Done(typed);
    }

    // -------------------------------------------------------------- expressions

    method Evaluate(e: Expr, fuel: nat) returns (out: Outcome<Value>)
      modifies this
      ensures Res(out, Now()) == Eval(env, e, old(Now()), fuel)
      decreases fuel, e, 2
    {
      match e
      case Assignment(_, _, _, _) => out := EvaluateAssignment(e, fuel);
      case Mutation(_, _, _) => out := EvaluateMutation(e, fuel);
      case NewList(_, _) => out := EvaluateNewList(e, fuel);
      case NewException(_, Some(_)) => out := EvaluateNewException(e, fuel);
      case Index(_, _) => out := EvaluateIndex(e, fuel);
      case Call(_, _, _) => out := EvaluateCall(e, fuel);
      case ListCall(_, _, _) => out := EvaluateListCall(e, fuel);
      case Debug(_) => out := EvaluateDebug(e, fuel);
      case Cast(_, _) => out := EvaluateCast(e, fuel);
      case Conditional(_, _, _) => out := EvaluateConditional(e, fuel);
      case NullCoalesce(_, _) => out := EvaluateCoalesce(e, fuel);
      case Unary(_, _, _) => out := EvaluateUnary(e, fuel);
      case Binary(_, op, _, _) =>
        if op.And? || op.Or? { out := EvaluateLazy(e, fuel); } else { out := EvaluateStrict(e, fuel); }
      case _ => out := EvaluateLeaf(e, fuel);
    }

    method EvaluateLeaf(e: Expr, fuel: nat) returns (out: Outcome<Value>)
      requires e.StringLit? || e.BoolLit? || e.IntLit? || e.LongLit? || e.NullLit? || e.Var? || (e.NewException? && e.message.None?)
      modifies this
      ensures Res(out, Now()) == Eval(env, e, old(Now()), fuel)
      decreases fuel, e, 1
    {
      match e
      case StringLit(text) => out := Done(VString(text));
      case BoolLit(truth) => out := Done(VBoolean(truth));
      case IntLit(number) => out := Done(VInteger(number));
      case LongLit(number) =>
        out := if MIN_LONG <= number <= MAX_LONG then Done(VLong(number)) else Fails(LiteralOutOfRange);
      case NullLit => out := Done(VNull(None));
      case Var(name) => out := Read(LocalPlace(name));
      case NewException(ty, _) => out := Done(VException(Exn(ty, "", None, [])));
    }

    method EvaluateTruth(e: Expr, fuel: nat) returns (out: Outcome<bool>)
      modifies this
      ensures Res(out, Now()) == EvalBoolean(env, e, old(Now()), fuel)
      decreases fuel, e, 3
    {
      hide Eval;
      var r := Evaluate(e, fuel);
      out := if r.Done? then AsBoolean(r.value) else r.Propagate();
    }

    /** Arguments and initializer elements, left to right. */
    method EvaluateEach(es: seq<Expr>, fuel: nat) returns (out: Outcome<seq<Value>>)
      modifies this
      ensures Res(out, Now()) == EvalAll(env, es, old(Now()), fuel)
      decreases fuel, es
    {
      hide Eval;
      var values: seq<Value> := [];
      var i := 0;
      assert es[0..] == es;
      PrefixedNone(EvalAll(env, es, Now(), fuel));
      while i < |es|
        invariant 0 <= i <= |es|
        invariant EvalAll(env, es, old(Now()), fuel) == Prefixed(values, EvalAll(env, es[i..], Now(), fuel))
      {
        AllEval(env, es[i..], Now(), fuel);
        var r := Evaluate(es[i], fuel);
        if !r.Done? {
          return r.Propagate();
        }
        assert es[i..][1..] == es[i + 1..];
        PrefixedOne(values, r.value, EvalAll(env, es[i + 1..], Now(), fuel));
        values := values + [r.value];
        i := i + 1;
      }
      assert values + [] == values;
      out := Done(values);
    }

    method EvaluateNewList(e: Expr, fuel: nat) returns (out: Outcome<Value>)
      requires e.NewList?
      modifies this
      ensures Res(out, Now()) == Eval(env, e, old(Now()), fuel)
      decreases fuel, e, 1
    {
      hide Eval, EvalAll;
      NewListEval(env, e, Now(), fuel);
      var r := EvaluateEach(e.elements, fuel);
      if !r.Done? {
        return r.Propagate();
      }
      out := Done(VCollection(|lists|));
      lists := lists + [ListObject(e.element, AllTyped(r.value, e.element), 0)];
    }

    method EvaluateNewException(e: Expr, fuel: nat) returns (out: Outcome<Value>)
      requires e.NewException? && e.message.Some?
      modifies this
      ensures Res(out, Now()) == Eval(env, e, old(Now()), fuel)
      decreases fuel, e, 1
    {
      hide Eval;
      NewExceptionEval(env, e, Now(), fuel);
      out := Evaluate(e.message.value, fuel);
      if out.Done? {
        out := ExceptionValue(e.ty, out.value);
      }
    }

    method EvaluateIndex(e: Expr, fuel: nat) returns (out: Outcome<Value>)
      requires e.Index?
      modifies this
      ensures Res(out, Now()) == Eval(env, e, old(Now()), fuel)
      decreases fuel, e, 1
    {
      hide Eval;
      IndexEval(env, e, Now(), fuel);
      var list := Evaluate(e.list, fuel);
      if !list.Done? {
        return list;
      }
      var index := Evaluate(e.index, fuel);
      if !index.Done? {
        return index;
      }
      out := ReadElement(lists, list.value, index.value);
    }

    method EvaluateCall(e: Expr, fuel: nat) returns (out: Outcome<Value>)
      requires e.Call?
      modifies this
      ensures Res(out, Now()) == Eval(env, e, old(Now()), fuel)
      decreases fuel, e, 1
    {
      if e.callee.None? {
        return Fails(UnresolvedCall);
      }
      ghost var before := Now();
      var arguments := EvaluateEach(e.arguments, fuel);
      if !arguments.Done? {
        return arguments.Propagate();
      }
      if e.callee.value >= |env.program.methods| {
        return Fails(MissingMethod);
      }
      if fuel == 0 {
        return OutOfFuel;
      }
      hide Eval;
      CallEval(env, e, before, fuel);
      out := ExecuteCallable(env.program.methods[e.callee.value], arguments.value, fuel - 1);
    }

    method EvaluateListCall(e: Expr, fuel: nat) returns (out: Outcome<Value>)
      requires e.ListCall?
      modifies this
      ensures Res(out, Now()) == Eval(env, e, old(Now()), fuel)
      decreases fuel, e, 1
    {
      hide Eval, EvalAll;
      ListCallEval(env, e, Now(), fuel);
      var receiver := Evaluate(e.receiver, fuel);
      if !receiver.Done? {
        return receiver;
      }
      var arguments := EvaluateEach(e.arguments, fuel);
      if !arguments.Done? {
        return arguments.Propagate();
      }
      out := ApplyListMethod(receiver.value, e.method_, arguments.value);
    }

    method ApplyListMethod(receiver: Value, method_: ListMethod, arguments: seq<Value>) returns (out: Outcome<Value>)
      modifies this
      ensures Res(out, Now()) == CallListMethod(old(Now()), receiver, method_, arguments)
    {
      if receiver.VNull? {
        return Raised(NullPointer);
      } else if !receiver.VCollection? {
        return Escaped(WrongOperands);
      } else if receiver.id >= |lists| {
        return Panic;
      } else if |arguments| != if method_.ListAdd? then 1 else 0 {
        return Escaped(WrongOperands);
      }
      var list := lists[receiver.id];
      if method_.ListSize? {
        out := if |list.elements| > MAX_LONG then Raised(ListError) else Done(VInteger(|list.elements|));
      } else if list.iterationDepth > 0 {
        out := Raised(FinalError);
      } else {
        var elements := if method_.ListAdd? then list.elements + [TypedValue(arguments[0], list.element)] else [];
        lists := lists[receiver.id := list.(elements := elements)];
        out := Done(VVoid);
      }
    }

    method EvaluateDebug(e: Expr, fuel: nat) returns (out: Outcome<Value>)
      requires e.Debug?
      modifies this
      ensures Res(out, Now()) == Eval(env, e, old(Now()), fuel)
      decreases fuel, e, 1
    {
      hide Eval;
      DebugEval(env, e, Now(), fuel);
      var value := Evaluate(e.argument, fuel);
      if !value.Done? {
        return value;
      }
      if value.value.VVoid? {
        return Fails(DebugOfVoid);
      }
      output := output + [env.host.render(value.value, lists)];
      out := Done(VVoid);
    }

    method EvaluateCast(e: Expr, fuel: nat) returns (out: Outcome<Value>)
      requires e.Cast?
      modifies this
      ensures Res(out, Now()) == Eval(env, e, old(Now()), fuel)
      decreases fuel, e, 1
    {
      hide Eval;
      CastEval(env, e, Now(), fuel);
      out := Evaluate(e.operand, fuel);
      if out.Done? {
        out := CastValue(env.program.classes, lists, out.value, e.ty);
      }
    }

    method EvaluateConditional(e: Expr, fuel: nat) returns (out: Outcome<Value>)
      requires e.Conditional?
      modifies this
      ensures Res(out, Now()) == Eval(env, e, old(Now()), fuel)
      decreases fuel, e, 1
    {
      hide Eval, EvalBoolean;
      ConditionalEval(env, e, Now(), fuel);
      var condition := EvaluateTruth(e.condition, fuel);
      if !condition.Done? {
        return condition.Propagate();
      }
      if condition.value {
        out := Evaluate(e.whenTrue, fuel);
      } else {
        out := Evaluate(e.whenFalse, fuel);
      }
    }

    method EvaluateCoalesce(e: Expr, fuel: nat) returns (out: Outcome<Value>)
      requires e.NullCoalesce?
      modifies this
      ensures Res(out, Now()) == Eval(env, e, old(Now()), fuel)
      decreases fuel, e, 1
    {
      hide Eval;
      CoalesceEval(env, e, Now(), fuel);
      out := Evaluate(e.left, fuel);
      if out.Done? && out.value.VNull? {
        out := Evaluate(e.right, fuel);
      }
    }

    method EvaluateUnary(e: Expr, fuel: nat) returns (out: Outcome<Value>)
      requires e.Unary?
      modifies this
      ensures Res(out, Now()) == Eval(env, e, old(Now()), fuel)
      decreases fuel, e, 1
    {
      if e.unaryOp.Not? {
        hide Eval, EvalBoolean;
        NotEval(env, e, Now(), fuel);
        var truth := EvaluateTruth(e.operand, fuel);
        out := if truth.Done? then Done(VBoolean(!truth.value)) else truth.Propagate();
      } else if e.unaryFact.None? {
        out := Fails(MissingOperation);
      } else if IsLeastInteger(e.operand, e.unaryFact.value) {
        out := Done(VInteger(MIN_INT));
      } else if IsLeastLong(e.operand, e.unaryFact.value) {
        out := Done(VLong(MIN_LONG));
      } else {
        hide Eval;
        SignEval(env, e, Now(), fuel);
        out := Evaluate(e.operand, fuel);
        if out.Done? {
          out := ApplyUnary(e.unaryFact.value, out.value);
        }
      }
    }

    method EvaluateLazy(e: Expr, fuel: nat) returns (out: Outcome<Value>)
      requires e.Binary? && (e.binaryOp.And? || e.binaryOp.Or?)
      modifies this
      ensures Res(out, Now()) == Eval(env, e, old(Now()), fuel)
      decreases fuel, e, 1
    {
      hide Eval, EvalBoolean;
      LazyEval(env, e, Now(), fuel);
      var left := EvaluateTruth(e.left, fuel);
      if !left.Done? {
        return left.Propagate();
      }
      if left.value == e.binaryOp.Or? {
        return Done(VBoolean(left.value));
      }
      var right := EvaluateTruth(e.right, fuel);
      out := if right.Done? then Done(VBoolean(right.value)) else right.Propagate();
    }

    method EvaluateStrict(e: Expr, fuel: nat) returns (out: Outcome<Value>)
      requires e.Binary? && !e.binaryOp.And? && !e.binaryOp.Or?
      modifies this
      ensures Res(out, Now()) == Eval(env, e, old(Now()), fuel)
      decreases fuel, e, 1
    {
      hide Eval;
      StrictEval(env, e, Now(), fuel);
      var left := Evaluate(e.left, fuel);
      if !left.Done? {
        return left;
      }
      var right := Evaluate(e.right, fuel);
      if !right.Done? {
        return right;
      }
      out := Combine(env, lists, e.binaryOp, e.fact, left.value, right.value);
    }

    // -------------------------------------------------------------- places

    method Resolve(target: Target, fuel: nat) returns (out: Outcome<Place>)
      modifies this
      ensures Res(out, Now()) == ResolvePlace(env, target, old(Now()), fuel)
      decreases fuel, target
    {
      match target
      case VarTarget(name) => out := Done(LocalPlace(name));
      case IndexTarget(list, index) =>
        hide Eval;
        IndexTargetEval(env, target, Now(), fuel);
        var l := Evaluate(list, fuel);
        if !l.Done? {
          return l.Propagate();
        }
        var i := Evaluate(index, fuel);
        if !i.Done? {
          return i.Propagate();
        }
        var position := ListPosition(lists, l.value, i.value, true);
        out := if position.Done? then Done(ListPlace(position.value.0, position.value.1)) else position.Propagate();
    }

    method EvaluateAssignment(e: Expr, fuel: nat) returns (out: Outcome<Value>)
      requires e.Assignment?
      modifies this
      ensures Res(out, Now()) == Eval(env, e, old(Now()), fuel)
      decreases fuel, e, 1
    {
      hide Eval, ResolvePlace, ReadPlace, WritePlace, ApplyBinary;
      DelegatedEval(env, e, Now(), fuel);
      var place := Resolve(e.target, fuel);
      if !place.Done? {
        return place.Propagate();
      }
      if e.op.Assign? {
        var value := Evaluate(e.value, fuel);
        if !value.Done? {
          return value;
        }
        out := Write(place.value, value.value);
        return;
      }
      var left := Read(place.value);
      if !left.Done? {
        return left;
      }
      var right := Evaluate(e.value, fuel);
      if !right.Done? {
        return right;
      }
      if e.fact.None? {
        return Fails(MissingOperation);
      }
      var result := ApplyBinary(env.host, lists, e.fact.value, left.value, right.value);
      if !result.Done? {
        return result;
      }
      out := Write(place.value, result.value);
    }

    method EvaluateMutation(e: Expr, fuel: nat) returns (out: Outcome<Value>)
      requires e.Mutation?
      modifies this
      ensures Res(out, Now()) == Eval(env, e, old(Now()), fuel)
      decreases fuel, e, 1
    {
      hide Eval, ResolvePlace, ReadPlace, WritePlace, Increment;
      DelegatedEval(env, e, Now(), fuel);
      var place := Resolve(e.target, fuel);
      if !place.Done? {
        return place.Propagate();
      }
      var before := Read(place.value);
      if !before.Done? {
        return before;
      }
      var kind := MutationKind(before.value);
      if !kind.Done? {
        return kind.Propagate();
      }
      var after := Increment(kind.value, before.value, e.delta);
      if !after.Done? {
        return after;
      }
      var written := Write(place.value, after.value);
      if !written.Done? {
        return written;
      }
      out := Done(if e.returnOld then before.value else after.value);
    }

    // -------------------------------------------------------------- calls

    /** Fresh scopes and a call-stack entry around the body, taken away again however it ends. */
    method ExecuteCallable(m: Method, arguments: seq<Value>, fuel: nat) returns (out: Outcome<Value>)
      modifies this
      ensures Res(out, Now()) == Invoke(env, m, arguments, old(Now()), fuel)
      decreases fuel, m, 5
    {
      hide Exec;
      var scope := BindArguments(m.parameters, arguments);
      var saved := scopes;
      scopes := [scope];
      calls := calls + [m.name];
      var flow := Execute(m.body, fuel);
      if flow.Raise? {
        flow := Raise(AttachStack(flow.exception, calls));
      }
      calls := PopCall(calls);
      scopes := saved;
      out := CallResult(m.returnType, flow);
    }

    /** The parameters paired with the arguments, later ones overwriting earlier ones. */
    static method BindArguments(parameters: seq<Parameter>, arguments: seq<Value>) returns (scope: Scope)
      ensures scope == ParameterScope(parameters, arguments)
    {
      var n := Shorter(|parameters|, |arguments|);
      scope := map[];
      var i := 0;
      while i < n
        invariant 0 <= i <= n
        invariant scope == ParameterScope(parameters[..i], arguments[..i])
      {
        assert parameters[..i + 1][..i] == parameters[..i] && arguments[..i + 1][..i] == arguments[..i];
        scope := scope[parameters[i].name := Slot(parameters[i].ty, TypedValue(arguments[i], parameters[i].ty))];
        i := i + 1;
      }
      ScopeOfPrefix(parameters, arguments);
    }

    // -------------------------------------------------------------- statements

    method Execute(s: Stmt, fuel: nat) returns (out: Outcome<Flow>)
      modifies this
      ensures Res(out, Now()) == Exec(env, s, old(Now()), fuel)
      decreases fuel, s, 4
    {
      hide Exec;
      DelegatedExec(env, s, Now(), fuel);
      LeafExec(env, s, Now(), fuel);
      match s
      case LocalDeclaration(ty, declarators) => out := ExecuteDeclaration(ty, declarators, fuel);
      case Sequence(statements) => out := ExecuteEach(statements, fuel);
      case ExprStmt(_) => out := ExecuteExpression(s, fuel);
      case Block(_) => out := ExecuteBlock(s, fuel);
      case If(_, _, _) => out := ExecuteIf(s, fuel);
      case While(_, _) => out := ExecuteWhile(s, fuel);
      case DoWhile(_, _) => out := ExecuteDoWhile(s, fuel);
      case For(_, _, _, _) => out := ExecuteFor(s, fuel);
      case ForEach(_, _, _, _) => out := ExecuteForEach(s, fuel);
      case Break => out := Done(Breaking);
      case Continue => out := Done(Continuing);
      case Return(None) => out := Done(Returning(None));
      case Return(Some(_)) => out := ExecuteReturn(s, fuel);
      case Try(_, _, _) => out := ExecuteTry(s, fuel);
      case Throw(_) => out := ExecuteThrow(s, fuel);
    }

    method ExecuteExpression(s: Stmt, fuel: nat) returns (out: Outcome<Flow>)
      requires s.ExprStmt?
      modifies this
      ensures Res(out, Now()) == Exec(env, s, old(Now()), fuel)
      decreases fuel, s, 3
    {
      hide Exec, Eval;
      ExprStmtExec(env, s, Now(), fuel);
      var r := Evaluate(s.expression, fuel);
      out := if r.Done? then Done(Normal) else r.Propagate();
    }

    method ExecuteReturn(s: Stmt, fuel: nat) returns (out: Outcome<Flow>)
      requires s.Return? && s.result.Some?
      modifies this
      ensures Res(out, Now()) == Exec(env, s, old(Now()), fuel)
      decreases fuel, s, 3
    {
      hide Exec, Eval;
      ReturnExec(env, s, Now(), fuel);
      var r := Evaluate(s.result.value, fuel);
      out := if r.Done? then Done(Returning(Some(r.value))) else r.Propagate();
    }

    method ExecuteThrow(s: Stmt, fuel: nat) returns (out: Outcome<Flow>)
      requires s.Throw?
      modifies this
      ensures Res(out, Now()) == Exec(env, s, old(Now()), fuel)
      decreases fuel, s, 3
    {
      hide Exec, Eval;
      ThrowExec(env, s, Now(), fuel);
      var r := Evaluate(s.exception, fuel);
      out := if r.Done? then ThrowValue(r.value) else r.Propagate();
    }

    method ExecuteDeclaration(ty: Type, declarators: seq<Declarator>, fuel: nat) returns (out: Outcome<Flow>)
      modifies this
      ensures Res(out, Now()) == Declare(env, ty, declarators, old(Now()), fuel)
      decreases fuel, declarators
    {
      hide Eval;
      var i := 0;
      assert declarators[0..] == declarators;
      while i < |declarators|
        invariant 0 <= i <= |declarators|
        invariant Declare(env, ty, declarators, old(Now()), fuel) == Declare(env, ty, declarators[i..], Now(), fuel)
      {
        DeclareUnfolds(env, ty, declarators[i..], Now(), fuel);
        var d := declarators[i];
        var r: Outcome<Value> := Done(VNull(Some(ty)));
        if d.initializer.Some? {
          r := Evaluate(d.initializer.value, fuel);
        }
        if !r.Done? {
          return r.Propagate();
        }
        if scopes != [] {
          scopes := Bind(scopes, d.name, Slot(ty, TypedValue(r.value, ty)));
        }
        i := i + 1;
        assert declarators[i - 1..][1..] == declarators[i..];
      }
      out := Done(Normal);
    }

    /** Statements in order, up to the first that does not complete normally. */
    method ExecuteEach(ss: seq<Stmt>, fuel: nat) returns (out: Outcome<Flow>)
      modifies this
      ensures Res(out, Now()) == ExecAll(env, ss, old(Now()), fuel)
      decreases fuel, ss
    {
      hide Exec;
      var i := 0;
      assert ss[0..] == ss;
      while i < |ss|
        invariant 0 <= i <= |ss|
        invariant ExecAll(env, ss, old(Now()), fuel) == ExecAll(env, ss[i..], Now(), fuel)
      {
        ExecAllUnfolds(env, ss[i..], Now(), fuel);
        out := Execute(ss[i], fuel);
        if out != Done(Normal) {
          return;
        }
        i := i + 1;
        assert ss[i - 1..][1..] == ss[i..];
      }
      out := Done(Normal);
    }

    method ExecuteBlock(s: Stmt, fuel: nat) returns (out: Outcome<Flow>)
      requires s.Block?
      modifies this
      ensures Res(out, Now()) == Exec(env, s, old(Now()), fuel)
      decreases fuel, s, 3
    {
      hide Exec, ExecAll;
      BlockExec(env, s, Now(), fuel);
      scopes := scopes + [map[]];
      out := ExecuteEach(s.statements, fuel);
      DropScope();
    }

    method DropScope()
      modifies this`scopes
      ensures Now() == PopScope(old(Now()))
    {
      if scopes != [] {
        scopes := scopes[..|scopes| - 1];
      }
    }

    method ExecuteIf(s: Stmt, fuel: nat) returns (out: Outcome<Flow>)
      requires s.If?
      modifies this
      ensures Res(out, Now()) == Exec(env, s, old(Now()), fuel)
      decreases fuel, s, 3
    {
      hide Exec, EvalBoolean;
      IfExec(env, s, Now(), fuel);
      var condition := EvaluateTruth(s.condition, fuel);
      if !condition.Done? {
        return condition.Propagate();
      }
      if condition.value {
        out := Execute(s.thenBranch, fuel);
      } else if s.elseBranch.Some? {
        out := Execute(s.elseBranch.value, fuel);
      } else {
        out := Done(Normal);
      }
    }

    method ExecuteWhile(s: Stmt, fuel: nat) returns (out: Outcome<Flow>)
      requires s.While?
      modifies this
      ensures Res(out, Now()) == ExecWhile(env, s, old(Now()), fuel)
      decreases fuel, s, 3
    {
      hide Exec, EvalBoolean;
      var left: nat := fuel;
      while true
        invariant 0 <= left <= fuel
        invariant ExecWhile(env, s, old(Now()), fuel) == ExecWhile(env, s, Now(), left)
        decreases left
      {
        var condition := EvaluateTruth(s.condition, left);
        if !condition.Done? {
          return condition.Propagate();
        }
        if !condition.value {
          break;
        }
        out := Execute(s.body, left);
        match out {
          case Done(Normal) =>
          case Done(Continuing) =>
          case Done(Breaking) => return Done(Normal);
          case _ => return;
        }
        if left == 0 {
          return OutOfFuel;
        }
        left := left - 1;
      }
      out := Done(Normal);
    }

    method ExecuteDoWhile(s: Stmt, fuel: nat) returns (out: Outcome<Flow>)
      requires s.DoWhile?
      modifies this
      ensures Res(out, Now()) == ExecDoWhile(env, s, old(Now()), fuel)
      decreases fuel, s, 3
    {
      hide Exec, EvalBoolean;
      var left: nat := fuel;
      while true
        invariant 0 <= left <= fuel
        invariant ExecDoWhile(env, s, old(Now()), fuel) == ExecDoWhile(env, s, Now(), left)
        decreases left
      {
        out := Execute(s.body, left);
        match out {
          case Done(Normal) =>
          case Done(Continuing) =>
          case Done(Breaking) => return Done(Normal);
          case _ => return;
        }
        var condition := EvaluateTruth(s.condition, left);
        if !condition.Done? {
          return condition.Propagate();
        }
        if !condition.value {
          break;
        }
        if left == 0 {
          return OutOfFuel;
        }
        left := left - 1;
      }
      out := Done(Normal);
    }

    method ExecuteFor(s: Stmt, fuel: nat) returns (out: Outcome<Flow>)
      requires s.For?
      modifies this
      ensures Res(out, Now()) == Exec(env, s, old(Now()), fuel)
      decreases fuel, s, 3
    {
      hide Exec, ExecFor;
      ForExec(env, s, Now(), fuel);
      scopes := scopes + [map[]];
      out := Done(Normal);
      if s.initializer.Some? {
        out := Execute(s.initializer.value, fuel);
      }
      if out == Done(Normal) {
        out := ExecuteForLoop(s, fuel);
      }
      DropScope();
    }

    method ExecuteForLoop(s: Stmt, fuel: nat) returns (out: Outcome<Flow>)
      requires s.For?
      modifies this
      ensures Res(out, Now()) == ExecFor(env, s, old(Now()), fuel)
      decreases fuel, s, 2
    {
      hide Exec, EvalBoolean;
      var left: nat := fuel;
      while true
        invariant 0 <= left <= fuel
        invariant ExecFor(env, s, old(Now()), fuel) == ExecFor(env, s, Now(), left)
        decreases left
      {
        if s.forCondition.Some? {
          var condition := EvaluateTruth(s.forCondition.value, left);
          if !condition.Done? {
            return condition.Propagate();
          }
          if !condition.value {
            break;
          }
        }
        out := Execute(s.body, left);
        match out {
          case Done(Normal) =>
          case Done(Continuing) =>
          case Done(Breaking) => return Done(Normal);
          case _ => return;
        }
        if s.update.Some? {
          out := Execute(s.update.value, left);
          if out != Done(Normal) {
            return;
          }
        }
        if left == 0 {
          return OutOfFuel;
        }
        left := left - 1;
      }
      out := Done(Normal);
    }

    /** Counts the list as under iteration while the loop over a snapshot of its elements runs. */
    method ExecuteForEach(s: Stmt, fuel: nat) returns (out: Outcome<Flow>)
      requires s.ForEach?
      modifies this
      ensures Res(out, Now()) == Exec(env, s, old(Now()), fuel)
      decreases fuel, s, 3
    {
      hide Exec, Eval, ExecForEach;
      ForEachExec(env, s, Now(), fuel);
      var iterable := Evaluate(s.iterable, fuel);
      if !iterable.Done? {
        return iterable.Propagate();
      }
      var id := AsCollection(iterable.value);
      if !id.Done? {
        return id.Propagate();
      }
      if id.value >= |lists| {
        return Panic;
      }
      var elements := lists[id.value].elements;
      lists := ChangeDepth(lists, id.value, lists[id.value].iterationDepth + 1);
      scopes := scopes + [map[]];
      out := ExecuteIterations(s, elements, fuel);
      DropScope();
      if id.value < |lists| && lists[id.value].iterationDepth > 0 {
        lists := ChangeDepth(lists, id.value, lists[id.value].iterationDepth - 1);
      }
    }

    method ExecuteIterations(s: Stmt, elements: seq<Value>, fuel: nat) returns (out: Outcome<Flow>)
      requires s.ForEach?
      modifies this
      ensures Res(out, Now()) == ExecForEach(env, s, elements, old(Now()), fuel)
      decreases fuel, s, 2
    {
      hide Exec;
      var i := 0;
      assert elements[0..] == elements;
      while i < |elements|
        invariant 0 <= i <= |elements|
        invariant ExecForEach(env, s, elements, old(Now()), fuel) == ExecForEach(env, s, elements[i..], Now(), fuel)
      {
        assert elements[i..][1..] == elements[i + 1..];
        if scopes != [] {
          scopes := Bind(scopes, s.name, Slot(s.ty, TypedValue(elements[i], s.ty)));
        }
        out := Execute(s.body, fuel);
        match out {
          case Done(Normal) =>
          case Done(Continuing) =>
          case Done(Breaking) => return Done(Normal);
          case _ => return;
        }
        i := i + 1;
      }
      out := Done(Normal);
    }

    method ExecuteTry(s: Stmt, fuel: nat) returns (out: Outcome<Flow>)
      requires s.Try?
      modifies this
      ensures Res(out, Now()) == ExecTry(env, s, old(Now()), fuel)
      decreases fuel, s, 3
    {
      hide Exec, Handle;
      out := Execute(s.tryBlock, fuel);
      if out.Raise? {
        out := ExecuteHandler(s, AttachStack(out.exception, calls), fuel);
      }
      if s.finallyBlock.Some? && !out.Panic? && !out.OutOfFuel? {
        var last := Execute(s.finallyBlock.value, fuel);
        if last != Done(Normal) {
          out := last;
        }
      }
    }

    method ExecuteHandler(s: Stmt, exception: Exn, fuel: nat) returns (out: Outcome<Flow>)
      requires s.Try?
      modifies this
      ensures Res(out, Now()) == Handle(env, s, exception, old(Now()), fuel)
      decreases fuel, s, 2
    {
      hide Exec, Matches;
      var i := 0;
      while i < |s.catches| && !Matches(env.program.classes, exception, s.catches[i].ty)
        invariant 0 <= i <= |s.catches|
        invariant forall j :: 0 <= j < i ==> !Matches(env.program.classes, exception, s.catches[j].ty)
      {
        i := i + 1;
      }
      assert i == FindCatch(env.program.classes, exception, s.catches);
      if i == |s.catches| {
        return Raise(exception);
      }
      var clause := s.catches[i];
      scopes := scopes + [map[clause.name := Slot(clause.ty, VException(exception))]];
      out := Execute(clause.body, fuel);
      DropScope();
    }

    // -------------------------------------------------------------- programs

    /** Runs the statements of a program from the start; a top-level `return` ends it. */
    method ExecuteAnonymous(program: Env, fuel: nat) returns (out: Outcome<()>)
      requires Now() == INITIAL && env == Library(program)
      modifies this
      ensures Res(out, Now()) == Run(program, fuel)
    {
      var flow := ExecuteEach(program.program.statements, fuel);
      out := EntryOutcome(flow);
    }
  }

  lemma StoreOutward(scopes: seq<Scope>, i: nat, name: Name, value: Value)
    requires 0 < i <= |scopes| && name !in scopes[i - 1] && Lookup(scopes[..i], name).Some?
    ensures i > 1 && Lookup(scopes[..i - 1], name).Some?
    ensures Store(scopes[..i], name, value) + scopes[i..] == Store(scopes[..i - 1], name, value) + scopes[i - 1..]
  {
    assert scopes[..i][..i - 1] == scopes[..i - 1];
  }

  lemma StoreHere(scopes: seq<Scope>, i: nat, name: Name, value: Value)
    requires 0 < i <= |scopes| && name in scopes[i - 1] && Lookup(scopes[..i], name).Some?
    ensures Store(scopes[..i], name, value) + scopes[i..] ==
              scopes[i - 1 := scopes[i - 1][name := Slot(scopes[i - 1][name].ty, value)]]
  {
  }

  /** Values already computed in front of the rest of an argument list. */
  function Prefixed(values: seq<Value>, rest: Res<seq<Value>>): Res<seq<Value>> {
    if rest.out.Done? then Res(Done(values + rest.out.value), rest.st) else rest
  }

  lemma PrefixedNone(rest: Res<seq<Value>>)
    ensures Prefixed([], rest) == rest
  {
    if rest.out.Done? {
      assert [] + rest.out.value == rest.out.value;
    }
  }

  lemma PrefixedOne(values: seq<Value>, value: Value, rest: Res<seq<Value>>)
    ensures Prefixed(values, Prefixed([value], rest)) == Prefixed(values + [value], rest)
  {
    if rest.out.Done? {
      assert values + ([value] + rest.out.value) == (values + [value]) + rest.out.value;
    }
  }

  /** Assignments and mutations evaluate by their own functions. */
  lemma DelegatedEval(env: Env, e: Expr, st: State, fuel: nat)
    ensures e.Assignment? ==> Eval(env, e, st, fuel) == EvalAssignment(env, e, st, fuel)
    ensures e.Mutation? ==> Eval(env, e, st, fuel) == EvalMutation(env, e, st, fuel)
  {
  }

  function Shorter(a: nat, b: nat): nat {
    if a < b then a else b
  }

  lemma LastParameter(parameters: seq<Parameter>, arguments: seq<Value>)
    requires Shorter(|parameters|, |arguments|) > 0
    ensures var last := Shorter(|parameters|, |arguments|) - 1;
            ParameterScope(parameters, arguments) ==
              ParameterScope(parameters[..last], arguments[..last])
                [parameters[last].name := Slot(parameters[last].ty, TypedValue(arguments[last], parameters[last].ty))]
  {
    hide TypedValue;
  }

  /** Parameters without arguments and arguments without parameters are not bound. */
  lemma ScopeOfPrefix(parameters: seq<Parameter>, arguments: seq<Value>)
    ensures var n := Shorter(|parameters|, |arguments|);
            ParameterScope(parameters, arguments) == ParameterScope(parameters[..n], arguments[..n])
  {
    hide ParameterScope, TypedValue;
    var n := Shorter(|parameters|, |arguments|);
    if n > 0 {
      LastParameter(parameters, arguments);
      LastParameter(parameters[..n], arguments[..n]);
      assert parameters[..n][..n - 1] == parameters[..n - 1] && arguments[..n][..n - 1] == arguments[..n - 1];
      assert parameters[..n][n - 1] == parameters[n - 1] && arguments[..n][n - 1] == arguments[n - 1];
    } else {
      NoParameter(parameters, arguments);
      NoParameter(parameters[..n], arguments[..n]);
    }
  }

  lemma NoParameter(parameters: seq<Parameter>, arguments: seq<Value>)
    requires Shorter(|parameters|, |arguments|) == 0
    ensures ParameterScope(parameters, arguments) == map[]
  {
  }
}
