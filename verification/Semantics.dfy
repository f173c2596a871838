/** What the interpreter computes, as functions from state to outcome and state. `fuel` bounds the
    nesting of calls plus the number of loop iterations on any path; everything else is structural. */
module Semantics {
  import opened Wrappers
  import opened Syntax
  import opened Values

  function Pure<T>(out: Outcome<T>, st: State): Res<T> {
    Res(out, st)
  }

  // ---------------------------------------------------------------- expressions

  function Eval(env: Env, e: Expr, st: State, fuel: nat): Res<Value>
    decreases fuel, e, 0
  {
    match e
    case StringLit(text) => Pure(Done(VString(text)), st)
    case BoolLit(truth) => Pure(Done(VBoolean(truth)), st)
    case IntLit(number) => Pure(Done(VInteger(number)), st)
    case LongLit(number) =>
      if MIN_LONG <= number <= MAX_LONG then Pure(Done(VLong(number)), st) else Pure(Fails(LiteralOutOfRange), st)
    case NullLit => Pure(Done(VNull(None)), st)
    case Var(name) => Pure(ReadPlace(st, LocalPlace(name)), st)
    case Assignment(target, op, value, fact) => EvalAssignment(env, e, st, fuel)
    case Mutation(target, delta, returnOld) => EvalMutation(env, e, st, fuel)
    case NewList(element, elements) =>
      var r := EvalAll(env, elements, st, fuel);
      if r.out.Done? then Allocate(r.st, element, r.out.value) else Res(r.out.Propagate(), r.st)
    case NewException(ty, message) =>
      if message.None? then
        Pure(Done(VException(Exn(ty, "", None, []))), st)
      else
        var r := Eval(env, message.value, st, fuel);
        if r.out.Done? then Pure(ExceptionValue(ty, r.out.value), r.st) else r
    case Index(list, index) =>
      var l := Eval(env, list, st, fuel);
      if !l.out.Done? then l
      else
        var i := Eval(env, index, l.st, fuel);
        if !i.out.Done? then i
        else Pure(ReadElement(i.st.lists, l.out.value, i.out.value), i.st)
    case Call(name, arguments, callee) =>
      if callee.None? then Pure(Fails(UnresolvedCall), st)
      else
        var r := EvalAll(env, arguments, st, fuel);
        if !r.out.Done? then Res(r.out.Propagate(), r.st)
        else if callee.value >= |env.program.methods| then Pure(Fails(MissingMethod), r.st)
        else if fuel == 0 then Pure(OutOfFuel, r.st)
        else Invoke(env, env.program.methods[callee.value], r.out.value, r.st, fuel - 1)
    case ListCall(receiver, method_, arguments) =>
      var l := Eval(env, receiver, st, fuel);
      if !l.out.Done? then l
      else
        var r := EvalAll(env, arguments, l.st, fuel);
        if !r.out.Done? then Res(r.out.Propagate(), r.st)
        else CallListMethod(r.st, l.out.value, method_, r.out.value)
    case Debug(argument) =>
      var r := Eval(env, argument, st, fuel);
      if r.out.Done? then DebugLine(env.host, r.st, r.out.value) else r
    case Cast(ty, operand) =>
      var r := Eval(env, operand, st, fuel);
      if r.out.Done? then Pure(CastValue(env.program.classes, r.st.lists, r.out.value, ty), r.st) else r
    case Conditional(condition, whenTrue, whenFalse) =>
      var c := EvalBoolean(env, condition, st, fuel);
      if !c.out.Done? then Res(c.out.Propagate(), c.st)
      else if c.out.value then Eval(env, whenTrue, c.st, fuel)
      else Eval(env, whenFalse, c.st, fuel)
    case NullCoalesce(left, right) =>
      var l := Eval(env, left, st, fuel);
      if l.out.Done? && l.out.value.VNull? then Eval(env, right, l.st, fuel) else l
    case Unary(op, operand, fact) =>
      if op.Not? then
        var c := EvalBoolean(env, operand, st, fuel);
        if c.out.Done? then Pure(Done(VBoolean(!c.out.value)), c.st) else Res(c.out.Propagate(), c.st)
      else if fact.None? then Pure(Fails(MissingOperation), st)
      else if IsLeastInteger(operand, fact.value) then Pure(Done(VInteger(MIN_INT)), st)
      else if IsLeastLong(operand, fact.value) then Pure(Done(VLong(MIN_LONG)), st)
      else
        var r := Eval(env, operand, st, fuel);
        if r.out.Done? then Pure(ApplyUnary(fact.value, r.out.value), r.st) else r
    case Binary(left, op, right, fact) =>
      if op.And? || op.Or? then
        var l := EvalBoolean(env, left, st, fuel);
        if !l.out.Done? then Res(l.out.Propagate(), l.st)
        else if l.out.value == op.Or? then Pure(Done(VBoolean(l.out.value)), l.st)
        else
          var r := EvalBoolean(env, right, l.st, fuel);
          if r.out.Done? then Pure(Done(VBoolean(r.out.value)), r.st) else Res(r.out.Propagate(), r.st)
      else
        var l := Eval(env, left, st, fuel);
        if !l.out.Done? then l
        else
          var r := Eval(env, right, l.st, fuel);
          if !r.out.Done? then r
          else Pure(Combine(env, r.st.lists, op, fact, l.out.value, r.out.value), r.st)
  }

  /** `-2147483648` and its Long counterpart: the literal alone would be out of range. */
  predicate IsLeastInteger(operand: Expr, fact: UnaryFact) {
    fact == NegateOf(IntegerKind) && operand == IntLit(MAX_INT + 1)
  }

  predicate IsLeastLong(operand: Expr, fact: UnaryFact) {
    fact == NegateOf(LongKind) && operand == LongLit(MAX_LONG + 1)
  }

  function ExceptionValue(ty: Type, message: Value): Outcome<Value> {
    match message
    case VString(text) => Done(VException(Exn(ty, text, None, [])))
    case VNull(_) => Done(VException(Exn(ty, "", None, [])))
    case _ => if ty.TCustom? then Escaped(WrongOperands) else Fails(InvalidMessage)
  }

  function ReadElement(lists: Lists, list: Value, index: Value): Outcome<Value> {
    var position := ListPosition(lists, list, index, false);
    if !position.Done? then position.Propagate()
    else if position.value.0 < |lists| && position.value.1 < |lists[position.value.0].elements| then
      Done(lists[position.value.0].elements[position.value.1])
    else
      Panic
  }

  function DebugLine(host: Host, st: State, value: Value): Res<Value> {
    if value.VVoid? then Res(Fails(DebugOfVoid), st)
    else Res(Done(VVoid), st.(output := st.output + [host.render(value, st.lists)]))
  }

  function EvalBoolean(env: Env, e: Expr, st: State, fuel: nat): Res<bool>
    decreases fuel, e, 1
  {
    var r := Eval(env, e, st, fuel);
    if r.out.Done? then Res(AsBoolean(r.out.value), r.st) else Res(r.out.Propagate(), r.st)
  }

  /** Arguments and initializer elements, left to right. */
  function EvalAll(env: Env, es: seq<Expr>, st: State, fuel: nat): (r: Res<seq<Value>>)
    ensures r.out.Done? ==> |r.out.value| == |es|
    decreases fuel, es, 0
  {
    if es == [] then Pure(Done([]), st)
    else
      var first := Eval(env, es[0], st, fuel);
      if !first.out.Done? then Res(first.out.Propagate(), first.st)
      else
        var rest := EvalAll(env, es[1..], first.st, fuel);
        if rest.out.Done? then Res(Done([first.out.value] + rest.out.value), rest.st) else rest
  }

  function ResolvePlace(env: Env, target: Target, st: State, fuel: nat): Res<Place>
    decreases fuel, target, 0
  {
    match target
    case VarTarget(name) => Pure(Done(LocalPlace(name)), st)
    case IndexTarget(list, index) =>
      var l := Eval(env, list, st, fuel);
      if !l.out.Done? then Res(l.out.Propagate(), l.st)
      else
        var i := Eval(env, index, l.st, fuel);
        if !i.out.Done? then Res(i.out.Propagate(), i.st)
        else
          var position := ListPosition(i.st.lists, l.out.value, i.out.value, true);
          if position.Done? then Res(Done(ListPlace(position.value.0, position.value.1)), i.st)
          else Res(position.Propagate(), i.st)
  }

  function EvalAssignment(env: Env, e: Expr, st: State, fuel: nat): Res<Value>
    requires e.Assignment?
    decreases fuel, e, -1
  {
    var place := ResolvePlace(env, e.target, st, fuel);
    if !place.out.Done? then Res(place.out.Propagate(), place.st)
    else if e.op.Assign? then
      var value := Eval(env, e.value, place.st, fuel);
      if value.out.Done? then WritePlace(value.st, place.out.value, value.out.value) else value
    else
      var left := ReadPlace(place.st, place.out.value);
      if !left.Done? then Res(left, place.st)
      else
        var right := Eval(env, e.value, place.st, fuel);
        if !right.out.Done? then right
        else if e.fact.None? then Res(Fails(MissingOperation), right.st)
        else
          var result := ApplyBinary(env.host, right.st.lists, e.fact.value, left.value, right.out.value);
          if result.Done? then WritePlace(right.st, place.out.value, result.value) else Res(result, right.st)
  }

  function EvalMutation(env: Env, e: Expr, st: State, fuel: nat): Res<Value>
    requires e.Mutation?
    decreases fuel, e, -1
  {
    var place := ResolvePlace(env, e.target, st, fuel);
    if !place.out.Done? then Res(place.out.Propagate(), place.st)
    else MutatePlace(place.st, place.out.value, e.delta, e.returnOld)
  }

  function MutatePlace(st: State, place: Place, delta: int, returnOld: bool): Res<Value> {
    var old_ := ReadPlace(st, place);
    if !old_.Done? then Res(old_, st)
    else
      var kind := MutationKind(old_.value);
      if !kind.Done? then Res(kind.Propagate(), st)
      else
        var new_ := Increment(kind.value, old_.value, delta);
        if !new_.Done? then Res(new_, st)
        else
          var written := WritePlace(st, place, new_.value);
          if !written.out.Done? then written
          else Res(Done(if returnOld then old_.value else new_.value), written.st)
  }

  /** A method call on evaluated arguments: fresh scopes and a call-stack entry around the body. */
  function Invoke(env: Env, m: Method, arguments: seq<Value>, st: State, fuel: nat): Res<Value>
    decreases fuel, m, 3
  {
    var inner := st.(scopes := [ParameterScope(m.parameters, arguments)], calls := st.calls + [m.name]);
    var body := Exec(env, m.body, inner, fuel);
    var out := if body.out.Raise? then Raise(AttachStack(body.out.exception, body.st.calls)) else body.out;
    Res(CallResult(m.returnType, out), body.st.(scopes := st.scopes, calls := PopCall(body.st.calls)))
  }

  function PopCall(calls: seq<Name>): seq<Name> {
    if calls == [] then [] else calls[..|calls| - 1]
  }

  // ---------------------------------------------------------------- statements

  function PushScope(st: State, scope: Scope): State {
    st.(scopes := st.scopes + [scope])
  }

  function PopScope(st: State): State {
    if st.scopes == [] then st else st.(scopes := st.scopes[..|st.scopes| - 1])
  }

  function BindLocal(st: State, name: Name, ty: Type, value: Value): State {
    if st.scopes == [] then st else st.(scopes := Bind(st.scopes, name, Slot(ty, value)))
  }

  function Exec(env: Env, s: Stmt, st: State, fuel: nat): Res<Flow>
    decreases fuel, s, 2
  {
    match s
    case LocalDeclaration(ty, declarators) => Declare(env, ty, declarators, st, fuel)
    case Sequence(statements) => ExecAll(env, statements, st, fuel)
    case ExprStmt(expression) =>
      var r := Eval(env, expression, st, fuel);
      if r.out.Done? then Res(Done(Normal), r.st) else Res(r.out.Propagate(), r.st)
    case Block(statements) =>
      var r := ExecAll(env, statements, PushScope(st, map[]), fuel);
      Res(r.out, PopScope(r.st))
    case If(condition, thenBranch, elseBranch) =>
      var c := EvalBoolean(env, condition, st, fuel);
      if !c.out.Done? then Res(c.out.Propagate(), c.st)
      else if c.out.value then Exec(env, thenBranch, c.st, fuel)
      else if elseBranch.Some? then Exec(env, elseBranch.value, c.st, fuel)
      else Res(Done(Normal), c.st)
    case While(_, _) => ExecWhile(env, s, st, fuel)
    case DoWhile(_, _) => ExecDoWhile(env, s, st, fuel)
    case For(initializer, _, _, _) =>
      var outer := PushScope(st, map[]);
      var i := if initializer.Some? then Exec(env, initializer.value, outer, fuel) else Res(Done(Normal), outer);
      var r := if i.out == Done(Normal) then ExecFor(env, s, i.st, fuel) else i;
      Res(r.out, PopScope(r.st))
    case ForEach(ty, name, iterable, body) =>
      var r := Eval(env, iterable, st, fuel);
      if !r.out.Done? then Res(r.out.Propagate(), r.st)
      else
        var id := AsCollection(r.out.value);
        if !id.Done? then Res(id.Propagate(), r.st)
        else if id.value >= |r.st.lists| then Res(Panic, r.st)
        else
          var entered := EnterIteration(r.st, id.value);
          var loop := ExecForEach(env, s, r.st.lists[id.value].elements, entered, fuel);
          Res(loop.out, LeaveIteration(loop.st, id.value))
    case Break => Res(Done(Breaking), st)
    case Continue => Res(Done(Continuing), st)
    case Return(result) =>
      if result.None? then Res(Done(Returning(None)), st)
      else
        var r := Eval(env, result.value, st, fuel);
        if r.out.Done? then Res(Done(Returning(Some(r.out.value))), r.st) else Res(r.out.Propagate(), r.st)
    case Try(_, _, _) => ExecTry(env, s, st, fuel)
    case Throw(exception) =>
      var r := Eval(env, exception, st, fuel);
      if r.out.Done? then Res(ThrowValue(r.out.value), r.st) else Res(r.out.Propagate(), r.st)
  }

  function ThrowValue(value: Value): Outcome<Flow> {
    match value
    case VException(exception) => Raise(exception)
    case VNull(_) => Raised(NullPointer)
    case _ => Fails(NonExceptionThrow)
  }

  function EnterIteration(st: State, id: nat): State
    requires id < |st.lists|
  {
    PushScope(st.(lists := ChangeDepth(st.lists, id, st.lists[id].iterationDepth + 1)), map[])
  }

  function LeaveIteration(st: State, id: nat): State {
    var popped := PopScope(st);
    if id < |popped.lists| && popped.lists[id].iterationDepth > 0 then
      popped.(lists := ChangeDepth(popped.lists, id, popped.lists[id].iterationDepth - 1))
    else
      popped
  }

  /** A declaration statement: each declarator is initialized, converted and bound in turn. */
  function Declare(env: Env, ty: Type, declarators: seq<Declarator>, st: State, fuel: nat): Res<Flow>
    decreases fuel, declarators, 0
  {
    if declarators == [] then Res(Done(Normal), st)
    else
      var r := if declarators[0].initializer.Some? then Eval(env, declarators[0].initializer.value, st, fuel)
               else Res(Done(VNull(Some(ty))), st);
      if !r.out.Done? then Res(r.out.Propagate(), r.st)
      else Declare(env, ty, declarators[1..], BindLocal(r.st, declarators[0].name, ty, TypedValue(r.out.value, ty)), fuel)
  }

  /** Statements in order, up to the first that does not complete normally. */
  function ExecAll(env: Env, ss: seq<Stmt>, st: State, fuel: nat): Res<Flow>
    decreases fuel, ss, 0
  {
    if ss == [] then Res(Done(Normal), st)
    else
      var first := Exec(env, ss[0], st, fuel);
      if first.out == Done(Normal) then ExecAll(env, ss[1..], first.st, fuel) else first
  }

  /** Whether a loop goes on after its body ended in this way. */
  predicate Continues(body: Outcome<Flow>) {
    body == Done(Normal) || body == Done(Continuing)
  }

  /** How a loop ends when its body ends it in this way. */
  function LoopExit(body: Outcome<Flow>): Outcome<Flow> {
    if body == Done(Breaking) then Done(Normal) else body
  }

  function ExecWhile(env: Env, s: Stmt, st: State, fuel: nat): Res<Flow>
    requires s.While?
    decreases fuel, s, 0
  {
    var c := EvalBoolean(env, s.condition, st, fuel);
    if !c.out.Done? then Res(c.out.Propagate(), c.st)
    else if !c.out.value then Res(Done(Normal), c.st)
    else
      var b := Exec(env, s.body, c.st, fuel);
      if !Continues(b.out) then Res(LoopExit(b.out), b.st)
      else if fuel == 0 then Res(OutOfFuel, b.st)
      else ExecWhile(env, s, b.st, fuel - 1)
  }

  function ExecDoWhile(env: Env, s: Stmt, st: State, fuel: nat): Res<Flow>
    requires s.DoWhile?
    decreases fuel, s, 0
  {
    var b := Exec(env, s.body, st, fuel);
    if !Continues(b.out) then Res(LoopExit(b.out), b.st)
    else
      var c := EvalBoolean(env, s.condition, b.st, fuel);
      if !c.out.Done? then Res(c.out.Propagate(), c.st)
      else if !c.out.value then Res(Done(Normal), c.st)
      else if fuel == 0 then Res(OutOfFuel, c.st)
      else ExecDoWhile(env, s, c.st, fuel - 1)
  }

  /** The loop of a `for` statement, after its initializer. */
  function ExecFor(env: Env, s: Stmt, st: State, fuel: nat): Res<Flow>
    requires s.For?
    decreases fuel, s, 0
  {
    var c := if s.forCondition.Some? then EvalBoolean(env, s.forCondition.value, st, fuel) else Res(Done(true), st);
    if !c.out.Done? then Res(c.out.Propagate(), c.st)
    else if !c.out.value then Res(Done(Normal), c.st)
    else
      var b := Exec(env, s.body, c.st, fuel);
      if !Continues(b.out) then Res(LoopExit(b.out), b.st)
      else
        var u := if s.update.Some? then Exec(env, s.update.value, b.st, fuel) else Res(Done(Normal), b.st);
        if u.out != Done(Normal) then u
        else if fuel == 0 then Res(OutOfFuel, u.st)
        else ExecFor(env, s, u.st, fuel - 1)
  }

  /** The loop of an enhanced `for` over a snapshot of the list's elements. */
  function ExecForEach(env: Env, s: Stmt, elements: seq<Value>, st: State, fuel: nat): Res<Flow>
    requires s.ForEach?
    decreases fuel, s, 0, |elements|
  {
    if elements == [] then Res(Done(Normal), st)
    else
      var b := Exec(env, s.body, BindLocal(st, s.name, s.ty, TypedValue(elements[0], s.ty)), fuel);
      if Continues(b.out) then ExecForEach(env, s, elements[1..], b.st, fuel)
      else Res(LoopExit(b.out), b.st)
  }

  function ExecTry(env: Env, s: Stmt, st: State, fuel: nat): Res<Flow>
    requires s.Try?
    decreases fuel, s, 1
  {
    var t := Exec(env, s.tryBlock, st, fuel);
    var h := if t.out.Raise? then Handle(env, s, AttachStack(t.out.exception, t.st.calls), t.st, fuel) else t;
    if s.finallyBlock.None? || h.out.Panic? || h.out.OutOfFuel? then h
    else
      var f := Exec(env, s.finallyBlock.value, h.st, fuel);
      if f.out == Done(Normal) then Res(h.out, f.st) else f
  }

  /** The first matching `catch`, or the exception again. */
  function Handle(env: Env, s: Stmt, exception: Exn, st: State, fuel: nat): Res<Flow>
    requires s.Try?
    decreases fuel, s, 0
  {
    var i := FindCatch(env.program.classes, exception, s.catches);
    if i == |s.catches| then Res(Raise(exception), st)
    else
      var clause := s.catches[i];
      var r := Exec(env, clause.body, PushScope(st, map[clause.name := Slot(clause.ty, VException(exception))]), fuel);
      Res(r.out, PopScope(r.st))
  }

  // ---------------------------------------------------------------- programs

  const INITIAL := State([map[]], [], [], [])

  /** The outcome of anonymous execution: a top-level `return` ends it. */
  function EntryOutcome(out: Outcome<Flow>): Outcome<()> {
    match out
    case Done(Normal) => Done(())
    case Done(Returning(result)) => if result.None? then Done(()) else Fails(ValueReturnEscaped)
    case Done(Breaking) => Fails(BreakEscaped)
    case Done(Continuing) => Fails(ContinueEscaped)
    case _ => out.Propagate()
  }

  /** The classes and methods of a program, which is all that its statements consult. */
  function Library(env: Env): Env {
    env.(program := env.program.(statements := []))
  }

  function Run(env: Env, fuel: nat): Res<()> {
    var r := ExecAll(Library(env), env.program.statements, INITIAL, fuel);
    Res(EntryOutcome(r.out), r.st)
  }
}
