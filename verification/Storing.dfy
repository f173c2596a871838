/** What is stored. */
module Storing {
  // What expressions with effects do to variables, lists and output, slot by slot and element by element,
  // in terms of what their operands evaluate to.

  import opened Wrappers
  import opened Syntax
  import opened Values
  import opened Semantics
  import opened ExprRules
  import opened Numbers
  import opened Evaluation

  // ---------------------------------------------------------------- variables

  /** Scope `i` is the innermost that has the name. */
  predicate BoundAt(scopes: seq<Scope>, x: Name, i: nat) {
    i < |scopes| && x in scopes[i] && forall j :: i < j < |scopes| ==> x !in scopes[j]
  }

  predicate Unbound(scopes: seq<Scope>, x: Name) {
    forall j :: 0 <= j < |scopes| ==> x !in scopes[j]
  }

  /** Only that one slot is different. */
  ghost predicate OnlySlot(before: seq<Scope>, after: seq<Scope>, i: nat, x: Name, slot: Slot) {
    && i < |before| == |after|
    && (forall j :: 0 <= j < |before| && j != i ==> after[j] == before[j])
    && x in after[i] && after[i][x] == slot
    && (forall y :: y in before[i] <==> y in after[i])
    && (forall y :: y in before[i] && y != x ==> after[i][y] == before[i][y])
  }

  /** `w` is the value after conversion to the declared type: nulls take the type, Integers widen. */
  predicate Conversion(value: Value, ty: Type, w: Value) {
    if value.VNull? then w == VNull(Some(ty))
    else if value.VInteger? && ty == TLong then w == VLong(value.number)
    else w == value
  }

  lemma {:induction false} LookupIs(scopes: seq<Scope>, x: Name, i: nat)
    requires BoundAt(scopes, x, i)
    ensures Lookup(scopes, x) == Some(scopes[i][x])
    decreases |scopes|
  {
    if i < |scopes| - 1 { LookupIs(scopes[..|scopes| - 1], x, i); }
  }

  lemma {:induction false} LookupIsNone(scopes: seq<Scope>, x: Name)
    requires Unbound(scopes, x)
    ensures Lookup(scopes, x) == None
    decreases |scopes|
  {
    if scopes != [] { LookupIsNone(scopes[..|scopes| - 1], x); }
  }

  lemma {:induction false} StoreIs(scopes: seq<Scope>, x: Name, i: nat, value: Value)
    requires BoundAt(scopes, x, i)
    ensures Lookup(scopes, x).Some? && OnlySlot(scopes, Store(scopes, x, value), i, x, Slot(scopes[i][x].ty, value))
    decreases |scopes|
  {
    LookupIs(scopes, x, i);
    if i < |scopes| - 1 {
      StoreIs(scopes[..|scopes| - 1], x, i, value);
    }
  }

  /** A name means its innermost slot; without one its use is an internal error. */
  lemma VariableGives(env: Env, x: Name, st: State, fuel: nat, i: nat)
    ensures BoundAt(st.scopes, x, i) ==> Gives(env, Var(x), st, fuel, st.scopes[i][x].value, st)
    ensures Unbound(st.scopes, x) ==> Eval(env, Var(x), st, fuel) == Res(Fails(UnknownVariable), st)
  {
    if BoundAt(st.scopes, x, i) { LookupIs(st.scopes, x, i); }
    if Unbound(st.scopes, x) { LookupIsNone(st.scopes, x); }
  }

  /** A local write: the converted value, in that slot only. */
  lemma LocalWrite(st: State, x: Name, i: nat, value: Value, w: Value)
    requires BoundAt(st.scopes, x, i) && Conversion(value, st.scopes[i][x].ty, w)
    ensures var r := WritePlace(st, LocalPlace(x), value);
            && r.out == Done(w) && r.st == st.(scopes := r.st.scopes)
            && OnlySlot(st.scopes, r.st.scopes, i, x, Slot(st.scopes[i][x].ty, w))
  {
    LookupIs(st.scopes, x, i);
    StoreIs(st.scopes, x, i, w);
  }

  /** `x = e` stores what `e` gives, converted, into the innermost slot of `x` and nowhere else. */
  lemma AssignLocalGives(env: Env, x: Name, e: Expr, fact: Option<BinaryFact>, st: State, fuel: nat,
                         v: Value, middle: State, i: nat, w: Value)
    requires Gives(env, e, st, fuel, v, middle)
    requires BoundAt(middle.scopes, x, i) && Conversion(v, middle.scopes[i][x].ty, w)
    ensures var r := Eval(env, Assignment(VarTarget(x), Assign, e, fact), st, fuel);
            && r.out == Done(w) && r.st == middle.(scopes := r.st.scopes)
            && OnlySlot(middle.scopes, r.st.scopes, i, x, Slot(middle.scopes[i][x].ty, w))
  {
    var a := Assignment(VarTarget(x), Assign, e, fact);
    assert ResolvePlace(env, a.target, st, fuel) == Res(Done(LocalPlace(x)), st);
    assert Eval(env, a, st, fuel) == EvalAssignment(env, a, st, fuel) == WritePlace(middle, LocalPlace(x), v);
    hide Eval, EvalAssignment, WritePlace;
    LocalWrite(middle, x, i, v, w);
  }

  /** `x op= e` computes what `x op e` does, operands in that order, and stores that; without a value it
      stores nothing. */
  lemma CompoundLocalGives(env: Env, x: Name, assign: AssignOp, operator: BinaryOp, e: Expr, fact: BinaryFact, st: State, fuel: nat,
                           i: nat, w: Value)
    requires !assign.Assign? && !operator.And? && !operator.Or?
    requires var b := Eval(env, Binary(Var(x), operator, e, Some(fact)), st, fuel);
             b.out.Done? ==> BoundAt(b.st.scopes, x, i) && Conversion(b.out.value, b.st.scopes[i][x].ty, w)
    ensures var b := Eval(env, Binary(Var(x), operator, e, Some(fact)), st, fuel);
            var r := Eval(env, Assignment(VarTarget(x), assign, e, Some(fact)), st, fuel);
            if b.out.Done? then
              && r.out == Done(w) && r.st == b.st.(scopes := r.st.scopes)
              && OnlySlot(b.st.scopes, r.st.scopes, i, x, Slot(b.st.scopes[i][x].ty, w))
            else r == b
  {
    var c := Assignment(VarTarget(x), assign, e, Some(fact));
    assert Eval(env, c, st, fuel) == EvalAssignment(env, c, st, fuel);
    assert ResolvePlace(env, VarTarget(x), st, fuel) == Res(Done(LocalPlace(x)), st);
    assert Eval(env, Var(x), st, fuel) == Res(ReadPlace(st, LocalPlace(x)), st);
    StrictEval(env, Binary(Var(x), operator, e, Some(fact)), st, fuel);
    hide Eval, ApplyBinary, WritePlace, ResolvePlace, ReadPlace, OnlySlot, BoundAt;
    var b := Eval(env, Binary(Var(x), operator, e, Some(fact)), st, fuel);
    if b.out.Done? { LocalWrite(b.st, x, i, b.out.value, w); }
  }

  /** `x++` and its kind: the number next to it is stored, and the old or the new one is the value. */
  lemma MutationGives(env: Env, x: Name, delta: int, returnOld: bool, kind: NumericKind, st: State, fuel: nat,
                      i: nat, n: int, z: int, w: Value)
    requires BoundAt(st.scopes, x, i) && -1 <= delta <= 1 && z - n == delta
    requires st.scopes[i][x].value == (if kind.IntegerKind? then VInteger(n) else VLong(n)) && InRange(kind, n)
    requires Conversion(if kind.IntegerKind? then VInteger(z) else VLong(z), st.scopes[i][x].ty, w)
    ensures var r := Eval(env, Mutation(VarTarget(x), delta, returnOld), st, fuel);
            if InRange(kind, z) then
              && r.st == st.(scopes := r.st.scopes)
              && OnlySlot(st.scopes, r.st.scopes, i, x, Slot(st.scopes[i][x].ty, w))
              && r.out == Done(if returnOld then st.scopes[i][x].value else if kind.IntegerKind? then VInteger(z) else VLong(z))
            else
              Overflows(r.out) && r.st == st
  {
    var e := Mutation(VarTarget(x), delta, returnOld);
    assert ResolvePlace(env, e.target, st, fuel) == Res(Done(LocalPlace(x)), st);
    assert Eval(env, e, st, fuel) == MutatePlace(st, LocalPlace(x), delta, returnOld);
    hide Eval;
    LookupIs(st.scopes, x, i);
    var value := st.scopes[i][x].value;
    StepExactly(kind, value, n, delta, z);
    if InRange(kind, z) { LocalWrite(st, x, i, if kind.IntegerKind? then VInteger(z) else VLong(z), w); }
  }

  // ---------------------------------------------------------------- sequences of operands

  /** The expressions give the values one after the other, each in the state the one before left. */
  predicate InOrder(env: Env, es: seq<Expr>, fuel: nat, states: seq<State>, values: seq<Value>) {
    && |values| <= |es| && |states| == |values| + 1
    && forall i :: 0 <= i < |values| ==> Gives(env, es[i], states[i], fuel, values[i], states[i + 1])
  }

  /** All of them give values, or the first that does not decides. */
  lemma {:induction false} OperandsInOrder(env: Env, es: seq<Expr>, fuel: nat, states: seq<State>, values: seq<Value>)
    requires InOrder(env, es, fuel, states, values)
    ensures var r := EvalAll(env, es, states[0], fuel);
            && (|values| == |es| ==> r == Res(Done(values), states[|values|]))
            && (|values| < |es| && !Eval(env, es[|values|], states[|values|], fuel).out.Done? ==>
                  var stopped := Eval(env, es[|values|], states[|values|], fuel);
                  r.st == stopped.st && !r.out.Done? && r.out.Propagate<Value>() == stopped.out)
    decreases |es|
  {
    hide Eval;
    if es != [] {
      AllEval(env, es, states[0], fuel);
      if values != [] {
        OperandsInOrder(env, es[1..], fuel, states[1..], values[1..]);
        assert [values[0]] + values[1..] == values;
      }
    }
  }

  /** An operand that gives no value decides the expression, and no operand after it is evaluated. */
  lemma FirstOperandDecides(env: Env, e: Expr, first: Expr, st: State, fuel: nat)
    requires match e
             case Binary(left, _, _, _) => first == left
             case NullCoalesce(left, _) => first == left
             case Conditional(condition, _, _) => first == condition
             case Index(list, _) => first == list
             case ListCall(receiver, _, _) => first == receiver
             case Cast(_, operand) => first == operand
             case Debug(argument) => first == argument
             case NewException(_, message) => message == Some(first)
             case _ => false
    requires !Eval(env, first, st, fuel).out.Done?
    ensures Eval(env, e, st, fuel) == Eval(env, first, st, fuel)
  {
    hide Eval;
    match e
    case Binary(_, op, _, _) => if op.And? || op.Or? { LazyEval(env, e, st, fuel); } else { StrictEval(env, e, st, fuel); }
    case NullCoalesce(_, _) => CoalesceEval(env, e, st, fuel);
    case Conditional(_, _, _) => ConditionalEval(env, e, st, fuel);
    case Index(_, _) => IndexEval(env, e, st, fuel);
    case ListCall(_, _, _) => ListCallEval(env, e, st, fuel);
    case Cast(_, _) => CastEval(env, e, st, fuel);
    case Debug(_) => DebugEval(env, e, st, fuel);
    case NewException(_, _) => NewExceptionEval(env, e, st, fuel);
  }

  lemma SecondOperandDecides(env: Env, e: Expr, first: Expr, second: Expr, st: State, fuel: nat, v: Value, middle: State)
    requires match e
             case Binary(left, op, right, _) => first == left && second == right && !op.And? && !op.Or?
             case Index(list, index) => first == list && second == index
             case _ => false
    requires Gives(env, first, st, fuel, v, middle) && !Eval(env, second, middle, fuel).out.Done?
    ensures Eval(env, e, st, fuel) == Eval(env, second, middle, fuel)
  {
    hide Eval;
    if e.Binary? { StrictEval(env, e, st, fuel); } else { IndexEval(env, e, st, fuel); }
  }

  // ---------------------------------------------------------------- lists

  /** A new list has the next handle and the converted elements; the others are untouched. */
  lemma NewListGives(env: Env, ty: Type, es: seq<Expr>, st: State, fuel: nat, states: seq<State>, values: seq<Value>)
    requires |values| == |es| && InOrder(env, es, fuel, states, values) && states[0] == st
    ensures var before := states[|values|];
            var r := Eval(env, NewList(ty, es), st, fuel);
            && r.out == Done(VCollection(|before.lists|)) && r.st == before.(lists := r.st.lists)
            && |r.st.lists| == |before.lists| + 1 && r.st.lists[..|before.lists|] == before.lists
            && var made := r.st.lists[|before.lists|];
               && made.element == ty && made.iterationDepth == 0 && |made.elements| == |values|
               && forall i :: 0 <= i < |values| ==> Conversion(values[i], ty, made.elements[i])
  {
    NewListEval(env, NewList(ty, es), st, fuel);
    OperandsInOrder(env, es, fuel, states, values);
    hide Eval, EvalAll;
  }

  predicate RaisesKind<T>(out: Outcome<T>, kind: ExceptionKind) {
    out == Raise(Exn(TBuiltin(kind), "", None, []))
  }

  /** `xs[k]` is the element at `k`; beyond the ends, and on null, it raises. */
  lemma IndexGives(env: Env, list: Expr, index: Expr, st: State, fuel: nat, l: Value, middle: State, i: Value, after: State)
    requires Gives(env, list, st, fuel, l, middle) && Gives(env, index, middle, fuel, i, after)
    ensures var r := Eval(env, Index(list, index), st, fuel);
            && r.st == after
            && (l.VNull? ==> RaisesKind(r.out, NullPointer))
            && (l.VCollection? && i.VNull? ==> RaisesKind(r.out, NullPointer))
            && (l.VCollection? && l.id < |after.lists| && i.VInteger? ==>
                  var elements := after.lists[l.id].elements;
                  if i.number < 0 || i.number >= |elements| then RaisesKind(r.out, ListError)
                  else r.out == Done(elements[i.number]))
  {
    IndexEval(env, Index(list, index), st, fuel);
    hide Eval;
  }

  /** Only that one element is different. */
  predicate OnlyElement(before: Lists, after: Lists, id: nat, k: nat, value: Value) {
    && id < |before| == |after|
    && (forall j :: 0 <= j < |before| && j != id ==> after[j] == before[j])
    && after[id].element == before[id].element && after[id].iterationDepth == before[id].iterationDepth
    && k < |after[id].elements| == |before[id].elements| && after[id].elements[k] == value
    && (forall j :: 0 <= j < |before[id].elements| && j != k ==> after[id].elements[j] == before[id].elements[j])
  }

  /** `xs[k] = e` checks list and position before `e` runs, then stores the converted value there. */
  lemma AssignElementGives(env: Env, list: Expr, index: Expr, e: Expr, fact: Option<BinaryFact>, st: State, fuel: nat,
                           id: nat, s1: State, k: int, s2: State)
    requires Gives(env, list, st, fuel, VCollection(id), s1) && Gives(env, index, s1, fuel, VInteger(k), s2)
    requires id < |s2.lists|
    ensures var r := Eval(env, Assignment(IndexTarget(list, index), Assign, e, fact), st, fuel);
            if s2.lists[id].iterationDepth > 0 then RaisesKind(r.out, FinalError) && r.st == s2
            else if k < 0 || k >= |s2.lists[id].elements| then RaisesKind(r.out, ListError) && r.st == s2
            else if !Eval(env, e, s2, fuel).out.Done? then r == Eval(env, e, s2, fuel)
            else
              var s3 := Eval(env, e, s2, fuel).st;
              id < |s3.lists| && k < |s3.lists[id].elements| ==>
                && r.out.Done? && Conversion(Eval(env, e, s2, fuel).out.value, s3.lists[id].element, r.out.value)
                && r.st == s3.(lists := r.st.lists) && OnlyElement(s3.lists, r.st.lists, id, k, r.out.value)
  {
    var a := Assignment(IndexTarget(list, index), Assign, e, fact);
    assert Eval(env, a, st, fuel) == EvalAssignment(env, a, st, fuel);
    IndexTargetEval(env, a.target, st, fuel);
    hide Eval, ResolvePlace;
  }

  lemma ElementWrite(st: State, id: nat, k: nat, value: Value)
    requires id < |st.lists| && k < |st.lists[id].elements|
    ensures var r := WritePlace(st, ListPlace(id, k), value);
            && r.out.Done? && Conversion(value, st.lists[id].element, r.out.value)
            && r.st == st.(lists := r.st.lists) && OnlyElement(st.lists, r.st.lists, id, k, r.out.value)
  {
  }

  /** `xs[k] op= e` on a list nobody visits computes what `xs[k] op e` does and stores that. */
  lemma CompoundElementGives(env: Env, list: Expr, index: Expr, assign: AssignOp, operator: BinaryOp, e: Expr, fact: BinaryFact,
                             st: State, fuel: nat, id: nat, s1: State, k: int, s2: State)
    requires !assign.Assign? && !operator.And? && !operator.Or?
    requires Gives(env, list, st, fuel, VCollection(id), s1) && Gives(env, index, s1, fuel, VInteger(k), s2)
    requires id < |s2.lists| && s2.lists[id].iterationDepth == 0
    ensures var b := Eval(env, Binary(Index(list, index), operator, e, Some(fact)), st, fuel);
            var r := Eval(env, Assignment(IndexTarget(list, index), assign, e, Some(fact)), st, fuel);
            if !b.out.Done? then r == b
            else
              k >= 0 && (id < |b.st.lists| && k < |b.st.lists[id].elements| ==>
                && r.out.Done? && Conversion(b.out.value, b.st.lists[id].element, r.out.value)
                && r.st == b.st.(lists := r.st.lists) && OnlyElement(b.st.lists, r.st.lists, id, k, r.out.value))
  {
    var c := Assignment(IndexTarget(list, index), assign, e, Some(fact));
    assert Eval(env, c, st, fuel) == EvalAssignment(env, c, st, fuel);
    IndexTargetEval(env, c.target, st, fuel);
    IndexEval(env, Index(list, index), st, fuel);
    StrictEval(env, Binary(Index(list, index), operator, e, Some(fact)), st, fuel);
    hide Eval, ApplyBinary, WritePlace, ResolvePlace, OnlyElement;
    var b := Eval(env, Binary(Index(list, index), operator, e, Some(fact)), st, fuel);
    if b.out.Done? && k >= 0 && id < |b.st.lists| && k < |b.st.lists[id].elements| {
      ElementWrite(b.st, id, k, b.out.value);
    }
  }

  /** `xs[k]++` and its kind, on a list nobody visits. */
  lemma ElementMutationGives(env: Env, list: Expr, index: Expr, delta: int, returnOld: bool, kind: NumericKind,
                             st: State, fuel: nat, id: nat, s1: State, k: nat, s2: State, n: int, z: int)
    requires Gives(env, list, st, fuel, VCollection(id), s1) && Gives(env, index, s1, fuel, VInteger(k), s2)
    requires id < |s2.lists| && s2.lists[id].iterationDepth == 0 && k < |s2.lists[id].elements|
    requires -1 <= delta <= 1 && z - n == delta
    requires s2.lists[id].elements[k] == (if kind.IntegerKind? then VInteger(n) else VLong(n)) && InRange(kind, n)
    ensures var r := Eval(env, Mutation(IndexTarget(list, index), delta, returnOld), st, fuel);
            var next := if kind.IntegerKind? then VInteger(z) else VLong(z);
            if InRange(kind, z) then
              && r.out == Done(if returnOld then s2.lists[id].elements[k] else next)
              && r.st == s2.(lists := r.st.lists)
              && exists w :: Conversion(next, s2.lists[id].element, w) && OnlyElement(s2.lists, r.st.lists, id, k, w)
            else
              Overflows(r.out) && r.st == s2
  {
    var e := Mutation(IndexTarget(list, index), delta, returnOld);
    IndexTargetEval(env, e.target, st, fuel);
    assert ResolvePlace(env, e.target, st, fuel) == Res(Done(ListPlace(id, k)), s2);
    assert Eval(env, e, st, fuel) == MutatePlace(s2, ListPlace(id, k), delta, returnOld);
    hide Eval, ResolvePlace, MutatePlace;
    ElementMutated(s2, id, k, delta, returnOld, kind, n, z);
  }

  lemma ElementMutated(st: State, id: nat, k: nat, delta: int, returnOld: bool, kind: NumericKind, n: int, z: int)
    requires id < |st.lists| && k < |st.lists[id].elements|
    requires -1 <= delta <= 1 && z - n == delta
    requires st.lists[id].elements[k] == (if kind.IntegerKind? then VInteger(n) else VLong(n)) && InRange(kind, n)
    ensures var r := MutatePlace(st, ListPlace(id, k), delta, returnOld);
            var next := if kind.IntegerKind? then VInteger(z) else VLong(z);
            if InRange(kind, z) then
              && r.out == Done(if returnOld then st.lists[id].elements[k] else next)
              && r.st == st.(lists := r.st.lists)
              && exists w :: Conversion(next, st.lists[id].element, w) && OnlyElement(st.lists, r.st.lists, id, k, w)
            else
              Overflows(r.out) && r.st == st
  {
    hide OnlyElement, WritePlace, Increment;
    StepExactly(kind, st.lists[id].elements[k], n, delta, z);
    if InRange(kind, z) { ElementWrite(st, id, k, if kind.IntegerKind? then VInteger(z) else VLong(z)); }
  }

  /** `add` appends the converted value, `clear` empties, `size` counts; a list under iteration keeps its
      elements, and null has no methods. */
  lemma ListCallGives(env: Env, receiver: Expr, method_: ListMethod, es: seq<Expr>, st: State, fuel: nat,
                      l: Value, states: seq<State>, values: seq<Value>)
    requires |values| == |es| && InOrder(env, es, fuel, states, values) && Gives(env, receiver, st, fuel, l, states[0])
    requires |es| == if method_.ListAdd? then 1 else 0
    ensures var r := Eval(env, ListCall(receiver, method_, es), st, fuel);
            var before := states[|values|];
            && (l.VNull? ==> RaisesKind(r.out, NullPointer) && r.st == before)
            && (l.VCollection? && l.id < |before.lists| ==>
                  var list := before.lists[l.id];
                  if method_.ListSize? then
                    r.st == before && (|list.elements| < 0x8000_0000_0000_0000 ==> r.out == Done(VInteger(|list.elements|)))
                  else if list.iterationDepth > 0 then RaisesKind(r.out, FinalError) && r.st == before
                  else
                    && r.out == Done(VVoid) && r.st == before.(lists := r.st.lists) && |r.st.lists| == |before.lists|
                    && (forall j :: 0 <= j < |before.lists| && j != l.id ==> r.st.lists[j] == before.lists[j])
                    && r.st.lists[l.id] == list.(elements := r.st.lists[l.id].elements)
                    && var elements := r.st.lists[l.id].elements;
                       if method_.ListClear? then |elements| == 0
                       else
                         && |elements| == |list.elements| + 1 && elements[..|list.elements|] == list.elements
                         && Conversion(values[0], list.element, elements[|list.elements|]))
  {
    ListCallEval(env, ListCall(receiver, method_, es), st, fuel);
    OperandsInOrder(env, es, fuel, states, values);
    hide Eval, EvalAll;
  }

  // ---------------------------------------------------------------- output, casts and exceptions

  lemma DebugGives(env: Env, e: Expr, st: State, fuel: nat, v: Value, middle: State)
    requires Gives(env, e, st, fuel, v, middle) && !v.VVoid?
    ensures var r := Eval(env, Debug(e), st, fuel);
            && r.out == Done(VVoid) && r.st == middle.(output := r.st.output)
            && |r.st.output| == |middle.output| + 1 && middle.output <= r.st.output
            && r.st.output[|middle.output|] == env.host.render(v, middle.lists)
  {
    DebugEval(env, Debug(e), st, fuel);
    hide Eval;
  }

  /** A cast gives null the type, converts between the widths of numbers as long as the number fits, and
      otherwise gives the value itself if it has the type. */
  lemma CastGives(env: Env, ty: Type, e: Expr, st: State, fuel: nat, v: Value, middle: State)
    requires Gives(env, e, st, fuel, v, middle)
    ensures var r := Eval(env, Cast(ty, e), st, fuel);
            && r.st == middle
            && (v.VNull? ==> r.out == Done(VNull(Some(ty))))
            && (v.VInteger? && ty == TLong ==> r.out == Done(VLong(v.number)))
            && (v.VLong? && ty == TInteger ==>
                  if -0x8000_0000 <= v.number < 0x8000_0000 then r.out == Done(VInteger(v.number)) else RaisesKind(r.out, TypeError))
            && (!v.VNull? && !(v.VInteger? && ty == TLong) && !(v.VLong? && ty == TInteger) ==>
                  if HasType(env.program.classes, middle.lists, v, ty) then r.out == Done(v) else RaisesKind(r.out, TypeError))
  {
    CastEval(env, Cast(ty, e), st, fuel);
    hide Eval;
  }

  /** Which values have a type: `Object` has all of them, a list type those lists, an exception type the
      exceptions of it and below it. */
  predicate HasType(classes: ClassTable, lists: Lists, v: Value, ty: Type) {
    match v
    case VString(_) => ty == TString || ty == TObject
    case VBoolean(_) => ty == TBoolean || ty == TObject
    case VInteger(_) => ty == TInteger || ty == TObject
    case VLong(_) => ty == TLong || ty == TObject
    case VCollection(id) => ty == TObject || (ty.TList? && id < |lists| && lists[id].element == ty.element)
    case VException(e) => ty == TObject || Matches(classes, e, ty)
    case VNull(t) => ty == TObject || t.None? || t == Some(ty)
    case VVoid => false
  }

  /** `new E(m)` has the text of its message and no trace yet; a null message is an empty one. */
  lemma NewExceptionGives(env: Env, ty: Type, e: Expr, st: State, fuel: nat, v: Value, middle: State)
    requires Gives(env, e, st, fuel, v, middle) && (v.VString? || v.VNull?)
    ensures Gives(env, NewException(ty, Some(e)), st, fuel, VException(Exn(ty, if v.VString? then v.text else "", None, [])), middle)
    ensures Gives(env, NewException(ty, None), st, fuel, VException(Exn(ty, "", None, [])), st)
  {
    NewExceptionEval(env, NewException(ty, Some(e)), st, fuel);
  }

  // ---------------------------------------------------------------- calls

  predicate Declares(parameters: seq<Parameter>, x: Name) {
    exists i :: 0 <= i < |parameters| && parameters[i].name == x
  }

  /** No later parameter has the name of this one. */
  predicate LastOfName(parameters: seq<Parameter>, i: nat) {
    i < |parameters| && forall j :: i < j < |parameters| ==> parameters[j].name != parameters[i].name
  }

  predicate HoldsArgument(p: Parameter, argument: Value, scope: Scope) {
    p.name in scope && scope[p.name].ty == p.ty && Conversion(argument, p.ty, scope[p.name].value)
  }

  /** The scope of a call: the parameters, each with its converted argument; of two parameters of one name
      the later counts. */
  ghost predicate BindsParameters(parameters: seq<Parameter>, arguments: seq<Value>, scope: Scope)
    requires |parameters| == |arguments|
  {
    && (forall x :: x in scope <==> Declares(parameters, x))
    && forall i: nat :: LastOfName(parameters, i) ==> HoldsArgument(parameters[i], arguments[i], scope)
  }

  lemma {:induction false} ParameterKeys(parameters: seq<Parameter>, arguments: seq<Value>, x: Name)
    requires |parameters| == |arguments|
    ensures x in ParameterScope(parameters, arguments) <==> Declares(parameters, x)
    decreases |parameters|
  {
    if parameters != [] {
      var last := |parameters| - 1;
      ParameterKeys(parameters[..last], arguments[..last], x);
      assert forall i :: 0 <= i < last ==> parameters[..last][i] == parameters[i];
    }
  }

  lemma {:induction false} ParameterSlot(parameters: seq<Parameter>, arguments: seq<Value>, i: nat)
    requires |parameters| == |arguments| && LastOfName(parameters, i)
    ensures HoldsArgument(parameters[i], arguments[i], ParameterScope(parameters, arguments))
    decreases |parameters|
  {
    var last := |parameters| - 1;
    if i < last {
      assert parameters[last].name != parameters[i].name;
      ParameterSlot(parameters[..last], arguments[..last], i);
    }
  }

  lemma ParametersBound(parameters: seq<Parameter>, arguments: seq<Value>)
    requires |parameters| == |arguments|
    ensures BindsParameters(parameters, arguments, ParameterScope(parameters, arguments))
  {
    hide ParameterScope, Declares, LastOfName, HoldsArgument;
    var scope := ParameterScope(parameters, arguments);
    forall x ensures x in scope <==> Declares(parameters, x) {
      ParameterKeys(parameters, arguments, x);
    }
    forall i: nat | LastOfName(parameters, i) ensures i < |parameters| && HoldsArgument(parameters[i], arguments[i], scope) {
      LastInRange(parameters, i);
      ParameterSlot(parameters, arguments, i);
    }
  }

  lemma LastInRange(parameters: seq<Parameter>, i: nat)
    requires LastOfName(parameters, i)
    ensures i < |parameters|
  {
  }

  /** How the outcome of the body becomes that of the call: a returned value is converted to the return
      type, an exception that has no trace yet gets that of the calls in progress, innermost first. */
  predicate Returns(returnType: ReturnType, calls: seq<Name>, body: Outcome<Flow>, out: Outcome<Value>) {
    match body
    case Done(Returning(Some(v))) => returnType.RValue? ==> out.Done? && Conversion(v, returnType.ty, out.value)
    case Done(Returning(None)) => returnType.RVoid? ==> out == Done(VVoid)
    case Done(Normal) => if returnType.RVoid? then out == Done(VVoid) else out == Fails(MissingReturn)
    case Done(Breaking) => out.Fails?
    case Done(Continuing) => out.Fails?
    case Raise(e) =>
      && out.Raise? && out.exception == e.(trace := out.exception.trace)
      && (e.trace != [] ==> out.exception.trace == e.trace)
      && (e.trace == [] ==> |out.exception.trace| == |calls|
                            && forall i :: 0 <= i < |calls| ==> out.exception.trace[i] == calls[|calls| - 1 - i])
    case Fails(f) => out == Fails(f)
    case Panic => out == Panic
    case OutOfFuel => out == OutOfFuel
  }

  lemma ResultReturns(returnType: ReturnType, calls: seq<Name>, body: Outcome<Flow>)
    ensures Returns(returnType, calls, body,
              CallResult(returnType, if body.Raise? then Raise(AttachStack(body.exception, calls)) else body))
  {
  }

  /** A call evaluates its arguments in order and runs the body of the method in a scope of just its
      parameters; afterwards the caller's scopes are back, whatever happened. */
  lemma CallGives(env: Env, name: Name, es: seq<Expr>, callee: nat, st: State, fuel: nat, states: seq<State>, values: seq<Value>)
    requires callee < |env.program.methods| && fuel > 0
    requires |values| == |es| == |env.program.methods[callee].parameters|
    requires InOrder(env, es, fuel, states, values) && states[0] == st
    ensures var m := env.program.methods[callee];
            var before := states[|values|];
            var r := Eval(env, Call(name, es, Some(callee)), st, fuel);
            exists scope :: BindsParameters(m.parameters, values, scope) &&
              var body := Exec(env, m.body, before.(scopes := [scope], calls := before.calls + [m.name]), fuel - 1);
              && r.st.scopes == before.scopes && r.st.lists == body.st.lists && r.st.output == body.st.output
              && (body.st.calls != [] ==> r.st.calls == body.st.calls[..|body.st.calls| - 1])
              && Returns(m.returnType, body.st.calls, body.out, r.out)
  {
    var e := Call(name, es, Some(callee));
    var m := env.program.methods[callee];
    CallEval(env, e, st, fuel);
    OperandsInOrder(env, es, fuel, states, values);
    ParametersBound(m.parameters, values);
    var before := states[|values|];
    var scope := ParameterScope(m.parameters, values);
    var inner := before.(scopes := [scope], calls := before.calls + [m.name]);
    var body := Exec(env, m.body, inner, fuel - 1);
    assert Eval(env, e, st, fuel) == Invoke(env, m, values, before, fuel - 1);
    ResultReturns(m.returnType, body.st.calls, body.out);
    hide Eval, EvalAll, Exec, ParameterScope, Returns, CallResult, BindsParameters;
  }
}
