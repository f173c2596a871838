/** What it means for values, slots, lists and outcomes to fit their static types, and how the
    primitive operations preserve it. A value conforms to a type up to numeric widening; a slot or an
    element holds a value that was converted, so it has the declared type exactly. An allowance names
    the constructs of a program that can lead to an escape: increments, literals beyond 32 bits, and
    shrinking lists. Lists only grow in number and keep their element types, so whatever conformed to
    a type still does later. */
module Conformance {
  import opened Wrappers
  import opened ClassGraph
  import opened Syntax
  import opened Values
  import opened Typing
  import opened ContextKept

  /** Which constructs with a known escape a program has: `mutation` for `++` and `--`, `oversize` for
      Integer literals beyond 32 bits, `sizes` for `size`, `shrink` for what can shorten a list. */
  datatype Allowance = Allowance(mutation: bool, oversize: bool, sizes: bool, shrink: bool)

  /** A list whose number of elements is no 32-bit Integer. */
  predicate HasHugeList(lists: Lists) {
    exists id :: 0 <= id < |lists| && |lists[id].elements| > MAX_INT
  }

  /** An Integer beyond 32 bits can exist: from a literal, or from the size of a list that is or, if
      lists can be shortened, once was too long. */
  predicate Oversized(a: Allowance, lists: Lists) {
    a.oversize || (a.sizes && (a.shrink || HasHugeList(lists)))
  }

  predicate AllowedEscape(a: Allowance, lists: Lists, escape: Option<Escape>) {
    match escape
    case None => true
    case Some(NullOperand) => a.mutation
    case Some(IntegerOutOfRange) => Oversized(a, lists)
    case Some(WrongOperands) => false
  }

  predicate AllowedExn(a: Allowance, lists: Lists, exception: Exn) {
    && (exception.ty.TException? || exception.ty.TBuiltin? || exception.ty.TCustom?)
    && AllowedEscape(a, lists, exception.escape)
  }

  /** Handles are valid, Integers fit unless oversized ones can exist, exceptions are allowed ones. */
  predicate Sane(a: Allowance, lists: Lists, value: Value) {
    match value
    case VInteger(n) => Oversized(a, lists) || MIN_INT <= n <= MAX_INT
    case VCollection(id) => id < |lists|
    case VException(exception) => AllowedExn(a, lists, exception)
    case VVoid => false
    case _ => true
  }

  /** The value has exactly the type: what every slot and list element satisfies. */
  predicate Holds(a: Allowance, classes: ClassTable, lists: Lists, value: Value, ty: Type) {
    Sane(a, lists, value) && (value.VNull? || ValueHasType(classes, lists, value, ty))
  }

  /** The value fits an expression type up to the widening of Integer to Long. */
  predicate Conforms(a: Allowance, classes: ClassTable, lists: Lists, value: Value, ty: ExprType) {
    match ty
    case EValue(t) => Holds(a, classes, lists, value, t) || (t == TLong && value.VInteger? && Sane(a, lists, value))
    case ENull => value.VNull?
    case EVoid => value.VVoid?
  }

  ghost predicate ListsOk(a: Allowance, classes: ClassTable, lists: Lists) {
    forall id, i :: 0 <= id < |lists| && 0 <= i < |lists[id].elements| ==>
      Holds(a, classes, lists, lists[id].elements[i], lists[id].element)
  }

  ghost predicate ScopeOk(a: Allowance, classes: ClassTable, lists: Lists, scope: Scope) {
    forall x :: x in scope ==> Holds(a, classes, lists, scope[x].value, scope[x].ty)
  }

  ghost predicate ScopesOk(a: Allowance, classes: ClassTable, lists: Lists, scopes: seq<Scope>) {
    forall i :: 0 <= i < |scopes| ==> ScopeOk(a, classes, lists, scopes[i])
  }

  /** Every slot and list element holds a value already converted to its declared type. */
  ghost predicate StateOk(a: Allowance, classes: ClassTable, st: State) {
    ListsOk(a, classes, st.lists) && ScopesOk(a, classes, st.lists, st.scopes)
  }

  /** Lists get no shorter, unless the program can shorten them. */
  ghost predicate NoShrink(a: Allowance, before: Lists, after: Lists) {
    a.shrink || (|before| <= |after| && forall id :: 0 <= id < |before| ==> |before[id].elements| <= |after[id].elements|)
  }

  /** The part of an outcome every construct shares: no internal error, no panic or escape but the
      allowed ones. */
  predicate Safe<T>(a: Allowance, lists: Lists, out: Outcome<T>) {
    match out
    case Done(_) => true
    case Raise(exception) => AllowedExn(a, lists, exception)
    case Fails(_) => false
    case Panic => a.shrink
    case OutOfFuel => true
  }

  predicate Delivers(a: Allowance, classes: ClassTable, lists: Lists, out: Outcome<Value>, ty: ExprType) {
    Safe(a, lists, out) && (out.Done? ==> Conforms(a, classes, lists, out.value, ty))
  }

  // ---------------------------------------------------------------- values across state changes

  /** As long as lists only grow, one that is too long stays so. */
  lemma OversizedLater(a: Allowance, before: Lists, after: Lists)
    requires NoShrink(a, before, after) && Oversized(a, before)
    ensures Oversized(a, after)
  {
  }

  lemma HoldsLater(a: Allowance, classes: ClassTable, before: Lists, after: Lists, value: Value, ty: Type)
    requires ListsKept(before, after) && NoShrink(a, before, after) && Holds(a, classes, before, value, ty)
    ensures Holds(a, classes, after, value, ty)
  {
    hide Oversized;
    if Oversized(a, before) { OversizedLater(a, before, after); }
  }

  lemma HoldsConforms(a: Allowance, classes: ClassTable, lists: Lists, value: Value, ty: Type)
    requires Holds(a, classes, lists, value, ty)
    ensures Conforms(a, classes, lists, value, EValue(ty))
  {
  }

  lemma ConformsLater(a: Allowance, classes: ClassTable, before: Lists, after: Lists, value: Value, ty: ExprType)
    requires ListsKept(before, after) && NoShrink(a, before, after) && Conforms(a, classes, before, value, ty)
    ensures Conforms(a, classes, after, value, ty)
  {
    hide Oversized;
    if Oversized(a, before) { OversizedLater(a, before, after); }
  }

  lemma ScopesOkLater(a: Allowance, classes: ClassTable, before: Lists, after: Lists, scopes: seq<Scope>)
    requires ListsKept(before, after) && NoShrink(a, before, after) && ScopesOk(a, classes, before, scopes)
    ensures ScopesOk(a, classes, after, scopes)
  {
    forall i, x | 0 <= i < |scopes| && x in scopes[i]
      ensures Holds(a, classes, after, scopes[i][x].value, scopes[i][x].ty)
    {
      assert ScopeOk(a, classes, before, scopes[i]);
      HoldsLater(a, classes, before, after, scopes[i][x].value, scopes[i][x].ty);
    }
  }

  // ---------------------------------------------------------------- conversion and subtyping

  lemma InheritsTransitive(g: Graph, x: nat, y: nat, z: nat)
    requires Inherits(g, x, y) && Inherits(g, y, z)
    ensures Inherits(g, x, z)
  {
    InheritsIsReaches(g, x, y);
    InheritsIsReaches(g, y, z);
    ReachesTransitive(g, x, y, z);
    InheritsIsReaches(g, x, z);
  }

  lemma HoldsUp(a: Allowance, classes: ClassTable, lists: Lists, value: Value, sub: Type, sup: Type)
    requires Holds(a, classes, lists, value, sub) && IsSubtype(classes, sub, sup)
    ensures Holds(a, classes, lists, value, sup) || (sup == TLong && value.VInteger?)
  {
    if value.VException? && sub.TCustom? && sup.TCustom? && sub != sup
       && value.exception.ty.TCustom? && value.exception.ty != sub {
      InheritsTransitive(classes.graph, value.exception.ty.classId, sub.classId, sup.classId);
    }
  }

  /** Widening: a value fits every supertype of its type. */
  lemma ConformsUp(a: Allowance, classes: ClassTable, lists: Lists, value: Value, sub: ExprType, sup: Type)
    requires Conforms(a, classes, lists, value, sub) && IsAssignable(classes, sup, sub)
    ensures Conforms(a, classes, lists, value, EValue(sup))
  {
    if sub.EValue? && Holds(a, classes, lists, value, sub.ty) {
      HoldsUp(a, classes, lists, value, sub.ty, sup);
    }
  }

  /** Storing converts: an assignable value, once converted, has the slot's type exactly. */
  lemma ConversionHolds(a: Allowance, classes: ClassTable, lists: Lists, value: Value, actual: ExprType, ty: Type)
    requires Conforms(a, classes, lists, value, actual) && IsAssignable(classes, ty, actual)
    ensures Holds(a, classes, lists, TypedValue(value, ty), ty)
  {
    ConformsUp(a, classes, lists, value, actual, ty);
  }

  lemma JoinConforms(a: Allowance, classes: ClassTable, lists: Lists, value: Value, left: ExprType, right: ExprType, ty: ExprType)
    requires Join(classes, left, right) == Ok(ty)
    ensures Conforms(a, classes, lists, value, left) ==> Conforms(a, classes, lists, value, ty)
    ensures Conforms(a, classes, lists, value, right) ==> Conforms(a, classes, lists, value, ty)
  {
    if Conforms(a, classes, lists, value, left) && ty.EValue? && IsAssignable(classes, ty.ty, left) {
      ConformsUp(a, classes, lists, value, left, ty.ty);
    }
    if Conforms(a, classes, lists, value, right) && ty.EValue? && IsAssignable(classes, ty.ty, right) {
      ConformsUp(a, classes, lists, value, right, ty.ty);
    }
  }

  lemma CastDelivers(a: Allowance, classes: ClassTable, lists: Lists, value: Value, source: ExprType, ty: Type)
    requires Conforms(a, classes, lists, value, source) && CastAllowed(classes, source, ty)
    ensures Delivers(a, classes, lists, CastValue(classes, lists, value, ty), EValue(ty))
  {
  }

  // ---------------------------------------------------------------- operators

  lemma OperandSafe(a: Allowance, classes: ClassTable, lists: Lists, value: Value, ty: ExprType, kind: NumericKind)
    requires Conforms(a, classes, lists, value, ty) && KindOf(ty).Some? && !value.VNull?
    requires kind.IntegerKind? ==> ty == EValue(TInteger)
    ensures Safe(a, lists, Operand(kind, value))
  {
  }

  lemma ArithmeticDelivers(a: Allowance, classes: ClassTable, lists: Lists, op: BinaryOp, kind: NumericKind,
                           left: Value, right: Value, leftType: ExprType, rightType: ExprType)
    requires Conforms(a, classes, lists, left, leftType) && Conforms(a, classes, lists, right, rightType)
    requires Promote(leftType, rightType) == Some(kind) && IsArithmetic(op)
    requires !left.VNull? && !right.VNull?
    ensures Delivers(a, classes, lists, Arithmetic(op, kind, left, right), EValue(TypeOfKind(kind)))
  {
    OperandSafe(a, classes, lists, left, leftType, kind);
    OperandSafe(a, classes, lists, right, rightType, kind);
    hide Quotient, RemainderOf;
  }

  /** A binary operation recorded by the checker never rejects its operands' types. */
  lemma CombineDelivers(a: Allowance, env: Env, lists: Lists, op: BinaryOp, left: Value, right: Value,
                        leftType: ExprType, rightType: ExprType, ty: ExprType, fact: Option<BinaryFact>)
    requires BinaryType(leftType, op, rightType) == Ok((ty, fact)) && !op.And? && !op.Or?
    requires Conforms(a, env.program.classes, lists, left, leftType)
    requires Conforms(a, env.program.classes, lists, right, rightType)
    ensures Delivers(a, env.program.classes, lists, Combine(env, lists, op, fact, left, right), ty)
  {
    var kind := Promote(leftType, rightType);
    if kind.Some? && IsArithmetic(op) && !left.VNull? && !right.VNull? {
      ArithmeticDelivers(a, env.program.classes, lists, op, kind.value, left, right, leftType, rightType);
    }
  }

  lemma UnaryDelivers(a: Allowance, classes: ClassTable, lists: Lists, fact: UnaryFact, value: Value, ty: ExprType)
    requires Conforms(a, classes, lists, value, ty) && KindOf(ty) == Some(fact.kind)
    ensures Delivers(a, classes, lists, ApplyUnary(fact, value), ty)
  {
  }

  lemma BooleanSafe(a: Allowance, classes: ClassTable, lists: Lists, value: Value)
    requires Conforms(a, classes, lists, value, EValue(TBoolean))
    ensures Safe(a, lists, AsBoolean(value))
  {
  }

  /** `++` and `--` on a stored Integer or Long escape exactly on null or beyond 32 bits. */
  lemma IncrementDelivers(a: Allowance, classes: ClassTable, lists: Lists, value: Value, ty: Type, delta: int)
    requires a.mutation && -1 <= delta <= 1
    requires Holds(a, classes, lists, value, ty) && (ty == TInteger || ty == TLong)
    ensures Safe(a, lists, MutationKind(value))
    ensures MutationKind(value).Done? ==>
              var r := Increment(MutationKind(value).value, value, delta);
              Safe(a, lists, r) && (r.Done? ==> Holds(a, classes, lists, r.value, ty))
  {
  }

  // ---------------------------------------------------------------- lists

  lemma PositionSafe(a: Allowance, classes: ClassTable, lists: Lists, list: Value, index: Value, element: Type, forWrite: bool)
    requires Conforms(a, classes, lists, list, EValue(TList(element)))
    requires Conforms(a, classes, lists, index, EValue(TInteger))
    ensures var p := ListPosition(lists, list, index, forWrite);
            && Safe(a, lists, p)
            && (p.Done? ==> p.value.0 < |lists| && lists[p.value.0].element == element
                            && p.value.1 < |lists[p.value.0].elements|)
  {
  }
}
