/** What expressions give. */
module Evaluation {
  // What expressions evaluate to, in terms of what their operands evaluate to. Every law names the values
  // of the operands and says which value and which state follow, by equations on those values; nothing is
  // said by way of the functions that compute them. Operands that are not chosen are not evaluated, and
  // the first operand that gives no value decides the whole.

  import opened Wrappers
  import opened Syntax
  import opened Values
  import opened Semantics
  import opened ExprRules
  import opened Numbers

  /** The expression gives a value and leaves a state. */
  predicate Gives(env: Env, e: Expr, st: State, fuel: nat, value: Value, after: State) {
    Eval(env, e, st, fuel) == Res(Done(value), after)
  }

  lemma LiteralsGive(env: Env, s: string, b: bool, n: int, st: State, fuel: nat)
    ensures Gives(env, StringLit(s), st, fuel, VString(s), st)
    ensures Gives(env, BoolLit(b), st, fuel, VBoolean(b), st)
    ensures Gives(env, IntLit(n), st, fuel, VInteger(n), st)
    ensures Gives(env, NullLit, st, fuel, VNull(None), st)
    ensures if -0x8000_0000_0000_0000 <= n < 0x8000_0000_0000_0000 then Gives(env, LongLit(n), st, fuel, VLong(n), st)
            else Eval(env, LongLit(n), st, fuel) == Res(Fails(LiteralOutOfRange), st)
  {
  }

  predicate RaisesNull<T>(out: Outcome<T>) {
    out == Raise(Exn(TBuiltin(NullPointer), "", None, []))
  }

  // ---------------------------------------------------------------- operators

  /** The value of an arithmetic operator on the numbers of its operands. */
  predicate Computes(op: BinaryOp, x: int, y: int, z: int) {
    match op
    case Add => z - y == x
    case Subtract => z + y == x
    case Multiply => z == x * y
    case _ => false
  }

  lemma ArithmeticGives(env: Env, left: Expr, op: BinaryOp, right: Expr, fact: NumericKind, operator: BinaryOp,
                        st: State, fuel: nat, l: Value, middle: State, r: Value, after: State, x: int, y: int, z: int)
    requires Gives(env, left, st, fuel, l, middle) && Gives(env, right, middle, fuel, r, after)
    requires !operator.And? && !operator.Or?
    requires Carries(fact, l, x) && Carries(fact, r, y) && Computes(op, x, y, z)
    ensures var result := Eval(env, Binary(left, operator, right, Some(Numeric(op, fact))), st, fuel);
            result.st == after && Yields(fact, z, result.out)
  {
    var e := Binary(left, operator, right, Some(Numeric(op, fact)));
    StrictEval(env, e, st, fuel);
    hide Eval, Arithmetic;
    match op
    case Add => SumExactly(fact, l, r, x, y, z);
    case Subtract => DifferenceExactly(fact, l, r, x, y, z);
    case Multiply => ProductExactly(fact, l, r, x, y, z);
  }

  lemma DivisionGives(env: Env, left: Expr, right: Expr, kind: NumericKind, operator: BinaryOp,
                      st: State, fuel: nat, l: Value, middle: State, r: Value, after: State, x: int, y: int, q: int, m: int)
    requires Gives(env, left, st, fuel, l, middle) && Gives(env, right, middle, fuel, r, after)
    requires !operator.And? && !operator.Or?
    requires Carries(kind, l, x) && Carries(kind, r, y)
    requires y != 0 ==> Divides(x, y, q, m)
    ensures var result := Eval(env, Binary(left, operator, right, Some(Numeric(Divide, kind))), st, fuel);
            result.st == after && if y == 0 then Overflows(result.out) else Yields(kind, q, result.out)
    ensures var result := Eval(env, Binary(left, operator, right, Some(Numeric(Remainder, kind))), st, fuel);
            result.st == after && if y == 0 || !InRange(kind, q) then Overflows(result.out) else Yields(kind, m, result.out)
  {
    StrictEval(env, Binary(left, operator, right, Some(Numeric(Divide, kind))), st, fuel);
    StrictEval(env, Binary(left, operator, right, Some(Numeric(Remainder, kind))), st, fuel);
    hide Eval, Arithmetic;
    if y == 0 { ZeroDivisor(kind, l, r, x); } else { DivisionExactly(kind, l, r, x, y, q, m); }
  }

  /** Concatenation puts the rendering of the left operand in front of that of the right one. */
  lemma ConcatenationGives(env: Env, left: Expr, operator: BinaryOp, right: Expr, st: State, fuel: nat,
                           l: Value, middle: State, r: Value, after: State)
    requires Gives(env, left, st, fuel, l, middle) && Gives(env, right, middle, fuel, r, after)
    requires !operator.And? && !operator.Or?
    ensures var result := Eval(env, Binary(left, operator, right, Some(StringConcat)), st, fuel);
            && result.st == after && result.out.Done? && result.out.value.VString?
            && var text := result.out.value.text;
               var front, back := env.host.render(l, after.lists), env.host.render(r, after.lists);
               front <= text && text[|front|..] == back
  {
    StrictEval(env, Binary(left, operator, right, Some(StringConcat)), st, fuel);
  }

  /** Arithmetic on a null operand raises a null pointer exception after both were evaluated. */
  lemma NullArithmeticRaises(env: Env, left: Expr, operator: BinaryOp, right: Expr, op: BinaryOp, kind: NumericKind, st: State, fuel: nat,
                             l: Value, middle: State, r: Value, after: State)
    requires Gives(env, left, st, fuel, l, middle) && Gives(env, right, middle, fuel, r, after)
    requires !operator.And? && !operator.Or? && (l.VNull? || r.VNull?)
    ensures var result := Eval(env, Binary(left, operator, right, Some(Numeric(op, kind))), st, fuel);
            result.st == after && RaisesNull(result.out)
  {
    StrictEval(env, Binary(left, operator, right, Some(Numeric(op, kind))), st, fuel);
    hide Eval;
  }

  predicate Orders(op: BinaryOp, x: int, y: int) {
    match op
    case Less => x < y
    case LessEqual => x < y || x == y
    case Greater => y < x
    case GreaterEqual => y < x || x == y
    case _ => false
  }

  lemma ComparisonGives(env: Env, left: Expr, op: BinaryOp, right: Expr, st: State, fuel: nat,
                        l: Value, middle: State, r: Value, after: State, x: int, y: int)
    requires Gives(env, left, st, fuel, l, middle) && Gives(env, right, middle, fuel, r, after)
    requires op.Less? || op.LessEqual? || op.Greater? || op.GreaterEqual?
    requires Carries(LongKind, l, x) && Carries(LongKind, r, y)
    ensures Gives(env, Binary(left, op, right, None), st, fuel, VBoolean(Orders(op, x, y)), after)
  {
    StrictEval(env, Binary(left, op, right, None), st, fuel);
    hide Eval;
    OrderExactly(l, r, x, y);
  }

  lemma NullComparisonRaises(env: Env, left: Expr, op: BinaryOp, right: Expr, st: State, fuel: nat,
                             l: Value, middle: State, r: Value, after: State)
    requires Gives(env, left, st, fuel, l, middle) && Gives(env, right, middle, fuel, r, after)
    requires op.Less? || op.LessEqual? || op.Greater? || op.GreaterEqual?
    requires l.VNull? || r.VNull?
    ensures var result := Eval(env, Binary(left, op, right, None), st, fuel);
            result.st == after && RaisesNull(result.out)
  {
    StrictEval(env, Binary(left, op, right, None), st, fuel);
    hide Eval;
  }

  /** The operands are equal: numbers as numbers, texts when they fold alike, everything else in kind. */
  predicate Same(host: Host, lists: Lists, l: Value, r: Value) {
    if (l.VInteger? || l.VLong?) && (r.VInteger? || r.VLong?) then l.number == r.number
    else
      match l
      case VString(s) => r.VString? && host.fold(s) == host.fold(r.text)
      case VBoolean(b) => r == VBoolean(b)
      case VCollection(i) => r.VCollection? && host.sameLists(i, r.id, lists)
      case VException(e) => r == VException(e)
      case VNull(_) => r.VNull?
      case VVoid => r.VVoid?
      case _ => false
  }

  lemma EqualityGives(env: Env, left: Expr, right: Expr, st: State, fuel: nat, l: Value, middle: State, r: Value, after: State)
    requires Gives(env, left, st, fuel, l, middle) && Gives(env, right, middle, fuel, r, after)
    ensures Gives(env, Binary(left, Equal, right, None), st, fuel, VBoolean(Same(env.host, after.lists, l, r)), after)
    ensures Gives(env, Binary(left, NotEqual, right, None), st, fuel, VBoolean(!Same(env.host, after.lists, l, r)), after)
  {
    StrictEval(env, Binary(left, Equal, right, None), st, fuel);
    StrictEval(env, Binary(left, NotEqual, right, None), st, fuel);
    hide Eval;
  }

  // ---------------------------------------------------------------- logic

  /** `&&` gives false after a false left operand, without the right one, and else what the right one gives. */
  lemma AndGives(env: Env, left: Expr, right: Expr, fact: Option<BinaryFact>, st: State, fuel: nat, a: bool, middle: State)
    requires Gives(env, left, st, fuel, VBoolean(a), middle)
    ensures var e := Binary(left, And, right, fact);
            && (!a ==> Gives(env, e, st, fuel, VBoolean(false), middle))
            && (a ==> forall b, after :: Gives(env, right, middle, fuel, VBoolean(b), after) ==> Gives(env, e, st, fuel, VBoolean(b), after))
            && (a ==> forall ty, after :: Gives(env, right, middle, fuel, VNull(ty), after) ==>
                        Eval(env, e, st, fuel).st == after && RaisesNull(Eval(env, e, st, fuel).out))
            && (a && !Eval(env, right, middle, fuel).out.Done? ==> Eval(env, e, st, fuel) == Eval(env, right, middle, fuel))
  {
    LazyEval(env, Binary(left, And, right, fact), st, fuel);
    hide Eval;
  }

  /** `||` gives true after a true left operand, without the right one, and else what the right one gives. */
  lemma OrGives(env: Env, left: Expr, right: Expr, fact: Option<BinaryFact>, st: State, fuel: nat, a: bool, middle: State)
    requires Gives(env, left, st, fuel, VBoolean(a), middle)
    ensures var e := Binary(left, Or, right, fact);
            && (a ==> Gives(env, e, st, fuel, VBoolean(true), middle))
            && (!a ==> forall b, after :: Gives(env, right, middle, fuel, VBoolean(b), after) ==> Gives(env, e, st, fuel, VBoolean(b), after))
            && (!a ==> forall ty, after :: Gives(env, right, middle, fuel, VNull(ty), after) ==>
                         Eval(env, e, st, fuel).st == after && RaisesNull(Eval(env, e, st, fuel).out))
            && (!a && !Eval(env, right, middle, fuel).out.Done? ==> Eval(env, e, st, fuel) == Eval(env, right, middle, fuel))
  {
    LazyEval(env, Binary(left, Or, right, fact), st, fuel);
    hide Eval;
  }

  lemma NotGives(env: Env, operand: Expr, fact: Option<UnaryFact>, st: State, fuel: nat, a: bool, after: State)
    requires Gives(env, operand, st, fuel, VBoolean(a), after)
    ensures Gives(env, Unary(Not, operand, fact), st, fuel, VBoolean(if a then false else true), after)
  {
    NotEval(env, Unary(Not, operand, fact), st, fuel);
    hide Eval;
  }

  /** `c ? t : f` is what the chosen operand is, in the state the condition left. */
  lemma ConditionalGives(env: Env, c: Expr, t: Expr, f: Expr, st: State, fuel: nat, a: bool, middle: State)
    requires Gives(env, c, st, fuel, VBoolean(a), middle)
    ensures a ==> Eval(env, Conditional(c, t, f), st, fuel) == Eval(env, t, middle, fuel)
    ensures !a ==> Eval(env, Conditional(c, t, f), st, fuel) == Eval(env, f, middle, fuel)
  {
    ConditionalEval(env, Conditional(c, t, f), st, fuel);
    hide Eval;
  }

  /** `l ?? r` is the left operand unless that is null. */
  lemma CoalesceGives(env: Env, left: Expr, right: Expr, st: State, fuel: nat, l: Value, middle: State)
    requires Gives(env, left, st, fuel, l, middle)
    ensures !l.VNull? ==> Gives(env, NullCoalesce(left, right), st, fuel, l, middle)
    ensures l.VNull? ==> Eval(env, NullCoalesce(left, right), st, fuel) == Eval(env, right, middle, fuel)
  {
    CoalesceEval(env, NullCoalesce(left, right), st, fuel);
    hide Eval;
  }

  /** A condition must be a Boolean: null raises, anything else escapes. */
  lemma ConditionExactly(env: Env, e: Expr, st: State, fuel: nat, v: Value, after: State)
    requires Gives(env, e, st, fuel, v, after)
    ensures var c := EvalBoolean(env, e, st, fuel);
            && c.st == after
            && (v.VBoolean? ==> c.out == Done(v.truth))
            && (v.VNull? ==> RaisesNull(c.out))
            && (!v.VBoolean? && !v.VNull? ==> c.out.Raise? && c.out.exception.escape == Some(WrongOperands))
  {
    hide Eval;
  }

  lemma SignGives(env: Env, op: UnaryOp, operand: Expr, kind: NumericKind, st: State, fuel: nat, v: Value, after: State, n: int, z: int)
    requires !op.Not? && Gives(env, operand, st, fuel, v, after) && Carries(kind, v, n)
    requires operand != IntLit(MAX_INT + 1) && operand != LongLit(MAX_LONG + 1)
    ensures z + n == 0 ==> var r := Eval(env, Unary(op, operand, Some(NegateOf(kind))), st, fuel);
                           r.st == after && Yields(kind, z, r.out)
    ensures InRange(kind, n) ==> var r := Eval(env, Unary(op, operand, Some(PositiveOf(kind))), st, fuel);
                                 r.st == after && Yields(kind, n, r.out)
  {
    SignEval(env, Unary(op, operand, Some(NegateOf(kind))), st, fuel);
    SignEval(env, Unary(op, operand, Some(PositiveOf(kind))), st, fuel);
    hide Eval, ApplyUnary;
    if z + n == 0 { NegationExactly(kind, v, n, z); }
    if InRange(kind, n) { PositiveExactly(kind, v, n); }
  }

  /** The least numbers of each width can be written, though their magnitudes cannot. */
  lemma LeastNumbers(env: Env, op: UnaryOp, st: State, fuel: nat)
    requires !op.Not?
    ensures Gives(env, Unary(op, IntLit(0x8000_0000), Some(NegateOf(IntegerKind))), st, fuel, VInteger(-0x8000_0000), st)
    ensures Gives(env, Unary(op, LongLit(0x8000_0000_0000_0000), Some(NegateOf(LongKind))), st, fuel, VLong(-0x8000_0000_0000_0000), st)
  {
  }
}
