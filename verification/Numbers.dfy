/** The operators on numbers. */
module Numbers {
  // What the operators compute, by defining equations: which number a difference, a quotient or a
  // remainder is, and when it is reported instead.

  import opened Wrappers
  import opened Syntax
  import opened Values

  /** The value is the number `n` for an operation of this kind: 32 bits, or 64 with Integers widened. */
  predicate Carries(kind: NumericKind, value: Value, n: int) {
    match kind
    case IntegerKind => value == VInteger(n) && -0x8000_0000 <= n <= 0x7fff_ffff
    case LongKind => value == VInteger(n) || value == VLong(n)
  }

  /** The outcome of computing `n`: that number in the width of the kind, or an arithmetic exception. */
  predicate Yields(kind: NumericKind, n: int, out: Outcome<Value>) {
    match kind
    case IntegerKind => if -0x8000_0000 <= n < 0x8000_0000 then out == Done(VInteger(n)) else Overflows(out)
    case LongKind => if -0x8000_0000_0000_0000 <= n < 0x8000_0000_0000_0000 then out == Done(VLong(n)) else Overflows(out)
  }

  predicate Overflows(out: Outcome<Value>) {
    out.Raise? && out.exception.ty == TBuiltin(MathError) && out.exception.escape.None?
  }

  // ---------------------------------------------------------------- arithmetic

  lemma SumExactly(kind: NumericKind, left: Value, right: Value, x: int, y: int, sum: int)
    requires Carries(kind, left, x) && Carries(kind, right, y) && sum - y == x
    ensures Yields(kind, sum, Arithmetic(Add, kind, left, right))
  {
  }

  lemma DifferenceExactly(kind: NumericKind, left: Value, right: Value, x: int, y: int, difference: int)
    requires Carries(kind, left, x) && Carries(kind, right, y) && difference + y == x
    ensures Yields(kind, difference, Arithmetic(Subtract, kind, left, right))
  {
  }

  lemma ProductExactly(kind: NumericKind, left: Value, right: Value, x: int, y: int, product: int)
    requires Carries(kind, left, x) && Carries(kind, right, y) && product == x * y
    ensures Yields(kind, product, Arithmetic(Multiply, kind, left, right))
  {
  }

  /** Division with a remainder that is smaller than the divisor and has the sign of the dividend. */
  predicate Divides(x: int, y: int, q: int, m: int) {
    && x == q * y + m
    && Magnitude(m) < Magnitude(y)
    && (m == 0 || (m > 0 <==> x > 0))
  }

  function Magnitude(n: int): (m: int)
    ensures 0 <= m && (m == 0 <==> n == 0)
  {
    if n < 0 then -n else n
  }

  /** The quotient and the remainder are the pair that divides; the remainder is reported together with
      the quotient, and both when the divisor is zero. */
  lemma DivisionExactly(kind: NumericKind, left: Value, right: Value, x: int, y: int, q: int, m: int)
    requires Carries(kind, left, x) && Carries(kind, right, y)
    requires y != 0 && Divides(x, y, q, m)
    ensures Yields(kind, q, Arithmetic(Divide, kind, left, right))
    ensures var r := Arithmetic(Remainder, kind, left, right);
            if InRange(kind, q) then Yields(kind, m, r) else Overflows(r)
  {
    QuotientDivides(x, y);
    hide Quotient;
    DivisionUnique(x, y, q, m, Quotient(x, y), x - y * Quotient(x, y));
    assert RemainderOf(x, y) == m;
  }

  lemma ZeroDivisor(kind: NumericKind, left: Value, right: Value, x: int)
    requires Carries(kind, left, x) && Carries(kind, right, 0)
    ensures Overflows(Arithmetic(Divide, kind, left, right)) && Overflows(Arithmetic(Remainder, kind, left, right))
  {
  }

  /** Every division with a remainder of this kind exists. */
  lemma QuotientDivides(x: int, y: int)
    requires y != 0
    ensures Divides(x, y, Quotient(x, y), x - y * Quotient(x, y))
  {
    var d: int := Magnitude(x) / Magnitude(y);
    var p: int := Magnitude(y) * d;
    EuclideanDivision(Magnitude(x), Magnitude(y));
    QuotientIs(x, y, d);
    hide Quotient;
    SignedProduct(x, y, d, p);
    Commutes(y, Quotient(x, y));
  }

  lemma QuotientIs(x: int, y: int, d: int)
    requires y != 0 && d == Magnitude(x) / Magnitude(y)
    ensures Quotient(x, y) == if (x >= 0) == (y > 0) then d else -d
  {
  }

  /** The divisor times the quotient has the sign of the dividend. */
  lemma SignedProduct(x: int, y: int, d: int, p: int)
    requires y != 0 && p == Magnitude(y) * d
    ensures y * (if (x >= 0) == (y > 0) then d else -d) == if x >= 0 then p else -p
  {
    Signs(Magnitude(y), d);
  }

  lemma EuclideanDivision(a: int, b: int)
    requires a >= 0 && b > 0
    ensures 0 <= a - b * (a / b) < b
  {
  }

  lemma Signs(b: int, d: int)
    ensures -b * d == -(b * d) && b * -d == -(b * d) && -b * -d == b * d
  {
  }

  lemma Commutes(a: int, b: int)
    ensures a * b == b * a
  {
  }

  /** and is unique. */
  lemma DivisionUnique(x: int, y: int, q: int, m: int, p: int, n: int)
    requires y != 0 && Divides(x, y, q, m) && Divides(x, y, p, n)
    ensures q == p && m == n
  {
    assert (q - p) * y == n - m;
    if q != p {
      AtLeast(q - p, y);
    }
  }

  lemma AtLeast(d: int, y: int)
    requires d != 0
    ensures Magnitude(d * y) >= Magnitude(y)
  {
    if d > 0 && y > 0 { assert d * y >= y; }
    else if d > 0 && y < 0 { assert d * y <= y; }
    else if d < 0 && y > 0 { assert d * y <= -y; }
    else if d < 0 && y < 0 { assert d * y >= -y; }
  }

  // ---------------------------------------------------------------- signs

  lemma NegationExactly(kind: NumericKind, value: Value, n: int, negation: int)
    requires Carries(kind, value, n) && negation + n == 0
    ensures Yields(kind, negation, ApplyUnary(NegateOf(kind), value))
  {
  }

  lemma PositiveExactly(kind: NumericKind, value: Value, n: int)
    requires Carries(kind, value, n) && InRange(kind, n)
    ensures Yields(kind, n, ApplyUnary(PositiveOf(kind), value))
  {
  }

  lemma StepExactly(kind: NumericKind, value: Value, n: int, delta: int, next: int)
    requires Carries(kind, value, n) && -1 <= delta <= 1 && next - n == delta
    ensures Yields(kind, next, Increment(kind, value, delta))
  {
  }

  /** No arithmetic on null. */
  lemma NullOperands(host: Host, lists: Lists, fact: BinaryFact, left: Value, right: Value, sign: UnaryFact)
    ensures fact.Numeric? && (left.VNull? || right.VNull?) ==> ApplyBinary(host, lists, fact, left, right) == Raise(Exn(TBuiltin(NullPointer), "", None, []))
    ensures left.VNull? ==> ApplyUnary(sign, left) == Raise(Exn(TBuiltin(NullPointer), "", None, []))
  {
  }

  // ---------------------------------------------------------------- comparison

  /** Comparisons of numbers are those of the numbers, whatever their widths. */
  lemma OrderExactly(left: Value, right: Value, x: int, y: int)
    requires (left == VInteger(x) || left == VLong(x)) && (right == VInteger(y) || right == VLong(y))
    ensures Compare(Less, left, right) == Done(VBoolean(y - x > 0))
    ensures Compare(LessEqual, left, right) == Done(VBoolean(y - x >= 0))
    ensures Compare(Greater, left, right) == Done(VBoolean(x - y > 0))
    ensures Compare(GreaterEqual, left, right) == Done(VBoolean(x - y >= 0))
  {
  }

  /** What equality means for each kind of value; values of different kinds are never equal, except that
      Integers and Longs are compared as numbers. */
  lemma EqualityExactly(host: Host, lists: Lists)
    ensures forall x: int, y: int ::
              && (OperatorEqual(host, lists, VInteger(x), VInteger(y)) <==> x - y == 0)
              && (OperatorEqual(host, lists, VInteger(x), VLong(y)) <==> x - y == 0)
              && (OperatorEqual(host, lists, VLong(x), VInteger(y)) <==> x - y == 0)
              && (OperatorEqual(host, lists, VLong(x), VLong(y)) <==> x - y == 0)
    ensures forall a: bool, b: bool :: OperatorEqual(host, lists, VBoolean(a), VBoolean(b)) <==> (a <==> b)
    ensures forall s: string, t: string :: OperatorEqual(host, lists, VString(s), VString(t)) <==> host.fold(s) == host.fold(t)
    ensures forall i: nat, j: nat :: OperatorEqual(host, lists, VCollection(i), VCollection(j)) <==> host.sameLists(i, j, lists)
    ensures forall e: Exn, f: Exn :: OperatorEqual(host, lists, VException(e), VException(f)) <==> e == f
    ensures forall v: Value, ty :: !v.VNull? ==> !OperatorEqual(host, lists, v, VNull(ty)) && !OperatorEqual(host, lists, VNull(ty), v)
    ensures forall s, t :: OperatorEqual(host, lists, VNull(s), VNull(t))
  {
  }
}
