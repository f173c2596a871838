/** The rules for types. */
module TypeRules {
  // The rules of the type system for types, as relations: which types are above which, what may be
  // assigned, cast, joined, combined by an operator and passed to which method. Each is proved to be what
  // the checker decides, on every class table.

  import opened Wrappers
  import ClassGraph
  import opened Syntax
  import opened Typing
  import opened Subtyping

  // ---------------------------------------------------------------- types

  /** A list of classes, each the superclass of the one before, that ends at the built-in `Exception`. */
  predicate LeadsToException(parents: seq<Parent>, chain: seq<nat>) {
    && chain != []
    && (forall i :: 0 <= i < |chain| ==> chain[i] < |parents|)
    && (forall i :: 0 <= i < |chain| - 1 ==> parents[chain[i]] == ParentClass(chain[i + 1]))
    && parents[chain[|chain| - 1]] == ExceptionRoot
  }

  ghost predicate ExceptionClass(parents: seq<Parent>, c: nat) {
    exists chain :: LeadsToException(parents, chain) && chain[0] == c
  }

  /** The types whose values can be thrown. */
  ghost predicate Throwable(classes: ClassTable, ty: Type) {
    match ty
    case TException => true
    case TBuiltin(_) => true
    case TCustom(c) => ExceptionClass(classes.parents, c)
    case _ => false
  }

  /** Only declared classes are named. */
  predicate Declared(classes: ClassTable, ty: Type) {
    (ty.TCustom? ==> ty.classId < |classes.graph|) && (ty.TList? ==> Declared(classes, ty.element))
  }

  /** Every value of the one type is a value of the other. */
  ghost predicate Under(classes: ClassTable, lower: Type, upper: Type) {
    match upper
    case TObject => true
    case TLong => lower == TInteger || lower == TLong
    case TException => Throwable(classes, lower)
    case TCustom(d) => lower == upper || (lower.TCustom? && ClassGraph.Reaches(classes.graph, lower.classId, d))
    case _ => lower == upper
  }

  ghost predicate Accepts(classes: ClassTable, slot: Type, t: ExprType) {
    t == ENull || (t.EValue? && Under(classes, t.ty, slot))
  }

  /** From a chain to the root no class is met twice, since both meetings would be equally far from it. */
  lemma {:induction false} SameDistance(parents: seq<Parent>, p: seq<nat>, q: seq<nat>)
    requires LeadsToException(parents, p) && LeadsToException(parents, q) && p[0] == q[0]
    ensures |p| == |q|
    decreases |p|
  {
    if |p| > 1 { assert parents[p[0]] == ParentClass(p[1]); }
    if |q| > 1 { assert parents[q[0]] == ParentClass(q[1]); }
    if |p| > 1 && |q| > 1 {
      SameDistance(parents, p[1..], q[1..]);
    }
  }

  lemma {:induction false} ChainFollowed(parents: seq<Parent>, chain: seq<nat>, at: nat, visited: set<nat>)
    requires LeadsToException(parents, chain) && at < |chain| && forall c :: c in visited ==> c in chain[..at]
    ensures ExtendsException(parents, chain[at], visited)
    decreases |chain| - at
  {
    if chain[at] in visited {
      var i :| 0 <= i < at && chain[i] == chain[at];
      assert LeadsToException(parents, chain[i..]) && LeadsToException(parents, chain[at..]);
      SameDistance(parents, chain[i..], chain[at..]);
    } else if at + 1 < |chain| {
      ChainFollowed(parents, chain, at + 1, visited + {chain[at]});
    }
  }

  lemma {:induction false} FollowedChain(parents: seq<Parent>, c: nat, visited: set<nat>)
    requires ExtendsException(parents, c, visited)
    ensures ExceptionClass(parents, c)
    decreases ClassGraph.Below(|parents|) - visited
  {
    if parents[c].ExceptionRoot? {
      assert LeadsToException(parents, [c]);
    } else {
      FollowedChain(parents, parents[c].classId, visited + {c});
      var chain :| LeadsToException(parents, chain) && chain[0] == parents[c].classId;
      assert LeadsToException(parents, [c] + chain);
    }
  }

  lemma ThrowableExactly(classes: ClassTable, ty: Type)
    ensures IsExceptionType(classes, ty) <==> Throwable(classes, ty)
  {
    if ty.TCustom? {
      if IsCustomException(classes, ty.classId) { FollowedChain(classes.parents, ty.classId, {}); }
      if ExceptionClass(classes.parents, ty.classId) {
        var chain :| LeadsToException(classes.parents, chain) && chain[0] == ty.classId;
        ChainFollowed(classes.parents, chain, 0, {});
      }
    }
  }

  lemma DeclaredExactly(classes: ClassTable, ty: Type)
    ensures ValidType(classes, ty) <==> Declared(classes, ty)
  {
  }

  lemma UnderExactly(classes: ClassTable, lower: Type, upper: Type)
    ensures IsSubtype(classes, lower, upper) <==> Under(classes, lower, upper)
  {
    ThrowableExactly(classes, lower);
    if lower.TCustom? && upper.TCustom? { ClassGraph.InheritsIsReaches(classes.graph, lower.classId, upper.classId); }
  }

  lemma AcceptsExactly(classes: ClassTable, slot: Type, t: ExprType)
    ensures IsAssignable(classes, slot, t) <==> Accepts(classes, slot, t)
  {
    if t.EValue? { UnderExactly(classes, t.ty, slot); }
  }

  // ---------------------------------------------------------------- casts and joins

  /** A cast goes up or down; null casts to everything. */
  ghost predicate Casts(classes: ClassTable, t: ExprType, ty: Type) {
    t == ENull || (t.EValue? && (Under(classes, t.ty, ty) || Under(classes, ty, t.ty)))
  }

  lemma CastsExactly(classes: ClassTable, t: ExprType, ty: Type)
    ensures CastAllowed(classes, t, ty) <==> Casts(classes, t, ty)
  {
    if t.EValue? {
      UnderExactly(classes, t.ty, ty);
      UnderExactly(classes, ty, t.ty);
      ThrowableExactly(classes, t.ty);
      ThrowableExactly(classes, ty);
    }
  }

  /** The type of a choice between two operands: that of the other operand beside null, the upper of two
      comparable types, and `Object` for all others. */
  ghost predicate Joins(classes: ClassTable, l: ExprType, r: ExprType, t: ExprType) {
    && l != EVoid && r != EVoid
    && (l == ENull ==> t == r)
    && (r == ENull ==> t == l)
    && (l.EValue? && r.EValue? ==>
          if Under(classes, l.ty, r.ty) then t == r else if Under(classes, r.ty, l.ty) then t == l else t == EValue(TObject))
  }

  lemma JoinsExactly(classes: ClassTable, l: ExprType, r: ExprType, t: ExprType)
    ensures Join(classes, l, r) == Ok(t) <==> Joins(classes, l, r, t)
  {
    if l.EValue? && r.EValue? {
      UnderExactly(classes, l.ty, r.ty);
      UnderExactly(classes, r.ty, l.ty);
    }
  }

  // ---------------------------------------------------------------- operators

  predicate Integral(t: ExprType, kind: NumericKind) {
    match kind
    case IntegerKind => t == EValue(TInteger)
    case LongKind => t == EValue(TLong)
  }

  /** The width of an operation on two numbers: 64 bits as soon as one operand has them. */
  predicate Widens(l: ExprType, r: ExprType, kind: NumericKind) {
    && (Integral(l, IntegerKind) || Integral(l, LongKind))
    && (Integral(r, IntegerKind) || Integral(r, LongKind))
    && (kind == LongKind <==> Integral(l, LongKind) || Integral(r, LongKind))
  }

  /** What an operator gives for operands of these types, and what is recorded for its evaluation. */
  ghost predicate Operates(op: BinaryOp, l: ExprType, r: ExprType, t: ExprType, fact: Option<BinaryFact>) {
    || ((op == Add || op == Subtract || op == Multiply || op == Divide || op == Remainder) &&
          exists kind :: Widens(l, r, kind) && Integral(t, kind) && fact == Some(Numeric(op, kind)))
    || (op == Add && l != EVoid && r != EVoid && (l == EValue(TString) || r == EValue(TString))
        && t == EValue(TString) && fact == Some(StringConcat))
    || ((op == Less || op == LessEqual || op == Greater || op == GreaterEqual)
        && (exists kind :: Widens(l, r, kind)) && t == EValue(TBoolean) && fact == None)
    || ((op == Equal || op == NotEqual) && l != EVoid && r != EVoid
        && (l == ENull || r == ENull || l == r || exists kind :: Widens(l, r, kind)) && t == EValue(TBoolean) && fact == None)
    || ((op == And || op == Or) && l == EValue(TBoolean) && r == EValue(TBoolean) && t == EValue(TBoolean) && fact == None)
  }

  lemma WidensExactly(l: ExprType, r: ExprType, kind: NumericKind)
    ensures Promote(l, r) == Some(kind) <==> Widens(l, r, kind)
  {
  }

  lemma OperatesExactly(op: BinaryOp, l: ExprType, r: ExprType, t: ExprType, fact: Option<BinaryFact>)
    ensures BinaryType(l, op, r) == Ok((t, fact)) <==> Operates(op, l, r, t, fact)
  {
    hide BinaryType, Operates;
    if op.Add? || op.Subtract? || op.Multiply? || op.Divide? || op.Remainder? {
      ArithmeticExactly(op, l, r, t, fact);
    } else {
      ComparisonExactly(op, l, r, t, fact);
    }
  }

  lemma ComparisonExactly(op: BinaryOp, l: ExprType, r: ExprType, t: ExprType, fact: Option<BinaryFact>)
    requires !op.Add? && !op.Subtract? && !op.Multiply? && !op.Divide? && !op.Remainder?
    ensures BinaryType(l, op, r) == Ok((t, fact)) <==> Operates(op, l, r, t, fact)
  {
    WidensExactly(l, r, IntegerKind);
    WidensExactly(l, r, LongKind);
    assert Promote(l, r).Some? ==> Widens(l, r, Promote(l, r).value);
    hide Widens, Promote, Integral, TypeOfKind;
  }

  lemma ArithmeticExactly(op: BinaryOp, l: ExprType, r: ExprType, t: ExprType, fact: Option<BinaryFact>)
    requires op.Add? || op.Subtract? || op.Multiply? || op.Divide? || op.Remainder?
    ensures BinaryType(l, op, r) == Ok((t, fact)) <==> Operates(op, l, r, t, fact)
  {
    hide BinaryType, Operates;
    if Promote(l, r).Some? { NumbersOperate(op, l, r, Promote(l, r).value, t, fact); } else { OthersOperate(op, l, r, t, fact); }
  }

  lemma NumbersOperate(op: BinaryOp, l: ExprType, r: ExprType, kind: NumericKind, t: ExprType, fact: Option<BinaryFact>)
    requires op.Add? || op.Subtract? || op.Multiply? || op.Divide? || op.Remainder?
    requires Promote(l, r) == Some(kind)
    ensures BinaryType(l, op, r) == Ok((t, fact)) <==> Operates(op, l, r, t, fact)
  {
    assert l != EValue(TString) && r != EValue(TString) && Widens(l, r, kind);
    assert forall k :: Widens(l, r, k) ==> k == kind;
    assert Integral(t, kind) <==> t == EValue(TypeOfKind(kind));
    hide Widens, Promote, Integral, TypeOfKind;
  }

  lemma OthersOperate(op: BinaryOp, l: ExprType, r: ExprType, t: ExprType, fact: Option<BinaryFact>)
    requires op.Add? || op.Subtract? || op.Multiply? || op.Divide? || op.Remainder?
    requires Promote(l, r) == None
    ensures BinaryType(l, op, r) == Ok((t, fact)) <==> Operates(op, l, r, t, fact)
  {
    assert forall k :: !Widens(l, r, k);
    hide Widens, Promote, Integral, TypeOfKind;
  }

  /** The operator inside a compound assignment. */
  predicate CompoundOf(assign: AssignOp, op: BinaryOp) {
    match op
    case Add => assign == AddAssign
    case Subtract => assign == SubtractAssign
    case Multiply => assign == MultiplyAssign
    case Divide => assign == DivideAssign
    case Remainder => assign == RemainderAssign
    case _ => false
  }

  // ---------------------------------------------------------------- calls

  /** The method has this name and takes arguments of these types. */
  ghost predicate Takes(classes: ClassTable, methods: seq<Method>, name: Name, arguments: seq<ExprType>, m: nat) {
    && m < |methods| && methods[m].name == name && |methods[m].parameters| == |arguments|
    && forall i :: 0 <= i < |arguments| ==> Accepts(classes, methods[m].parameters[i].ty, arguments[i])
  }

  /** Every parameter of the one method is under that of the other, and not all are the same. */
  ghost predicate Beats(classes: ClassTable, m: Method, other: Method) {
    && |m.parameters| == |other.parameters|
    && (forall i :: 0 <= i < |m.parameters| ==> Under(classes, m.parameters[i].ty, other.parameters[i].ty))
    && exists i :: 0 <= i < |m.parameters| && m.parameters[i].ty != other.parameters[i].ty
  }

  ghost predicate Unbeaten(classes: ClassTable, methods: seq<Method>, name: Name, arguments: seq<ExprType>, m: nat) {
    && Takes(classes, methods, name, arguments, m)
    && !exists k: nat :: Takes(classes, methods, name, arguments, k) && Beats(classes, methods[k], methods[m])
  }

  /** A call means the one method that takes the arguments and is not beaten by another that does. */
  ghost predicate Resolves(classes: ClassTable, methods: seq<Method>, name: Name, arguments: seq<ExprType>, m: nat) {
    forall k: nat :: Unbeaten(classes, methods, name, arguments, k) <==> k == m
  }

  lemma TakesExactly(classes: ClassTable, methods: seq<Method>, name: Name, arguments: seq<ExprType>, m: nat)
    ensures Fits(classes, methods, name, arguments, m) <==> Takes(classes, methods, name, arguments, m)
  {
    if m < |methods| && |methods[m].parameters| == |arguments| {
      forall i | 0 <= i < |arguments|
        ensures IsAssignable(classes, methods[m].parameters[i].ty, arguments[i]) <==> Accepts(classes, methods[m].parameters[i].ty, arguments[i])
      {
        AcceptsExactly(classes, methods[m].parameters[i].ty, arguments[i]);
      }
    }
    hide IsAssignable, Accepts;
  }

  lemma BeatsExactly(classes: ClassTable, m: Method, other: Method)
    requires |m.parameters| == |other.parameters|
    ensures MoreSpecific(classes, ParameterTypes(m.parameters), ParameterTypes(other.parameters)) <==> Beats(classes, m, other)
  {
    var l, r := ParameterTypes(m.parameters), ParameterTypes(other.parameters);
    forall i | 0 <= i < |m.parameters|
      ensures l[i] == r[i] || IsSubtype(classes, l[i], r[i]) <==> Under(classes, m.parameters[i].ty, other.parameters[i].ty)
    {
      UnderExactly(classes, l[i], r[i]);
    }
    hide IsSubtype, Under;
    if MoreSpecific(classes, l, r) {
      var i :| 0 <= i < |l| && l[i] != r[i];
      assert m.parameters[i].ty != other.parameters[i].ty;
    }
    if Beats(classes, m, other) {
      var i :| 0 <= i < |m.parameters| && m.parameters[i].ty != other.parameters[i].ty;
      assert l[i] != r[i];
    }
  }

  lemma {:induction false} UndominatedOnce(classes: ClassTable, candidates: seq<seq<Type>>, from: nat)
    requires from <= |candidates|
    ensures Increasing(UndominatedFrom(classes, candidates, from), from)
    decreases |candidates| - from
  {
    hide Undominated;
    if from < |candidates| { UndominatedOnce(classes, candidates, from + 1); }
  }

  /** The table finds exactly the unbeaten methods. */
  lemma UnbeatenExactly(classes: ClassTable, methods: seq<Method>, name: Name, arguments: seq<ExprType>, i: nat)
    requires i < |ApplicableMethods(classes, methods, name, arguments, 0)|
    ensures var ids := ApplicableMethods(classes, methods, name, arguments, 0);
            && ids[i] < |methods|
            && (Undominated(classes, CandidateTypes(methods, ids), i) <==> Unbeaten(classes, methods, name, arguments, ids[i]))
  {
    FittingTable(classes, methods, name, arguments);
    var ids := ApplicableMethods(classes, methods, name, arguments, 0);
    var candidates := CandidateTypes(methods, ids);
    forall k: nat ensures Fits(classes, methods, name, arguments, k) <==> Takes(classes, methods, name, arguments, k) {
      TakesExactly(classes, methods, name, arguments, k);
    }
    var m := ids[i];
    assert Takes(classes, methods, name, arguments, m);
    forall j | 0 <= j < |ids|
      ensures ids[j] < |methods| && (MoreSpecific(classes, candidates[j], candidates[i]) <==> Beats(classes, methods[ids[j]], methods[m]))
    {
      assert Takes(classes, methods, name, arguments, ids[j]);
      BeatsExactly(classes, methods[ids[j]], methods[m]);
    }
    hide MoreSpecific, ApplicableMethods, CandidateTypes, Fits, Takes, Beats;
    if Undominated(classes, candidates, i) && exists k: nat :: Takes(classes, methods, name, arguments, k) && Beats(classes, methods[k], methods[m]) {
      assert false;
    }
  }

  lemma ResolvesExactly(classes: ClassTable, methods: seq<Method>, name: Name, arguments: seq<ExprType>, m: nat)
    ensures SelectMethod(classes, methods, name, arguments) == Ok(m) <==> Resolves(classes, methods, name, arguments, m)
  {
    if SelectMethod(classes, methods, name, arguments) == Ok(m) { SelectedResolves(classes, methods, name, arguments, m); }
    if Resolves(classes, methods, name, arguments, m) { ResolvedSelected(classes, methods, name, arguments, m); }
  }

  lemma SelectedResolves(classes: ClassTable, methods: seq<Method>, name: Name, arguments: seq<ExprType>, m: nat)
    requires SelectMethod(classes, methods, name, arguments) == Ok(m)
    ensures Resolves(classes, methods, name, arguments, m)
  {
    var i := SelectedAlone(classes, methods, name, arguments, m);
    hide ApplicableMethods, CandidateTypes, Unbeaten, SelectMethod, Undominated, Applicable;
    UnbeatenExactly(classes, methods, name, arguments, i);
    forall k: nat | Unbeaten(classes, methods, name, arguments, k) ensures k == m {
      var j := UnbeatenInTable(classes, methods, name, arguments, k);
    }
  }

  lemma SelectedAlone(classes: ClassTable, methods: seq<Method>, name: Name, arguments: seq<ExprType>, m: nat) returns (i: nat)
    requires SelectMethod(classes, methods, name, arguments) == Ok(m)
    ensures var ids := ApplicableMethods(classes, methods, name, arguments, 0);
            && i < |ids| && ids[i] == m
            && forall j :: 0 <= j < |ids| && Undominated(classes, CandidateTypes(methods, ids), j) ==> j == i
    ensures Undominated(classes, CandidateTypes(methods, ApplicableMethods(classes, methods, name, arguments, 0)), i)
  {
    hide ApplicableMethods, Undominated, UndominatedFrom, Applicable;
    var candidates := CandidateTypes(methods, ApplicableMethods(classes, methods, name, arguments, 0));
    var undominated := UndominatedFrom(classes, candidates, 0);
    i := undominated[0];
    assert i in undominated;
    assert undominated == [i];
  }

  lemma UnbeatenInTable(classes: ClassTable, methods: seq<Method>, name: Name, arguments: seq<ExprType>, k: nat) returns (j: nat)
    requires Unbeaten(classes, methods, name, arguments, k)
    ensures var ids := ApplicableMethods(classes, methods, name, arguments, 0);
            j < |ids| && ids[j] == k && Undominated(classes, CandidateTypes(methods, ids), j)
  {
    FittingTable(classes, methods, name, arguments);
    UnbeatenTakes(classes, methods, name, arguments, k);
    TakesExactly(classes, methods, name, arguments, k);
    hide ApplicableMethods, CandidateTypes, Fits, Takes, Unbeaten, Undominated;
    j :| 0 <= j < |ApplicableMethods(classes, methods, name, arguments, 0)| && ApplicableMethods(classes, methods, name, arguments, 0)[j] == k;
    UnbeatenExactly(classes, methods, name, arguments, j);
  }

  lemma UnbeatenTakes(classes: ClassTable, methods: seq<Method>, name: Name, arguments: seq<ExprType>, m: nat)
    requires Unbeaten(classes, methods, name, arguments, m)
    ensures Takes(classes, methods, name, arguments, m)
  {
  }

  lemma ResolvedSelected(classes: ClassTable, methods: seq<Method>, name: Name, arguments: seq<ExprType>, m: nat)
    requires Resolves(classes, methods, name, arguments, m)
    ensures SelectMethod(classes, methods, name, arguments) == Ok(m)
  {
    FittingTable(classes, methods, name, arguments);
    var ids := ApplicableMethods(classes, methods, name, arguments, 0);
    var candidates := CandidateTypes(methods, ids);
    var undominated := UndominatedFrom(classes, candidates, 0);
    assert Unbeaten(classes, methods, name, arguments, m);
    UnbeatenTakes(classes, methods, name, arguments, m);
    TakesExactly(classes, methods, name, arguments, m);
    var i :| 0 <= i < |ids| && ids[i] == m;
    UndominatedOnce(classes, candidates, 0);
    assert m < |methods| && methods[m].name == name;
    hide ApplicableMethods, CandidateTypes, Fits, Takes, Unbeaten, UndominatedFrom, Undominated;
    forall j | 0 <= j < |candidates| ensures j in undominated <==> j == i {
      UnbeatenExactly(classes, methods, name, arguments, j);
    }
    assert i in undominated;
    Singleton(undominated, i);
  }

  lemma Singleton(s: seq<nat>, i: nat)
    requires Increasing(s, 0) && i in s && forall j :: j in s ==> j == i
    ensures s == [i]
  {
    if |s| > 1 { assert s[0] in s && s[1] in s; }
    assert s[0] in s;
  }
}
