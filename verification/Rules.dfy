/** The typing rules for expressions, as a relation between an expression, the expression with its facts
    filled in, and its type. A rule names the types of the operands and what must hold of them; it does
    not say how the types are found. The checker is proved to find exactly what the rules derive. */
module Rules {
  import opened Wrappers
  import opened Syntax
  import opened Typing
  import opened Checker
  import opened TypeRules

  /** What surrounds a statement: the classes, the methods, the return type of the enclosing method, and
      whether there is an enclosing loop. */
  datatype Surroundings = Surroundings(classes: ClassTable, methods: seq<Method>, returnType: Option<ReturnType>, inLoop: bool)

  function Of(cx: Context): Surroundings {
    Surroundings(cx.classes, cx.methods, cx.returnType, cx.loopDepth > 0)
  }

  /** The innermost scope that has the name gives it this type. */
  predicate Names(scopes: seq<TypeScope>, x: Name, ty: Type) {
    exists i :: 0 <= i < |scopes| && x in scopes[i] && scopes[i][x] == ty && forall j :: i < j < |scopes| ==> x !in scopes[j]
  }

  /** What a call of a method with this return type gives. */
  predicate Delivers(returnType: ReturnType, t: ExprType) {
    match t
    case EVoid => returnType == RVoid
    case EValue(ty) => returnType == RValue(ty)
    case ENull => false
  }

  ghost predicate Elaborates(g: Surroundings, scopes: seq<TypeScope>, e: Expr, f: Expr, t: ExprType)
    decreases e, 0
  {
    match e
    case StringLit(_) => f == e && t == EValue(TString)
    case BoolLit(_) => f == e && t == EValue(TBoolean)
    case IntLit(n) => f == e && t == EValue(if n <= 0x7fff_ffff then TInteger else TLong)
    case LongLit(n) => f == e && t == EValue(TLong) && n <= 0x7fff_ffff_ffff_ffff
    case NullLit => f == e && t == ENull
    case Var(x) => f == e && t.EValue? && Names(scopes, x, t.ty)
    case Assignment(target, op, value, _) =>
      && f.Assignment? && f.op == op && t.EValue? && Places(g, scopes, target, f.target, t.ty)
      && exists v :: Elaborates(g, scopes, value, f.value, v) && Stores(g.classes, op, t.ty, v, f.fact)
    case Mutation(target, delta, returnOld) =>
      && f.Mutation? && f.delta == delta && f.returnOld == returnOld && (t == EValue(TInteger) || t == EValue(TLong))
      && Places(g, scopes, target, f.target, t.ty)
    case NewList(ty, elements) =>
      && f.NewList? && f.element == ty && t == EValue(TList(ty)) && Declared(g.classes, ty)
      && exists ts :: ElaboratesAll(g, scopes, elements, f.elements, ts) && forall i :: 0 <= i < |ts| ==> Accepts(g.classes, ty, ts[i])
    case NewException(ty, message) =>
      && t == EValue(ty) && Throwable(g.classes, ty) && Declared(g.classes, ty)
      && f.NewException? && f.ty == ty && f.message.Some? == message.Some?
      && (message.Some? ==> exists m :: Elaborates(g, scopes, message.value, f.message.value, m) && Describes(g.classes, ty, m))
    case Index(list, index) =>
      && f.Index? && t.EValue?
      && Elaborates(g, scopes, list, f.list, EValue(TList(t.ty))) && Elaborates(g, scopes, index, f.index, EValue(TInteger))
    case Call(name, arguments, _) =>
      && f.Call? && f.name == name && f.callee.Some? && f.callee.value < |g.methods|
      && Delivers(g.methods[f.callee.value].returnType, t)
      && exists ts :: ElaboratesAll(g, scopes, arguments, f.arguments, ts) && Resolves(g.classes, g.methods, name, ts, f.callee.value)
    case ListCall(receiver, method_, arguments) =>
      && f.ListCall? && f.method_ == method_
      && exists element, ts ::
           && Elaborates(g, scopes, receiver, f.receiver, EValue(TList(element)))
           && ElaboratesAll(g, scopes, arguments, f.arguments, ts) && CallsList(g.classes, element, method_, ts, t)
    case Debug(argument) =>
      f.Debug? && t == EVoid && exists a :: Elaborates(g, scopes, argument, f.argument, a) && a != EVoid
    case Cast(ty, operand) =>
      f.Cast? && f.ty == ty && t == EValue(ty) && exists o :: Elaborates(g, scopes, operand, f.operand, o) && Casts(g.classes, o, ty)
    case Conditional(condition, whenTrue, whenFalse) =>
      && f.Conditional? && Elaborates(g, scopes, condition, f.condition, EValue(TBoolean))
      && exists a, b :: Elaborates(g, scopes, whenTrue, f.whenTrue, a) && Elaborates(g, scopes, whenFalse, f.whenFalse, b)
                        && Joins(g.classes, a, b, t)
    case NullCoalesce(left, right) =>
      && f.NullCoalesce?
      && exists a, b :: Elaborates(g, scopes, left, f.left, a) && Elaborates(g, scopes, right, f.right, b) && Joins(g.classes, a, b, t)
    case Unary(op, operand, _) =>
      && f.Unary? && f.unaryOp == op
      && (match op
          case Not => f.unaryFact == None && t == EValue(TBoolean) && Elaborates(g, scopes, operand, f.operand, t)
          case Positive =>
            Elaborates(g, scopes, operand, f.operand, t) && exists kind :: Integral(t, kind) && f.unaryFact == Some(PositiveOf(kind))
          case Negate =>
            && (exists kind :: Integral(t, kind) && f.unaryFact == Some(NegateOf(kind)))
            && if operand == IntLit(0x8000_0000) then f.operand == operand && t == EValue(TInteger)
               else if operand == LongLit(0x8000_0000_0000_0000) then f.operand == operand && t == EValue(TLong)
               else Elaborates(g, scopes, operand, f.operand, t))
    case Binary(left, op, right, _) =>
      && f.Binary? && f.binaryOp == op
      && exists a, b :: Elaborates(g, scopes, left, f.left, a) && Elaborates(g, scopes, right, f.right, b) && Operates(op, a, b, t, f.fact)
  }

  /** The expressions in order, each with its own type. */
  ghost predicate ElaboratesAll(g: Surroundings, scopes: seq<TypeScope>, es: seq<Expr>, fs: seq<Expr>, ts: seq<ExprType>)
    decreases es, 0
  {
    |fs| == |es| == |ts| && forall i :: 0 <= i < |es| ==> Elaborates(g, scopes, es[i], fs[i], ts[i])
  }

  /** A variable, or an element of a list by an Integer. */
  ghost predicate Places(g: Surroundings, scopes: seq<TypeScope>, target: Target, f: Target, ty: Type)
    decreases target, 0
  {
    match target
    case VarTarget(x) => f == target && Names(scopes, x, ty)
    case IndexTarget(list, index) =>
      f.IndexTarget? && Elaborates(g, scopes, list, f.list, EValue(TList(ty))) && Elaborates(g, scopes, index, f.index, EValue(TInteger))
  }

  /** A place takes the value, or the result of the operator on the place and the value. */
  ghost predicate Stores(classes: ClassTable, assign: AssignOp, ty: Type, v: ExprType, fact: Option<BinaryFact>) {
    if assign == Assign then fact == None && Accepts(classes, ty, v)
    else exists op, r :: CompoundOf(assign, op) && Operates(op, EValue(ty), v, r, fact) && Accepts(classes, ty, r)
  }

  /** What an exception of this type takes as its message. */
  ghost predicate Describes(classes: ClassTable, ty: Type, m: ExprType) {
    if ty.TCustom? then m == EValue(TString) else Accepts(classes, TString, m)
  }

  ghost predicate CallsList(classes: ClassTable, element: Type, method_: ListMethod, ts: seq<ExprType>, t: ExprType) {
    match method_
    case ListAdd => |ts| == 1 && Accepts(classes, element, ts[0]) && t == EVoid
    case ListClear => ts == [] && t == EVoid
    case ListSize => ts == [] && t == EValue(TInteger)
  }

  // ---------------------------------------------------------------- parts of the rules

  lemma {:induction false} LookupFinds(scopes: seq<TypeScope>, x: Name, ty: Type)
    ensures LookupType(scopes, x) == Some(ty) <==> Names(scopes, x, ty)
    decreases |scopes|
  {
    if scopes != [] && x !in scopes[|scopes| - 1] {
      var front := scopes[..|scopes| - 1];
      LookupFinds(front, x, ty);
      if Names(scopes, x, ty) {
        var i :| 0 <= i < |scopes| && x in scopes[i] && scopes[i][x] == ty && forall j :: i < j < |scopes| ==> x !in scopes[j];
        assert front[i] == scopes[i];
      }
      if Names(front, x, ty) {
        var i :| 0 <= i < |front| && x in front[i] && front[i][x] == ty && forall j :: i < j < |front| ==> x !in front[j];
        assert scopes[i] == front[i] && forall j :: i < j < |front| ==> scopes[j] == front[j];
      }
    }
  }

  lemma StoresExactly(classes: ClassTable, assign: AssignOp, ty: Type, v: ExprType, fact: Option<BinaryFact>)
    ensures assign.Assign? ==> (Stores(classes, assign, ty, v, fact) <==> fact == None && IsAssignable(classes, ty, v))
    ensures !assign.Assign? ==>
              var r := BinaryType(EValue(ty), assign.Operator(), v);
              Stores(classes, assign, ty, v, fact) <==> r.Ok? && r.value.1 == fact && IsAssignable(classes, ty, r.value.0)
  {
    hide Operates, Accepts, IsAssignable, BinaryType;
    if assign.Assign? {
      AcceptsExactly(classes, ty, v);
    } else {
      hide CompoundOf, Stores;
      var r := BinaryType(EValue(ty), assign.Operator(), v);
      if r.Ok? && r.value.1 == fact && IsAssignable(classes, ty, r.value.0) { CompoundStores(classes, assign, ty, v, fact); }
      if Stores(classes, assign, ty, v, fact) { StoredCompound(classes, assign, ty, v, fact); }
    }
  }

  lemma CompoundStores(classes: ClassTable, assign: AssignOp, ty: Type, v: ExprType, fact: Option<BinaryFact>)
    requires !assign.Assign?
    requires var r := BinaryType(EValue(ty), assign.Operator(), v); r.Ok? && r.value.1 == fact && IsAssignable(classes, ty, r.value.0)
    ensures Stores(classes, assign, ty, v, fact)
  {
    var r := BinaryType(EValue(ty), assign.Operator(), v);
    OnlyCompound(assign);
    hide Operates, Accepts, IsAssignable, BinaryType, CompoundOf;
    OperatesExactly(assign.Operator(), EValue(ty), v, r.value.0, r.value.1);
    AcceptsExactly(classes, ty, r.value.0);
  }

  lemma StoredCompound(classes: ClassTable, assign: AssignOp, ty: Type, v: ExprType, fact: Option<BinaryFact>)
    requires !assign.Assign? && Stores(classes, assign, ty, v, fact)
    ensures var r := BinaryType(EValue(ty), assign.Operator(), v); r.Ok? && r.value.1 == fact && IsAssignable(classes, ty, r.value.0)
  {
    OnlyCompound(assign);
    hide Operates, Accepts, IsAssignable, BinaryType, CompoundOf;
    var o, t :| CompoundOf(assign, o) && Operates(o, EValue(ty), v, t, fact) && Accepts(classes, ty, t);
    OperatesExactly(o, EValue(ty), v, t, fact);
    AcceptsExactly(classes, ty, t);
  }

  lemma OnlyCompound(assign: AssignOp)
    requires !assign.Assign?
    ensures CompoundOf(assign, assign.Operator()) && forall o :: CompoundOf(assign, o) ==> o == assign.Operator()
  {
  }

  // ---------------------------------------------------------------- the checker finds what is derivable

  ghost predicate Finds(cx: Context, scopes: seq<TypeScope>, e: Expr, f: Expr, t: ExprType) {
    CheckExpr(cx, scopes, e) == Ok(Typed(f, t))
  }

  lemma {:induction false} DerivableFound(cx: Context, scopes: seq<TypeScope>, e: Expr, f: Expr, t: ExprType)
    requires Elaborates(Of(cx), scopes, e, f, t)
    ensures Finds(cx, scopes, e, f, t)
    decreases e, 2
  {
    hide Elaborates, Finds;
    match e
    case Assignment(_, _, _, _) => AssignmentFound(cx, scopes, e, f, t);
    case Mutation(_, _, _) => MutationFound(cx, scopes, e, f, t);
    case NewList(_, _) => NewListFound(cx, scopes, e, f, t);
    case NewException(_, _) => NewExceptionFound(cx, scopes, e, f, t);
    case Index(_, _) => IndexFound(cx, scopes, e, f, t);
    case Call(_, _, _) => CallFound(cx, scopes, e, f, t);
    case ListCall(_, _, _) => ListCallFound(cx, scopes, e, f, t);
    case Debug(_) => DebugFound(cx, scopes, e, f, t);
    case Cast(_, _) => CastFound(cx, scopes, e, f, t);
    case Conditional(_, _, _) => ConditionalFound(cx, scopes, e, f, t);
    case NullCoalesce(_, _) => CoalesceFound(cx, scopes, e, f, t);
    case Unary(_, _, _) => UnaryFound(cx, scopes, e, f, t);
    case Binary(_, _, _, _) => BinaryFound(cx, scopes, e, f, t);
    case _ => LeafFound(cx, scopes, e, f, t);
  }

  lemma LeafFound(cx: Context, scopes: seq<TypeScope>, e: Expr, f: Expr, t: ExprType)
    requires e.StringLit? || e.BoolLit? || e.IntLit? || e.LongLit? || e.NullLit? || e.Var?
    ensures Elaborates(Of(cx), scopes, e, f, t) <==> Finds(cx, scopes, e, f, t)
  {
    if e.Var? && t.EValue? { LookupFinds(scopes, e.name, t.ty); }
    hide Names;
  }

  lemma {:induction false} AllFound(cx: Context, scopes: seq<TypeScope>, es: seq<Expr>, fs: seq<Expr>, ts: seq<ExprType>)
    requires ElaboratesAll(Of(cx), scopes, es, fs, ts)
    ensures CheckExprs(cx, scopes, es).Ok?
    ensures Exprs(CheckExprs(cx, scopes, es).value) == fs && Types(CheckExprs(cx, scopes, es).value) == ts
    decreases es, 1
  {
    hide Elaborates, CheckExpr;
    if es != [] {
      DerivableFound(cx, scopes, es[0], fs[0], ts[0]);
      AllFound(cx, scopes, es[1..], fs[1..], ts[1..]);
      var all := CheckExprs(cx, scopes, es).value;
      assert all == [Typed(fs[0], ts[0])] + CheckExprs(cx, scopes, es[1..]).value;
      assert fs == [fs[0]] + fs[1..] && ts == [ts[0]] + ts[1..];
      assert forall i :: 0 < i < |es| ==> all[i].expr == Exprs(CheckExprs(cx, scopes, es[1..]).value)[i - 1];
      assert forall i :: 0 < i < |es| ==> all[i].ty == Types(CheckExprs(cx, scopes, es[1..]).value)[i - 1];
    }
  }

  lemma {:induction false} PlaceFound(cx: Context, scopes: seq<TypeScope>, target: Target, f: Target, ty: Type)
    requires Places(Of(cx), scopes, target, f, ty)
    ensures CheckTarget(cx, scopes, target) == Ok((f, ty))
    decreases target, 1
  {
    hide Elaborates, CheckExpr;
    match target
    case VarTarget(x) => LookupFinds(scopes, x, ty);
    case IndexTarget(list, index) =>
      DerivableFound(cx, scopes, list, f.list, EValue(TList(ty)));
      DerivableFound(cx, scopes, index, f.index, EValue(TInteger));
  }

  lemma {:induction false} AssignmentFound(cx: Context, scopes: seq<TypeScope>, e: Expr, f: Expr, t: ExprType)
    requires e.Assignment? && Elaborates(Of(cx), scopes, e, f, t)
    ensures Finds(cx, scopes, e, f, t)
    decreases e, 1
  {
    var v :| Elaborates(Of(cx), scopes, e.value, f.value, v) && Stores(cx.classes, e.op, t.ty, v, f.fact);
    PlaceFound(cx, scopes, e.target, f.target, t.ty);
    DerivableFound(cx, scopes, e.value, f.value, v);
    StoresExactly(cx.classes, e.op, t.ty, v, f.fact);
    hide Elaborates, Stores, CheckTarget, BinaryType, IsAssignable, Places;
  }

  lemma {:induction false} MutationFound(cx: Context, scopes: seq<TypeScope>, e: Expr, f: Expr, t: ExprType)
    requires e.Mutation? && Elaborates(Of(cx), scopes, e, f, t)
    ensures Finds(cx, scopes, e, f, t)
    decreases e, 1
  {
    PlaceFound(cx, scopes, e.target, f.target, t.ty);
    hide CheckTarget, Places;
  }

  lemma {:induction false} NewListFound(cx: Context, scopes: seq<TypeScope>, e: Expr, f: Expr, t: ExprType)
    requires e.NewList? && Elaborates(Of(cx), scopes, e, f, t)
    ensures Finds(cx, scopes, e, f, t)
    decreases e, 1
  {
    var ts :| ElaboratesAll(Of(cx), scopes, e.elements, f.elements, ts) && forall i :: 0 <= i < |ts| ==> Accepts(cx.classes, e.element, ts[i]);
    AllFound(cx, scopes, e.elements, f.elements, ts);
    DeclaredExactly(cx.classes, e.element);
    hide Elaborates, ElaboratesAll, ValidType, Declared, Accepts, IsAssignable;
    forall i | 0 <= i < |ts| ensures IsAssignable(cx.classes, e.element, ts[i]) { AcceptsExactly(cx.classes, e.element, ts[i]); }
    var all := CheckExprs(cx, scopes, e.elements).value;
    assert forall i :: 0 <= i < |all| ==> all[i].ty == ts[i] by { assert Types(all) == ts; }
  }

  lemma {:induction false} NewExceptionFound(cx: Context, scopes: seq<TypeScope>, e: Expr, f: Expr, t: ExprType)
    requires e.NewException? && Elaborates(Of(cx), scopes, e, f, t)
    ensures Finds(cx, scopes, e, f, t)
    decreases e, 1
  {
    ThrowableExactly(cx.classes, e.ty);
    DeclaredExactly(cx.classes, e.ty);
    if e.message.Some? {
      var m :| Elaborates(Of(cx), scopes, e.message.value, f.message.value, m) && Describes(cx.classes, e.ty, m);
      DerivableFound(cx, scopes, e.message.value, f.message.value, m);
      AcceptsExactly(cx.classes, TString, m);
    }
    hide Elaborates, ValidType, Declared, Accepts, IsAssignable, Throwable, IsExceptionType;
  }

  lemma {:induction false} IndexFound(cx: Context, scopes: seq<TypeScope>, e: Expr, f: Expr, t: ExprType)
    requires e.Index? && Elaborates(Of(cx), scopes, e, f, t)
    ensures Finds(cx, scopes, e, f, t)
    decreases e, 1
  {
    DerivableFound(cx, scopes, e.list, f.list, EValue(TList(t.ty)));
    DerivableFound(cx, scopes, e.index, f.index, EValue(TInteger));
    hide Elaborates;
  }

  lemma {:induction false} CallFound(cx: Context, scopes: seq<TypeScope>, e: Expr, f: Expr, t: ExprType)
    requires e.Call? && Elaborates(Of(cx), scopes, e, f, t)
    ensures Finds(cx, scopes, e, f, t)
    decreases e, 1
  {
    var ts :| ElaboratesAll(Of(cx), scopes, e.arguments, f.arguments, ts)
              && Resolves(cx.classes, cx.methods, e.name, ts, f.callee.value);
    AllFound(cx, scopes, e.arguments, f.arguments, ts);
    ResolvesExactly(cx.classes, cx.methods, e.name, ts, f.callee.value);
    hide Elaborates, ElaboratesAll, Resolves, SelectMethod;
  }

  lemma {:induction false} ListCallFound(cx: Context, scopes: seq<TypeScope>, e: Expr, f: Expr, t: ExprType)
    requires e.ListCall? && Elaborates(Of(cx), scopes, e, f, t)
    ensures Finds(cx, scopes, e, f, t)
    decreases e, 1
  {
    var element, ts :| Elaborates(Of(cx), scopes, e.receiver, f.receiver, EValue(TList(element)))
                       && ElaboratesAll(Of(cx), scopes, e.arguments, f.arguments, ts) && CallsList(cx.classes, element, e.method_, ts, t);
    DerivableFound(cx, scopes, e.receiver, f.receiver, EValue(TList(element)));
    AllFound(cx, scopes, e.arguments, f.arguments, ts);
    if e.method_.ListAdd? {
      AcceptsExactly(cx.classes, element, ts[0]);
      assert CheckExprs(cx, scopes, e.arguments).value[0].ty == Types(CheckExprs(cx, scopes, e.arguments).value)[0];
    }
    hide Elaborates, ElaboratesAll, Accepts, IsAssignable;
  }

  lemma {:induction false} DebugFound(cx: Context, scopes: seq<TypeScope>, e: Expr, f: Expr, t: ExprType)
    requires e.Debug? && Elaborates(Of(cx), scopes, e, f, t)
    ensures Finds(cx, scopes, e, f, t)
    decreases e, 1
  {
    var a :| Elaborates(Of(cx), scopes, e.argument, f.argument, a) && a != EVoid;
    DerivableFound(cx, scopes, e.argument, f.argument, a);
    hide Elaborates;
  }

  lemma {:induction false} CastFound(cx: Context, scopes: seq<TypeScope>, e: Expr, f: Expr, t: ExprType)
    requires e.Cast? && Elaborates(Of(cx), scopes, e, f, t)
    ensures Finds(cx, scopes, e, f, t)
    decreases e, 1
  {
    var o :| Elaborates(Of(cx), scopes, e.operand, f.operand, o) && Casts(cx.classes, o, e.ty);
    DerivableFound(cx, scopes, e.operand, f.operand, o);
    CastsExactly(cx.classes, o, e.ty);
    hide Elaborates, Casts, CastAllowed;
  }

  lemma {:induction false} ConditionalFound(cx: Context, scopes: seq<TypeScope>, e: Expr, f: Expr, t: ExprType)
    requires e.Conditional? && Elaborates(Of(cx), scopes, e, f, t)
    ensures Finds(cx, scopes, e, f, t)
    decreases e, 1
  {
    var a, b :| Elaborates(Of(cx), scopes, e.whenTrue, f.whenTrue, a) && Elaborates(Of(cx), scopes, e.whenFalse, f.whenFalse, b)
                && Joins(cx.classes, a, b, t);
    DerivableFound(cx, scopes, e.condition, f.condition, EValue(TBoolean));
    DerivableFound(cx, scopes, e.whenTrue, f.whenTrue, a);
    DerivableFound(cx, scopes, e.whenFalse, f.whenFalse, b);
    JoinsExactly(cx.classes, a, b, t);
    assert CheckBoolean(cx, scopes, e.condition) == Ok(f.condition);
    hide Elaborates, Joins, Join, CheckBoolean;
  }

  lemma {:induction false} CoalesceFound(cx: Context, scopes: seq<TypeScope>, e: Expr, f: Expr, t: ExprType)
    requires e.NullCoalesce? && Elaborates(Of(cx), scopes, e, f, t)
    ensures Finds(cx, scopes, e, f, t)
    decreases e, 1
  {
    var a, b :| Elaborates(Of(cx), scopes, e.left, f.left, a) && Elaborates(Of(cx), scopes, e.right, f.right, b) && Joins(cx.classes, a, b, t);
    DerivableFound(cx, scopes, e.left, f.left, a);
    DerivableFound(cx, scopes, e.right, f.right, b);
    JoinsExactly(cx.classes, a, b, t);
    hide Elaborates, Joins, Join;
  }

  lemma {:induction false} UnaryFound(cx: Context, scopes: seq<TypeScope>, e: Expr, f: Expr, t: ExprType)
    requires e.Unary? && Elaborates(Of(cx), scopes, e, f, t)
    ensures Finds(cx, scopes, e, f, t)
    decreases e, 1
  {
    if e.unaryOp.Negate? && (e.operand == IntLit(0x8000_0000) || e.operand == LongLit(0x8000_0000_0000_0000)) {
      LeastLiteralFound(cx, scopes, e, f, t);
    } else {
      assert Elaborates(Of(cx), scopes, e.operand, f.operand, t);
      DerivableFound(cx, scopes, e.operand, f.operand, t);
      if e.unaryOp.Not? { NotFound(cx, scopes, e, f, t); } else { SignFound(cx, scopes, e, f, t); }
    }
  }

  lemma LeastLiteralFound(cx: Context, scopes: seq<TypeScope>, e: Expr, f: Expr, t: ExprType)
    requires e.Unary? && Elaborates(Of(cx), scopes, e, f, t)
    requires e.unaryOp.Negate? && (e.operand == IntLit(0x8000_0000) || e.operand == LongLit(0x8000_0000_0000_0000))
    ensures Finds(cx, scopes, e, f, t)
  {
  }

  lemma NotFound(cx: Context, scopes: seq<TypeScope>, e: Expr, f: Expr, t: ExprType)
    requires e.Unary? && e.unaryOp.Not? && Elaborates(Of(cx), scopes, e, f, t) && Finds(cx, scopes, e.operand, f.operand, t)
    ensures Finds(cx, scopes, e, f, t)
  {
    assert f == Unary(Not, f.operand, None) && t == EValue(TBoolean);
    assert CheckBoolean(cx, scopes, e.operand) == Ok(f.operand);
    hide Elaborates, CheckBoolean;
  }

  lemma SignFound(cx: Context, scopes: seq<TypeScope>, e: Expr, f: Expr, t: ExprType)
    requires e.Unary? && !e.unaryOp.Not? && Elaborates(Of(cx), scopes, e, f, t) && Finds(cx, scopes, e.operand, f.operand, t)
    requires !e.unaryOp.Negate? || (e.operand != IntLit(0x8000_0000) && e.operand != LongLit(0x8000_0000_0000_0000))
    ensures Finds(cx, scopes, e, f, t)
  {
    var kind :| Integral(t, kind) && f.unaryFact == Some(if e.unaryOp.Positive? then PositiveOf(kind) else NegateOf(kind));
    assert f == Unary(e.unaryOp, f.operand, f.unaryFact) && KindOf(t) == Some(kind);
    hide Elaborates, KindOf, Integral;
  }

  lemma {:induction false} BinaryFound(cx: Context, scopes: seq<TypeScope>, e: Expr, f: Expr, t: ExprType)
    requires e.Binary? && Elaborates(Of(cx), scopes, e, f, t)
    ensures Finds(cx, scopes, e, f, t)
    decreases e, 1
  {
    var a, b :| Elaborates(Of(cx), scopes, e.left, f.left, a) && Elaborates(Of(cx), scopes, e.right, f.right, b)
                && Operates(e.binaryOp, a, b, t, f.fact);
    DerivableFound(cx, scopes, e.left, f.left, a);
    DerivableFound(cx, scopes, e.right, f.right, b);
    OperatesExactly(e.binaryOp, a, b, t, f.fact);
    hide Elaborates, Operates, BinaryType;
  }

  // ---------------------------------------------------------------- what it finds is derivable

  ghost predicate Derives(cx: Context, scopes: seq<TypeScope>, e: Expr) {
    var r := CheckExpr(cx, scopes, e);
    r.Ok? ==> Elaborates(Of(cx), scopes, e, r.value.expr, r.value.ty)
  }

  lemma {:induction false} FoundDerivable(cx: Context, scopes: seq<TypeScope>, e: Expr)
    ensures Derives(cx, scopes, e)
    decreases e, 2
  {
    hide Derives;
    match e
    case Assignment(target, _, value, _) =>
      FoundPlace(cx, scopes, target);
      FoundDerivable(cx, scopes, value);
      AssignmentDerives(cx, scopes, e);
    case Mutation(target, _, _) =>
      FoundPlace(cx, scopes, target);
      MutationDerives(cx, scopes, e);
    case NewList(_, elements) =>
      FoundAll(cx, scopes, elements);
      NewListDerives(cx, scopes, e);
    case NewException(_, message) =>
      if message.Some? { FoundDerivable(cx, scopes, message.value); }
      NewExceptionDerives(cx, scopes, e);
    case Index(list, index) =>
      FoundDerivable(cx, scopes, list);
      FoundDerivable(cx, scopes, index);
      IndexDerives(cx, scopes, e);
    case Call(_, arguments, _) =>
      FoundAll(cx, scopes, arguments);
      CallDerives(cx, scopes, e);
    case ListCall(receiver, _, arguments) =>
      FoundDerivable(cx, scopes, receiver);
      FoundAll(cx, scopes, arguments);
      ListCallDerives(cx, scopes, e);
    case Debug(argument) =>
      FoundDerivable(cx, scopes, argument);
      DebugDerives(cx, scopes, e);
    case Cast(_, operand) =>
      FoundDerivable(cx, scopes, operand);
      CastDerives(cx, scopes, e);
    case Conditional(condition, whenTrue, whenFalse) =>
      FoundDerivable(cx, scopes, condition);
      FoundDerivable(cx, scopes, whenTrue);
      FoundDerivable(cx, scopes, whenFalse);
      ConditionalDerives(cx, scopes, e);
    case NullCoalesce(left, right) =>
      FoundDerivable(cx, scopes, left);
      FoundDerivable(cx, scopes, right);
      CoalesceDerives(cx, scopes, e);
    case Unary(_, operand, _) =>
      FoundDerivable(cx, scopes, operand);
      UnaryDerives(cx, scopes, e);
    case Binary(left, _, right, _) =>
      FoundDerivable(cx, scopes, left);
      FoundDerivable(cx, scopes, right);
      BinaryDerives(cx, scopes, e);
    case _ => LeafDerives(cx, scopes, e);
  }

  lemma LeafDerives(cx: Context, scopes: seq<TypeScope>, e: Expr)
    requires e.StringLit? || e.BoolLit? || e.IntLit? || e.LongLit? || e.NullLit? || e.Var?
    ensures Derives(cx, scopes, e)
  {
    var r := CheckExpr(cx, scopes, e);
    if r.Ok? {
      hide Elaborates;
      LeafFound(cx, scopes, e, r.value.expr, r.value.ty);
    }
  }

  lemma {:induction false} FoundAll(cx: Context, scopes: seq<TypeScope>, es: seq<Expr>)
    ensures var r := CheckExprs(cx, scopes, es);
            r.Ok? ==> ElaboratesAll(Of(cx), scopes, es, Exprs(r.value), Types(r.value))
    decreases es, 1
  {
    hide Elaborates, CheckExpr;
    if es != [] && CheckExprs(cx, scopes, es).Ok? {
      FoundDerivable(cx, scopes, es[0]);
      FoundAll(cx, scopes, es[1..]);
      var all := CheckExprs(cx, scopes, es).value;
      var rest := CheckExprs(cx, scopes, es[1..]).value;
      forall i | 0 <= i < |es| ensures Elaborates(Of(cx), scopes, es[i], Exprs(all)[i], Types(all)[i]) {
        if i > 0 { assert es[i] == es[1..][i - 1] && Exprs(all)[i] == Exprs(rest)[i - 1] && Types(all)[i] == Types(rest)[i - 1]; }
      }
    }
  }

  lemma {:induction false} FoundPlace(cx: Context, scopes: seq<TypeScope>, target: Target)
    ensures var r := CheckTarget(cx, scopes, target);
            r.Ok? ==> Places(Of(cx), scopes, target, r.value.0, r.value.1)
    decreases target, 1
  {
    hide Elaborates, CheckExpr;
    match target
    case VarTarget(x) =>
      var ty := LookupType(scopes, x);
      if ty.Some? { LookupFinds(scopes, x, ty.value); }
    case IndexTarget(list, index) =>
      FoundDerivable(cx, scopes, list);
      FoundDerivable(cx, scopes, index);
  }

  lemma AssignmentDerives(cx: Context, scopes: seq<TypeScope>, e: Expr)
    requires e.Assignment? && Derives(cx, scopes, e.value)
    requires var t := CheckTarget(cx, scopes, e.target); t.Ok? ==> Places(Of(cx), scopes, e.target, t.value.0, t.value.1)
    ensures Derives(cx, scopes, e)
  {
    var r := CheckExpr(cx, scopes, e);
    if r.Ok? {
      var v := CheckExpr(cx, scopes, e.value).value;
      var f := r.value.expr;
      StoresExactly(cx.classes, e.op, r.value.ty.ty, v.ty, f.fact);
      hide Stores, CheckTarget, BinaryType, IsAssignable, Places;
      assert Elaborates(Of(cx), scopes, e.value, f.value, v.ty);
    }
  }

  lemma MutationDerives(cx: Context, scopes: seq<TypeScope>, e: Expr)
    requires e.Mutation?
    requires var t := CheckTarget(cx, scopes, e.target); t.Ok? ==> Places(Of(cx), scopes, e.target, t.value.0, t.value.1)
    ensures Derives(cx, scopes, e)
  {
    hide CheckTarget, Places;
  }

  lemma NewListDerives(cx: Context, scopes: seq<TypeScope>, e: Expr)
    requires e.NewList?
    requires var r := CheckExprs(cx, scopes, e.elements); r.Ok? ==> ElaboratesAll(Of(cx), scopes, e.elements, Exprs(r.value), Types(r.value))
    ensures Derives(cx, scopes, e)
  {
    hide ElaboratesAll, ValidType, Declared, Accepts, IsAssignable, CheckExprs;
    DeclaredExactly(cx.classes, e.element);
    if CheckExpr(cx, scopes, e).Ok? {
      var all := CheckExprs(cx, scopes, e.elements).value;
      forall i | 0 <= i < |all| ensures Accepts(cx.classes, e.element, Types(all)[i]) { AcceptsExactly(cx.classes, e.element, all[i].ty); }
    }
  }

  lemma NewExceptionDerives(cx: Context, scopes: seq<TypeScope>, e: Expr)
    requires e.NewException? && (e.message.Some? ==> Derives(cx, scopes, e.message.value))
    ensures Derives(cx, scopes, e)
  {
    ThrowableExactly(cx.classes, e.ty);
    DeclaredExactly(cx.classes, e.ty);
    if CheckExpr(cx, scopes, e).Ok? && e.message.Some? {
      var m := CheckExpr(cx, scopes, e.message.value).value;
      AcceptsExactly(cx.classes, TString, m.ty);
      assert Describes(cx.classes, e.ty, m.ty);
    }
    hide ValidType, Declared, Accepts, IsAssignable, Throwable, IsExceptionType, Describes;
  }

  lemma IndexDerives(cx: Context, scopes: seq<TypeScope>, e: Expr)
    requires e.Index? && Derives(cx, scopes, e.list) && Derives(cx, scopes, e.index)
    ensures Derives(cx, scopes, e)
  {
  }

  lemma CallDerives(cx: Context, scopes: seq<TypeScope>, e: Expr)
    requires e.Call?
    requires var r := CheckExprs(cx, scopes, e.arguments); r.Ok? ==> ElaboratesAll(Of(cx), scopes, e.arguments, Exprs(r.value), Types(r.value))
    ensures Derives(cx, scopes, e)
  {
    var r := CheckExpr(cx, scopes, e);
    if r.Ok? {
      var ts := Types(CheckExprs(cx, scopes, e.arguments).value);
      ResolvesExactly(cx.classes, cx.methods, e.name, ts, r.value.expr.callee.value);
      hide ElaboratesAll, Resolves, SelectMethod, CheckExprs;
    }
  }

  lemma ListCallDerives(cx: Context, scopes: seq<TypeScope>, e: Expr)
    requires e.ListCall? && Derives(cx, scopes, e.receiver)
    requires var r := CheckExprs(cx, scopes, e.arguments); r.Ok? ==> ElaboratesAll(Of(cx), scopes, e.arguments, Exprs(r.value), Types(r.value))
    ensures Derives(cx, scopes, e)
  {
    var r := CheckExpr(cx, scopes, e);
    if r.Ok? {
      var element := CheckExpr(cx, scopes, e.receiver).value.ty.ty.element;
      var ts := Types(CheckExprs(cx, scopes, e.arguments).value);
      if e.method_.ListAdd? { AcceptsExactly(cx.classes, element, ts[0]); }
      hide ElaboratesAll, CheckExprs, Accepts, IsAssignable;
      assert Elaborates(Of(cx), scopes, e.receiver, r.value.expr.receiver, EValue(TList(element)));
      assert CallsList(cx.classes, element, e.method_, ts, r.value.ty);
    }
  }

  lemma DebugDerives(cx: Context, scopes: seq<TypeScope>, e: Expr)
    requires e.Debug? && Derives(cx, scopes, e.argument)
    ensures Derives(cx, scopes, e)
  {
  }

  lemma CastDerives(cx: Context, scopes: seq<TypeScope>, e: Expr)
    requires e.Cast? && Derives(cx, scopes, e.operand)
    ensures Derives(cx, scopes, e)
  {
    if CheckExpr(cx, scopes, e).Ok? {
      var o := CheckExpr(cx, scopes, e.operand).value;
      CastsExactly(cx.classes, o.ty, e.ty);
      hide Casts, CastAllowed;
      assert Elaborates(Of(cx), scopes, e.operand, o.expr, o.ty);
    }
  }

  lemma ConditionTyped(cx: Context, scopes: seq<TypeScope>, e: Expr)
    requires e.Conditional? && CheckExpr(cx, scopes, e).Ok?
    ensures CheckExpr(cx, scopes, e.condition) == Ok(Typed(CheckExpr(cx, scopes, e).value.expr.condition, EValue(TBoolean)))
  {
    assert CheckBoolean(cx, scopes, e.condition) == Ok(CheckExpr(cx, scopes, e).value.expr.condition);
  }

  lemma ConditionalDerives(cx: Context, scopes: seq<TypeScope>, e: Expr)
    requires e.Conditional? && Derives(cx, scopes, e.condition) && Derives(cx, scopes, e.whenTrue) && Derives(cx, scopes, e.whenFalse)
    ensures Derives(cx, scopes, e)
  {
    var r := CheckExpr(cx, scopes, e);
    if r.Ok? {
      var a, b := CheckExpr(cx, scopes, e.whenTrue).value, CheckExpr(cx, scopes, e.whenFalse).value;
      JoinsExactly(cx.classes, a.ty, b.ty, r.value.ty);
      ConditionTyped(cx, scopes, e);
      hide Joins, Join, CheckBoolean;
      assert Elaborates(Of(cx), scopes, e.whenTrue, a.expr, a.ty) && Elaborates(Of(cx), scopes, e.whenFalse, b.expr, b.ty);
    }
  }

  lemma CoalesceDerives(cx: Context, scopes: seq<TypeScope>, e: Expr)
    requires e.NullCoalesce? && Derives(cx, scopes, e.left) && Derives(cx, scopes, e.right)
    ensures Derives(cx, scopes, e)
  {
    var r := CheckExpr(cx, scopes, e);
    if r.Ok? {
      var a, b := CheckExpr(cx, scopes, e.left).value, CheckExpr(cx, scopes, e.right).value;
      JoinsExactly(cx.classes, a.ty, b.ty, r.value.ty);
      hide Joins, Join;
      assert Elaborates(Of(cx), scopes, e.left, a.expr, a.ty) && Elaborates(Of(cx), scopes, e.right, b.expr, b.ty);
    }
  }

  lemma UnaryDerives(cx: Context, scopes: seq<TypeScope>, e: Expr)
    requires e.Unary? && Derives(cx, scopes, e.operand)
    ensures Derives(cx, scopes, e)
  {
    var r := CheckExpr(cx, scopes, e);
    if r.Ok? && !e.unaryOp.Not? {
      assert Integral(r.value.ty, if r.value.ty == EValue(TInteger) then IntegerKind else LongKind);
    }
  }

  lemma BinaryDerives(cx: Context, scopes: seq<TypeScope>, e: Expr)
    requires e.Binary? && Derives(cx, scopes, e.left) && Derives(cx, scopes, e.right)
    ensures Derives(cx, scopes, e)
  {
    var r := CheckExpr(cx, scopes, e);
    if r.Ok? {
      var a, b := CheckExpr(cx, scopes, e.left).value, CheckExpr(cx, scopes, e.right).value;
      OperatesExactly(e.binaryOp, a.ty, b.ty, r.value.ty, r.value.expr.fact);
      hide Operates, BinaryType;
      assert Elaborates(Of(cx), scopes, e.left, a.expr, a.ty) && Elaborates(Of(cx), scopes, e.right, b.expr, b.ty);
    }
  }

  /** The checker accepts an expression exactly when the rules derive it, with that type and those facts;
      and so the rules derive at most one type. */
  lemma ExpressionsExactly(cx: Context, scopes: seq<TypeScope>, e: Expr)
    ensures forall f, t :: Elaborates(Of(cx), scopes, e, f, t) <==> CheckExpr(cx, scopes, e) == Ok(Typed(f, t))
  {
    hide CheckExpr, Elaborates;
    forall f, t ensures Elaborates(Of(cx), scopes, e, f, t) <==> CheckExpr(cx, scopes, e) == Ok(Typed(f, t)) {
      if Elaborates(Of(cx), scopes, e, f, t) { DerivableFound(cx, scopes, e, f, t); }
      FoundDerivable(cx, scopes, e);
    }
  }
}
