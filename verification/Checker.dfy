/** The semantic checker: it types expressions and statements against a stack of scopes and returns
    the same syntax with the facts the interpreter needs filled in. */
module Checker {
  import opened Wrappers
  import opened Syntax
  import opened Typing
  import opened Completion

  type TypeScope = map<Name, Type>

  /** What a statement is checked against: classes, method signatures, the number of enclosing loops
      and the return type of the enclosing method (none at top level). */
  datatype Context = Context(classes: ClassTable, methods: seq<Method>, loopDepth: nat, returnType: Option<ReturnType>) {
    function InLoop(): Context {
      this.(loopDepth := loopDepth + 1)
    }
  }

  function LookupType(scopes: seq<TypeScope>, name: Name): Option<Type> {
    if scopes == [] then None
    else if name in scopes[|scopes| - 1] then Some(scopes[|scopes| - 1][name])
    else LookupType(scopes[..|scopes| - 1], name)
  }

  function BindType(scopes: seq<TypeScope>, name: Name, ty: Type): (r: seq<TypeScope>)
    requires scopes != []
    ensures |r| == |scopes|
  {
    scopes[|scopes| - 1 := scopes[|scopes| - 1][name := ty]]
  }

  // ---------------------------------------------------------------- expressions

  datatype Typed = Typed(expr: Expr, ty: ExprType)

  function Require(condition: bool, error: CheckError): Result<(), CheckError> {
    if condition then Ok(()) else Err(error)
  }

  function CheckExpr(cx: Context, scopes: seq<TypeScope>, e: Expr): Result<Typed, CheckError>
    decreases e, 0
  {
    match e
    case StringLit(_) => Ok(Typed(e, EValue(TString)))
    case BoolLit(_) => Ok(Typed(e, EValue(TBoolean)))
    case IntLit(number) => Ok(Typed(e, EValue(if number > MAX_INT then TLong else TInteger)))
    case LongLit(number) => if number > MAX_LONG then Err(LiteralOutOfRange) else Ok(Typed(e, EValue(TLong)))
    case NullLit => Ok(Typed(e, ENull))
    case Var(name) =>
      var ty := LookupType(scopes, name);
      if ty.Some? then Ok(Typed(e, EValue(ty.value))) else Err(UnknownVariable)
    case Assignment(target, op, value, _) =>
      var t :- CheckTarget(cx, scopes, target);
      var v :- CheckExpr(cx, scopes, value);
      if op.Assign? then
        var _ :- Require(IsAssignable(cx.classes, t.1, v.ty), NotAssignable);
        Ok(Typed(Assignment(t.0, op, v.expr, None), EValue(t.1)))
      else
        var r :- BinaryType(EValue(t.1), op.Operator(), v.ty);
        var _ :- Require(IsAssignable(cx.classes, t.1, r.0), NotAssignable);
        Ok(Typed(Assignment(t.0, op, v.expr, r.1), EValue(t.1)))
    case Mutation(target, delta, returnOld) =>
      var t :- CheckTarget(cx, scopes, target);
      var _ :- Require(t.1.TInteger? || t.1.TLong?, NotIntegral);
      Ok(Typed(Mutation(t.0, delta, returnOld), EValue(t.1)))
    case NewList(element, elements) =>
      var _ :- Require(ValidType(cx.classes, element), UnknownType);
      var es :- CheckExprs(cx, scopes, elements);
      var _ :- Require(forall i :: 0 <= i < |es| ==> IsAssignable(cx.classes, element, es[i].ty), NotAssignable);
      Ok(Typed(NewList(element, Exprs(es)), EValue(TList(element))))
    case NewException(ty, message) =>
      var _ :- Require(IsExceptionType(cx.classes, ty) && ValidType(cx.classes, ty), NotAnException);
      if message.None? then Ok(Typed(e, EValue(ty)))
      else
        var m :- CheckExpr(cx, scopes, message.value);
        var accepted := if ty.TCustom? then m.ty == EValue(TString) else IsAssignable(cx.classes, TString, m.ty);
        var _ :- Require(accepted, NotAssignable);
        Ok(Typed(NewException(ty, Some(m.expr)), EValue(ty)))
    case Index(list, index) =>
      var l :- CheckExpr(cx, scopes, list);
      var i :- CheckExpr(cx, scopes, index);
      var element :- ElementType(l.ty, i.ty);
      Ok(Typed(Index(l.expr, i.expr), EValue(element)))
    case Call(name, arguments, _) =>
      var args :- CheckExprs(cx, scopes, arguments);
      var callee :- SelectMethod(cx.classes, cx.methods, name, Types(args));
      Ok(Typed(Call(name, Exprs(args), Some(callee)), ResultType(cx.methods[callee].returnType)))
    case ListCall(receiver, method_, arguments) =>
      var l :- CheckExpr(cx, scopes, receiver);
      var _ :- Require(l.ty.EValue? && l.ty.ty.TList?, UnknownMethod);
      var args :- CheckExprs(cx, scopes, arguments);
      var _ :- Require(|args| == ListArity(method_), WrongArity);
      var _ :- Require(method_.ListAdd? ==> IsAssignable(cx.classes, l.ty.ty.element, args[0].ty), NotAssignable);
      Ok(Typed(ListCall(l.expr, method_, Exprs(args)), if method_.ListSize? then EValue(TInteger) else EVoid))
    case Debug(argument) =>
      var a :- CheckExpr(cx, scopes, argument);
      var _ :- Require(!a.ty.EVoid?, VoidArgument);
      Ok(Typed(Debug(a.expr), EVoid))
    case Cast(ty, operand) =>
      var o :- CheckExpr(cx, scopes, operand);
      var _ :- Require(CastAllowed(cx.classes, o.ty, ty), InvalidCast);
      Ok(Typed(Cast(ty, o.expr), EValue(ty)))
    case Conditional(condition, whenTrue, whenFalse) =>
      var c :- CheckBoolean(cx, scopes, condition);
      var t :- CheckExpr(cx, scopes, whenTrue);
      var f :- CheckExpr(cx, scopes, whenFalse);
      var ty :- Join(cx.classes, t.ty, f.ty);
      Ok(Typed(Conditional(c, t.expr, f.expr), ty))
    case NullCoalesce(left, right) =>
      var l :- CheckExpr(cx, scopes, left);
      var r :- CheckExpr(cx, scopes, right);
      var ty :- Join(cx.classes, l.ty, r.ty);
      Ok(Typed(NullCoalesce(l.expr, r.expr), ty))
    case Unary(op, operand, _) =>
      if op.Not? then
        var o :- CheckBoolean(cx, scopes, operand);
        Ok(Typed(Unary(op, o, None), EValue(TBoolean)))
      else if op.Negate? && operand == IntLit(MAX_INT + 1) then
        Ok(Typed(Unary(op, operand, Some(NegateOf(IntegerKind))), EValue(TInteger)))
      else if op.Negate? && operand == LongLit(MAX_LONG + 1) then
        Ok(Typed(Unary(op, operand, Some(NegateOf(LongKind))), EValue(TLong)))
      else
        var o :- CheckExpr(cx, scopes, operand);
        var kind := KindOf(o.ty);
        var _ :- Require(kind.Some?, WrongOperandType);
        Ok(Typed(Unary(op, o.expr, Some(if op.Positive? then PositiveOf(kind.value) else NegateOf(kind.value))), o.ty))
    case Binary(left, op, right, _) =>
      var l :- CheckExpr(cx, scopes, left);
      var r :- CheckExpr(cx, scopes, right);
      var t :- BinaryType(l.ty, op, r.ty);
      Ok(Typed(Binary(l.expr, op, r.expr, t.1), t.0))
  }

  function CheckBoolean(cx: Context, scopes: seq<TypeScope>, e: Expr): Result<Expr, CheckError>
    decreases e, 1
  {
    var t :- CheckExpr(cx, scopes, e);
    var _ :- Require(t.ty == EValue(TBoolean), WrongOperandType);
    Ok(t.expr)
  }

  function CheckExprs(cx: Context, scopes: seq<TypeScope>, es: seq<Expr>): (r: Result<seq<Typed>, CheckError>)
    ensures r.Ok? ==> |r.value| == |es|
    decreases es, 0
  {
    if es == [] then Ok([])
    else
      var first :- CheckExpr(cx, scopes, es[0]);
      var rest :- CheckExprs(cx, scopes, es[1..]);
      Ok([first] + rest)
  }

  function CheckTarget(cx: Context, scopes: seq<TypeScope>, target: Target): Result<(Target, Type), CheckError>
    decreases target, 0
  {
    match target
    case VarTarget(name) =>
      var ty := LookupType(scopes, name);
      if ty.Some? then Ok((target, ty.value)) else Err(UnknownVariable)
    case IndexTarget(list, index) =>
      var l :- CheckExpr(cx, scopes, list);
      var i :- CheckExpr(cx, scopes, index);
      var element :- ElementType(l.ty, i.ty);
      Ok((IndexTarget(l.expr, i.expr), element))
  }

  function ElementType(list: ExprType, index: ExprType): Result<Type, CheckError> {
    if index != EValue(TInteger) then Err(WrongOperandType)
    else if list.EValue? && list.ty.TList? then Ok(list.ty.element)
    else Err(NotAList)
  }

  function Exprs(ts: seq<Typed>): (r: seq<Expr>)
    ensures |r| == |ts|
  {
    seq(|ts|, i requires 0 <= i < |ts| => ts[i].expr)
  }

  function Types(ts: seq<Typed>): (r: seq<ExprType>)
    ensures |r| == |ts|
  {
    seq(|ts|, i requires 0 <= i < |ts| => ts[i].ty)
  }

  function ResultType(returnType: ReturnType): ExprType {
    match returnType
    case RVoid => EVoid
    case RValue(ty) => EValue(ty)
  }

  function ListArity(method_: ListMethod): nat {
    if method_.ListAdd? then 1 else 0
  }

  // ---------------------------------------------------------------- statements

  /** A checked statement and the scopes after it. */
  datatype Bound<T> = Bound(syntax: T, scopes: seq<TypeScope>)

  predicate IsStatementExpression(e: Expr) {
    e.Assignment? || e.Call? || e.ListCall? || e.Debug? || e.Mutation?
  }

  function CheckStmt(cx: Context, scopes: seq<TypeScope>, s: Stmt): (r: Result<Bound<Stmt>, CheckError>)
    requires scopes != []
    ensures r.Ok? ==> |r.value.scopes| == |scopes|
    decreases s, 0
  {
    match s
    case LocalDeclaration(ty, declarators) =>
      var d :- CheckDeclarators(cx, scopes, ty, declarators);
      Ok(Bound(LocalDeclaration(ty, d.syntax), d.scopes))
    case Sequence(statements) =>
      var b :- CheckStmts(cx, scopes, statements);
      Ok(Bound(Sequence(b.syntax), b.scopes))
    case ExprStmt(expression) =>
      var _ :- Require(IsStatementExpression(expression), NotAStatement);
      var e :- CheckExpr(cx, scopes, expression);
      Ok(Bound(ExprStmt(e.expr), scopes))
    case Block(statements) =>
      var b :- CheckStmts(cx, scopes + [map[]], statements);
      Ok(Bound(Block(b.syntax), scopes))
    case If(condition, thenBranch, elseBranch) =>
      var c :- CheckBoolean(cx, scopes, condition);
      var t :- CheckStmt(cx, scopes, thenBranch);
      var e :- CheckOptional(cx, t.scopes, elseBranch);
      Ok(Bound(If(c, t.syntax, e.syntax), e.scopes))
    case While(condition, body) =>
      var c :- CheckBoolean(cx, scopes, condition);
      var b :- CheckStmt(cx.InLoop(), scopes, body);
      Ok(Bound(While(c, b.syntax), b.scopes))
    case DoWhile(body, condition) =>
      var b :- CheckStmt(cx.InLoop(), scopes, body);
      var c :- CheckBoolean(cx, b.scopes, condition);
      Ok(Bound(DoWhile(b.syntax, c), b.scopes))
    case For(initializer, forCondition, update, body) =>
      var i :- CheckOptional(cx, scopes + [map[]], initializer);
      var c :- CheckOptionalBoolean(cx, i.scopes, forCondition);
      var b :- CheckStmt(cx.InLoop(), i.scopes, body);
      var u :- CheckOptional(cx.InLoop(), b.scopes, update);
      Ok(Bound(For(i.syntax, c, u.syntax, b.syntax), scopes))
    case ForEach(ty, name, iterable, body) =>
      var l :- CheckExpr(cx, scopes, iterable);
      var _ :- Require(l.ty.EValue? && l.ty.ty.TList?, NotIterable);
      var _ :- Require(IsAssignable(cx.classes, ty, EValue(l.ty.ty.element)), NotAssignable);
      var b :- CheckStmt(cx.InLoop(), scopes + [map[name := ty]], body);
      Ok(Bound(ForEach(ty, name, l.expr, b.syntax), scopes))
    case Break =>
      var _ :- Require(cx.loopDepth > 0, ControlOutsideLoop);
      Ok(Bound(s, scopes))
    case Continue =>
      var _ :- Require(cx.loopDepth > 0, ControlOutsideLoop);
      Ok(Bound(s, scopes))
    case Return(result) =>
      if result.None? then
        var _ :- Require(cx.returnType.None? || cx.returnType.value.RVoid?, InvalidReturn);
        Ok(Bound(s, scopes))
      else
        var _ :- Require(cx.returnType.Some? && cx.returnType.value.RValue?, InvalidReturn);
        var e :- CheckExpr(cx, scopes, result.value);
        var _ :- Require(IsAssignable(cx.classes, cx.returnType.value.ty, e.ty), InvalidReturn);
        Ok(Bound(Return(Some(e.expr)), scopes))
    case Try(tryBlock, catches, finallyBlock) =>
      var t :- CheckStmt(cx, scopes, tryBlock);
      var c :- CheckCatches(cx, t.scopes, catches, [], false);
      var f :- CheckOptional(cx, t.scopes, finallyBlock);
      Ok(Bound(Try(t.syntax, c, f.syntax), f.scopes))
    case Throw(exception) =>
      var e :- CheckExpr(cx, scopes, exception);
      var _ :- Require(e.ty.ENull? || (e.ty.EValue? && IsExceptionType(cx.classes, e.ty.ty)), NotAnException);
      Ok(Bound(Throw(e.expr), scopes))
  }

  function CheckOptional(cx: Context, scopes: seq<TypeScope>, s: Option<Stmt>): (r: Result<Bound<Option<Stmt>>, CheckError>)
    requires scopes != []
    ensures r.Ok? ==> |r.value.scopes| == |scopes|
    decreases s, 1
  {
    if s.None? then Ok(Bound(None, scopes))
    else
      var b :- CheckStmt(cx, scopes, s.value);
      Ok(Bound(Some(b.syntax), b.scopes))
  }

  function CheckOptionalBoolean(cx: Context, scopes: seq<TypeScope>, e: Option<Expr>): Result<Option<Expr>, CheckError> {
    if e.None? then Ok(None)
    else
      var c :- CheckBoolean(cx, scopes, e.value);
      Ok(Some(c))
  }

  function CheckStmts(cx: Context, scopes: seq<TypeScope>, ss: seq<Stmt>): (r: Result<Bound<seq<Stmt>>, CheckError>)
    requires scopes != []
    ensures r.Ok? ==> |r.value.scopes| == |scopes| && |r.value.syntax| == |ss|
    decreases ss, 0
  {
    if ss == [] then Ok(Bound([], scopes))
    else
      var first :- CheckStmt(cx, scopes, ss[0]);
      var rest :- CheckStmts(cx, first.scopes, ss[1..]);
      Ok(Bound([first.syntax] + rest.syntax, rest.scopes))
  }

  function CheckDeclarators(cx: Context, scopes: seq<TypeScope>, ty: Type, ds: seq<Declarator>)
    : (r: Result<Bound<seq<Declarator>>, CheckError>)
    requires scopes != []
    ensures r.Ok? ==> |r.value.scopes| == |scopes|
    decreases ds, 0
  {
    if ds == [] then Ok(Bound([], scopes))
    else
      var _ :- Require(ValidType(cx.classes, ty), UnknownType);
      var _ :- Require(ds[0].name !in scopes[|scopes| - 1], DuplicateVariable);
      var i :- CheckInitializer(cx, scopes, ty, ds[0].initializer);
      var rest :- CheckDeclarators(cx, BindType(scopes, ds[0].name, ty), ty, ds[1..]);
      Ok(Bound([Declarator(ds[0].name, i)] + rest.syntax, rest.scopes))
  }

  function CheckInitializer(cx: Context, scopes: seq<TypeScope>, ty: Type, e: Option<Expr>): Result<Option<Expr>, CheckError> {
    if e.None? then Ok(None)
    else
      var i :- CheckExpr(cx, scopes, e.value);
      var _ :- Require(IsAssignable(cx.classes, ty, i.ty), NotAssignable);
      Ok(Some(i.expr))
  }

  /** Clause types must be exceptions, none a subtype of an earlier one; the clause variable and the
      statements of the clause block share one scope. */
  function CheckCatches(cx: Context, scopes: seq<TypeScope>, catches: seq<Catch>, seen: seq<Type>, catchesEverything: bool)
    : (r: Result<seq<Catch>, CheckError>)
    requires scopes != []
    ensures r.Ok? ==> |r.value| == |catches|
    ensures r.Ok? ==> forall i :: 0 <= i < |catches| ==> r.value[i].ty == catches[i].ty
    decreases catches, 0
  {
    if catches == [] then Ok([])
    else
      var clause := catches[0];
      var _ :- Require(IsExceptionType(cx.classes, clause.ty), NotAnException);
      var _ :- Require(!catchesEverything && !exists i :: 0 <= i < |seen| && IsSubtype(cx.classes, clause.ty, seen[i]), UnreachableCatch);
      var body :- CheckBody(cx, scopes + [map[clause.name := clause.ty]], clause.body);
      var rest :- CheckCatches(cx, scopes, catches[1..], seen + [clause.ty], clause.ty == TException);
      Ok([Catch(clause.ty, clause.name, body)] + rest)
  }

  /** A method or clause body: the statements of a block are checked in the current scope. */
  function CheckBody(cx: Context, scopes: seq<TypeScope>, body: Stmt): Result<Stmt, CheckError>
    requires scopes != []
    decreases body, 1
  {
    if body.Block? then
      var b :- CheckStmts(cx, scopes, body.statements);
      Ok(Block(b.syntax))
    else
      var b :- CheckStmt(cx, scopes, body);
      Ok(b.syntax)
  }

  // ---------------------------------------------------------------- programs

  function BindParameters(classes: ClassTable, parameters: seq<Parameter>): Result<TypeScope, CheckError> {
    if parameters == [] then Ok(map[])
    else
      var last := parameters[|parameters| - 1];
      var scope :- BindParameters(classes, parameters[..|parameters| - 1]);
      var _ :- Require(ValidType(classes, last.ty), UnknownType);
      var _ :- Require(last.name !in scope, DuplicateVariable);
      Ok(scope[last.name := last.ty])
  }

  function CheckMethod(cx: Context, m: Method): Result<Method, CheckError> {
    var _ :- Require(m.returnType.RValue? ==> ValidType(cx.classes, m.returnType.ty), UnknownType);
    var scope :- BindParameters(cx.classes, m.parameters);
    var body :- CheckBody(cx.(loopDepth := 0, returnType := Some(m.returnType)), [scope], m.body);
    var _ :- Require(m.returnType.RValue? ==> DefinitelyReturnsOrThrows(m.body), MissingReturn);
    Ok(m.(body := body))
  }

  function CheckMethods(cx: Context, ms: seq<Method>): (r: Result<seq<Method>, CheckError>)
    ensures r.Ok? ==> |r.value| == |ms|
    ensures r.Ok? ==> forall i :: 0 <= i < |ms| ==> CheckMethod(cx, ms[i]) == Ok(r.value[i])
  {
    if ms == [] then Ok([])
    else
      var first :- CheckMethod(cx, ms[0]);
      var rest :- CheckMethods(cx, ms[1..]);
      Ok([first] + rest)
  }

  predicate DistinctOverloads(ms: seq<Method>) {
    forall i, j :: 0 <= i < j < |ms| && ms[i].name == ms[j].name ==>
      ParameterTypes(ms[i].parameters) != ParameterTypes(ms[j].parameters)
  }

  /** The checked program: the parsed one with every fact filled in. */
  function CheckProgram(p: Program): Result<Program, CheckError> {
    var _ :- Require(DistinctOverloads(p.methods), DuplicateOverload);
    var cx := Context(p.classes, p.methods, 0, None);
    var methods :- CheckMethods(cx, p.methods);
    var body :- CheckStmts(cx, [map[]], p.statements);
    Ok(Program(p.classes, methods, body.syntax))
  }
}
