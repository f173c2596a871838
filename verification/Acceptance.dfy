/** The rules for statements, methods and programs, as relations. A statement is checked among scopes and
    leaves scopes; the rules say which. The checker is proved to accept exactly the programs the rules
    derive, so it rejects no other program and fails on no derivable one. */
module Acceptance {
  import opened Wrappers
  import opened Syntax
  import opened Typing
  import opened Checker
  import opened StmtRules
  import opened TypeRules
  import opened Rules
  import opened Completion
  import opened Endings
  import opened Catching

  /** The scopes with one more name in the innermost. */
  predicate Extended(scopes: seq<TypeScope>, x: Name, ty: Type, after: seq<TypeScope>) {
    && |scopes| == |after| > 0
    && var last := |scopes| - 1;
       after[..last] == scopes[..last] && x !in scopes[last] && after[last] == scopes[last][x := ty]
  }

  /** Only these expressions stand alone. */
  predicate Standalone(e: Expr) {
    match e
    case Assignment(_, _, _, _) => true
    case Mutation(_, _, _) => true
    case Call(_, _, _) => true
    case ListCall(_, _, _) => true
    case Debug(_) => true
    case _ => false
  }

  ghost predicate Forms(g: Surroundings, scopes: seq<TypeScope>, s: Stmt, f: Stmt, after: seq<TypeScope>)
    decreases s, 0
  {
    match s
    case LocalDeclaration(ty, declarators) =>
      f.LocalDeclaration? && f.ty == ty && FormsDeclarators(g, scopes, ty, declarators, f.declarators, after)
    case Sequence(statements) => f.Sequence? && FormsAll(g, scopes, statements, f.statements, after)
    case ExprStmt(e) => f.ExprStmt? && after == scopes && Standalone(e) && exists t :: Elaborates(g, scopes, e, f.expression, t)
    case Block(statements) => f.Block? && after == scopes && exists inner :: FormsAll(g, scopes + [map[]], statements, f.statements, inner)
    case If(c, thenBranch, elseBranch) =>
      && f.If? && Elaborates(g, scopes, c, f.condition, EValue(TBoolean))
      && exists middle :: Forms(g, scopes, thenBranch, f.thenBranch, middle) && FormsOptional(g, middle, elseBranch, f.elseBranch, after)
    case While(c, body) =>
      f.While? && Elaborates(g, scopes, c, f.condition, EValue(TBoolean)) && Forms(g.(inLoop := true), scopes, body, f.body, after)
    case DoWhile(body, c) =>
      f.DoWhile? && Forms(g.(inLoop := true), scopes, body, f.body, after) && Elaborates(g, after, c, f.condition, EValue(TBoolean))
    case For(i, c, u, body) =>
      && f.For? && after == scopes
      && exists first, second, third ::
           && FormsOptional(g, scopes + [map[]], i, f.initializer, first) && Tests(g, first, c, f.forCondition)
           && Forms(g.(inLoop := true), first, body, f.body, second) && FormsOptional(g.(inLoop := true), second, u, f.update, third)
    case ForEach(ty, x, e, body) =>
      && f.ForEach? && f.ty == ty && f.name == x && after == scopes
      && exists element, inner ::
           && Elaborates(g, scopes, e, f.iterable, EValue(TList(element))) && Under(g.classes, element, ty)
           && Forms(g.(inLoop := true), scopes + [map[x := ty]], body, f.body, inner)
    case Break => f == s && after == scopes && g.inLoop
    case Continue => f == s && after == scopes && g.inLoop
    case Return(None) => f == s && after == scopes && (g.returnType == None || g.returnType == Some(RVoid))
    case Return(Some(e)) =>
      && f.Return? && f.result.Some? && after == scopes && g.returnType.Some? && g.returnType.value.RValue?
      && exists t :: Elaborates(g, scopes, e, f.result.value, t) && Accepts(g.classes, g.returnType.value.ty, t)
    case Try(block, catches, finallyBlock) =>
      && f.Try?
      && exists middle ::
           && Forms(g, scopes, block, f.tryBlock, middle) && FormsClauses(g, middle, catches, f.catches)
           && FormsOptional(g, middle, finallyBlock, f.finallyBlock, after)
    case Throw(e) =>
      f.Throw? && after == scopes && exists t :: Elaborates(g, scopes, e, f.exception, t) && Throws(g.classes, t)
  }

  ghost predicate Throws(classes: ClassTable, t: ExprType) {
    t == ENull || (t.EValue? && Throwable(classes, t.ty))
  }

  ghost predicate Tests(g: Surroundings, scopes: seq<TypeScope>, c: Option<Expr>, f: Option<Expr>) {
    f.Some? == c.Some? && (c.Some? ==> Elaborates(g, scopes, c.value, f.value, EValue(TBoolean)))
  }

  ghost predicate FormsOptional(g: Surroundings, scopes: seq<TypeScope>, s: Option<Stmt>, f: Option<Stmt>, after: seq<TypeScope>)
    decreases s, 1
  {
    f.Some? == s.Some? && if s.Some? then Forms(g, scopes, s.value, f.value, after) else after == scopes
  }

  /** Each statement is checked among the scopes the one before left. */
  ghost predicate FormsAll(g: Surroundings, scopes: seq<TypeScope>, ss: seq<Stmt>, fs: seq<Stmt>, after: seq<TypeScope>)
    decreases ss, 0
  {
    |fs| == |ss| &&
    if ss == [] then after == scopes
    else exists middle :: Forms(g, scopes, ss[0], fs[0], middle) && FormsAll(g, middle, ss[1..], fs[1..], after)
  }

  ghost predicate Initializes(g: Surroundings, scopes: seq<TypeScope>, ty: Type, e: Option<Expr>, f: Option<Expr>) {
    f.Some? == e.Some? && (e.Some? ==> exists t :: Elaborates(g, scopes, e.value, f.value, t) && Accepts(g.classes, ty, t))
  }

  /** Each name is new in its scope, and known from its own initializer on. */
  ghost predicate FormsDeclarators(g: Surroundings, scopes: seq<TypeScope>, ty: Type, ds: seq<Declarator>,
                                   fs: seq<Declarator>, after: seq<TypeScope>)
    decreases ds, 0
  {
    |fs| == |ds| &&
    if ds == [] then after == scopes
    else
      && Declared(g.classes, ty) && fs[0].name == ds[0].name && Initializes(g, scopes, ty, ds[0].initializer, fs[0].initializer)
      && exists middle :: Extended(scopes, ds[0].name, ty, middle) && FormsDeclarators(g, middle, ty, ds[1..], fs[1..], after)
  }

  /** Each clause is for exceptions that no clause before it is for; its variable shares the scope of its
      statements. */
  ghost predicate FormsClauses(g: Surroundings, scopes: seq<TypeScope>, catches: seq<Catch>, fs: seq<Catch>)
    decreases catches, 0
  {
    && |fs| == |catches|
    && forall i :: 0 <= i < |catches| ==>
         && fs[i].ty == catches[i].ty && fs[i].name == catches[i].name && Throwable(g.classes, catches[i].ty)
         && (forall j :: 0 <= j < i ==> !Under(g.classes, catches[i].ty, catches[j].ty))
         && FormsBody(g, scopes + [map[catches[i].name := catches[i].ty]], catches[i].body, fs[i].body)
  }

  /** The body of a clause or method, whose statements are in the scope it is given. */
  ghost predicate FormsBody(g: Surroundings, scopes: seq<TypeScope>, body: Stmt, f: Stmt)
    decreases body, 1
  {
    if body.Block? then f.Block? && exists inner :: FormsAll(g, scopes, body.statements, f.statements, inner)
    else exists inner :: Forms(g, scopes, body, f, inner)
  }

  // ---------------------------------------------------------------- the checker accepts what is derivable

  lemma BooleanExactly(cx: Context, scopes: seq<TypeScope>, e: Expr, f: Expr)
    ensures Elaborates(Of(cx), scopes, e, f, EValue(TBoolean)) <==> CheckBoolean(cx, scopes, e) == Ok(f)
  {
    ExpressionsExactly(cx, scopes, e);
    hide CheckExpr, Elaborates;
    assert CheckExpr(cx, scopes, e) == Ok(Typed(f, EValue(TBoolean))) <==> CheckBoolean(cx, scopes, e) == Ok(f);
  }

  lemma ExtendedIs(scopes: seq<TypeScope>, x: Name, ty: Type, after: seq<TypeScope>)
    requires scopes != []
    ensures Extended(scopes, x, ty, after) <==> x !in scopes[|scopes| - 1] && after == BindType(scopes, x, ty)
  {
    if Extended(scopes, x, ty, after) {
      assert after == after[..|scopes| - 1] + [after[|scopes| - 1]];
    }
  }

  ghost predicate Takes(cx: Context, scopes: seq<TypeScope>, s: Stmt, f: Stmt, after: seq<TypeScope>)
    requires scopes != []
  {
    CheckStmt(cx, scopes, s) == Ok(Bound(f, after))
  }

  lemma {:induction false} FormsAccepted(cx: Context, scopes: seq<TypeScope>, s: Stmt, f: Stmt, after: seq<TypeScope>)
    requires scopes != [] && Forms(Of(cx), scopes, s, f, after)
    ensures Takes(cx, scopes, s, f, after)
    decreases s, 2
  {
    hide Forms, Takes;
    match s
    case LocalDeclaration(_, _) => ListedAccepted(cx, scopes, s, f, after);
    case Sequence(_) => ListedAccepted(cx, scopes, s, f, after);
    case Block(_) => ListedAccepted(cx, scopes, s, f, after);
    case If(_, _, _) => IfAccepted(cx, scopes, s, f, after);
    case While(_, _) => WhileAccepted(cx, scopes, s, f, after);
    case DoWhile(_, _) => WhileAccepted(cx, scopes, s, f, after);
    case For(_, _, _, _) => ForAccepted(cx, scopes, s, f, after);
    case ForEach(_, _, _, _) => ForEachAccepted(cx, scopes, s, f, after);
    case Try(_, _, _) => TryAccepted(cx, scopes, s, f, after);
    case ExprStmt(_) => ExprStmtAccepted(cx, scopes, s, f, after);
    case Return(Some(_)) => ReturnAccepted(cx, scopes, s, f, after);
    case Throw(_) => ThrowAccepted(cx, scopes, s, f, after);
    case _ => JumpAccepted(cx, scopes, s, f, after);
  }

  lemma JumpAccepted(cx: Context, scopes: seq<TypeScope>, s: Stmt, f: Stmt, after: seq<TypeScope>)
    requires scopes != [] && Forms(Of(cx), scopes, s, f, after)
    requires s.Break? || s.Continue? || s == Return(None)
    ensures Takes(cx, scopes, s, f, after)
  {
  }

  lemma ExprStmtAccepted(cx: Context, scopes: seq<TypeScope>, s: Stmt, f: Stmt, after: seq<TypeScope>)
    requires scopes != [] && s.ExprStmt? && Forms(Of(cx), scopes, s, f, after)
    ensures Takes(cx, scopes, s, f, after)
  {
    var t :| Elaborates(Of(cx), scopes, s.expression, f.expression, t);
    assert IsStatementExpression(s.expression);
    assert f == ExprStmt(f.expression) && after == scopes;
    ExpressionsExactly(cx, scopes, s.expression);
    hide CheckExpr, Elaborates, Forms, IsStatementExpression;
  }

  lemma ReturnAccepted(cx: Context, scopes: seq<TypeScope>, s: Stmt, f: Stmt, after: seq<TypeScope>)
    requires scopes != [] && s.Return? && s.result.Some? && Forms(Of(cx), scopes, s, f, after)
    ensures Takes(cx, scopes, s, f, after)
  {
    var e := s.result.value;
    var t :| Elaborates(Of(cx), scopes, e, f.result.value, t) && Accepts(cx.classes, cx.returnType.value.ty, t);
    assert f == Return(Some(f.result.value)) && after == scopes && cx.returnType.Some? && cx.returnType.value.RValue?;
    ExpressionsExactly(cx, scopes, e);
    AcceptsExactly(cx.classes, cx.returnType.value.ty, t);
    hide CheckExpr, Elaborates, Accepts, IsAssignable, Forms;
  }

  lemma ThrowAccepted(cx: Context, scopes: seq<TypeScope>, s: Stmt, f: Stmt, after: seq<TypeScope>)
    requires scopes != [] && s.Throw? && Forms(Of(cx), scopes, s, f, after)
    ensures Takes(cx, scopes, s, f, after)
  {
    var t :| Elaborates(Of(cx), scopes, s.exception, f.exception, t) && Throws(cx.classes, t);
    assert f == Throw(f.exception) && after == scopes;
    ExpressionsExactly(cx, scopes, s.exception);
    if t.EValue? { ThrowableExactly(cx.classes, t.ty); }
    hide CheckExpr, Elaborates, Throwable, IsExceptionType, Forms;
  }

  lemma {:induction false} ListedAccepted(cx: Context, scopes: seq<TypeScope>, s: Stmt, f: Stmt, after: seq<TypeScope>)
    requires scopes != [] && Forms(Of(cx), scopes, s, f, after)
    requires s.LocalDeclaration? || s.Sequence? || s.Block?
    ensures Takes(cx, scopes, s, f, after)
    decreases s, 1
  {
    match s
    case LocalDeclaration(ty, ds) =>
      DeclaratorsAccepted(cx, scopes, ty, ds, f.declarators, after);
      hide CheckDeclarators;
    case Sequence(ss) =>
      AllAccepted(cx, scopes, ss, f.statements, after);
      hide CheckStmts;
    case Block(ss) =>
      var inner :| FormsAll(Of(cx), scopes + [map[]], ss, f.statements, inner);
      AllAccepted(cx, scopes + [map[]], ss, f.statements, inner);
      hide CheckStmts, FormsAll;
  }

  lemma {:induction false} OptionalAccepted(cx: Context, scopes: seq<TypeScope>, s: Option<Stmt>, f: Option<Stmt>, after: seq<TypeScope>)
    requires scopes != [] && FormsOptional(Of(cx), scopes, s, f, after)
    ensures CheckOptional(cx, scopes, s) == Ok(Bound(f, after))
    decreases s, 3
  {
    if s.Some? { FormsAccepted(cx, scopes, s.value, f.value, after); }
    hide Forms, CheckStmt;
  }

  lemma {:induction false} AllAccepted(cx: Context, scopes: seq<TypeScope>, ss: seq<Stmt>, fs: seq<Stmt>, after: seq<TypeScope>)
    requires scopes != [] && FormsAll(Of(cx), scopes, ss, fs, after)
    ensures CheckStmts(cx, scopes, ss) == Ok(Bound(fs, after))
    decreases ss, 0
  {
    if ss != [] {
      var middle :| Forms(Of(cx), scopes, ss[0], fs[0], middle) && FormsAll(Of(cx), middle, ss[1..], fs[1..], after);
      FormsAccepted(cx, scopes, ss[0], fs[0], middle);
      hide Forms, CheckStmt;
      AllAccepted(cx, middle, ss[1..], fs[1..], after);
      assert [fs[0]] + fs[1..] == fs;
    }
  }

  lemma InitializerExactly(cx: Context, scopes: seq<TypeScope>, ty: Type, e: Option<Expr>, f: Option<Expr>)
    ensures Initializes(Of(cx), scopes, ty, e, f) <==> CheckInitializer(cx, scopes, ty, e) == Ok(f)
  {
    if e.Some? {
      ExpressionsExactly(cx, scopes, e.value);
      hide CheckExpr, Elaborates;
      var r := CheckExpr(cx, scopes, e.value);
      if r.Ok? { AcceptsExactly(cx.classes, ty, r.value.ty); }
      hide IsAssignable, Accepts;
      if f.Some? && Initializes(Of(cx), scopes, ty, e, f) {
        var t :| Elaborates(Of(cx), scopes, e.value, f.value, t) && Accepts(cx.classes, ty, t);
      }
    }
  }

  lemma {:induction false} DeclaratorsAccepted(cx: Context, scopes: seq<TypeScope>, ty: Type, ds: seq<Declarator>,
                                               fs: seq<Declarator>, after: seq<TypeScope>)
    requires scopes != [] && FormsDeclarators(Of(cx), scopes, ty, ds, fs, after)
    ensures CheckDeclarators(cx, scopes, ty, ds) == Ok(Bound(fs, after))
    decreases ds
  {
    if ds != [] {
      var middle :| Extended(scopes, ds[0].name, ty, middle) && FormsDeclarators(Of(cx), middle, ty, ds[1..], fs[1..], after);
      ExtendedIs(scopes, ds[0].name, ty, middle);
      DeclaredExactly(cx.classes, ty);
      InitializerExactly(cx, scopes, ty, ds[0].initializer, fs[0].initializer);
      hide Extended, BindType, ValidType, Declared, Initializes, CheckInitializer;
      DeclaratorsAccepted(cx, middle, ty, ds[1..], fs[1..], after);
      assert fs[0] == Declarator(ds[0].name, fs[0].initializer) && [fs[0]] + fs[1..] == fs;
    }
  }

  lemma {:induction false} IfAccepted(cx: Context, scopes: seq<TypeScope>, s: Stmt, f: Stmt, after: seq<TypeScope>)
    requires scopes != [] && s.If? && Forms(Of(cx), scopes, s, f, after)
    ensures Takes(cx, scopes, s, f, after)
    decreases s, 1
  {
    var middle :| Forms(Of(cx), scopes, s.thenBranch, f.thenBranch, middle)
                  && FormsOptional(Of(cx), middle, s.elseBranch, f.elseBranch, after);
    BooleanExactly(cx, scopes, s.condition, f.condition);
    FormsAccepted(cx, scopes, s.thenBranch, f.thenBranch, middle);
    OptionalAccepted(cx, middle, s.elseBranch, f.elseBranch, after);
    hide Forms, FormsOptional, CheckOptional, CheckBoolean, Elaborates;
  }

  lemma {:induction false} WhileAccepted(cx: Context, scopes: seq<TypeScope>, s: Stmt, f: Stmt, after: seq<TypeScope>)
    requires scopes != [] && (s.While? || s.DoWhile?) && Forms(Of(cx), scopes, s, f, after)
    ensures Takes(cx, scopes, s, f, after)
    decreases s, 1
  {
    assert Of(cx.InLoop()) == Of(cx).(inLoop := true);
    FormsAccepted(cx.InLoop(), scopes, s.body, f.body, after);
    BooleanExactly(cx, if s.While? then scopes else after, s.condition, f.condition);
    hide Forms, CheckBoolean, Elaborates;
  }

  lemma TestsExactly(cx: Context, scopes: seq<TypeScope>, c: Option<Expr>, f: Option<Expr>)
    ensures Tests(Of(cx), scopes, c, f) <==> CheckOptionalBoolean(cx, scopes, c) == Ok(f)
  {
    if c.Some? && f.Some? { BooleanExactly(cx, scopes, c.value, f.value); }
    hide CheckBoolean, Elaborates;
  }

  lemma {:induction false} ForAccepted(cx: Context, scopes: seq<TypeScope>, s: Stmt, f: Stmt, after: seq<TypeScope>)
    requires scopes != [] && s.For? && Forms(Of(cx), scopes, s, f, after)
    ensures Takes(cx, scopes, s, f, after)
    decreases s, 1
  {
    var inner := Of(cx).(inLoop := true);
    var first, second, third :|
      && FormsOptional(Of(cx), scopes + [map[]], s.initializer, f.initializer, first)
      && Tests(Of(cx), first, s.forCondition, f.forCondition)
      && Forms(inner, first, s.body, f.body, second) && FormsOptional(inner, second, s.update, f.update, third);
    assert Of(cx.InLoop()) == inner;
    OptionalAccepted(cx, scopes + [map[]], s.initializer, f.initializer, first);
    TestsExactly(cx, first, s.forCondition, f.forCondition);
    FormsAccepted(cx.InLoop(), first, s.body, f.body, second);
    OptionalAccepted(cx.InLoop(), second, s.update, f.update, third);
    hide Forms, FormsOptional, CheckOptional, CheckOptionalBoolean, Tests;
  }

  lemma {:induction false} ForEachAccepted(cx: Context, scopes: seq<TypeScope>, s: Stmt, f: Stmt, after: seq<TypeScope>)
    requires scopes != [] && s.ForEach? && Forms(Of(cx), scopes, s, f, after)
    ensures Takes(cx, scopes, s, f, after)
    decreases s, 1
  {
    var g := Of(cx);
    var element, inner :|
      && Elaborates(g, scopes, s.iterable, f.iterable, EValue(TList(element))) && Under(g.classes, element, s.ty)
      && Forms(g.(inLoop := true), scopes + [map[s.name := s.ty]], s.body, f.body, inner);
    assert Of(cx.InLoop()) == g.(inLoop := true);
    ExpressionsExactly(cx, scopes, s.iterable);
    UnderExactly(cx.classes, element, s.ty);
    FormsAccepted(cx.InLoop(), scopes + [map[s.name := s.ty]], s.body, f.body, inner);
    hide Forms, Elaborates, CheckExpr, Under, IsSubtype;
  }

  lemma {:induction false} BodyAccepted(cx: Context, scopes: seq<TypeScope>, body: Stmt, f: Stmt)
    requires scopes != [] && FormsBody(Of(cx), scopes, body, f)
    ensures CheckBody(cx, scopes, body) == Ok(f)
    decreases body, 4
  {
    if body.Block? { BlockBodyAccepted(cx, scopes, body, f); } else { PlainBodyAccepted(cx, scopes, body, f); }
  }

  lemma {:induction false} BlockBodyAccepted(cx: Context, scopes: seq<TypeScope>, body: Stmt, f: Stmt)
    requires scopes != [] && body.Block? && FormsBody(Of(cx), scopes, body, f)
    ensures CheckBody(cx, scopes, body) == Ok(f)
    decreases body, 3
  {
    var inner :| FormsAll(Of(cx), scopes, body.statements, f.statements, inner);
    AllAccepted(cx, scopes, body.statements, f.statements, inner);
    hide FormsAll, CheckStmts;
  }

  lemma {:induction false} PlainBodyAccepted(cx: Context, scopes: seq<TypeScope>, body: Stmt, f: Stmt)
    requires scopes != [] && !body.Block? && FormsBody(Of(cx), scopes, body, f)
    ensures CheckBody(cx, scopes, body) == Ok(f)
    decreases body, 3
  {
    hide Forms, CheckStmt;
    var inner :| Forms(Of(cx), scopes, body, f, inner);
    FormsAccepted(cx, scopes, body, f, inner);
  }

  /** The clauses without their bodies. */
  lemma ReachableExactly(classes: ClassTable, catches: seq<Catch>)
    ensures ExceptionClauses(classes, catches) <==> forall i :: 0 <= i < |catches| ==> Throwable(classes, catches[i].ty)
    ensures NoneCovered(classes, catches) <==>
              forall i :: 0 <= i < |catches| ==> forall j :: 0 <= j < i ==> !Under(classes, catches[i].ty, catches[j].ty)
  {
    forall i | 0 <= i < |catches| ensures IsExceptionType(classes, catches[i].ty) <==> Throwable(classes, catches[i].ty) {
      ThrowableExactly(classes, catches[i].ty);
    }
    forall i, j | 0 <= j < i < |catches|
      ensures IsSubtype(classes, catches[i].ty, catches[j].ty) <==> Under(classes, catches[i].ty, catches[j].ty)
    {
      UnderExactly(classes, catches[i].ty, catches[j].ty);
    }
    hide IsExceptionType, Throwable, IsSubtype, Under;
  }

  lemma {:induction false} ClausesAccepted(cx: Context, scopes: seq<TypeScope>, catches: seq<Catch>, fs: seq<Catch>)
    requires scopes != [] && FormsClauses(Of(cx), scopes, catches, fs)
    ensures CheckCatches(cx, scopes, catches, [], false) == Ok(fs)
    decreases catches, 0
  {
    ReachableExactly(cx.classes, catches);
    forall i | 0 <= i < |catches|
      ensures CheckBody(cx, scopes + [map[catches[i].name := catches[i].ty]], catches[i].body) == Ok(fs[i].body)
    {
      BodyAccepted(cx, scopes + [map[catches[i].name := catches[i].ty]], catches[i].body, fs[i].body);
    }
    hide CheckBody, FormsBody, Throwable, Under, IsExceptionType, IsSubtype;
    CatchLoopExactly(cx, scopes, catches, [], false);
    assert BodiesAccepted(cx, scopes, catches) && UncoveredBy(cx.classes, catches, []);
    hide CheckCatches, ExceptionClauses, NoneCovered, BodiesAccepted, UncoveredBy;
    var r := CheckCatches(cx, scopes, catches, [], false).value;
    forall i | 0 <= i < |catches| ensures r[i] == fs[i] {
      CatchChecked(cx, scopes, catches, [], false, i);
    }
    assert r == fs;
  }

  lemma {:induction false} TryAccepted(cx: Context, scopes: seq<TypeScope>, s: Stmt, f: Stmt, after: seq<TypeScope>)
    requires scopes != [] && s.Try? && Forms(Of(cx), scopes, s, f, after)
    ensures Takes(cx, scopes, s, f, after)
    decreases s, 1
  {
    var middle :|
      && Forms(Of(cx), scopes, s.tryBlock, f.tryBlock, middle) && FormsClauses(Of(cx), middle, s.catches, f.catches)
      && FormsOptional(Of(cx), middle, s.finallyBlock, f.finallyBlock, after);
    FormsAccepted(cx, scopes, s.tryBlock, f.tryBlock, middle);
    ClausesAccepted(cx, middle, s.catches, f.catches);
    OptionalAccepted(cx, middle, s.finallyBlock, f.finallyBlock, after);
    hide Forms, FormsClauses, FormsOptional, CheckCatches, CheckOptional;
  }

  // ---------------------------------------------------------------- what it accepts is derivable

  ghost predicate Derives(cx: Context, scopes: seq<TypeScope>, s: Stmt)
    requires scopes != []
  {
    var r := CheckStmt(cx, scopes, s);
    r.Ok? ==> Forms(Of(cx), scopes, s, r.value.syntax, r.value.scopes)
  }

  lemma {:induction false} AcceptedForms(cx: Context, scopes: seq<TypeScope>, s: Stmt)
    requires scopes != [] && CheckStmt(cx, scopes, s).Ok?
    ensures Derives(cx, scopes, s)
    decreases s, 2
  {
    hide CheckStmt, Derives;
    match s
    case LocalDeclaration(_, _) => ListedForms(cx, scopes, s);
    case Sequence(_) => ListedForms(cx, scopes, s);
    case Block(_) => ListedForms(cx, scopes, s);
    case If(_, _, _) => IfForms(cx, scopes, s);
    case While(_, _) => WhileForms(cx, scopes, s);
    case DoWhile(_, _) => DoWhileForms(cx, scopes, s);
    case For(_, _, _, _) => ForForms(cx, scopes, s);
    case ForEach(_, _, _, _) => ForEachForms(cx, scopes, s);
    case Try(_, _, _) => TryForms(cx, scopes, s);
    case ExprStmt(_) => ExprStmtForms(cx, scopes, s);
    case Return(_) => ReturnForms(cx, scopes, s);
    case Throw(_) => ThrowForms(cx, scopes, s);
    case _ => JumpForms(cx, scopes, s);
  }

  lemma StandaloneChecked(cx: Context, scopes: seq<TypeScope>, s: Stmt)
    requires scopes != [] && s.ExprStmt? && CheckStmt(cx, scopes, s).Ok?
    ensures Standalone(s.expression)
  {
  }

  lemma JumpForms(cx: Context, scopes: seq<TypeScope>, s: Stmt)
    requires scopes != [] && (s.Break? || s.Continue?) && CheckStmt(cx, scopes, s).Ok?
    ensures Derives(cx, scopes, s)
  {
    JumpChecked(cx, scopes, s);
    hide CheckStmt;
  }

  lemma ExprStmtForms(cx: Context, scopes: seq<TypeScope>, s: Stmt)
    requires scopes != [] && s.ExprStmt? && CheckStmt(cx, scopes, s).Ok?
    ensures Derives(cx, scopes, s)
  {
    StandaloneChecked(cx, scopes, s);
    ExprStmtChecked(cx, scopes, s);
    ExpressionsExactly(cx, scopes, s.expression);
    hide CheckStmt, CheckExpr, Elaborates, Standalone;
    var v := CheckExpr(cx, scopes, s.expression).value;
    assert Elaborates(Of(cx), scopes, s.expression, v.expr, v.ty);
  }

  lemma ReturnForms(cx: Context, scopes: seq<TypeScope>, s: Stmt)
    requires scopes != [] && s.Return? && CheckStmt(cx, scopes, s).Ok?
    ensures Derives(cx, scopes, s)
  {
    ReturnChecked(cx, scopes, s);
    hide CheckStmt, CheckExpr, Elaborates, Accepts, IsAssignable;
    if s.result.Some? {
      var e := s.result.value;
      ExpressionsExactly(cx, scopes, e);
      var v := CheckExpr(cx, scopes, e).value;
      AcceptsExactly(cx.classes, cx.returnType.value.ty, v.ty);
      assert Elaborates(Of(cx), scopes, e, v.expr, v.ty);
    }
  }

  lemma ThrowForms(cx: Context, scopes: seq<TypeScope>, s: Stmt)
    requires scopes != [] && s.Throw? && CheckStmt(cx, scopes, s).Ok?
    ensures Derives(cx, scopes, s)
  {
    ThrowChecked(cx, scopes, s);
    hide CheckStmt, CheckExpr, Elaborates, Throwable, IsExceptionType;
    ExpressionsExactly(cx, scopes, s.exception);
    var v := CheckExpr(cx, scopes, s.exception).value;
    if v.ty.EValue? { ThrowableExactly(cx.classes, v.ty.ty); }
    assert Elaborates(Of(cx), scopes, s.exception, v.expr, v.ty) && Throws(cx.classes, v.ty);
  }

  lemma {:induction false} ListedForms(cx: Context, scopes: seq<TypeScope>, s: Stmt)
    requires scopes != [] && CheckStmt(cx, scopes, s).Ok?
    requires s.LocalDeclaration? || s.Sequence? || s.Block?
    ensures Derives(cx, scopes, s)
    decreases s, 1
  {
    match s
    case LocalDeclaration(ty, ds) =>
      DeclarationChecked(cx, scopes, s);
      hide CheckStmt, CheckDeclarators;
      DeclaratorsForm(cx, scopes, ty, ds);
    case Sequence(ss) =>
      SequenceChecked(cx, scopes, s);
      hide CheckStmt, CheckStmts;
      AllForm(cx, scopes, ss);
    case Block(ss) =>
      BlockChecked(cx, scopes, s);
      hide CheckStmt, CheckStmts;
      AllForm(cx, scopes + [map[]], ss);
  }

  lemma {:induction false} OptionalForms(cx: Context, scopes: seq<TypeScope>, s: Option<Stmt>)
    requires scopes != [] && CheckOptional(cx, scopes, s).Ok?
    ensures var b := CheckOptional(cx, scopes, s).value; FormsOptional(Of(cx), scopes, s, b.syntax, b.scopes)
    decreases s, 3
  {
    OptionalChecked(cx, scopes, s);
    hide CheckStmt, CheckOptional;
    if s.Some? { AcceptedForms(cx, scopes, s.value); }
  }

  lemma {:induction false} AllForm(cx: Context, scopes: seq<TypeScope>, ss: seq<Stmt>)
    requires scopes != [] && CheckStmts(cx, scopes, ss).Ok?
    ensures var b := CheckStmts(cx, scopes, ss).value; FormsAll(Of(cx), scopes, ss, b.syntax, b.scopes)
    decreases ss, 0
  {
    if ss != [] {
      StmtsChecked(cx, scopes, ss);
      hide CheckStmt, CheckStmts;
      var first := CheckStmt(cx, scopes, ss[0]).value;
      AcceptedForms(cx, scopes, ss[0]);
      AllForm(cx, first.scopes, ss[1..]);
      var b := CheckStmts(cx, scopes, ss).value;
      assert b.syntax[0] == first.syntax && b.syntax[1..] == CheckStmts(cx, first.scopes, ss[1..]).value.syntax;
      assert Forms(Of(cx), scopes, ss[0], first.syntax, first.scopes);
      hide Forms;
    }
  }

  lemma DeclaratorNew(cx: Context, scopes: seq<TypeScope>, ty: Type, ds: seq<Declarator>)
    requires scopes != [] && ds != [] && CheckDeclarators(cx, scopes, ty, ds).Ok?
    ensures ValidType(cx.classes, ty) && ds[0].name !in scopes[|scopes| - 1]
  {
  }

  lemma {:induction false} DeclaratorsForm(cx: Context, scopes: seq<TypeScope>, ty: Type, ds: seq<Declarator>)
    requires scopes != [] && CheckDeclarators(cx, scopes, ty, ds).Ok?
    ensures var b := CheckDeclarators(cx, scopes, ty, ds).value; FormsDeclarators(Of(cx), scopes, ty, ds, b.syntax, b.scopes)
    decreases ds
  {
    if ds != [] {
      DeclaratorNew(cx, scopes, ty, ds);
      DeclaratorsChecked(cx, scopes, ty, ds);
      DeclaredExactly(cx.classes, ty);
      hide CheckDeclarators, ValidType, Declared, BindType, CheckInitializer, Initializes, Extended;
      var middle := BindType(scopes, ds[0].name, ty);
      var b := CheckDeclarators(cx, scopes, ty, ds).value;
      ExtendedIs(scopes, ds[0].name, ty, middle);
      InitializerExactly(cx, scopes, ty, ds[0].initializer, b.syntax[0].initializer);
      DeclaratorsForm(cx, middle, ty, ds[1..]);
      assert b.syntax[1..] == CheckDeclarators(cx, middle, ty, ds[1..]).value.syntax;
      assert Extended(scopes, ds[0].name, ty, middle);
    }
  }

  lemma {:induction false} IfForms(cx: Context, scopes: seq<TypeScope>, s: Stmt)
    requires scopes != [] && s.If? && CheckStmt(cx, scopes, s).Ok?
    ensures Derives(cx, scopes, s)
    decreases s, 1
  {
    IfChecked(cx, scopes, s);
    hide CheckStmt, CheckOptional, CheckBoolean, Elaborates, FormsOptional;
    BooleanExactly(cx, scopes, s.condition, CheckBoolean(cx, scopes, s.condition).value);
    var t := CheckStmt(cx, scopes, s.thenBranch).value;
    AcceptedForms(cx, scopes, s.thenBranch);
    OptionalForms(cx, t.scopes, s.elseBranch);
    assert Forms(Of(cx), scopes, s.thenBranch, t.syntax, t.scopes);
  }

  lemma {:induction false} WhileForms(cx: Context, scopes: seq<TypeScope>, s: Stmt)
    requires scopes != [] && s.While? && CheckStmt(cx, scopes, s).Ok?
    ensures Derives(cx, scopes, s)
    decreases s, 1
  {
    WhileChecked(cx, scopes, s);
    hide CheckStmt, CheckBoolean, Elaborates;
    assert Of(cx.InLoop()) == Of(cx).(inLoop := true);
    BooleanExactly(cx, scopes, s.condition, CheckBoolean(cx, scopes, s.condition).value);
    AcceptedForms(cx.InLoop(), scopes, s.body);
  }

  lemma {:induction false} DoWhileForms(cx: Context, scopes: seq<TypeScope>, s: Stmt)
    requires scopes != [] && s.DoWhile? && CheckStmt(cx, scopes, s).Ok?
    ensures Derives(cx, scopes, s)
    decreases s, 1
  {
    DoWhileChecked(cx, scopes, s);
    hide CheckStmt, CheckBoolean, Elaborates;
    assert Of(cx.InLoop()) == Of(cx).(inLoop := true);
    var b := CheckStmt(cx.InLoop(), scopes, s.body).value;
    BooleanExactly(cx, b.scopes, s.condition, CheckBoolean(cx, b.scopes, s.condition).value);
    AcceptedForms(cx.InLoop(), scopes, s.body);
  }

  lemma {:induction false} ForForms(cx: Context, scopes: seq<TypeScope>, s: Stmt)
    requires scopes != [] && s.For? && CheckStmt(cx, scopes, s).Ok?
    ensures Derives(cx, scopes, s)
    decreases s, 1
  {
    ForChecked(cx, scopes, s);
    hide CheckStmt, CheckOptional, CheckOptionalBoolean, Tests, FormsOptional;
    assert Of(cx.InLoop()) == Of(cx).(inLoop := true);
    var i := CheckOptional(cx, scopes + [map[]], s.initializer).value;
    OptionalForms(cx, scopes + [map[]], s.initializer);
    TestsExactly(cx, i.scopes, s.forCondition, CheckOptionalBoolean(cx, i.scopes, s.forCondition).value);
    var b := CheckStmt(cx.InLoop(), i.scopes, s.body).value;
    AcceptedForms(cx.InLoop(), i.scopes, s.body);
    OptionalForms(cx.InLoop(), b.scopes, s.update);
    assert Forms(Of(cx).(inLoop := true), i.scopes, s.body, b.syntax, b.scopes);
  }

  lemma {:induction false} ForEachForms(cx: Context, scopes: seq<TypeScope>, s: Stmt)
    requires scopes != [] && s.ForEach? && CheckStmt(cx, scopes, s).Ok?
    ensures Derives(cx, scopes, s)
    decreases s, 1
  {
    ForEachChecked(cx, scopes, s);
    hide CheckStmt, CheckExpr, Elaborates;
    assert Of(cx.InLoop()) == Of(cx).(inLoop := true);
    var l := CheckExpr(cx, scopes, s.iterable).value;
    ExpressionsExactly(cx, scopes, s.iterable);
    assert Elaborates(Of(cx), scopes, s.iterable, l.expr, l.ty);
    UnderExactly(cx.classes, l.ty.ty.element, s.ty);
    AcceptedForms(cx.InLoop(), scopes + [map[s.name := s.ty]], s.body);
    var b := CheckStmt(cx.InLoop(), scopes + [map[s.name := s.ty]], s.body).value;
    assert Forms(Of(cx).(inLoop := true), scopes + [map[s.name := s.ty]], s.body, b.syntax, b.scopes);
    hide Under, IsSubtype;
  }

  lemma {:induction false} BodyForms(cx: Context, scopes: seq<TypeScope>, body: Stmt)
    requires scopes != [] && CheckBody(cx, scopes, body).Ok?
    ensures FormsBody(Of(cx), scopes, body, CheckBody(cx, scopes, body).value)
    decreases body, 3
  {
    BodyChecked(cx, scopes, body);
    hide CheckStmt, CheckStmts, CheckBody;
    if body.Block? {
      AllForm(cx, scopes, body.statements);
    } else {
      AcceptedForms(cx, scopes, body);
    }
  }

  lemma {:induction false} ClausesForm(cx: Context, scopes: seq<TypeScope>, catches: seq<Catch>)
    requires scopes != [] && CheckCatches(cx, scopes, catches, [], false).Ok?
    ensures FormsClauses(Of(cx), scopes, catches, CheckCatches(cx, scopes, catches, [], false).value)
    decreases catches, 0
  {
    ReachableExactly(cx.classes, catches);
    CatchLoopExactly(cx, scopes, catches, [], false);
    var fs := CheckCatches(cx, scopes, catches, [], false).value;
    hide CheckBody, CheckCatches, FormsBody, Throwable, Under, IsExceptionType, IsSubtype, ExceptionClauses, NoneCovered;
    forall i | 0 <= i < |catches|
      ensures fs[i].ty == catches[i].ty && fs[i].name == catches[i].name
      ensures FormsBody(Of(cx), scopes + [map[catches[i].name := catches[i].ty]], catches[i].body, fs[i].body)
    {
      CatchChecked(cx, scopes, catches, [], false, i);
      BodyForms(cx, scopes + [map[catches[i].name := catches[i].ty]], catches[i].body);
    }
  }

  lemma {:induction false} TryForms(cx: Context, scopes: seq<TypeScope>, s: Stmt)
    requires scopes != [] && s.Try? && CheckStmt(cx, scopes, s).Ok?
    ensures Derives(cx, scopes, s)
    decreases s, 1
  {
    TryChecked(cx, scopes, s);
    hide CheckStmt, CheckCatches, CheckOptional, FormsClauses, FormsOptional;
    var t := CheckStmt(cx, scopes, s.tryBlock).value;
    AcceptedForms(cx, scopes, s.tryBlock);
    ClausesForm(cx, t.scopes, s.catches);
    OptionalForms(cx, t.scopes, s.finallyBlock);
    assert Forms(Of(cx), scopes, s.tryBlock, t.syntax, t.scopes);
  }

  /** The checker accepts a statement exactly when the rules derive it, with that syntax and those scopes. */
  lemma StatementsExactly(cx: Context, scopes: seq<TypeScope>, s: Stmt)
    requires scopes != []
    ensures forall f, after :: Forms(Of(cx), scopes, s, f, after) <==> CheckStmt(cx, scopes, s) == Ok(Bound(f, after))
  {
    hide CheckStmt, Forms;
    forall f, after ensures Forms(Of(cx), scopes, s, f, after) <==> CheckStmt(cx, scopes, s) == Ok(Bound(f, after)) {
      if Forms(Of(cx), scopes, s, f, after) { FormsAccepted(cx, scopes, s, f, after); }
      if CheckStmt(cx, scopes, s).Ok? { AcceptedForms(cx, scopes, s); }
    }
  }

  // ---------------------------------------------------------------- methods and programs

  predicate HasParameter(parameters: seq<Parameter>, x: Name, ty: Type) {
    exists i :: 0 <= i < |parameters| && parameters[i] == Parameter(ty, x)
  }

  /** The scope of a method body: its parameters, of declared types and with different names. */
  ghost predicate NamesParameters(classes: ClassTable, parameters: seq<Parameter>, scope: TypeScope) {
    && (forall i :: 0 <= i < |parameters| ==> Declared(classes, parameters[i].ty))
    && (forall i, j :: 0 <= i < j < |parameters| ==> parameters[i].name != parameters[j].name)
    && (forall x, ty :: HasParameter(parameters, x, ty) <==> x in scope && scope[x] == ty)
  }

  lemma OnlyParameters(classes: ClassTable, parameters: seq<Parameter>, scope: TypeScope, x: Name)
    requires NamesParameters(classes, parameters, scope)
    ensures x in scope ==> exists ty :: HasParameter(parameters, x, ty)
  {
    if x in scope { assert HasParameter(parameters, x, scope[x]); }
  }

  lemma {:induction false} ParametersExactly(classes: ClassTable, parameters: seq<Parameter>, scope: TypeScope)
    ensures NamesParameters(classes, parameters, scope) <==> BindParameters(classes, parameters) == Ok(scope)
    decreases |parameters|
  {
    hide ValidType, Declared;
    if parameters == [] {
      if NamesParameters(classes, [], scope) {
        forall x ensures x !in scope {
          OnlyParameters(classes, [], scope, x);
        }
        assert scope == map[];
      }
    } else {
      var n := |parameters| - 1;
      var front, last := parameters[..n], parameters[n];
      DeclaredExactly(classes, last.ty);
      if NamesParameters(classes, parameters, scope) {
        FrontNames(classes, parameters, scope);
        ParametersExactly(classes, front, scope - {last.name});
        assert HasParameter(parameters, last.name, last.ty);
        assert scope == (scope - {last.name})[last.name := last.ty];
      }
      if BindParameters(classes, parameters) == Ok(scope) {
        var rest := BindParameters(classes, front).value;
        ParametersExactly(classes, front, rest);
        NamesOneMore(classes, parameters, rest);
      }
    }
  }

  lemma FrontNames(classes: ClassTable, parameters: seq<Parameter>, scope: TypeScope)
    requires parameters != [] && NamesParameters(classes, parameters, scope)
    ensures NamesParameters(classes, parameters[..|parameters| - 1], scope - {parameters[|parameters| - 1].name})
  {
    hide Declared;
    var n := |parameters| - 1;
    var front, last := parameters[..n], parameters[n];
    forall x, ty ensures HasParameter(front, x, ty) <==> HasParameter(parameters, x, ty) && x != last.name {
      if HasParameter(front, x, ty) {
        var i :| 0 <= i < n && front[i] == Parameter(ty, x);
        assert parameters[i] == front[i];
      }
      if HasParameter(parameters, x, ty) && x != last.name {
        var i :| 0 <= i < |parameters| && parameters[i] == Parameter(ty, x);
        assert front[i] == parameters[i];
      }
    }
    hide HasParameter;
  }

  lemma NamesOneMore(classes: ClassTable, parameters: seq<Parameter>, rest: TypeScope)
    requires parameters != []
    requires var last := parameters[|parameters| - 1];
             && NamesParameters(classes, parameters[..|parameters| - 1], rest) && Declared(classes, last.ty) && last.name !in rest
    ensures var last := parameters[|parameters| - 1]; NamesParameters(classes, parameters, rest[last.name := last.ty])
  {
    hide Declared;
    var n := |parameters| - 1;
    var front, last := parameters[..n], parameters[n];
    assert forall i :: 0 <= i < n ==> parameters[i] == front[i];
    forall i | 0 <= i < n ensures parameters[i].name != last.name {
      assert front[i] == Parameter(parameters[i].ty, parameters[i].name);
      assert HasParameter(front, parameters[i].name, parameters[i].ty);
    }
    forall x, ty ensures HasParameter(parameters, x, ty) <==> HasParameter(front, x, ty) || (x == last.name && ty == last.ty) {
      if HasParameter(front, x, ty) {
        var i :| 0 <= i < n && front[i] == Parameter(ty, x);
        assert parameters[i] == front[i];
      }
      if HasParameter(parameters, x, ty) {
        var i :| 0 <= i < |parameters| && parameters[i] == Parameter(ty, x);
        assert i < n ==> front[i] == parameters[i];
      }
      if x == last.name && ty == last.ty { assert parameters[n] == Parameter(ty, x); }
    }
    hide HasParameter;
  }

  /** A method: declared types, a body that is derivable among the parameters and outside of every loop, and
      that control cannot fall out of when a value is owed. */
  ghost predicate FormsMethod(classes: ClassTable, methods: seq<Method>, m: Method, f: Method) {
    && f.name == m.name && f.parameters == m.parameters && f.returnType == m.returnType
    && (m.returnType.RValue? ==> Declared(classes, m.returnType.ty) && AlwaysLeaves(m.body))
    && exists scope :: NamesParameters(classes, m.parameters, scope)
                       && FormsBody(Surroundings(classes, methods, Some(m.returnType), false), [scope], m.body, f.body)
  }

  lemma MethodExactly(cx: Context, m: Method, f: Method)
    ensures FormsMethod(cx.classes, cx.methods, m, f) <==> CheckMethod(cx, m) == Ok(f)
  {
    hide CheckBody, FormsBody, AlwaysLeaves, DefinitelyReturnsOrThrows, ValidType, Declared, NamesParameters, BindParameters;
    ReturnsExactly(m.body);
    if m.returnType.RValue? { DeclaredExactly(cx.classes, m.returnType.ty); }
    var inner := cx.(loopDepth := 0, returnType := Some(m.returnType));
    assert Of(inner) == Surroundings(cx.classes, cx.methods, Some(m.returnType), false);
    if FormsMethod(cx.classes, cx.methods, m, f) {
      var scope :| NamesParameters(cx.classes, m.parameters, scope) && FormsBody(Of(inner), [scope], m.body, f.body);
      ParametersExactly(cx.classes, m.parameters, scope);
      BodyAccepted(inner, [scope], m.body, f.body);
      assert f == m.(body := f.body);
    }
    if CheckMethod(cx, m) == Ok(f) {
      var scope := BindParameters(cx.classes, m.parameters).value;
      ParametersExactly(cx.classes, m.parameters, scope);
      BodyForms(inner, [scope], m.body);
      assert NamesParameters(cx.classes, m.parameters, scope) && FormsBody(Of(inner), [scope], m.body, f.body);
    }
  }

  lemma {:induction false} MethodsExactly(cx: Context, ms: seq<Method>, fs: seq<Method>)
    ensures CheckMethods(cx, ms) == Ok(fs) <==>
              |fs| == |ms| && forall i :: 0 <= i < |ms| ==> FormsMethod(cx.classes, cx.methods, ms[i], fs[i])
    decreases |ms|
  {
    hide CheckMethod, FormsMethod;
    if ms != [] && |fs| == |ms| {
      MethodExactly(cx, ms[0], fs[0]);
      MethodsExactly(cx, ms[1..], fs[1..]);
      assert fs == [fs[0]] + fs[1..];
      assert forall i :: 0 < i < |ms| ==> ms[i] == ms[1..][i - 1] && fs[i] == fs[1..][i - 1];
    }
  }

  /** Two methods of one name take different types. */
  predicate Overloaded(m: Method, other: Method) {
    m.name == other.name ==>
      || |m.parameters| != |other.parameters|
      || exists i :: 0 <= i < |m.parameters| && m.parameters[i].ty != other.parameters[i].ty
  }

  ghost predicate FormsProgram(p: Program, q: Program) {
    && q.classes == p.classes && |q.methods| == |p.methods|
    && (forall i, j :: 0 <= i < j < |p.methods| ==> Overloaded(p.methods[i], p.methods[j]))
    && (forall i :: 0 <= i < |p.methods| ==> FormsMethod(p.classes, p.methods, p.methods[i], q.methods[i]))
    && exists after :: FormsAll(Surroundings(p.classes, p.methods, None, false), [map[]], p.statements, q.statements, after)
  }

  lemma OverloadedExactly(m: Method, other: Method)
    ensures Overloaded(m, other) <==> (m.name == other.name ==> ParameterTypes(m.parameters) != ParameterTypes(other.parameters))
  {
    var l, r := ParameterTypes(m.parameters), ParameterTypes(other.parameters);
    if |l| == |r| && l != r {
      var i :| 0 <= i < |l| && l[i] != r[i];
      assert m.parameters[i].ty != other.parameters[i].ty;
    }
    if i :| 0 <= i < |m.parameters| && |l| == |r| && m.parameters[i].ty != other.parameters[i].ty {
      assert l[i] != r[i];
    }
  }

  /** The checker accepts exactly the programs the rules derive, and fills in exactly the facts they name. */
  lemma ProgramsExactly(p: Program, q: Program)
    ensures FormsProgram(p, q) <==> CheckProgram(p) == Ok(q)
  {
    var cx := Context(p.classes, p.methods, 0, None);
    assert Of(cx) == Surroundings(p.classes, p.methods, None, false);
    forall i, j | 0 <= i < j < |p.methods|
      ensures Overloaded(p.methods[i], p.methods[j]) <==>
                (p.methods[i].name == p.methods[j].name ==> ParameterTypes(p.methods[i].parameters) != ParameterTypes(p.methods[j].parameters))
    {
      OverloadedExactly(p.methods[i], p.methods[j]);
    }
    MethodsExactly(cx, p.methods, q.methods);
    hide CheckMethods, CheckStmts, FormsMethod, FormsAll, Overloaded;
    if FormsProgram(p, q) {
      var after :| FormsAll(Of(cx), [map[]], p.statements, q.statements, after);
      AllAccepted(cx, [map[]], p.statements, q.statements, after);
    }
    if CheckProgram(p) == Ok(q) {
      AllForm(cx, [map[]], p.statements);
    }
  }

  lemma AcceptedExactly(p: Program)
    ensures CheckProgram(p).Ok? <==> exists q :: FormsProgram(p, q)
  {
    hide CheckProgram, FormsProgram;
    if CheckProgram(p).Ok? { ProgramsExactly(p, CheckProgram(p).value); }
    if exists q :: FormsProgram(p, q) {
      var q :| FormsProgram(p, q);
      ProgramsExactly(p, q);
    }
  }
}
