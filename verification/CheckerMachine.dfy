/** The checker as the object it is: scopes pushed and popped, the loop depth and the return type
    replaced and restored around each part, on success and on error alike. Every method computes what
    the functions of `Checker` say. The functions drop the scopes of a block by not returning them;
    here they are popped, which gives the old scopes back only because every check leaves the outer
    scopes alone. `Reached` says so, and it holds after an error too, when the innermost scope may
    hold the names declared before the error. Expressions are checked by the function itself, because
    the facts recorded for them are on their nodes and checking them changes no field. */
module Checkers {
  import opened Wrappers
  import opened Syntax
  import opened Typing
  import opened Completion
  import opened Checker

  type Checked<T> = Result<T, CheckError>

  /** What a check produced, apart from the scopes it left. */
  function Produced<T>(r: Checked<Bound<T>>): Checked<T> {
    if r.Ok? then Ok(r.value.syntax) else Err(r.error)
  }

  /** The scopes after a check: every outer scope untouched, and the innermost as bound on success. */
  ghost predicate Reached<T>(before: seq<TypeScope>, r: Checked<Bound<T>>, after: seq<TypeScope>) {
    && |after| == |before| > 0
    && after[..|after| - 1] == before[..|before| - 1]
    && (r.Ok? ==> after == r.value.scopes)
  }

  function Preceded<T>(done: seq<T>, r: Checked<Bound<seq<T>>>): Checked<Bound<seq<T>>> {
    if r.Ok? then Ok(Bound(done + r.value.syntax, r.value.scopes)) else r
  }

  function After<T>(done: seq<T>, r: Checked<seq<T>>): Checked<seq<T>> {
    if r.Ok? then Ok(done + r.value) else r
  }

  lemma PrecededTwice<T>(done: seq<T>, next: T, r: Checked<Bound<seq<T>>>)
    ensures Preceded(done, Preceded([next], r)) == Preceded(done + [next], r)
  {
    if r.Ok? {
      assert done + ([next] + r.value.syntax) == done + [next] + r.value.syntax;
    }
  }

  lemma AfterTwice<T>(done: seq<T>, next: T, r: Checked<seq<T>>)
    ensures After(done, After([next], r)) == After(done + [next], r)
  {
    if r.Ok? {
      assert done + ([next] + r.value) == done + [next] + r.value;
    }
  }

  // ---------------------------------------------------------------- one step of each list

  lemma StatementsStep(cx: Context, scopes: seq<TypeScope>, ss: seq<Stmt>)
    requires scopes != [] && ss != []
    ensures CheckStmts(cx, scopes, ss) ==
              (var first :- CheckStmt(cx, scopes, ss[0]);
               Preceded([first.syntax], CheckStmts(cx, first.scopes, ss[1..])))
  {
  }

  lemma DeclaratorsStep(cx: Context, scopes: seq<TypeScope>, ty: Type, ds: seq<Declarator>)
    requires scopes != [] && ds != []
    ensures CheckDeclarators(cx, scopes, ty, ds) ==
              (var _ :- Require(ValidType(cx.classes, ty), UnknownType);
               var _ :- Require(ds[0].name !in scopes[|scopes| - 1], DuplicateVariable);
               var i :- CheckInitializer(cx, scopes, ty, ds[0].initializer);
               Preceded([Declarator(ds[0].name, i)], CheckDeclarators(cx, BindType(scopes, ds[0].name, ty), ty, ds[1..])))
  {
  }

  lemma CatchesStep(cx: Context, scopes: seq<TypeScope>, catches: seq<Catch>, seen: seq<Type>, catchesEverything: bool)
    requires scopes != [] && catches != []
    ensures var clause := catches[0];
            CheckCatches(cx, scopes, catches, seen, catchesEverything) ==
              (var _ :- Require(IsExceptionType(cx.classes, clause.ty), NotAnException);
               var _ :- Require(!Unreachable(cx.classes, clause.ty, seen, catchesEverything), UnreachableCatch);
               var body :- CheckBody(cx, scopes + [map[clause.name := clause.ty]], clause.body);
               After([Catch(clause.ty, clause.name, body)],
                     CheckCatches(cx, scopes, catches[1..], seen + [clause.ty], clause.ty == TException)))
  {
  }

  predicate Unreachable(classes: ClassTable, ty: Type, seen: seq<Type>, catchesEverything: bool) {
    catchesEverything || exists i :: 0 <= i < |seen| && IsSubtype(classes, ty, seen[i])
  }

  /** Binding stops at the first bad parameter. */
  lemma {:induction false} BindingFails(classes: ClassTable, parameters: seq<Parameter>, k: nat)
    requires k <= |parameters| && BindParameters(classes, parameters[..k]).Err?
    ensures BindParameters(classes, parameters) == BindParameters(classes, parameters[..k])
    decreases |parameters|
  {
    if k < |parameters| {
      var shorter := parameters[..|parameters| - 1];
      assert shorter[..k] == parameters[..k];
      BindingFails(classes, shorter, k);
    } else {
      assert parameters[..k] == parameters;
    }
  }

  class SemanticChecker {
    const classes: ClassTable
    var methods: seq<Method>
    var scopes: seq<TypeScope>
    var loopDepth: nat
    var returnType: Option<ReturnType>

    constructor (classes: ClassTable)
      ensures this.classes == classes
      ensures Cx() == Context(classes, [], 0, None) && scopes == [map[]]
    {
      this.classes := classes;
      methods, scopes, loopDepth, returnType := [], [map[]], 0, None;
    }

    function Cx(): Context
      reads this
    {
      Context(classes, methods, loopDepth, returnType)
    }

    // -------------------------------------------------------------- scopes

    method Push(scope: TypeScope)
      modifies this`scopes
      ensures scopes == old(scopes) + [scope]
    {
      scopes := scopes + [scope];
    }

    method Pop()
      requires scopes != []
      modifies this`scopes
      ensures scopes == old(scopes)[..|old(scopes)| - 1]
    {
      scopes := scopes[..|scopes| - 1];
    }

    // -------------------------------------------------------------- statements

    method CheckStatement(s: Stmt) returns (r: Checked<Stmt>)
      requires scopes != []
      modifies this`scopes, this`loopDepth
      ensures Cx() == old(Cx())
      ensures r == Produced(CheckStmt(Cx(), old(scopes), s))
      ensures Reached(old(scopes), CheckStmt(Cx(), old(scopes), s), scopes)
      decreases s, 2
    {
      match s {
        case LocalDeclaration(_, _) => r := CheckDeclaration(s);
        case Sequence(statements) =>
          var ss := CheckEach(statements);
          r := if ss.Ok? then Ok(Sequence(ss.value)) else Err(ss.error);
        case ExprStmt(_) => r := CheckExpressionStatement(s);
        case Block(_) => r := CheckBlock(s);
        case If(_, _, _) => r := CheckIf(s);
        case While(_, _) => r := CheckWhile(s);
        case DoWhile(_, _) => r := CheckDoWhile(s);
        case For(_, _, _, _) => r := CheckFor(s);
        case ForEach(_, _, _, _) => r := CheckForEach(s);
        case Break => r := if loopDepth > 0 then Ok(s) else Err(ControlOutsideLoop);
        case Continue => r := if loopDepth > 0 then Ok(s) else Err(ControlOutsideLoop);
        case Return(_) => r := CheckReturn(s);
        case Try(_, _, _) => r := CheckTry(s);
        case Throw(_) => r := CheckThrow(s);
      }
    }

    method CheckOptionalStatement(s: Option<Stmt>) returns (r: Checked<Option<Stmt>>)
      requires scopes != []
      modifies this`scopes, this`loopDepth
      ensures Cx() == old(Cx())
      ensures r == Produced(CheckOptional(Cx(), old(scopes), s))
      ensures Reached(old(scopes), CheckOptional(Cx(), old(scopes), s), scopes)
      decreases s, 1
    {
      if s.None? { return Ok(None); }
      var b := CheckStatement(s.value);
      r := if b.Ok? then Ok(Some(b.value)) else Err(b.error);
    }

    method CheckEach(ss: seq<Stmt>) returns (r: Checked<seq<Stmt>>)
      requires scopes != []
      modifies this`scopes, this`loopDepth
      ensures Cx() == old(Cx())
      ensures r == Produced(CheckStmts(Cx(), old(scopes), ss))
      ensures Reached(old(scopes), CheckStmts(Cx(), old(scopes), ss), scopes)
      decreases ss, 0
    {
      hide CheckStmts, CheckStmt;
      var done: seq<Stmt> := [];
      ghost var expected := CheckStmts(Cx(), scopes, ss);
      assert ss[0..] == ss && Preceded(done, expected) == expected by { NothingDone(expected); }
      for i := 0 to |ss|
        invariant Cx() == old(Cx())
        invariant |scopes| == |old(scopes)| > 0 && scopes[..|scopes| - 1] == old(scopes)[..|scopes| - 1]
        invariant Preceded(done, CheckStmts(Cx(), scopes, ss[i..])) == expected
      {
        StatementsStep(Cx(), scopes, ss[i..]);
        assert ss[i..][0] == ss[i] && ss[i..][1..] == ss[i + 1..];
        var b := CheckStatement(ss[i]);
        if b.Err? { return Err(b.error); }
        PrecededTwice(done, b.value, CheckStmts(Cx(), scopes, ss[i + 1..]));
        done := done + [b.value];
      }
      EachEnds(Cx(), scopes, ss[|ss|..]);
      assert done + [] == done;
      return Ok(done);
    }

    method CheckDeclaration(s: Stmt) returns (r: Checked<Stmt>)
      requires scopes != [] && s.LocalDeclaration?
      modifies this`scopes
      ensures r == Produced(CheckStmt(Cx(), old(scopes), s))
      ensures Reached(old(scopes), CheckStmt(Cx(), old(scopes), s), scopes)
      decreases s, 1
    {
      var ty, ds := s.ty, s.declarators;
      ghost var expected := CheckDeclarators(Cx(), scopes, ty, ds);
      assert CheckStmt(Cx(), scopes, s) ==
             if expected.Ok? then Ok(Bound(LocalDeclaration(ty, expected.value.syntax), expected.value.scopes))
             else Err(expected.error);
      hide CheckDeclarators, CheckStmt;
      var done: seq<Declarator> := [];
      assert ds[0..] == ds && Preceded(done, expected) == expected by { NothingDone(expected); }
      for i := 0 to |ds|
        invariant |scopes| == |old(scopes)| > 0 && scopes[..|scopes| - 1] == old(scopes)[..|scopes| - 1]
        invariant Preceded(done, CheckDeclarators(Cx(), scopes, ty, ds[i..])) == expected
      {
        DeclaratorsStep(Cx(), scopes, ty, ds[i..]);
        assert ds[i..][0] == ds[i] && ds[i..][1..] == ds[i + 1..];
        if !ValidType(classes, ty) { return Err(UnknownType); }
        if ds[i].name in scopes[|scopes| - 1] { return Err(DuplicateVariable); }
        var initializer := CheckInitializer(Cx(), scopes, ty, ds[i].initializer);
        if initializer.Err? { return Err(initializer.error); }
        scopes := BindType(scopes, ds[i].name, ty);
        var next := Declarator(ds[i].name, initializer.value);
        PrecededTwice(done, next, CheckDeclarators(Cx(), scopes, ty, ds[i + 1..]));
        done := done + [next];
      }
      DeclaratorsEnd(Cx(), scopes, ty, ds[|ds|..]);
      assert done + [] == done;
      return Ok(LocalDeclaration(ty, done));
    }

    method CheckExpressionStatement(s: Stmt) returns (r: Checked<Stmt>)
      requires scopes != [] && s.ExprStmt?
      ensures r == Produced(CheckStmt(Cx(), scopes, s))
      ensures Reached(scopes, CheckStmt(Cx(), scopes, s), scopes)
    {
      if !IsStatementExpression(s.expression) { return Err(NotAStatement); }
      var e := CheckExpr(Cx(), scopes, s.expression);
      r := if e.Ok? then Ok(ExprStmt(e.value.expr)) else Err(e.error);
    }

    method CheckBlock(s: Stmt) returns (r: Checked<Stmt>)
      requires scopes != [] && s.Block?
      modifies this`scopes, this`loopDepth
      ensures Cx() == old(Cx())
      ensures r == Produced(CheckStmt(Cx(), old(scopes), s))
      ensures scopes == old(scopes) && Reached(old(scopes), CheckStmt(Cx(), old(scopes), s), scopes)
      decreases s, 1
    {
      Push(map[]);
      var ss := CheckEach(s.statements);
      Pop();
      r := if ss.Ok? then Ok(Block(ss.value)) else Err(ss.error);
    }

    method CheckIf(s: Stmt) returns (r: Checked<Stmt>)
      requires scopes != [] && s.If?
      modifies this`scopes, this`loopDepth
      ensures Cx() == old(Cx())
      ensures r == Produced(CheckStmt(Cx(), old(scopes), s))
      ensures Reached(old(scopes), CheckStmt(Cx(), old(scopes), s), scopes)
      decreases s, 1
    {
      var condition := CheckBoolean(Cx(), scopes, s.condition);
      if condition.Err? { return Err(condition.error); }
      var thenBranch := CheckStatement(s.thenBranch);
      if thenBranch.Err? { return thenBranch; }
      var elseBranch := CheckOptionalStatement(s.elseBranch);
      r := if elseBranch.Ok? then Ok(If(condition.value, thenBranch.value, elseBranch.value)) else Err(elseBranch.error);
    }

    /** A loop body, checked one loop deeper. */
    method CheckLoopBody(s: Stmt) returns (r: Checked<Stmt>)
      requires scopes != []
      modifies this`scopes, this`loopDepth
      ensures Cx() == old(Cx())
      ensures r == Produced(CheckStmt(Cx().InLoop(), old(scopes), s))
      ensures Reached(old(scopes), CheckStmt(Cx().InLoop(), old(scopes), s), scopes)
      decreases s, 3
    {
      hide CheckStmt;
      loopDepth := loopDepth + 1;
      r := CheckStatement(s);
      loopDepth := loopDepth - 1;
    }

    method CheckWhile(s: Stmt) returns (r: Checked<Stmt>)
      requires scopes != [] && s.While?
      modifies this`scopes, this`loopDepth
      ensures Cx() == old(Cx())
      ensures r == Produced(CheckStmt(Cx(), old(scopes), s))
      ensures Reached(old(scopes), CheckStmt(Cx(), old(scopes), s), scopes)
      decreases s, 1
    {
      var condition := CheckBoolean(Cx(), scopes, s.condition);
      if condition.Err? { return Err(condition.error); }
      var body := CheckLoopBody(s.body);
      r := if body.Ok? then Ok(While(condition.value, body.value)) else body;
    }

    method CheckDoWhile(s: Stmt) returns (r: Checked<Stmt>)
      requires scopes != [] && s.DoWhile?
      modifies this`scopes, this`loopDepth
      ensures Cx() == old(Cx())
      ensures r == Produced(CheckStmt(Cx(), old(scopes), s))
      ensures Reached(old(scopes), CheckStmt(Cx(), old(scopes), s), scopes)
      decreases s, 1
    {
      var body := CheckLoopBody(s.body);
      if body.Err? { return body; }
      var condition := CheckBoolean(Cx(), scopes, s.condition);
      r := if condition.Ok? then Ok(DoWhile(body.value, condition.value)) else Err(condition.error);
    }

    method CheckFor(s: Stmt) returns (r: Checked<Stmt>)
      requires scopes != [] && s.For?
      modifies this`scopes, this`loopDepth
      ensures Cx() == old(Cx())
      ensures r == Produced(CheckStmt(Cx(), old(scopes), s))
      ensures scopes == old(scopes) && Reached(old(scopes), CheckStmt(Cx(), old(scopes), s), scopes)
      decreases s, 1
    {
      Push(map[]);
      r := CheckForClauses(s);
      Pop();
      ForUnfolds(Cx(), scopes, s);
    }

    method CheckForClauses(s: Stmt) returns (r: Checked<Stmt>)
      requires scopes != [] && s.For?
      modifies this`scopes, this`loopDepth
      ensures Cx() == old(Cx())
      ensures r == ForClauses(Cx(), old(scopes), s)
      ensures |scopes| == |old(scopes)| && scopes[..|scopes| - 1] == old(scopes)[..|scopes| - 1]
      decreases s, 0
    {
      hide CheckStmt, CheckOptional;
      var initializer := CheckOptionalStatement(s.initializer);
      if initializer.Err? { return Err(initializer.error); }
      var condition := CheckOptionalBoolean(Cx(), scopes, s.forCondition);
      if condition.Err? { return Err(condition.error); }
      loopDepth := loopDepth + 1;
      var body := CheckStatement(s.body);
      var update: Checked<Option<Stmt>> := Ok(None);
      if body.Ok? {
        update := CheckOptionalStatement(s.update);
      }
      loopDepth := loopDepth - 1;
      if body.Err? { return body; }
      r := if update.Ok? then Ok(For(initializer.value, condition.value, update.value, body.value)) else Err(update.error);
    }

    method CheckForEach(s: Stmt) returns (r: Checked<Stmt>)
      requires scopes != [] && s.ForEach?
      modifies this`scopes, this`loopDepth
      ensures Cx() == old(Cx())
      ensures r == Produced(CheckStmt(Cx(), old(scopes), s))
      ensures scopes == old(scopes) && Reached(old(scopes), CheckStmt(Cx(), old(scopes), s), scopes)
      decreases s, 1
    {
      var iterable := CheckExpr(Cx(), scopes, s.iterable);
      if iterable.Err? { return Err(iterable.error); }
      var ty := iterable.value.ty;
      if !(ty.EValue? && ty.ty.TList?) { return Err(NotIterable); }
      if !IsAssignable(classes, s.ty, EValue(ty.ty.element)) { return Err(NotAssignable); }
      Push(map[s.name := s.ty]);
      var body := CheckLoopBody(s.body);
      Pop();
      r := if body.Ok? then Ok(ForEach(s.ty, s.name, iterable.value.expr, body.value)) else body;
    }

    method CheckReturn(s: Stmt) returns (r: Checked<Stmt>)
      requires scopes != [] && s.Return?
      ensures r == Produced(CheckStmt(Cx(), scopes, s))
      ensures Reached(scopes, CheckStmt(Cx(), scopes, s), scopes)
    {
      if returnType.None? || returnType.value.RVoid? {
        return if s.result.None? then Ok(s) else Err(InvalidReturn);
      }
      if s.result.None? { return Err(InvalidReturn); }
      var e := CheckExpr(Cx(), scopes, s.result.value);
      if e.Err? { return Err(e.error); }
      r := if IsAssignable(classes, returnType.value.ty, e.value.ty) then Ok(Return(Some(e.value.expr))) else Err(InvalidReturn);
    }

    method CheckThrow(s: Stmt) returns (r: Checked<Stmt>)
      requires scopes != [] && s.Throw?
      ensures r == Produced(CheckStmt(Cx(), scopes, s))
      ensures Reached(scopes, CheckStmt(Cx(), scopes, s), scopes)
    {
      var e := CheckExpr(Cx(), scopes, s.exception);
      if e.Err? { return Err(e.error); }
      var ty := e.value.ty;
      if (ty.EValue? && IsExceptionType(classes, ty.ty)) || ty.ENull? {
        r := Ok(Throw(e.value.expr));
      } else {
        r := Err(NotAnException);
      }
    }

    method CheckTry(s: Stmt) returns (r: Checked<Stmt>)
      requires scopes != [] && s.Try?
      modifies this`scopes, this`loopDepth
      ensures Cx() == old(Cx())
      ensures r == Produced(CheckStmt(Cx(), old(scopes), s))
      ensures Reached(old(scopes), CheckStmt(Cx(), old(scopes), s), scopes)
      decreases s, 1
    {
      var tryBlock := CheckStatement(s.tryBlock);
      if tryBlock.Err? { return tryBlock; }
      var catches := CheckClauses(s.catches);
      if catches.Err? { return Err(catches.error); }
      var finallyBlock := CheckOptionalStatement(s.finallyBlock);
      r := if finallyBlock.Ok? then Ok(Try(tryBlock.value, catches.value, finallyBlock.value)) else Err(finallyBlock.error);
    }

    method CheckClauses(catches: seq<Catch>) returns (r: Checked<seq<Catch>>)
      requires scopes != []
      modifies this`scopes, this`loopDepth
      ensures Cx() == old(Cx()) && scopes == old(scopes)
      ensures r == CheckCatches(Cx(), scopes, catches, [], false)
      decreases catches, 0
    {
      hide CheckCatches, CheckBody, IsSubtype, IsExceptionType;
      var done: seq<Catch> := [];
      var seen: seq<Type> := [];
      var catchesEverything := false;
      ghost var expected := CheckCatches(Cx(), scopes, catches, [], false);
      assert catches[0..] == catches;
      assert expected.Ok? ==> done + expected.value == expected.value;
      for i := 0 to |catches|
        invariant Cx() == old(Cx()) && scopes == old(scopes)
        invariant After(done, CheckCatches(Cx(), scopes, catches[i..], seen, catchesEverything)) == expected
      {
        var clause := catches[i];
        CatchesStep(Cx(), scopes, catches[i..], seen, catchesEverything);
        assert catches[i..][0] == clause && catches[i..][1..] == catches[i + 1..];
        if !IsExceptionType(classes, clause.ty) { return Err(NotAnException); }
        var unreachable := CatchIsUnreachable(clause.ty, seen, catchesEverything);
        if unreachable { return Err(UnreachableCatch); }
        catchesEverything := clause.ty == TException;
        seen := seen + [clause.ty];
        Push(map[clause.name := clause.ty]);
        var body := CheckMethodBody(clause.body);
        Pop();
        if body.Err? { return Err(body.error); }
        var next := Catch(clause.ty, clause.name, body.value);
        AfterTwice(done, next, CheckCatches(Cx(), scopes, catches[i + 1..], seen, catchesEverything));
        done := done + [next];
      }
      CatchesEnd(Cx(), scopes, catches[|catches|..], seen, catchesEverything);
      assert done + [] == done;
      return Ok(done);
    }

    method CatchIsUnreachable(ty: Type, seen: seq<Type>, catchesEverything: bool) returns (r: bool)
      ensures r == Unreachable(classes, ty, seen, catchesEverything)
    {
      hide IsSubtype;
      if catchesEverything { return true; }
      for i := 0 to |seen|
        invariant forall j :: 0 <= j < i ==> !IsSubtype(classes, ty, seen[j])
      {
        if IsSubtype(classes, ty, seen[i]) { return true; }
      }
      return false;
    }

    /** The statements of a block body are checked in the current scope. */
    method CheckMethodBody(body: Stmt) returns (r: Checked<Stmt>)
      requires scopes != []
      modifies this`scopes, this`loopDepth
      ensures Cx() == old(Cx())
      ensures r == CheckBody(Cx(), old(scopes), body)
      ensures |scopes| == |old(scopes)| && scopes[..|scopes| - 1] == old(scopes)[..|scopes| - 1]
      decreases body, 3
    {
      hide CheckStmt, CheckStmts;
      if body.Block? {
        var ss := CheckEach(body.statements);
        r := if ss.Ok? then Ok(Block(ss.value)) else Err(ss.error);
      } else {
        r := CheckStatement(body);
      }
    }

    // -------------------------------------------------------------- programs

    method BindEach(parameters: seq<Parameter>) returns (r: Checked<()>)
      requires scopes == [map[]]
      modifies this`scopes
      ensures var scope := BindParameters(classes, parameters);
              if scope.Ok? then r == Ok(()) && scopes == [scope.value] else r == Err(scope.error)
    {
      for i := 0 to |parameters|
        invariant |scopes| == 1 && BindParameters(classes, parameters[..i]) == Ok(scopes[0])
      {
        var parameter := parameters[i];
        var upTo := parameters[..i + 1];
        assert upTo[..i] == parameters[..i];
        if !ValidType(classes, parameter.ty) {
          BindingFails(classes, parameters, i + 1);
          return Err(UnknownType);
        }
        if parameter.name in scopes[0] {
          BindingFails(classes, parameters, i + 1);
          return Err(DuplicateVariable);
        }
        scopes := [scopes[0][parameter.name := parameter.ty]];
      }
      assert parameters[..|parameters|] == parameters;
      return Ok(());
    }

    method CheckOneMethod(m: Method) returns (r: Checked<Method>)
      modifies this`scopes, this`loopDepth, this`returnType
      ensures Cx() == old(Cx()) && scopes == old(scopes)
      ensures r == CheckMethod(Cx(), m)
    {
      hide CheckBody, DefinitelyReturnsOrThrows, BindParameters;
      if m.returnType.RValue? && !ValidType(classes, m.returnType.ty) { return Err(UnknownType); }
      var savedScopes, savedLoopDepth, savedReturnType := scopes, loopDepth, returnType;
      scopes, loopDepth, returnType := [map[]], 0, Some(m.returnType);
      r := CheckMethodInside(m);
      scopes, loopDepth, returnType := savedScopes, savedLoopDepth, savedReturnType;
    }

    method CheckMethodInside(m: Method) returns (r: Checked<Method>)
      requires scopes == [map[]] && loopDepth == 0 && returnType == Some(m.returnType)
      modifies this`scopes, this`loopDepth
      ensures Cx() == old(Cx())
      ensures r == (var scope :- BindParameters(classes, m.parameters);
                    var body :- CheckBody(Cx(), [scope], m.body);
                    var _ :- Require(m.returnType.RValue? ==> DefinitelyReturnsOrThrows(m.body), MissingReturn);
                    Ok(m.(body := body)))
    {
      hide CheckBody, DefinitelyReturnsOrThrows, BindParameters;
      var scope := BindEach(m.parameters);
      if scope.Err? { return Err(scope.error); }
      var body := CheckMethodBody(m.body);
      if body.Err? { return Err(body.error); }
      if m.returnType.RValue? && !DefinitelyReturnsOrThrows(m.body) { return Err(MissingReturn); }
      return Ok(m.(body := body.value));
    }

    /** Records every signature, refusing a name declared twice with the same parameter types. */
    method CollectSignatures(ms: seq<Method>) returns (r: Checked<()>)
      requires methods == []
      modifies this`methods
      ensures r == Require(DistinctOverloads(ms), DuplicateOverload)
      ensures r.Ok? ==> methods == ms
    {
      for i := 0 to |ms|
        invariant methods == ms[..i] && DistinctOverloads(methods)
      {
        var types := ParameterTypes(ms[i].parameters);
        for j := 0 to i
          invariant forall k :: 0 <= k < j && ms[k].name == ms[i].name ==> ParameterTypes(ms[k].parameters) != types
        {
          if ms[j].name == ms[i].name && ParameterTypes(methods[j].parameters) == types {
            return Err(DuplicateOverload);
          }
        }
        methods := methods + [ms[i]];
      }
      return Ok(());
    }

    method CheckEveryMethod(ms: seq<Method>) returns (r: Checked<seq<Method>>)
      modifies this`scopes, this`loopDepth, this`returnType
      ensures Cx() == old(Cx()) && scopes == old(scopes)
      ensures r == CheckMethods(Cx(), ms)
    {
      hide CheckMethod, CheckMethods;
      var done: seq<Method> := [];
      ghost var expected := CheckMethods(Cx(), ms);
      assert ms[0..] == ms;
      assert expected.Ok? ==> done + expected.value == expected.value;
      for i := 0 to |ms|
        invariant Cx() == old(Cx()) && scopes == old(scopes)
        invariant After(done, CheckMethods(Cx(), ms[i..])) == expected
      {
        MethodsStep(Cx(), ms[i..]);
        assert ms[i..][0] == ms[i] && ms[i..][1..] == ms[i + 1..];
        var next := CheckOneMethod(ms[i]);
        if next.Err? { return Err(next.error); }
        AfterTwice(done, next.value, CheckMethods(Cx(), ms[i + 1..]));
        done := done + [next.value];
      }
      MethodsEnd(Cx(), ms[|ms|..]);
      assert done + [] == done;
      return Ok(done);
    }

    /** Signatures, then every method, then the statements of the top level. */
    method CheckWhole(p: Program) returns (r: Checked<Program>)
      requires p.classes == classes && Cx() == Context(classes, [], 0, None) && scopes == [map[]]
      modifies this
      ensures r == CheckProgram(p)
    {
      hide CheckMethods, CheckStmts, DistinctOverloads;
      var signatures := CollectSignatures(p.methods);
      if signatures.Err? { return Err(signatures.error); }
      var methods := CheckEveryMethod(p.methods);
      if methods.Err? { return Err(methods.error); }
      var body := CheckEach(p.statements);
      if body.Err? { return Err(body.error); }
      return Ok(Program(p.classes, methods.value, body.value));
    }
  }

  // ---------------------------------------------------------------- ends and unfoldings

  lemma NothingDone<T>(r: Checked<Bound<seq<T>>>)
    ensures Preceded([], r) == r
  {
    if r.Ok? {
      assert [] + r.value.syntax == r.value.syntax;
    }
  }

  lemma EachEnds(cx: Context, scopes: seq<TypeScope>, ss: seq<Stmt>)
    requires scopes != [] && ss == []
    ensures CheckStmts(cx, scopes, ss) == Ok(Bound([], scopes))
  {
  }

  lemma DeclaratorsEnd(cx: Context, scopes: seq<TypeScope>, ty: Type, ds: seq<Declarator>)
    requires scopes != [] && ds == []
    ensures CheckDeclarators(cx, scopes, ty, ds) == Ok(Bound([], scopes))
  {
  }

  lemma CatchesEnd(cx: Context, scopes: seq<TypeScope>, catches: seq<Catch>, seen: seq<Type>, catchesEverything: bool)
    requires scopes != [] && catches == []
    ensures CheckCatches(cx, scopes, catches, seen, catchesEverything) == Ok([])
  {
  }

  lemma MethodsStep(cx: Context, ms: seq<Method>)
    requires ms != []
    ensures CheckMethods(cx, ms) == (var first :- CheckMethod(cx, ms[0]); After([first], CheckMethods(cx, ms[1..])))
  {
  }

  lemma MethodsEnd(cx: Context, ms: seq<Method>)
    requires ms == []
    ensures CheckMethods(cx, ms) == Ok([])
  {
  }

  /** The clauses of a `for`, checked in the scope of the loop. */
  function ForClauses(cx: Context, scopes: seq<TypeScope>, s: Stmt): Checked<Stmt>
    requires scopes != [] && s.For?
  {
    var i :- CheckOptional(cx, scopes, s.initializer);
    var c :- CheckOptionalBoolean(cx, i.scopes, s.forCondition);
    var b :- CheckStmt(cx.InLoop(), i.scopes, s.body);
    var u :- CheckOptional(cx.InLoop(), b.scopes, s.update);
    Ok(For(i.syntax, c, u.syntax, b.syntax))
  }

  lemma ForUnfolds(cx: Context, scopes: seq<TypeScope>, s: Stmt)
    requires scopes != [] && s.For?
    ensures Produced(CheckStmt(cx, scopes, s)) == ForClauses(cx, scopes + [map[]], s)
    ensures CheckStmt(cx, scopes, s).Ok? ==> CheckStmt(cx, scopes, s).value.scopes == scopes
  {
  }
}
