/** Checking keeps the shape of statements, and only declarations change the checker's scopes. The
    checker returns the statement it was given with facts filled in. What the soundness argument needs
    of a statement, that the parser could have made it, that its branches are scoped and how it may
    complete, was assumed of the source; these lemmas carry it over to the checked form. The last ones
    say that a statement which is not a declaration leaves the checker's scopes as they were, which is
    what lets the argument go on after it with the scopes it started with. */
module ShapeKept {
  import opened Wrappers
  import opened Syntax
  import opened Shapes
  import opened Completion
  import opened Typing
  import opened Checker
  import opened StmtRules

  /** The checked statement has the same kind, well-formedness and completions. */
  ghost predicate SameStmt(s: Stmt, t: Stmt) {
    && (s.LocalDeclaration? <==> t.LocalDeclaration?)
    && (s.ExprStmt? <==> t.ExprStmt?)
    && (s.Sequence? <==> t.Sequence?)
    && (s.Block? <==> t.Block?)
    && (Parsed(s) ==> Parsed(t))
    && (Scoped(s) ==> Scoped(t))
    && (ScopedBranch(s) ==> ScopedBranch(t))
    && Completes(s) == Completes(t)
  }

  ghost predicate SameStmts(ss: seq<Stmt>, ts: seq<Stmt>) {
    && |ss| == |ts|
    && (forall i :: 0 <= i < |ss| ==> SameStmt(ss[i], ts[i]))
    && CompletesAll(ss) == CompletesAll(ts)
  }

  ghost predicate SameCatch(s: Catch, t: Catch) {
    t.ty == s.ty && t.name == s.name && SameStmt(s.body, t.body)
  }

  lemma {:induction false} SimpleKept(s: Stmt, t: Stmt)
    requires SameStmt(s, t) && IsSimple(s)
    requires s.Sequence? && t.Sequence? ==> SameStmts(s.statements, t.statements)
    ensures IsSimple(t)
  {
  }

  lemma {:induction false} StmtKept(cx: Context, scopes: seq<TypeScope>, s: Stmt)
    requires scopes != [] && CheckStmt(cx, scopes, s).Ok?
    ensures SameStmt(s, CheckStmt(cx, scopes, s).value.syntax)
    ensures s.Sequence? ==> SameStmts(s.statements, CheckStmt(cx, scopes, s).value.syntax.statements)
    decreases s, 2
  {
    hide CheckStmt, CheckStmts, CheckExpr, SameStmt, SameStmts;
    var t := CheckStmt(cx, scopes, s).value.syntax;
    match s
    case Sequence(statements) =>
      SequenceChecked(cx, scopes, s);
      StmtsKept(cx, scopes, statements);
      SequenceSame(s, t);
    case Block(statements) =>
      BlockChecked(cx, scopes, s);
      StmtsKept(cx, scopes + [map[]], statements);
      BlockSame(s, t);
    case If(_, _, _) => IfKept(cx, scopes, s);
    case While(_, body) =>
      WhileChecked(cx, scopes, s);
      StmtKept(cx.InLoop(), scopes, body);
      LoopSame(s, t);
    case DoWhile(body, _) =>
      DoWhileChecked(cx, scopes, s);
      StmtKept(cx.InLoop(), scopes, body);
      LoopSame(s, t);
    case For(_, _, _, _) => ForKept(cx, scopes, s);
    case ForEach(ty, name, _, body) =>
      ForEachChecked(cx, scopes, s);
      StmtKept(cx.InLoop(), scopes + [map[name := ty]], body);
      LoopSame(s, t);
    case Try(_, _, _) => TryKept(cx, scopes, s);
    case _ => LeafKept(cx, scopes, s);
  }

  predicate IsLeaf(s: Stmt) {
    s.LocalDeclaration? || s.ExprStmt? || s.Break? || s.Continue? || s.Return? || s.Throw?
  }

  predicate SameLeaf(s: Stmt, t: Stmt) {
    || (s.LocalDeclaration? && t.LocalDeclaration?)
    || (s.ExprStmt? && t.ExprStmt?)
    || (s.Break? && t.Break?)
    || (s.Continue? && t.Continue?)
    || (s.Return? && t.Return?)
    || (s.Throw? && t.Throw?)
  }

  lemma LeafSame(s: Stmt, t: Stmt)
    requires SameLeaf(s, t)
    ensures SameStmt(s, t)
  {
  }

  lemma LeafChecked(cx: Context, scopes: seq<TypeScope>, s: Stmt)
    requires IsLeaf(s) && scopes != [] && CheckStmt(cx, scopes, s).Ok?
    ensures SameLeaf(s, CheckStmt(cx, scopes, s).value.syntax)
  {
  }

  lemma LeafKept(cx: Context, scopes: seq<TypeScope>, s: Stmt)
    requires IsLeaf(s) && scopes != [] && CheckStmt(cx, scopes, s).Ok?
    ensures SameStmt(s, CheckStmt(cx, scopes, s).value.syntax)
  {
    hide CheckStmt, SameLeaf, SameStmt;
    LeafChecked(cx, scopes, s);
    LeafSame(s, CheckStmt(cx, scopes, s).value.syntax);
  }

  lemma {:induction false} IfKept(cx: Context, scopes: seq<TypeScope>, s: Stmt)
    requires scopes != [] && s.If? && CheckStmt(cx, scopes, s).Ok?
    ensures SameStmt(s, CheckStmt(cx, scopes, s).value.syntax)
    decreases s, 1
  {
    hide CheckStmt;
    IfChecked(cx, scopes, s);
    StmtKept(cx, scopes, s.thenBranch);
    if s.elseBranch.Some? {
      StmtKept(cx, CheckStmt(cx, scopes, s.thenBranch).value.scopes, s.elseBranch.value);
    }
    IfSame(s, CheckStmt(cx, scopes, s).value.syntax);
  }

  lemma {:induction false} ForKept(cx: Context, scopes: seq<TypeScope>, s: Stmt)
    requires scopes != [] && s.For? && CheckStmt(cx, scopes, s).Ok?
    ensures SameStmt(s, CheckStmt(cx, scopes, s).value.syntax)
    decreases s, 1
  {
    hide CheckStmt;
    ForChecked(cx, scopes, s);
    var inner := scopes + [map[]];
    var i := CheckOptional(cx, inner, s.initializer).value;
    if s.initializer.Some? {
      StmtKept(cx, inner, s.initializer.value);
      if IsSimple(s.initializer.value) { SimpleKept(s.initializer.value, i.syntax.value); }
    }
    StmtKept(cx.InLoop(), i.scopes, s.body);
    var b := CheckStmt(cx.InLoop(), i.scopes, s.body).value;
    if s.update.Some? {
      StmtKept(cx.InLoop(), b.scopes, s.update.value);
      if IsSimple(s.update.value) {
        SimpleKept(s.update.value, CheckStmt(cx.InLoop(), b.scopes, s.update.value).value.syntax);
      }
    }
    ForSame(s, CheckStmt(cx, scopes, s).value.syntax);
  }

  lemma {:induction false} TryKept(cx: Context, scopes: seq<TypeScope>, s: Stmt)
    requires scopes != [] && s.Try? && CheckStmt(cx, scopes, s).Ok?
    ensures SameStmt(s, CheckStmt(cx, scopes, s).value.syntax)
    decreases s, 1
  {
    hide CheckStmt, CheckCatches, Completes;
    TryChecked(cx, scopes, s);
    StmtKept(cx, scopes, s.tryBlock);
    var t := CheckStmt(cx, scopes, s.tryBlock).value;
    CatchesKept(cx, t.scopes, s.catches, [], false);
    if s.finallyBlock.Some? {
      StmtKept(cx, t.scopes, s.finallyBlock.value);
    }
    TrySame(s, CheckStmt(cx, scopes, s).value.syntax);
  }

  lemma SequenceSame(s: Stmt, t: Stmt)
    requires s.Sequence? && t.Sequence? && SameStmts(s.statements, t.statements)
    ensures SameStmt(s, t)
  {
  }

  lemma LoopSame(s: Stmt, t: Stmt)
    requires (s.While? && t.While?) || (s.DoWhile? && t.DoWhile?) || (s.ForEach? && t.ForEach?)
    requires SameStmt(s.body, t.body)
    ensures SameStmt(s, t)
  {
  }

  lemma BlockSame(s: Stmt, t: Stmt)
    requires s.Block? && t.Block? && SameStmts(s.statements, t.statements)
    ensures SameStmt(s, t)
  {
  }

  lemma IfSame(s: Stmt, t: Stmt)
    requires s.If? && t.If? && SameStmt(s.thenBranch, t.thenBranch)
    requires s.elseBranch.Some? <==> t.elseBranch.Some?
    requires s.elseBranch.Some? ==> SameStmt(s.elseBranch.value, t.elseBranch.value)
    ensures SameStmt(s, t)
  {
  }

  /** The clauses of a `for` keep their form. */
  ghost predicate SameClause(s: Option<Stmt>, t: Option<Stmt>) {
    && (s.Some? <==> t.Some?)
    && (s.Some? ==> (s.value.LocalDeclaration? <==> t.value.LocalDeclaration?) && (IsSimple(s.value) ==> IsSimple(t.value)))
  }

  lemma ForSame(s: Stmt, t: Stmt)
    requires s.For? && t.For? && SameStmt(s.body, t.body)
    requires SameClause(s.initializer, t.initializer) && SameClause(s.update, t.update)
    ensures SameStmt(s, t)
  {
  }

  /** A `try` with the same parts is the same statement. */
  lemma TrySame(s: Stmt, t: Stmt)
    requires s.Try? && t.Try? && SameStmt(s.tryBlock, t.tryBlock)
    requires |s.catches| == |t.catches| && forall i :: 0 <= i < |s.catches| ==> SameCatch(s.catches[i], t.catches[i])
    requires s.finallyBlock.Some? <==> t.finallyBlock.Some?
    requires s.finallyBlock.Some? ==> SameStmt(s.finallyBlock.value, t.finallyBlock.value)
    ensures SameStmt(s, t)
  {
    CompletesCatchesSame(Completes(s.tryBlock).(thrown := false), s.catches, t.catches);
    assert CatchesEverything(s.catches) <==> CatchesEverything(t.catches) by {
      if i :| 0 <= i < |s.catches| && s.catches[i].ty == TException {
        assert t.catches[i].ty == TException;
      }
      if i :| 0 <= i < |t.catches| && t.catches[i].ty == TException {
        assert s.catches[i].ty == TException;
      }
    }
  }

  lemma {:induction false} StmtsKept(cx: Context, scopes: seq<TypeScope>, ss: seq<Stmt>)
    requires scopes != [] && CheckStmts(cx, scopes, ss).Ok?
    ensures SameStmts(ss, CheckStmts(cx, scopes, ss).value.syntax)
    decreases ss, 0
  {
    if ss != [] {
      StmtKept(cx, scopes, ss[0]);
      StmtsKept(cx, CheckStmt(cx, scopes, ss[0]).value.scopes, ss[1..]);
      var ts := CheckStmts(cx, scopes, ss).value.syntax;
      assert ts[1..] == CheckStmts(cx, CheckStmt(cx, scopes, ss[0]).value.scopes, ss[1..]).value.syntax;
    }
  }

  lemma {:induction false} CatchesKept(cx: Context, scopes: seq<TypeScope>, catches: seq<Catch>, seen: seq<Type>, all: bool)
    requires scopes != [] && CheckCatches(cx, scopes, catches, seen, all).Ok?
    ensures var r := CheckCatches(cx, scopes, catches, seen, all).value;
            |r| == |catches| && forall i :: 0 <= i < |catches| ==> SameCatch(catches[i], r[i])
    decreases catches, 0
  {
    hide SameStmt, CheckBody, CheckExpr, IsSubtype, IsExceptionType;
    if catches != [] {
      BodyKept(cx, scopes + [map[catches[0].name := catches[0].ty]], catches[0].body);
      CatchesKept(cx, scopes, catches[1..], seen + [catches[0].ty], catches[0].ty == TException);
      var rest := CheckCatches(cx, scopes, catches[1..], seen + [catches[0].ty], catches[0].ty == TException).value;
      var r := CheckCatches(cx, scopes, catches, seen, all).value;
      forall i | 0 <= i < |catches|
        ensures SameCatch(catches[i], r[i])
      {
        if i > 0 {
          assert SameCatch(catches[1..][i - 1], rest[i - 1]);
        }
      }
    }
  }

  lemma {:induction false} BodyKept(cx: Context, scopes: seq<TypeScope>, body: Stmt)
    requires scopes != [] && CheckBody(cx, scopes, body).Ok?
    ensures SameStmt(body, CheckBody(cx, scopes, body).value)
    decreases body, 3
  {
    if body.Block? {
      StmtsKept(cx, scopes, body.statements);
    } else {
      StmtKept(cx, scopes, body);
    }
  }

  lemma {:induction false} CompletesCatchesSame(pending: Completions, s: seq<Catch>, t: seq<Catch>)
    requires |s| == |t| && forall i :: 0 <= i < |s| ==> SameCatch(s[i], t[i])
    ensures CompletesCatches(pending, s) == CompletesCatches(pending, t)
    decreases s
  {
    if s != [] {
      assert SameCatch(s[0], t[0]);
      CompletesCatchesSame(pending.Union(Completes(s[0].body)), s[1..], t[1..]);
    }
  }

  // ---------------------------------------------------------------- scopes

  /** A statement that is not a declaration leaves the checker's scopes as they were. */
  lemma {:induction false} ScopesUnchanged(cx: Context, scopes: seq<TypeScope>, s: Stmt)
    requires scopes != [] && CheckStmt(cx, scopes, s).Ok?
    requires !s.LocalDeclaration? && Parsed(s) && Scoped(s)
    ensures CheckStmt(cx, scopes, s).value.scopes == scopes
    decreases s
  {
    hide CheckExpr, CheckCatches;
    match s
    case Sequence(statements) => SimpleScopes(cx, scopes, statements);
    case If(_, _, _) => IfScopes(cx, scopes, s);
    case While(_, body) => ScopesUnchanged(cx.InLoop(), scopes, body);
    case DoWhile(body, _) => ScopesUnchanged(cx.InLoop(), scopes, body);
    case Try(_, _, _) => TryScopes(cx, scopes, s);
    case _ =>
  }

  lemma {:induction false} IfScopes(cx: Context, scopes: seq<TypeScope>, s: Stmt)
    requires scopes != [] && s.If? && CheckStmt(cx, scopes, s).Ok? && Parsed(s) && Scoped(s)
    ensures CheckStmt(cx, scopes, s.thenBranch).Ok? && CheckStmt(cx, scopes, s.thenBranch).value.scopes == scopes
    ensures CheckStmt(cx, scopes, s).value.scopes == scopes
    decreases s, 0
  {
    hide CheckStmt;
    IfChecked(cx, scopes, s);
    ScopesUnchanged(cx, scopes, s.thenBranch);
    if s.elseBranch.Some? { ScopesUnchanged(cx, scopes, s.elseBranch.value); }
  }

  lemma {:induction false} TryScopes(cx: Context, scopes: seq<TypeScope>, s: Stmt)
    requires scopes != [] && s.Try? && CheckStmt(cx, scopes, s).Ok? && Parsed(s) && Scoped(s)
    ensures CheckStmt(cx, scopes, s.tryBlock).Ok? && CheckStmt(cx, scopes, s.tryBlock).value.scopes == scopes
    ensures CheckStmt(cx, scopes, s).value.scopes == scopes
    decreases s, 0
  {
    hide CheckStmt, CheckCatches;
    TryChecked(cx, scopes, s);
    ScopesUnchanged(cx, scopes, s.tryBlock);
    if s.finallyBlock.Some? { ScopesUnchanged(cx, scopes, s.finallyBlock.value); }
  }

  lemma {:induction false} SimpleScopes(cx: Context, scopes: seq<TypeScope>, ss: seq<Stmt>)
    requires scopes != [] && CheckStmts(cx, scopes, ss).Ok?
    requires forall i :: 0 <= i < |ss| ==> ss[i].ExprStmt?
    ensures CheckStmts(cx, scopes, ss).value.scopes == scopes
    decreases ss
  {
    if ss != [] {
      SimpleScopes(cx, scopes, ss[1..]);
    }
  }
}
