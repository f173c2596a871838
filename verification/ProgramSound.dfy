/** The soundness theorem for whole programs. */
module ProgramSound {
  import opened Wrappers
  import opened Syntax
  import opened Shapes
  import opened Values
  import opened Semantics
  import opened Checker
  import opened ContextKept
  import opened Conformance
  import opened Permits
  import opened SoundSetting
  import opened FlowSetting
  import opened Soundness

  /** What the parser makes, with blocks as branches, and only the constructs the allowance names. */
  predicate Eligible(a: Allowance, p: Program) {
    && (forall i :: 0 <= i < |p.methods| ==>
          Parsed(p.methods[i].body) && Scoped(p.methods[i].body) && PermitsStmt(a, p.methods[i].body))
    && (forall i :: 0 <= i < |p.statements| ==>
          Parsed(p.statements[i]) && Scoped(p.statements[i]) && PermitsStmt(a, p.statements[i]))
  }

  /** No `++`, no `--`, no Integer literal beyond 32 bits and no `clear`. */
  predicate Plain(p: Program) {
    Eligible(Allowance(false, false, true, false), p)
  }

  lemma ProgramReady(source: Program, env: Env, a: Allowance)
    requires CheckProgram(source) == Ok(env.program) && Eligible(a, source)
    ensures var w := Setting(Library(env), source, a, Context(source.classes, source.methods, 0, None), [map[]]);
            && JudgedStmts(w, source.statements, INITIAL)
            && CheckedStmts(w, source.statements).syntax == env.program.statements
  {
    hide CheckStmt, CheckStmts, CheckExpr, CheckMethod;
    var w := Setting(Library(env), source, a, Context(source.classes, source.methods, 0, None), [map[]]);
    OneScopeReady(w, INITIAL, map[]);
  }

  /** However long it runs, an accepted program never reports an internal error; it crashes only if it
      can shorten lists, and raises only Apex exceptions and the escapes its constructs allow. In the
      final state every slot and element holds a value converted to its declared type. */
  lemma AcceptedProgramsAreSafe(source: Program, env: Env, a: Allowance, fuel: nat)
    requires CheckProgram(source) == Ok(env.program) && Eligible(a, source)
    ensures Safe(a, Run(env, fuel).st.lists, Run(env, fuel).out)
    ensures StateOk(a, source.classes, Run(env, fuel).st)
  {
    hide CheckStmt, CheckStmts, CheckExpr, CheckMethod, Exec, StateOk, Grown, NoShrink;
    ProgramReady(source, env, a);
    var w := Setting(Library(env), source, a, Context(source.classes, source.methods, 0, None), [map[]]);
    ExecAllSound(w, source.statements, INITIAL, fuel);
  }

  /** A plain accepted program ends normally or with an uncaught Apex exception, and never with an
      internal error or a crash. Operands escape validation only if it has made a list of more elements
      than an Integer can count; otherwise none do, and every Integer it stored fits 32 bits. */
  lemma PlainProgramsNeverEscape(source: Program, env: Env, fuel: nat)
    requires CheckProgram(source) == Ok(env.program) && Plain(source)
    ensures var r := Run(env, fuel);
            && (r.out.Done? || r.out.OutOfFuel? || r.out.Raise?)
            && (r.out.Raise? && r.out.exception.escape.Some? ==> HasHugeList(r.st.lists))
            && (!HasHugeList(r.st.lists) ==> StateOk(STRICT, source.classes, r.st))
  {
    hide CheckProgram, Run, StateOk;
    var r := Run(env, fuel);
    var a := Allowance(false, false, true, false);
    AcceptedProgramsAreSafe(source, env, a, fuel);
    if !HasHugeList(r.st.lists) {
      StrictState(a, source.classes, r.st);
    }
  }

  /** No escape at all is allowed. */
  const STRICT := Allowance(false, false, false, false)

  /** Where no list is too long, sizes are Integers like any other. */
  lemma StrictState(a: Allowance, classes: ClassTable, st: State)
    requires a == STRICT.(sizes := true) && !HasHugeList(st.lists) && StateOk(a, classes, st)
    ensures StateOk(STRICT, classes, st)
  {
    hide ValueHasType, HasHugeList;
    forall i, x | 0 <= i < |st.scopes| && x in st.scopes[i]
      ensures Holds(STRICT, classes, st.lists, st.scopes[i][x].value, st.scopes[i][x].ty)
    {
      assert ScopeOk(a, classes, st.lists, st.scopes[i]);
    }
  }

  /** In a program that cannot shorten lists no list access ever goes out of bounds. */
  lemma ProgramsWithoutClearNeverCrash(source: Program, env: Env, a: Allowance, fuel: nat)
    requires CheckProgram(source) == Ok(env.program) && Eligible(a, source) && !a.shrink
    ensures !Run(env, fuel).out.Panic? && !Run(env, fuel).out.Fails?
  {
    AcceptedProgramsAreSafe(source, env, a, fuel);
  }
}
