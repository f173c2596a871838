/** The interactive session, which replays all accepted source for every snippet. */
module Repl {
  import opened Wrappers
  import opened Syntax
  import opened Values
  import opened Semantics
  import opened Typing
  import opened Checker
  import opened ContextKept
  import opened Linking
  import opened FreshNames

  /** What a snippet adds: method declarations and statements. */
  datatype Snippet = Snippet(methods: seq<Method>, statements: seq<Stmt>)

  datatype Failure = Rejected(error: CheckError) | Aborted(outcome: Outcome<()>)

  /** Checks and runs a whole source; the output counts only if the run completes. */
  function Execute(classes: ClassTable, host: Host, fuel: nat, source: Snippet): Result<seq<string>, Failure> {
    var checked := CheckProgram(Program(classes, source.methods, source.statements));
    if checked.Err? then Err(Rejected(checked.error))
    else
      var run := Run(Env(checked.value, host), fuel);
      if run.out.Done? then Ok(run.st.output) else Err(Aborted(run.out))
  }

  function Extend(source: Snippet, snippet: Snippet): Snippet {
    Snippet(source.methods + snippet.methods, source.statements + snippet.statements)
  }

  // ---------------------------------------------------------------- prefixes of a statement list

  lemma {:induction false} CheckStmtsSplit(cx: Context, scopes: seq<TypeScope>, a: seq<Stmt>, b: seq<Stmt>)
    requires scopes != [] && CheckStmts(cx, scopes, a + b).Ok?
    ensures CheckStmts(cx, scopes, a).Ok?
    ensures var front := CheckStmts(cx, scopes, a).value;
            && CheckStmts(cx, front.scopes, b).Ok?
            && CheckStmts(cx, scopes, a + b).value.syntax == front.syntax + CheckStmts(cx, front.scopes, b).value.syntax
    decreases |a|
  {
    hide CheckStmt;
    if a == [] {
      assert a + b == b;
    } else {
      assert (a + b)[0] == a[0] && (a + b)[1..] == a[1..] + b;
      var first := CheckStmt(cx, scopes, a[0]).value;
      CheckStmtsSplit(cx, first.scopes, a[1..], b);
    }
  }

  lemma {:induction false} ExecAllSplit(env: Env, a: seq<Stmt>, b: seq<Stmt>, st: State, fuel: nat)
    ensures ExecAll(env, a + b, st, fuel) ==
              var first := ExecAll(env, a, st, fuel);
              if first.out == Done(Normal) then ExecAll(env, b, first.st, fuel) else first
    decreases |a|
  {
    hide Exec;
    if a == [] {
      assert a + b == b;
    } else {
      assert (a + b)[0] == a[0] && (a + b)[1..] == a[1..] + b;
      ExecAllSplit(env, a[1..], b, Exec(env, a[0], st, fuel).st, fuel);
    }
  }

  /** A snippet declares no method of a name that the source has already. */
  predicate Fresh(source: Snippet, snippet: Snippet) {
    forall i, j :: 0 <= i < |source.methods| && 0 <= j < |snippet.methods| ==>
      source.methods[i].name != snippet.methods[j].name
  }

  /** Adding statements and methods of new names extends the output: what was printed before is printed
      again, first. */
  lemma FreshSnippetExtendsOutput(classes: ClassTable, host: Host, fuel: nat, source: Snippet, snippet: Snippet)
    requires Execute(classes, host, fuel, source).Ok? && Fresh(source, snippet)
    requires Execute(classes, host, fuel, Extend(source, snippet)).Ok?
    ensures Execute(classes, host, fuel, source).value <= Execute(classes, host, fuel, Extend(source, snippet)).value
  {
    hide CheckStmts, CheckMethods, ExecAll, LinkedStmt;
    var longer := Extend(source, snippet);
    var p := CheckProgram(Program(classes, source.methods, source.statements)).value;
    var q := CheckProgram(Program(classes, longer.methods, longer.statements)).value;
    ExtensionLinks(classes, host, source, snippet, p, q);
    var env, more := Library(Env(p, host)), Library(Env(q, host));
    var rest := q.statements[|p.statements|..];
    assert q.statements == p.statements + rest;
    ExecAllSame(env, more, p.statements, INITIAL, fuel);
    ExecAllSplit(more, p.statements, rest, INITIAL, fuel);
    var first := ExecAll(more, p.statements, INITIAL, fuel);
    ExecAllKeeps(more, p.statements, INITIAL, fuel);
    ExecAllKeeps(more, rest, first.st, fuel);
  }

  /** The checked program of the longer source starts with that of the source, statements and methods
      alike, and no call in it leads to a new method. */
  lemma ExtensionLinks(classes: ClassTable, host: Host, source: Snippet, snippet: Snippet, p: Program, q: Program)
    requires Fresh(source, snippet)
    requires CheckProgram(Program(classes, source.methods, source.statements)) == Ok(p)
    requires CheckProgram(Program(classes, source.methods + snippet.methods, source.statements + snippet.statements)) == Ok(q)
    ensures Extends(Library(Env(p, host)), Library(Env(q, host)))
    ensures p.statements <= q.statements && LinkedStmts(|p.methods|, p.statements)
  {
    var all := source.methods + snippet.methods;
    var cx := Context(classes, source.methods, 0, None);
    var more := Context(classes, all, 0, None);
    assert forall j :: |source.methods| <= j < |all| ==> all[j] == snippet.methods[j - |source.methods|];
    assert Extended(cx, more);
    hide CheckStmts, CheckMethod, LinkedStmt, LinkedStmts, Extended;
    StmtsSame(cx, more, [map[]], source.statements);
    CheckStmtsSplit(more, [map[]], source.statements, snippet.statements);
    forall i | 0 <= i < |p.methods|
      ensures p.methods[i] == q.methods[i] && LinkedStmt(|p.methods|, p.methods[i].body)
    {
      assert all[i] == source.methods[i];
      assert CheckMethod(cx, source.methods[i]) == Ok(p.methods[i]) && CheckMethod(more, all[i]) == Ok(q.methods[i]);
      MethodSame(cx, more, source.methods[i]);
    }
  }

  /** In particular when it declares nothing. */
  lemma StatementsExtendOutput(classes: ClassTable, host: Host, fuel: nat, source: Snippet, more: seq<Stmt>)
    requires Execute(classes, host, fuel, source).Ok?
    requires Execute(classes, host, fuel, Extend(source, Snippet([], more))).Ok?
    ensures Execute(classes, host, fuel, source).value <= Execute(classes, host, fuel, Extend(source, Snippet([], more))).value
  {
    hide Execute;
    FreshSnippetExtendsOutput(classes, host, fuel, source, Snippet([], more));
  }

  lemma EmptyRuns(classes: ClassTable, host: Host, fuel: nat)
    ensures Execute(classes, host, fuel, Snippet([], [])) == Ok([])
  {
    var cx := Context(classes, [], 0, None);
    assert CheckMethods(cx, []) == Ok([]);
    assert CheckStmts(cx, [map[]], []) == Ok(Bound([], [map[]]));
    assert CheckProgram(Program(classes, [], [])) == Ok(Program(classes, [], []));
  }

  // ---------------------------------------------------------------- the session

  class ReplSession {
    const classes: ClassTable
    const host: Host
    const fuel: nat
    var source: Snippet
    var output: seq<string>

    /** Everything returned so far. */
    ghost var returned: seq<string>

    constructor (classes: ClassTable, host: Host, fuel: nat)
      ensures this.classes == classes && this.host == host && this.fuel == fuel
      ensures Valid() && source == Snippet([], []) && output == [] && returned == []
    {
      this.classes, this.host, this.fuel := classes, host, fuel;
      source, output, returned := Snippet([], []), [], [];
      EmptyRuns(classes, host, fuel);
    }

    /** The output is that of running the accepted source in one go. */
    ghost predicate Valid()
      reads this
    {
      Execute(classes, host, fuel, source) == Ok(output)
    }

    /** A failing snippet changes nothing. An accepted one is added to the source, and what is returned
        is the new part of the output if it extends the last, as it does whenever the snippet declares no
        method of a name declared before. What was returned so far is the output of one run as long as
        every new output extends the last, and it stops being that exactly when one does not. */
    method Evaluate(snippet: Snippet) returns (r: Result<seq<string>, Failure>)
      requires Valid()
      modifies this
      ensures Valid()
      ensures var batch := Execute(classes, host, fuel, Extend(old(source), snippet));
              if batch.Err? then
                r == Err(batch.error) && source == old(source) && output == old(output) && returned == old(returned)
              else
                && r.Ok? && source == Extend(old(source), snippet) && output == batch.value
                && returned == old(returned) + r.value
      ensures r.Ok? ==> output == if old(output) <= output then old(output) + r.value else r.value
      ensures r.Ok? && old(returned) == old(output) ==> (returned == output <==> old(output) <= output)
      ensures r.Ok? && Fresh(old(source), snippet) ==> old(output) <= output
    {
      hide Execute;
      var candidate := Extend(source, snippet);
      var run := Execute(classes, host, fuel, candidate);
      if run.Err? {
        return Err(run.error);
      }
      if Fresh(source, snippet) {
        FreshSnippetExtendsOutput(classes, host, fuel, source, snippet);
      }
      var added := if output <= run.value then run.value[|output|..] else run.value;
      assert output <= run.value ==> run.value == output + added;
      if !(output <= run.value) {
        assert |output + run.value| != |run.value| by { assert output != []; }
      }
      source, output := candidate, run.value;
      returned := returned + added;
      r := Ok(added);
    }

    /** Forgets the accepted source and starts over. */
    method Reset()
      modifies this
      ensures Valid() && source == Snippet([], []) && output == [] && returned == []
    {
      source, output, returned := Snippet([], []), [], [];
      EmptyRuns(classes, host, fuel);
    }
  }

  /** The source accepted from a sequence of snippets: each is tried on what was accepted before. */
  function Accepted(classes: ClassTable, host: Host, fuel: nat, snippets: seq<Snippet>): Snippet {
    if snippets == [] then Snippet([], [])
    else
      var n := |snippets| - 1;
      var before := Accepted(classes, host, fuel, snippets[..n]);
      var candidate := Extend(before, snippets[n]);
      if Execute(classes, host, fuel, candidate).Ok? then candidate else before
  }

  /** No two snippets declare methods of one name. */
  predicate Apart(snippets: seq<Snippet>) {
    forall i, j :: 0 <= i < j < |snippets| ==> Fresh(snippets[i], snippets[j])
  }

  /** Every accepted method comes from one of the snippets. */
  lemma {:induction false} AcceptedFresh(classes: ClassTable, host: Host, fuel: nat, snippets: seq<Snippet>, snippet: Snippet)
    requires forall i :: 0 <= i < |snippets| ==> Fresh(snippets[i], snippet)
    ensures Fresh(Accepted(classes, host, fuel, snippets), snippet)
    decreases |snippets|
  {
    hide Execute;
    if snippets != [] {
      var n := |snippets| - 1;
      AcceptedFresh(classes, host, fuel, snippets[..n], snippet);
      assert Fresh(snippets[n], snippet);
    }
  }

  /** A session whose snippets declare methods of different names, if any, returns, all told, exactly what
      one run of the source accepted in the end prints; rejected snippets leave no trace. */
  method RunSession(classes: ClassTable, host: Host, fuel: nat, snippets: seq<Snippet>) returns (outputs: seq<string>)
    ensures Apart(snippets) ==> Execute(classes, host, fuel, Accepted(classes, host, fuel, snippets)) == Ok(outputs)
  {
    hide Execute, Fresh;
    var session := new ReplSession(classes, host, fuel);
    outputs := [];
    assert snippets[..0] == [] && Accepted(classes, host, fuel, []) == Snippet([], []);
    for i := 0 to |snippets|
      invariant session.Valid() && session.source == Accepted(classes, host, fuel, snippets[..i])
      invariant session.classes == classes && session.host == host && session.fuel == fuel
      invariant outputs == session.returned && (Apart(snippets) ==> outputs == session.output)
    {
      if Apart(snippets) { AcceptedFresh(classes, host, fuel, snippets[..i], snippets[i]); }
      assert snippets[..i + 1][..i] == snippets[..i];
      var r := session.Evaluate(snippets[i]);
      if r.Ok? {
        outputs := outputs + r.value;
      }
    }
    assert snippets[..|snippets|] == snippets;
  }

  // ---------------------------------------------------------------- snippets that declare methods

  // A method added later can take over calls made earlier: `f(1)` with only `f(Long)` declared, and then
  // `f(Integer)`.

  function Printer(ty: Type, text: string): Method {
    Method("f", [Parameter(ty, "x")], RVoid, Block([ExprStmt(Debug(StringLit(text)))]))
  }

  const CALL := ExprStmt(Call("f", [IntLit(1)], None))
  const FIRST := Snippet([Printer(TLong, "Long")], [CALL])
  const SECOND := Snippet([Printer(TInteger, "Integer")], [])

  function Resolved(callee: nat): Stmt {
    ExprStmt(Call("f", [IntLit(1)], Some(callee)))
  }

  lemma PrinterChecks(cx: Context, ty: Type, text: string)
    requires ValidType(cx.classes, ty)
    ensures CheckMethod(cx, Printer(ty, text)) == Ok(Printer(ty, text))
  {
    var m := Printer(ty, text);
    var inner := cx.(loopDepth := 0, returnType := Some(RVoid));
    var s := ExprStmt(Debug(StringLit(text)));
    assert m.parameters[..0] == [];
    assert BindParameters(cx.classes, []) == Ok(map[]);
    assert BindParameters(cx.classes, m.parameters) == Ok(map["x" := ty]);
    var scopes: seq<TypeScope> := [map["x" := ty]];
    assert CheckExpr(inner, scopes, StringLit(text)) == Ok(Typed(StringLit(text), EValue(TString)));
    assert CheckExpr(inner, scopes, Debug(StringLit(text))) == Ok(Typed(Debug(StringLit(text)), EVoid));
    assert CheckStmt(inner, scopes, s) == Ok(Bound(s, scopes));
    assert [s][1..] == [] && [s] + [] == [s];
    assert CheckStmts(inner, scopes, []) == Ok(Bound([], scopes));
    assert CheckStmts(inner, scopes, [s]) == Ok(Bound([s], scopes));
  }

  // Which overload the call selects.

  lemma SelectsLong()
    ensures SelectMethod(NONE, [Printer(TLong, "Long")], "f", [EValue(TInteger)]) == Ok(0)
  {
    var ms := [Printer(TLong, "Long")];
    assert ms[0].name == "f";
    assert ParameterTypes(ms[0].parameters) == [TLong];
    assert Applicable(NONE, [TLong], [EValue(TInteger)]);
    assert ApplicableMethods(NONE, ms, "f", [EValue(TInteger)], 1) == [];
    assert ApplicableMethods(NONE, ms, "f", [EValue(TInteger)], 0) == [0];
    var candidates := CandidateTypes(ms, [0]);
    assert UndominatedFrom(NONE, candidates, 1) == [];
    assert Undominated(NONE, candidates, 0);
  }

  lemma SelectsInteger()
    ensures SelectMethod(NONE, [Printer(TLong, "Long"), Printer(TInteger, "Integer")], "f", [EValue(TInteger)]) == Ok(1)
  {
    var ms := [Printer(TLong, "Long"), Printer(TInteger, "Integer")];
    var arguments := [EValue(TInteger)];
    assert ms[0].name == "f" == ms[1].name;
    assert ParameterTypes(ms[0].parameters) == [TLong] && ParameterTypes(ms[1].parameters) == [TInteger];
    assert Applicable(NONE, [TLong], arguments) && Applicable(NONE, [TInteger], arguments);
    assert ApplicableMethods(NONE, ms, "f", arguments, 2) == [];
    assert ApplicableMethods(NONE, ms, "f", arguments, 1) == [1];
    assert ApplicableMethods(NONE, ms, "f", arguments, 0) == [0, 1];
    var candidates := CandidateTypes(ms, [0, 1]);
    assert candidates == [[TLong], [TInteger]];
    assert candidates[1][0] != candidates[0][0] && IsSubtype(NONE, candidates[1][0], candidates[0][0]);
    assert MoreSpecific(NONE, candidates[1], candidates[0]) && !Undominated(NONE, candidates, 0);
    assert !MoreSpecific(NONE, candidates[0], candidates[1]) && Undominated(NONE, candidates, 1);
    assert UndominatedFrom(NONE, candidates, 2) == [];
    assert UndominatedFrom(NONE, candidates, 1) == [1];
    assert UndominatedFrom(NONE, candidates, 0) == [1];
  }

  lemma CallChecks(methods: seq<Method>, callee: nat)
    requires SelectMethod(NONE, methods, "f", [EValue(TInteger)]) == Ok(callee) && methods[callee].returnType == RVoid
    ensures CheckStmts(Context(NONE, methods, 0, None), [map[]], [CALL]) == Ok(Bound([Resolved(callee)], [map[]]))
  {
    hide SelectMethod;
    var cx := Context(NONE, methods, 0, None);
    var scopes: seq<TypeScope> := [map[]];
    var one := Typed(IntLit(1), EValue(TInteger));
    assert CheckExpr(cx, scopes, IntLit(1)) == Ok(one);
    assert [IntLit(1)][1..] == [] && [one] + [] == [one];
    assert CheckExprs(cx, scopes, []) == Ok([]);
    assert CheckExprs(cx, scopes, [IntLit(1)]) == Ok([one]);
    assert Types([one]) == [EValue(TInteger)] && Exprs([one]) == [IntLit(1)];
    assert CheckExpr(cx, scopes, CALL.expression) == Ok(Typed(Resolved(callee).expression, EVoid));
    assert CheckStmt(cx, scopes, CALL) == Ok(Bound(Resolved(callee), scopes));
    assert [CALL][1..] == [] && CheckStmts(cx, scopes, []) == Ok(Bound([], scopes));
    assert [Resolved(callee)] + [] == [Resolved(callee)];
  }

  /** Calling a printer prints its text. */
  lemma PrinterRuns(env: Env, ty: Type, text: string, st: State, fuel: nat)
    ensures var r := Invoke(env, Printer(ty, text), [VInteger(1)], st, fuel);
            r.out == Done(VVoid) && r.st.output == st.output + [env.host.render(VString(text), st.lists)]
  {
    var m := Printer(ty, text);
    var s := ExprStmt(Debug(StringLit(text)));
    var inner := st.(scopes := [ParameterScope(m.parameters, [VInteger(1)])], calls := st.calls + [m.name]);
    var pushed := PushScope(inner, map[]);
    assert Eval(env, StringLit(text), pushed, fuel) == Res(Done(VString(text)), pushed);
    var printed := pushed.(output := st.output + [env.host.render(VString(text), st.lists)]);
    assert Eval(env, Debug(StringLit(text)), pushed, fuel) == Res(Done(VVoid), printed);
    assert Exec(env, s, pushed, fuel) == Res(Done(Normal), printed);
    assert [s][1..] == [] && ExecAll(env, [], printed, fuel) == Res(Done(Normal), printed);
    assert ExecAll(env, [s], pushed, fuel) == Res(Done(Normal), printed);
    assert Exec(env, m.body, inner, fuel) == Res(Done(Normal), PopScope(printed));
  }

  lemma CallRuns(env: Env, callee: nat, ty: Type, text: string, fuel: nat)
    requires callee < |env.program.methods| && env.program.methods[callee] == Printer(ty, text) && fuel > 0
    ensures var r := ExecAll(env, [Resolved(callee)], INITIAL, fuel);
            r.out == Done(Normal) && r.st.output == [env.host.render(VString(text), [])]
  {
    var call := Resolved(callee).expression;
    PrinterRuns(env, ty, text, INITIAL, fuel - 1);
    hide Invoke;
    assert Eval(env, IntLit(1), INITIAL, fuel) == Res(Done(VInteger(1)), INITIAL);
    assert [IntLit(1)][1..] == [] && [VInteger(1)] + [] == [VInteger(1)];
    assert EvalAll(env, [], INITIAL, fuel) == Res(Done([]), INITIAL);
    assert EvalAll(env, [IntLit(1)], INITIAL, fuel) == Res(Done([VInteger(1)]), INITIAL);
    assert Eval(env, call, INITIAL, fuel) == Invoke(env, Printer(ty, text), [VInteger(1)], INITIAL, fuel - 1);
    assert [Resolved(callee)][1..] == [];
    var after := Invoke(env, Printer(ty, text), [VInteger(1)], INITIAL, fuel - 1).st;
    assert Exec(env, Resolved(callee), INITIAL, fuel) == Res(Done(Normal), after);
    assert ExecAll(env, [], after, fuel) == Res(Done(Normal), after);
    assert INITIAL.output + [env.host.render(VString(text), [])] == [env.host.render(VString(text), [])];
  }

  const NONE := ClassTable([], [])

  lemma FirstExecutes(host: Host, fuel: nat)
    requires fuel > 0
    ensures Execute(NONE, host, fuel, FIRST) == Ok([host.render(VString("Long"), [])])
  {
    hide CheckMethod, CheckStmts, ExecAll, SelectMethod;
    var cx := Context(NONE, FIRST.methods, 0, None);
    PrinterChecks(cx, TLong, "Long");
    MethodsCheck(cx, FIRST.methods);
    SelectsLong();
    CallChecks(FIRST.methods, 0);
    var p := Program(NONE, FIRST.methods, [Resolved(0)]);
    CallRuns(Library(Env(p, host)), 0, TLong, "Long", fuel);
  }

  lemma BothExecute(host: Host, fuel: nat)
    requires fuel > 0
    ensures Execute(NONE, host, fuel, Extend(FIRST, SECOND)) == Ok([host.render(VString("Integer"), [])])
  {
    hide CheckMethod, CheckStmts, ExecAll, SelectMethod;
    var methods := [Printer(TLong, "Long"), Printer(TInteger, "Integer")];
    assert Extend(FIRST, SECOND) == Snippet(methods, [CALL]);
    var cx := Context(NONE, methods, 0, None);
    PrinterChecks(cx, TLong, "Long");
    PrinterChecks(cx, TInteger, "Integer");
    MethodsCheck(cx, methods);
    SelectsInteger();
    CallChecks(methods, 1);
    assert ParameterTypes(methods[0].parameters)[0] != ParameterTypes(methods[1].parameters)[0];
    var p := Program(NONE, methods, [Resolved(1)]);
    CallRuns(Library(Env(p, host)), 1, TInteger, "Integer", fuel);
  }

  lemma {:induction false} MethodsCheck(cx: Context, methods: seq<Method>)
    requires forall i :: 0 <= i < |methods| ==> CheckMethod(cx, methods[i]) == Ok(methods[i])
    ensures CheckMethods(cx, methods) == Ok(methods)
  {
    hide CheckMethod;
    if methods != [] {
      MethodsCheck(cx, methods[1..]);
      assert [methods[0]] + methods[1..] == methods;
    }
  }

  /** With a method declaration as second snippet, what the session returned is no longer the output of
      one run. */
  method DeclarationChangesThePast(host: Host, fuel: nat) returns (outputs: seq<string>, batch: seq<string>)
    requires fuel > 0 && host.render(VString("Long"), []) != host.render(VString("Integer"), [])
    ensures batch == [host.render(VString("Integer"), [])] && Execute(NONE, host, fuel, Extend(FIRST, SECOND)) == Ok(batch)
    ensures outputs == [host.render(VString("Long"), []), host.render(VString("Integer"), [])]
  {
    hide Execute;
    FirstExecutes(host, fuel);
    BothExecute(host, fuel);
    var session := new ReplSession(NONE, host, fuel);
    assert Extend(Snippet([], []), FIRST) == FIRST;
    var first := session.Evaluate(FIRST);
    assert first.value == session.output == [host.render(VString("Long"), [])];
    var second := session.Evaluate(SECOND);
    assert session.output == [host.render(VString("Integer"), [])];
    assert first.value[0] != session.output[0] && !(first.value <= session.output);
    assert second.value == session.output;
    outputs := first.value + second.value;
    batch := session.output;
  }
}
