/** Checking and running a program, with the two objects themselves. */
module Running {
  import opened Wrappers
  import opened Syntax
  import opened Values
  import opened Semantics
  import opened Typing
  import opened Checker
  import opened Conformance
  import opened ProgramSound
  import Checkers
  import Interpreters

  /** Rejects what the checker rejects. What it runs ends without internal error, crashes only if the
      program can shorten lists, and escapes validation only as the constructs of the program allow; a
      plain program escapes only if it has made a list longer than an Integer can count. */
  method CheckAndRun(p: Program, host: Host, fuel: nat, ghost a: Allowance)
    returns (r: Result<Outcome<()>, CheckError>, lists: Lists)
    ensures r.Ok? <==> CheckProgram(p).Ok?
    ensures r.Ok? && Eligible(a, p) ==> Safe(a, lists, r.value)
    ensures r.Ok? && Plain(p) && r.value.Raise? && r.value.exception.escape.Some? ==> HasHugeList(lists)
  {
    hide CheckProgram, Run, Eligible, Plain;
    var checker := new Checkers.SemanticChecker(p.classes);
    var checked := checker.CheckWhole(p);
    if checked.Err? {
      return Err(checked.error), [];
    }
    var env := Env(checked.value, host);
    var interpreter := new Interpreters.Interpreter(Library(env));
    var out := interpreter.ExecuteAnonymous(env, fuel);
    if Eligible(a, p) { AcceptedProgramsAreSafe(p, env, a, fuel); }
    if Plain(p) { PlainProgramsNeverEscape(p, env, fuel); }
    return Ok(out), interpreter.lists;
  }
}
