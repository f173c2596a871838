# A verified model of an Apex compiler and interpreter

The repository compiles and interprets Apex. A lexer and a parser make a syntax tree, a semantic
checker (`src/semantic.rs`) types it and records facts about it, and an interpreter (`src/runtime.rs`)
runs the result, relying at many places on what the checker established. This project models that
chain and the machinery around it in Dafny and proves what its parts promise each other.

* **Checker and interpreter** on a language fragment: Integer, Long, Boolean, String, lists and
  exceptions; locals, assignment, arithmetic with promotion, comparison, lazy operators, casts, calls
  of overloaded methods; every statement form from blocks to `for`-each and `try`/`catch`/`finally`.
  Both exist twice: as functions (`Checker`, `Semantics`) and as objects that push, pop, save and
  restore their fields as the source does (`Checkers.SemanticChecker`, `Interpreters.Interpreter`),
  each method proved equal to its function. Soundness is proved of the functions: an accepted program
  never reaches an internal error, and never operands that "escaped semantic validation" unless it
  uses `++` or `--`, an oversized literal, or `size` on a list longer than an Integer can count; for each
  the exact condition is proved. Shortening a list can crash it, again with the exact condition.
* **Classes**: the hierarchy search, name resolution, subtyping and joins, overload choice, catch
  clauses, constructor chains, virtual dispatch and static initialization.
* **Tools**: the incremental project compiler, the lexer and the token-stream validator, the debugger,
  the interactive session, message framing and editor positions.

## How the model is laid out

| modules | what they hold |
|---|---|
| `Wrappers`, `ClassGraph`, `Syntax`, `Shapes`, `Values`, `Typing`, `Completion` | data and the basic relations |
| `Checker`, `Checkers`, `Semantics`, `Interpreters` | the checker and the interpreter, as functions and as objects |
| `StmtRules`, `ExprRules`, `ShapeKept`, `ContextKept`, `ContextRestored`, `CompletionSound`, `Conformance`, `Permits`, `Scoping`, `SoundSetting`, `FlowSetting`, `Soundness`, `ProgramSound`, `Running`, `Findings`, `BareBranches`, `StaleIndex` | soundness and its exact limits |
| `Numbers`, `Evaluation`, `Storing`, `Execution`, `Fuel` | what expressions and statements do, by laws on their parts |
| `TypeRules`, `Rules`, `Endings`, `Acceptance`, `Jumps` | the typing rules, and that the checker accepts exactly what they derive |
| `Hierarchy`, `Declarations`, `AcceptedHierarchy`, `Inheritance`, `Lineage`, `Subtyping`, `Catching` | names, graph and types |
| `Constructors`, `Dispatch`, `DispatchSound`, `StaticInit`, `StaticPaths` | objects and classes at run time |
| `Project`, `Lexing`, `Spelling`, `Lexers`, `TokenStream`, `Relexing`, `Debugger`, `CallTrees`, `Linking`, `FreshNames`, `Repl`, `Framing`, `Positions` | the tools |

A result of a computation is `Done`, `Raise` (an Apex exception, marked when it stands for operands
that escaped validation), `Fails` (an internal error of the interpreter), `Panic` (an out-of-bounds
access that aborts the process) or `OutOfFuel`.

## What turned out false of the code

Each is a counterexample together with the exact condition under which the code does meet the
property.

* `x++` on a null Integer is reported as operands that escaped validation, not as a null pointer
  exception: `Findings.NullIncrementEscapes`, `Findings.LocalIncrementEscapesExactly`.
* An unsuffixed literal above 2147483647 is typed Long but evaluates to an Integer, and `(Integer)`
  does not check its range: `Findings.LiteralConformsExactly`, `Findings.CastLiteralEscapesExactly`.
* The size of a list is an Integer whatever it is, so one beyond 32 bits escapes when it is used:
  `Findings.SizeConformsExactly`, `Findings.SizePlusOneEscapesExactly`.
* A declaration as the bare branch of an `if` or body of a `while` is bound in the enclosing scope by the
  checker but not by the interpreter when it does not run. A later use is then an unknown variable, or
  sees an outer variable of that name and perhaps of another type: `BareBranches.BareThenExactly`,
  `BareBranches.BareElseExactly`, `BareBranches.BareWhileExactly`, `BareBranches.ShadowedUseSeesOuter`.
* `xs[i] = f()` and `xs[i] += f()` check the index before they run `f`; if `f` shortens the list the
  write is out of bounds and the process aborts: `StaleIndex.StaleIndexPanicsExactly`,
  `StaleIndex.StaleIndexPanics`.
* The join of two types is not their least common supertype: `Subtyping.JoinIsLeastExactly`,
  `Subtyping.JoinSkipsException`.
* An abstract class can hide the return type an interface asks for: `DispatchSound.InterfaceReturnExactly`,
  `DispatchSound.HiddenReturnDiffers`.
* A snippet that declares a method of a name in use can change what earlier snippets would print:
  `Repl.DeclarationChangesThePast`. With new names only, none can: `Repl.FreshSnippetExtendsOutput`.

## Model

| member | source | states |
|---|---|---|
| ProgramSound.AcceptedProgramsAreSafe | src/runtime.rs:560-591 | for every accepted program and every fuel, the run ends without internal error, crashes only if the program can shorten lists, raises only Apex exceptions and the escapes its constructs allow, and in the final state every slot and list element holds a value converted to its declared type |
| ProgramSound.PlainProgramsNeverEscape | src/runtime.rs:4278-4284 | without `++`, `--`, oversized literals and `clear`, an accepted program ends normally or with an uncaught exception; operands escape validation only if it has made a list longer than an Integer can count, and otherwise every slot and element holds a value of its declared type with every Integer in 32 bits |
| ProgramSound.ProgramsWithoutClearNeverCrash | src/runtime.rs:3401-3430 | if nothing can shorten a list, no list access of an accepted program is out of bounds |
| Running.CheckAndRun | src/runtime.rs:560-591 | the same of the checker object followed by the interpreter object: what is accepted and run ends safely |
| Soundness.EvalSound | src/runtime.rs:1352-1531 | an accepted expression, evaluated in any state that fits the checker's scopes, delivers a value of its recorded type up to numeric widening or an allowed exception, and keeps the state well typed and the context as it was |
| Soundness.AssignmentSound | src/runtime.rs:3206-3227 | the same for plain and compound assignment, whose place is resolved before the right-hand side runs |
| Soundness.InvokeSound | src/runtime.rs:2990-3053 | a call with arguments that fit the parameters returns a value of the method's return type; `break` and `continue` do not leave the method, and a method that must return does |
| Soundness.ExecSound | src/runtime.rs:814-944 | an accepted statement ends only in ways its context permits (`break` and `continue` only in a loop, `return` only with a value of the return type) and leaves scopes that agree with the checker's |
| Soundness.ExecAllSound | src/runtime.rs:1108-1121 | the same for statement lists, with the scopes the checker computed after them |
| Soundness.TrySound | src/runtime.rs:1068-1106 | the same for `try`, whichever of block, clause and `finally` decides the outcome |
| Soundness.ForEachSound | src/runtime.rs:1277-1350 | the same for the remaining iterations of a `for`-each over the snapshot taken at entry |
| Conformance.ConversionHolds | src/runtime.rs:4183-4192 | an assignable value, once converted for a slot, has the slot's type exactly |
| Conformance.CombineDelivers | src/runtime.rs:3783-3844 | an operation the checker recorded never rejects operands of the checked types |
| Conformance.CastDelivers | src/runtime.rs:3166-3204 | a permitted cast gives a value of the target type or a type exception |
| ContextKept.EvalKeeps | src/runtime.rs:1352-1531 | whatever its outcome, an expression leaves the same scopes with the same names and types, the same call stack, every iteration depth and the output so far |
| ContextKept.InvokeKeeps | src/runtime.rs:3001-3032 | a call gives all of that back on every outcome |
| ContextKept.ExecKeeps | src/runtime.rs:1054-1162 | any statement, run in any state, keeps the outer scopes, the call stack, the lists under iteration and the output; only the innermost scope may grow |
| ContextRestored.StatementKeeps | src/runtime.rs:1108-1162 | a statement other than a declaration gives the scopes back exactly, on every outcome |
| ContextRestored.RunRestores | src/runtime.rs:560-591 | after a run, however it ends, one scope is left, no call is open and no list is under iteration |
| ContextKept.IterationKeeps | src/runtime.rs:1277-1350 | entering and leaving an iteration cancel, and a list under iteration keeps its elements |
| ContextKept.ResolvedIsMutable | src/runtime.rs:3919-3945 | a list place is only ever resolved on a list no loop iterates over |
| CompletionSound.ExecCovered | src/semantic/flow.rs:56-150 | however an execution of a statement ends, the completion analysis predicted it |
| CompletionSound.DefiniteReturn | src/semantic/flow.rs:3-9 | a body the analysis calls definitely returning never falls off its end nor leaves by `break` or `continue` |
| ShapeKept.ScopesUnchanged | src/semantic.rs:2050-2206 | a statement that is not a declaration leaves the checker's scopes as they were |
| Findings.IncrementEscapesExactly | src/runtime/numeric.rs:96-108 | incrementing a stored number escapes exactly on null and on an Integer beyond 32 bits |
| Findings.LocalIncrementEscapesExactly | src/runtime.rs:3858-3882 | in every state in which `x` is bound, `x++` and `++x` escape exactly on a null declared Integer or Long, an Integer beyond 32 bits, or no number at all |
| Findings.NullIncrementEscapes | src/runtime/numeric.rs:96-108 | an accepted program that increments a null Integer reports operands that escaped validation |
| Findings.LiteralConformsExactly | src/semantic.rs:5405-5421 | an unsuffixed literal has its recorded type exactly when it fits 32 bits |
| Findings.CastLiteralEscapesExactly | src/runtime.rs:3166-3204 | `(Integer) n + 1` is accepted for every literal and escapes exactly when `n` exceeds 32 bits |
| Findings.SizeConformsExactly | src/runtime/intrinsics.rs:615-620 | the size of a list is an Integer in range exactly when the list has at most 2147483647 elements |
| Findings.SizePlusOneEscapesExactly | src/runtime/numeric.rs:10-50 | `xs.size() + 1` is accepted for every list and escapes exactly when the list is longer than that, yet not too long for `size` itself |
| BareBranches.BareThenExactly | src/semantic.rs:2079-2085 | after `if (c) T x;` the state is as the checker assumes exactly when the branch was taken or an `x` of that type was there before |
| BareBranches.BareElseExactly | src/semantic.rs:2079-2085 | the same for `if (c) s else T x;` |
| BareBranches.BareWhileExactly | src/semantic.rs:2086-2091 | the same for `while (c) T x;`, which must have run at least once |
| BareBranches.BareDoWhileAgrees | src/semantic.rs:2092-2097 | after `do T x; while (c);` the state is always as the checker assumes |
| BareBranches.BareForConfined | src/semantic.rs:2102-2142 | as the body of `for` and `for`-each the declaration stays within the loop for both sides |
| BareBranches.BareDeclarationFailsExactly | src/semantic.rs:2079-2085 | a use after the branch is an unknown variable exactly when the branch was not taken and there is no outer `x`; with an outer `x` it sees that one, whatever its type |
| BareBranches.BareDeclarationIsAccepted | src/semantic.rs:2251-2271 | the checker accepts that use after each of the three forms, whether or not there is an outer `x` |
| BareBranches.ShadowedUseSeesOuter | src/semantic.rs:2251-2271 | an accepted program in which an increment checked for an Integer runs on an outer String and escapes |
| StaleIndex.StaleIndexPanicsExactly | src/runtime.rs:3206-3227 | a plain or compound assignment to a list element crashes exactly when it gets as far as the write and its right-hand side left the list too short for the index checked before |
| StaleIndex.StaleIndexPanics | src/runtime.rs:3401-3430 | two whole accepted programs, `xs[0] = f(xs)` and `xs[0] += f(xs)`, whose run aborts |
| StaleIndex.ResolvedInBounds | src/runtime.rs:3339-3361 | a list place is within bounds when it is resolved |
| Checkers.SemanticChecker.CheckStatement | src/semantic.rs:2050-2206 | the result is that of the checking function, which accepts exactly the derivable statements (`Acceptance.StatementsExactly`); on success the scopes are those it binds, and on success and failure alike outer scopes, loop depth and return type are as before |
| Checkers.SemanticChecker.CheckDeclaration | src/semantic.rs:2208-2271 | each declarator is bound after its initializer is checked; a duplicate, an unknown type or a bad initializer stops at the first |
| Checkers.SemanticChecker.CheckForClauses | src/semantic.rs:2102-2122 | initializer, condition, then body and update one loop deeper, with the depth restored |
| Checkers.SemanticChecker.CheckClauses | src/semantic.rs:2348-2378 | catch clauses in order, each in a scope that is popped again, with the exception-type and reachability tests of the checking function |
| Checkers.SemanticChecker.CheckOneMethod | src/semantic.rs:1999-2030 | a method is checked in fresh scopes and the saved ones are put back, also after an error |
| Checkers.SemanticChecker.BindEach | src/semantic.rs:1947-1960 | parameters are bound left to right up to the first invalid or repeated one |
| Checkers.SemanticChecker.CollectSignatures | src/semantic.rs:1962-1997 | succeeds exactly when no two methods of one name have the same parameter types |
| Checkers.SemanticChecker.CheckWhole | src/semantic.rs:243-275 | signatures, methods and top-level statements together give the checked program or the first error |
| Checkers.BindingFails | src/semantic.rs:1947-1960 | the error of a parameter list is that of its first bad prefix |
| Interpreters.Interpreter.Evaluate | src/runtime.rs:1352-1531 | outcome and whole new state are those of `Semantics.Eval`, the function whose values and states the laws of `Evaluation` and `Storing` give and the soundness theorems are about |
| Interpreters.Interpreter.EvaluateCall | src/runtime.rs:3105-3164 | arguments left to right, then the callee; as the function |
| Interpreters.Interpreter.ExecuteCallable | src/runtime.rs:2990-3053 | scopes are replaced by one with the converted arguments, the call is pushed, and both are restored on every outcome |
| Interpreters.Interpreter.EvaluateAssignment | src/runtime.rs:3206-3227 | place, old value, right-hand side, operation, write, in that order |
| Interpreters.Interpreter.EvaluateMutation | src/runtime.rs:3858-3882 | reads, increments and writes back one place, returning the old or the new value |
| Interpreters.Interpreter.Write | src/runtime.rs:3401-3430 | writes a converted value to a local or a list element |
| Interpreters.Interpreter.Find | src/runtime.rs:3982-3985 | the innermost slot of a name, by a search outward |
| Interpreters.Interpreter.Execute | src/runtime.rs:814-944 | outcome and whole new state are those of `Semantics.Exec`, the function the laws of `Execution` are about |
| Interpreters.Interpreter.ExecuteBlock | src/runtime.rs:1108-1121 | the scope pushed for a block is dropped whatever its statements did |
| Interpreters.Interpreter.ExecuteForLoop | src/runtime.rs:1123-1162 | condition, body, update in turn until the condition or the body ends the loop |
| Interpreters.Interpreter.ExecuteForEach | src/runtime.rs:1277-1350 | the iteration depth is raised over a snapshot of the elements and lowered on every outcome |
| Interpreters.Interpreter.ExecuteTry | src/runtime.rs:1068-1106 | as the function of which `Execution.FinallyAlwaysRuns` and its neighbours say that the first matching clause handles the exception and that `finally` runs after every outcome but a crash and may override it |
| Interpreters.Interpreter.ExecuteAnonymous | src/runtime.rs:560-591 | a whole run from the initial state; a top-level `return` ends it |
| Numbers.SumExactly | src/runtime/numeric.rs:124-166 | `x + y` is the number that less `y` is `x`, or an arithmetic exception exactly when it does not fit the width |
| Numbers.DifferenceExactly | src/runtime/numeric.rs:124-166 | `x - y` is the number that with `y` added is `x`, or an arithmetic exception exactly when it does not fit |
| Numbers.ProductExactly | src/runtime/numeric.rs:124-166 | the same for the product |
| Numbers.DivisionExactly | src/runtime/numeric.rs:124-166 | quotient and remainder are the pair with `x == q*y + m`, `m` smaller than `y` in magnitude and of the sign of `x`; both are exceptions when the quotient does not fit |
| Numbers.DivisionUnique | src/runtime/numeric.rs:124-166 | there is one such pair |
| Numbers.NegationExactly | src/runtime/numeric.rs:52-94 | `-x` is the number that with `x` added is zero, or an arithmetic exception |
| Numbers.OrderExactly | src/runtime.rs:4208-4235 | comparisons are those of the numbers whatever their widths |
| Numbers.EqualityExactly | src/runtime/value_graph.rs:555-566 | which values are equal: numbers across widths, texts that fold alike, and otherwise only values of one kind |
| Evaluation.ArithmeticGives | src/runtime.rs:3783-3844 | for any operand expressions: the sum, difference or product of what they give, left evaluated before right, in the state the right one left |
| Evaluation.DivisionGives | src/runtime.rs:3783-3844 | the same for quotient and remainder, with a zero divisor reported |
| Evaluation.ConcatenationGives | src/runtime/numeric.rs:10-50 | the rendering of the left operand followed by that of the right one |
| Evaluation.NullArithmeticRaises | src/runtime/numeric.rs:10-50 | a null operand raises a null pointer exception after both were evaluated |
| Evaluation.ComparisonGives | src/runtime.rs:3783-3844 | `<`, `<=`, `>`, `>=` of any operand expressions are the orders of their numbers |
| Evaluation.EqualityGives | src/runtime.rs:3783-3844 | `==` and `!=` of any operand expressions tell whether what they give is equal |
| Evaluation.AndGives | src/runtime.rs:3791-3798 | `&&` is false after a false left operand, which leaves the right one unevaluated, and else what the right one gives |
| Evaluation.OrGives | src/runtime.rs:3799-3806 | `||` is true after a true left operand, which leaves the right one unevaluated, and else what the right one gives |
| Evaluation.NotGives | src/runtime.rs:3724-3768 | `!` gives the other truth value |
| Evaluation.SignGives | src/runtime.rs:3724-3768 | signs give the number, or the one that with it added is zero |
| Evaluation.ConditionalGives | src/runtime.rs:1453-1466 | `c ? t : f` is the chosen operand, evaluated in the state the condition left, and the other is not evaluated |
| Evaluation.CoalesceGives | src/runtime.rs:1467-1475 | `l ?? r` is the left operand unless that is null, and only then is the right one evaluated |
| Evaluation.ConditionExactly | src/runtime.rs:3846-3856 | a condition is a Boolean; null raises and any other value escapes |
| Storing.VariableGives | src/runtime.rs:3982-3992 | a name means its innermost slot, and nothing without one |
| Storing.AssignLocalGives | src/runtime.rs:3206-3227 | assignment stores the converted value in the innermost slot of the name and changes nothing else |
| Storing.CompoundLocalGives | src/runtime.rs:3206-3227 | `x op= e` computes what `x op e` does, operands in that order, and stores it; without a value it stores nothing |
| Storing.MutationGives | src/runtime.rs:3858-3882 | `++` and `--` store the number next to the old one, or raise and store nothing, and give the old or the new one |
| Storing.FirstOperandDecides | src/runtime.rs:1352-1531 | an operand that gives no value decides the whole, and no operand after it is evaluated |
| Storing.OperandsInOrder | src/runtime.rs:3709-3722 | arguments and elements are evaluated left to right, each in the state the one before left, up to the first without a value |
| Storing.NewListGives | src/runtime.rs:3447-3470 | a new list gets the next handle and the converted elements in order; other lists are untouched |
| Storing.IndexGives | src/runtime.rs:3688-3707 | `xs[k]` is element `k`, and an exception beyond the ends or on null |
| Storing.AssignElementGives | src/runtime.rs:3401-3430 | `xs[k] = e` checks list and position before `e` runs, then stores the converted value in that element only |
| Storing.CompoundElementGives | src/runtime.rs:3206-3227 | `xs[k] op= e` stores what `xs[k] op e` computes |
| Storing.ElementMutationGives | src/runtime.rs:3858-3882 | `xs[k]++` and its kind change that element only |
| Storing.ListCallGives | src/runtime/intrinsics.rs:463-521 | `add` appends the converted value, `clear` empties, `size` counts; a list under iteration keeps its elements |
| Storing.CastGives | src/runtime.rs:3166-3204 | a cast gives null the type, converts between widths as long as the number fits, and otherwise gives the value itself exactly if it has the type |
| Storing.NewExceptionGives | src/runtime.rs:2844-2880 | a new exception has its message and no trace |
| Storing.DebugGives | src/runtime/intrinsics.rs:279-305 | debug output appends one line, the rendering of the value |
| Storing.CallGives | src/runtime.rs:2990-3053 | a call evaluates its arguments in order and runs the body in a scope of just the parameters with the converted arguments; afterwards the caller's scopes are back; what the body returns is converted, and an exception without a trace gets the calls in progress |
| Execution.ExpressionStatements | src/runtime.rs:828-831 | an expression statement drops the value, `return` hands it out, `throw` raises it |
| Execution.IfRuns | src/runtime.rs:833-848 | the branch the condition chooses runs, in the state the condition left, and no other |
| Execution.BlocksRun | src/runtime.rs:1108-1121 | statements run in order up to the first that does not complete normally, in a scope of their own that is gone afterwards |
| Execution.DeclarationRuns | src/runtime.rs:946-992 | declarators run in order; each converted initializer, or null, gets a new slot in the innermost scope |
| Execution.WhileRuns | src/runtime.rs:849-866 | condition and body alternate, each once per iteration, until the condition is false or the body ends the loop |
| Execution.DoWhileRuns | src/runtime.rs:867-882 | body first, then condition |
| Execution.ForRuns | src/runtime.rs:1123-1162 | the initializer once in the scope of the loop; then condition, body and update, the update exactly once between iterations, after `continue` too |
| Execution.ForEachRuns | src/runtime.rs:1277-1350 | the body runs for element 0, 1, 2, and so on of the list as it was at the start, with the list marked meanwhile, up to the end of those elements or of the loop |
| Execution.UnraisedSkipsClauses | src/runtime.rs:1068-1106 | unless the block raises no clause runs |
| Execution.UncaughtLeaves | src/runtime.rs:1068-1106 | an exception that no clause matches runs none and leaves the statement |
| Execution.CaughtRunsFirstMatch | src/runtime.rs:1076-1097 | a caught exception runs the body of the first matching clause once and no other, with the exception bound in a scope of its own |
| Execution.FinallyAlwaysRuns | src/runtime.rs:1098-1106 | after every outcome but a crash the `finally` block runs, in the state reached; its outcome wins unless it completes normally |
| Execution.RunRuns | src/runtime.rs:560-591 | a run starts from one empty scope and runs the statements in order |
| Fuel.ExecEnough | src/runtime.rs:814-944 | a statement that ends before the fuel does ends the same with more fuel |
| Fuel.ResultsAgree | src/runtime.rs:560-591 | a program has at most one result, whatever the fuel |
| Hierarchy.HierarchyGraph.ValidateAcyclic | src/semantic.rs:141-185 | succeeds exactly on an acyclic graph, having started every node once and examined every edge once; an error names a class that lies on a cycle |
| Hierarchy.VisitingTargetOnCycle | src/semantic.rs:141-185 | an edge from the top of the search stack to a node being visited closes a cycle through that node |
| Hierarchy.AllFinishedIsAcyclic | src/semantic.rs:375-385 | a search that completed every node has seen an acyclic graph |
| AcceptedHierarchy.ValidateHierarchy | src/semantic.rs:375-461 | accepts exactly the declarations whose names, superclasses and interfaces are valid and acyclic, with the edges they declare |
| AcceptedHierarchy.AcceptedIsWellFormed | src/semantic.rs:539-579 | an accepted hierarchy is acyclic, its superclass links are among its edges, and interfaces lead only to interfaces |
| ClassGraph.InheritsIsReaches | src/semantic.rs:1682-1717 | the traversal with a visited set decides graph reachability, cycles or not |
| Inheritance.Traverse | src/semantic.rs:1682-1717 | the worklist loop decides reachability and visits no node twice |
| Inheritance.RecursionAgreesWithChecker | src/runtime.rs:4101-4116 | on an acyclic hierarchy the interpreter's unguarded recursion ends and gives the checker's answer |
| Inheritance.RecursionEndsExactly | src/runtime.rs:4101-4116 | when the answer is no, the recursion ends exactly if no cycle lies ahead |
| Declarations.CollectClasses | src/semantic.rs:333-373 | succeeds exactly when no qualified name is repeated, and its table resolves every name to its meaning |
| Declarations.BuildTables | src/hir.rs:170-198 | the tables hold the qualified names and, for each short name, all classes that bear it |
| Declarations.TablesResolve | src/hir.rs:200-211 | the tables resolve every name to its meaning |
| Declarations.RuntimeClassId | src/runtime.rs:2828-2842 | the interpreter's scan resolves every name to its meaning |
| Declarations.ResolversAgree | src/hir.rs:200-211 | on accepted names the three resolvers agree on every name |
| Declarations.MeaningsUniqueExactly | src/semantic.rs:333-373 | names have one meaning exactly when no qualified name is repeated |
| Lineage.LineageBaseFirst | src/hir.rs:213-247 | the cursor loop and the reversal give the superclass chain, base class first |
| Lineage.LineageUnique | src/runtime.rs:2812-2819 | the chain is unique |
| Lineage.LineageDistinct | src/runtime.rs:2812-2819 | it lists no class twice |
| Lineage.LineageIsAncestors | src/runtime.rs:2812-2819 | it holds exactly the class and its ancestors |
| Lineage.LineageExistsExactly | src/hir.rs:213-247 | a class has one exactly if its superclass links lead to no cycle |
| Subtyping.SubtypeReflexive | src/semantic.rs:1645-1675 | every type is a subtype of itself |
| Subtyping.SubtypeTransitive | src/semantic.rs:1645-1675 | on accepted hierarchies subtyping is transitive, through classes, interfaces, exceptions and numbers |
| Subtyping.SubtypeAntisymmetric | src/semantic.rs:1645-1675 | on acyclic hierarchies two types below each other are equal |
| Subtyping.JoinIsUpperBound | src/semantic.rs:4838-4876 | the join of two operand types is above both, and null only for two nulls |
| Subtyping.JoinIsLeastExactly | src/semantic.rs:4838-4876 | it is the least upper bound exactly when one type is below the other, or not both are exceptions and no declared type is above both |
| Subtyping.JoinSkipsException | src/semantic.rs:4838-4876 | two different built-in exceptions join to `Object` although `Exception` is above both |
| Subtyping.MoreSpecificIrreflexive | src/semantic.rs:3534-3547 | no parameter list is more specific than itself |
| Subtyping.MoreSpecificTransitive | src/semantic.rs:3534-3547 | on lists of one length being more specific is transitive |
| Subtyping.MoreSpecificAsymmetric | src/semantic.rs:3534-3547 | and asymmetric, so a strict partial order |
| Subtyping.CompareParameterTypes | src/semantic.rs:3534-3547 | the pairwise loop decides: every pair equal or a subtype, and some pair different |
| Subtyping.SelectUndominated | src/semantic/overload.rs:8-26 | the one-pass loop finds the undominated candidate if there is exactly one |
| Subtyping.SelectsMostSpecificExactly | src/semantic/overload.rs:8-26 | a candidate is selected exactly when it is more specific than all others |
| Subtyping.CallPicksMostSpecificExactly | src/semantic.rs:3573-3658 | a call is resolved to a method exactly when it fits the arguments and is more specific than every other method of the name that fits |
| TypeRules.ThrowableExactly | src/semantic.rs:1358-1366 | a class is an exception type exactly when its superclass links lead to `Exception`, cyclic tables included |
| TypeRules.UnderExactly | src/semantic.rs:1645-1680 | the subtype test is the relation: `Object` above all, Integer under Long, exceptions under `Exception`, classes along hierarchy paths |
| TypeRules.CastsExactly | src/semantic.rs:3660-3692 | the many cases of the cast test come to one: up or down |
| TypeRules.JoinsExactly | src/semantic.rs:4838-4876 | the type of a choice is the other operand's beside null, the upper of two comparable types, and `Object` for all others |
| TypeRules.OperatesExactly | src/semantic.rs:4637-4760 | for which operand types each operator is allowed, what type results and what is recorded for its evaluation |
| TypeRules.ResolvesExactly | src/semantic.rs:3573-3658 | a call means a method exactly when it alone takes the arguments and is not beaten by another that does, on every class table |
| Rules.ExpressionsExactly | src/semantic.rs:2430-2696 | an expression is accepted with a type and facts exactly when the typing rules derive them |
| Endings.EndsExactly | src/semantic/flow.rs:56-150 | the completion analysis computes exactly the ways control can leave a statement when either branch of every condition is taken |
| Endings.ReturnsExactly | src/semantic/flow.rs:3-9 | a body definitely returns exactly when control cannot reach its end and some path leaves it |
| Acceptance.StatementsExactly | src/semantic.rs:2050-2206 | a statement is accepted, with syntax and scopes afterwards, exactly when the rules derive it; `break` and `continue` need an enclosing loop and nothing else |
| Acceptance.ParametersExactly | src/semantic.rs:1947-1960 | parameters are accepted exactly when their types are declared and their names differ, with the scope they make |
| Acceptance.MethodExactly | src/semantic.rs:1999-2030 | a method is accepted exactly when the rules derive it |
| Acceptance.ProgramsExactly | src/semantic.rs:243-275 | the checker accepts exactly the programs the rules derive and fills in exactly the facts they name |
| Jumps.StrayJumpsOnly | src/semantic.rs:2273-2286 | a statement is rejected for a jump outside of a loop only if a `break` or `continue` in it has no loop around it |
| Catching.MatchesIsSubtype | src/runtime.rs:4118-4140 | on exception types, being caught is being a subtype |
| Catching.AcceptedExactlyWhenLive | src/semantic.rs:2380-2390 | the reachability rule rejects exactly the lists with a clause nothing can select |
| Catching.CatchLoopExactly | src/semantic.rs:2348-2390 | the clause-by-clause loop with its flag is that rule |
| Catching.AcceptedClausesCatch | src/runtime.rs:1076-1095 | in an accepted `try`, an exception of exactly a clause's type is handled by that clause |
| StaticInit.StaticInitializer.EnsureClassInitialized | src/runtime.rs:679-688 | initializes a lineage base first, up to the first failure |
| StaticInit.StaticInitializer.InitializeOneClass | src/runtime.rs:690-738 | one class: settled states answer at once, the depth limit and a cycle fail, otherwise the class is pushed, run, popped and settled |
| StaticInit.StaticInitializer.InitializeMembers | src/runtime.rs:740-794 | the initializers of a class, which may use classes, catch failures and fail, as the function that `StaticPaths.BodyConcludes` is about: the failure a body ends in is the answer |
| StaticInit.InitializeOneSound | src/runtime.rs:690-738 | keeps, through nested and caught failures: a class is being initialized exactly when it is on the duplicate-free stack, each body starts at most once and after its ancestors, settled states are final, the depth is bounded; a failure is the recorded one, a cycle or the depth limit |
| StaticInit.RunBodySound | src/runtime.rs:740-794 | the same for any sequence of initializers |
| StaticInit.RunIsSound | src/runtime.rs:679-738 | over a whole run: no class is left running, no body started twice, every body started after its ancestors |
| StaticInit.CycleIsOnStack | src/runtime.rs:796-812 | a reported cycle starts and ends at the class, lists each other class once, and all of them are being initialized |
| StaticInit.SettledStaysSettled | src/runtime.rs:690-738 | asking again changes nothing and answers the same |
| StaticInit.RankedNeverFails | src/runtime/class_initialization.rs:7 | programs whose class dependencies descend through at most as many ranks as the depth limit never see an initialization fail |
| StaticPaths.BodyConcludes | src/runtime.rs:740-794 | the initializers of a class end as the leaf of their path says, the path in which each use is followed by the branch its own answer selects: Ok exactly at the normal end, the thrown failure at a throw, the failure last seen when it is passed on; a use answers Ok only with the whole lineage ready, and otherwise with the failure of the class that accounts for it |
| StaticPaths.OneConcludes | src/runtime.rs:690-738 | a class that began is recorded as initialized or as failed with just the failure its leaf gave |
| StaticPaths.RunConcludes | src/runtime.rs:679-738 | both over a whole run, of every class |
| StaticPaths.ThrowingClassFails | src/runtime.rs:730-736 | a class whose initializers throw at once answers with that failure and is recorded as failed with it |
| Constructors.ValidateDelegation | src/semantic.rs:1864-1909 | accepts exactly when no `this(...)` chain is cyclic; the constructor reported lies on the cycle |
| Constructors.ObjectBuilder.ExecuteConstructorChain | src/runtime.rs:2621-2699 | runs the chain; terminates by lineage depth, then by remaining delegations |
| Constructors.ChainOrder | src/runtime.rs:2621-2699 | the events are the argument evaluations from the called constructor up, then per class, base first, one field initialization and the bodies, innermost delegate first, cut after the first failure |
| Constructors.FieldsInLineageOrder | src/runtime.rs:2621-2699 | every class of the lineage has its fields initialized exactly once, base class first |
| Constructors.ConstructionTrace | src/runtime.rs:2600-2699 | the whole trace of constructing an object of an accepted class |
| Dispatch.VirtualMethodTarget | src/runtime.rs:2947-2987 | the upward scan finds the dispatch target |
| DispatchSound.DispatchReachesBody | src/semantic.rs:1041-1120 | on an instance of an accepted concrete class, a virtual call of any inherited method, interfaces included, reaches a method with a body, the declared name and parameters, and it is the declaration nearest to the dynamic class |
| DispatchSound.NearestHasBody | src/semantic.rs:1099-1120 | for every required or inherited signature the nearest declaration has a body |
| DispatchSound.OverridesAgree | src/semantic.rs:1041-1097 | along superclasses, overriding keeps the return type and never lowers the access |
| DispatchSound.DispatchKeepsReturn | src/semantic.rs:1041-1097 | through a superclass the method that runs returns what was declared, at no lower access |
| DispatchSound.InterfaceReturnExactly | src/semantic.rs:1122-1160 | through an interface the return type is the declared one exactly if the first required method of the signature has it |
| DispatchSound.HiddenReturnDiffers | src/semantic.rs:5348-5357 | an accepted program in which an interface promises an Integer and the method that runs returns a String |
| Project.ProjectCompiler.Compile | src/project.rs:119-231 | after any sequence of compile calls, failed ones included, the result is that of compiling the current files from scratch under some injective choice of source ids, success and error alike; only the stored default profile may be an earlier one, and every file is looked up under its own profile; ids never pass to another path; parsed and reused files partition the project |
| Project.ProjectCompiler.ReuseLast | src/project.rs:138-150 | the fast path returns what compiling the current files from scratch would, but for the stored default profile |
| Project.ProjectCompiler.Refresh | src/project.rs:119-231 | parses exactly the files without a current unit, and on failure leaves a valid cache |
| Project.ProjectCompiler.MergeUnits | src/project.rs:399-432 | for each of the four lists, the merged list is that of the unit of file 0, of file 1, and so on, each item once; profiles and sources are tabulated by source id |
| Project.ParseAllMerges | src/project.rs:412-432 | parsing succeeds exactly when every file does, and then each of the four lists of the merged program is that of file 0, of file 1, and so on, each item once; it fails with the error of the first rejected file |
| Project.FromScratchChecks | src/project.rs:119-231 | a compilation from scratch checks the program so merged |
| Project.SourcesExactly | src/project.rs:412-432 | the source map has each file under its id and nothing else |
| Project.FingerprintsDetermine | src/project.rs:392-397 | sorted file lists with the same fingerprints are the same list |
| Project.DefaultUnread | src/compatibility.rs:192-201 | compiling from scratch finds the same whatever the default profile, because everything parsed from a file is looked up under the profile of its source id |
| Project.ParsedIds | src/project.rs:399-409 | every source id in the merged program has an entry in the profile table |
| Project.OwnProfiles | src/project.rs:399-409 | the entry of each file is its own profile |
| Lexers.Lexer.Tokenize | src/lexer.rs:26-41 | the cursor loop yields the tokens of the specification, or its first error |
| Lexers.Lexer.SkipTrivia | src/lexer.rs:43-68 | skips exactly the whitespace and comments in front; fails on an unterminated comment |
| Lexers.Lexer.NextToken | src/lexer.rs:70-211 | takes the longest token in front, with its span and lexeme |
| Lexers.Lexer.StringToken | src/lexer.rs:213-234 | the value of a string literal with escapes resolved, or an unterminated string |
| Spelling.WordsExactly | src/lexer.rs:115-157 | truth values and keywords are recognised in any mixture of cases, and every other word is an identifier |
| Spelling.EscapesExactly | src/lexer.rs:213-234 | which character each escape stands for |
| Spelling.LongestSymbol | src/lexer.rs:70-114 | the longest operator or bracket in front is taken |
| Spelling.LiteralsRead | src/lexer.rs:213-234 | every text written as a string literal is read back |
| Spelling.NumbersRead | src/lexer.rs:158-196 | the digits of a number are read as that number, with the width the suffix says, or as out of range |
| Spelling.WordsRead | src/lexer.rs:115-157 | a word reaches exactly as far as there are letters, digits and underscores |
| TokenStream.ValidateTokenStream | src/parser.rs:189-255 | accepts exactly the well-formed streams and otherwise names a real defect |
| TokenStream.LexerStreamsAreValid | src/lib.rs:56-59 | whatever the lexer returns is one-source, ordered and disjoint with one final end-of-file token, each lexeme its slice of the source and only whitespace and comments in the gaps, so the validator accepts it |
| TokenStream.TokensAreFaithful | src/lexer.rs:26-41 | the same from any position of the source |
| Relexing.FrontStable | src/lexer.rs:70-234 | a token is recognised again in front of anything that starts with a space or ends the text |
| Relexing.RelexingIsStable | src/lexer.rs:70-234 | lexing the lexemes of a stream joined by spaces gives the same kinds and lexemes |
| Debugger.DebuggerSession.ContinueExecution | src/debugger.rs:161-170 | moves to the next snapshot on a breakpoint, or finishes |
| Debugger.DebuggerSession.StepBy | src/debugger.rs:172-188 | moves to the next snapshot the step stops at, or finishes |
| Debugger.DebuggerSession.SetBreakpoints | src/debugger.rs:119-148 | each request moves to the nearest recorded line at or below it in the file; beyond the last it is not verified |
| Debugger.DebuggerSession.VisibleEvents | src/debugger.rs:220-228 | the number of transaction events visible at the cursor never exceeds the recorded ones |
| Debugger.ContinueExactly | src/debugger.rs:161-170 | continuing stops at the first recorded place after the current one on which a breakpoint is set, and finishes if there is none; stepping in stops at the very next place |
| Debugger.SessionsFinish | src/debugger.rs:244-253 | until the finishing stop the cursor rises with every command and stays in bounds, so no more commands than snapshots can pass before it |
| CallTrees.StepOverSkipsCalls | src/debugger.rs:176-181 | on the trace of any call tree, stepping over a statement skips exactly the snapshots of the calls it makes |
| CallTrees.StepOutReturns | src/debugger.rs:183-188 | stepping out of a call stops where stepping over the calling statement would have |
| CallTrees.FramesOfRun | src/runtime.rs:3020-3032 | every frame of a run is a stretch of its trace, and what follows is no deeper |
| Repl.ReplSession.Evaluate | src/repl.rs:31-48 | a failing snippet changes nothing; an accepted one extends the source and returns the new part of the output, which extends the last output whenever the snippet declares no method of a name declared before; what was returned is the output of one run exactly as long as each output extends the last |
| Repl.ReplSession.Reset | src/repl.rs:54-57 | starts over with an empty source and no output |
| Repl.StatementsExtendOutput | src/runtime.rs:560-591 | adding statements to an accepted source extends its output |
| Repl.FreshSnippetExtendsOutput | src/repl.rs:31-48 | adding statements and methods of new names to an accepted source extends its output |
| Repl.ExtensionLinks | src/semantic.rs:1962-1997 | the checked program of the longer source starts with that of the source, and no call in it leads to a new method |
| FreshNames.SelectSame | src/semantic.rs:3573-3658 | a call that is resolved stays resolved to the same method when methods of other names are declared after |
| FreshNames.StmtsSame | src/semantic.rs:2050-2206 | accepted statements are checked the same, to the same syntax and scopes, and call only the earlier methods |
| Linking.ExecAllSame | src/runtime.rs:814-944 | statements whose calls are among the first methods run the same whatever methods follow |
| Repl.RunSession | src/repl.rs:31-48 | any session whose snippets declare methods of different names, if any, returns, all told, what one run of the accepted source prints |
| Repl.ExecAllSplit | src/runtime.rs:560-591 | running two statement lists in a row is running their concatenation |
| Repl.CheckStmtsSplit | src/semantic.rs:243-275 | checking a concatenation checks the first list on its own and the second in the scopes it leaves |
| Repl.DeclarationChangesThePast | src/repl.rs:31-48 | after a snippet that declares a better overload, what was returned is not the output of one run |
| Framing.Reader.ReadMessage | src/protocol.rs:4-32 | header lines up to a blank one, then the body of the last length given, or the first error |
| Framing.WriteMessage | src/protocol.rs:34-40 | appends the header with the decimal length and the body |
| Framing.FramedIs | src/protocol.rs:34-40 | what is written is `Content-Length: `, the number of bytes in decimal, a blank line and the bytes |
| Framing.DecimalParses | src/protocol.rs:4-40 | a length printed in decimal parses back |
| Framing.FramingRoundTrip | src/protocol.rs:4-40 | reading a written message gives it back, whatever bytes it and what follows contain |
| Framing.StreamRoundTrip | src/protocol.rs:4-40 | reading any list of written messages returns that list and then the end of input |
| Positions.WidthExactly | src/editor.rs:425-436 | every character has an encoding by section 3 of RFC 3629, of as many bytes as its width |
| Positions.BytesExactly | src/editor.rs:425-436 | offsets count the bytes of the encoded text |
| Positions.OffsetRoundTrip | src/editor.rs:425-458 | for every character boundary the offset of its position is itself |
| Positions.PositionDefined | src/editor.rs:438-458 | a position names an offset exactly when its line exists and both numbers are positive |
| Positions.PositionRoundTrip | src/editor.rs:425-458 | that offset has the same line, and the same column up to one past the end of the line |
| Positions.BeyondTheEnd | src/editor.rs:425-436 | an offset beyond the end means the end |

## Left out

* Facts are stored on syntax nodes. The repository keys them by source span; the model assumes that
  spans are unique per expression and leaves out the variable and place references among them.
* Expressions are checked by the function `Checker.CheckExpr` also within the checker object: with the
  facts on the nodes, checking an expression changes no field.
* The fragment of the soundness theorem has no bitwise and shift operators, Decimal, Date, sets, maps,
  `instanceof`, `switch`, `System.runAs`, user-defined objects or initializer blocks. Of the list
  methods it has one-argument `add`, `clear` and `size`.
* Branches, loop bodies and clauses are assumed to have the shapes the parser makes (`Shapes.Parsed`),
  and no branch or loop body is a bare declaration (`Shapes.Scoped`), for the reason shown in
  `BareBranches`.
* Rendering of values, case folding of strings and equality of lists are a parameter (`Host`).
* `Semantics` takes fuel, a bound on nested calls and loop iterations; results hold for every amount.
  More fuel never changes a result (`Fuel.ResultsAgree`); running out of it stands for a run that has not
  ended yet. Resource limits of the interpreter are not part of this model.
* Diagnostics: errors are kinds, not texts or spans. Which programs are rejected is exact; which of several
  kinds a rejection has is that of the checking functions, and only for jumps is it stated apart from them. The texts that quote a stack are left out.
* The interpreter's inheritance test tries the interfaces of a class before its superclass; the model
  follows the order of the edges, which is arbitrary there.
* That every class fits the contracts of its superclasses and interfaces, and that constructors are as the
  checker wants them, are conditions (`Accepted`) in `DispatchSound` and `Constructors`; of the loops that
  check them only the delegation cycle check is written out.
* Names of the platform's asynchronous interfaces, and a user type named `Exception`, add no edge to
  the class graph in the repository; such declarations are excluded.
* DispatchSound.OverridesAgree: assumes that static and instance methods share no signature along a
  lineage, because the repository does not reject a static redeclaration of an inherited method.
* DispatchSound.DispatchKeepsReturn: the same assumption.
* Access modifiers are their rank, a number; visibility of a call is not modelled.
* Initializer blocks and field initializers in `StaticInit` are trees of class uses, handlers and
  failures; the values they compute are left out. Constructor steps are events that may fail.
* Project.ProjectCompiler.Compile: parser and checker are parameters, of which it is assumed that parsing
  stamps everything with the given source id and that checking looks profiles up by those ids only; hashes
  are assumed injective; the dependency graph, the set of invalidated files, the security fixtures and
  the origin metadata of profiles are left out, because they do not enter the program.
* The lexer counts characters where the repository counts bytes; the parser itself and its clamped
  cursor are not part of this model.
* Debugger snapshots are a position, a number of frames and a number of events; the contents of
  variables, truncation by memory limits and the timeline entries are left out. A statement is
  recorded before the calls it makes, as the interpreter records it.
* The interactive session has statements and methods; class declarations and asynchronous jobs are
  left out.
* Framing.Reader.ReadMessage: bodies are byte strings, and JSON, the UTF-8 validity of header lines and
  white space beyond ASCII around header values are left out.
* Continuous-integration sharding, oracle and hybrid comparison, the command line, the language and
  debug servers' request handling, queries, DML, triggers, security and the website are left out.
