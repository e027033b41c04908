# Aranya core, modelled and proved in Dafny

A policy in Aranya is compiled to a module of instructions for a stack machine, and devices exchange
channel messages whose state is shared under a small lock. This project models the parts of that
where a mistake would be silent, and proves what they promise.

* **The policy compiler.** `Ast` and `Semantics` give policies a meaning of their own: an evaluator
  with an explicit call depth, which says of every action, command block, function, statement and
  expression whether it yields a value, exits with a reason, fails or needs more depth, and with which
  history of publishes, emits and fact changes. `Machine` is the virtual machine. `Compiler` is the
  one-pass compiler as an object whose fields change step by step: program memory, write pointer,
  labels, made-up labels, signatures, statement contexts and code map; linking replaces the symbolic
  targets at the end. The main theorem is the contract of `EndToEnd.CompilePolicy`: a policy is
  accepted exactly under a condition that can be read off it and the answers to the questions it puts to
  the type checker, and then every entry point of the module, against every host, in every context, on
  every input and from every history, does on the machine what the policy means, in both directions, up
  to overflow of the machine's bounded operand stack. Divergence is covered by `Correctness.Adequacy`.
  The way there: `Layout` is position-independent code, `Simulation` shows that running it does what
  the semantics says (the lemmas return the number of machine steps), `Linking`, `Branching` and
  `Assembly` show that what the compiler appends becomes that layout whatever labels are still added,
  `Naming` shows that labels never collide except in one family of names, `Asking` lists the questions
  a policy makes the compiler ask, and `Hosting` shows that neither the checks nor the code depend on the
  host or the context. `Flow` and `Discipline` give every address one stack height and one block depth
  and keep control inside the module; `Heights` shows that these are the heights of the running machine:
  in every state the operand height and the block depth are exactly what the address, the pending calls
  and the entry point say, so that compiled code never lacks an operand or a block.
* **What acceptance and single operations mean** (`Acceptance`, `Effects`, `Operations`). The semantics and
  the machine share the primitive operations on values, and the compiler and its specification share the
  checks on the syntax. These modules say what both come to without naming them: a policy is accepted if and
  only if everything that occurs in it, however deep, is allowed where it stands; and which fact is inserted,
  which row answers a query, which event is recorded, what a name stands for and when a sum overflows.
* **Debug and release builds** (`Debugging`, `Builds`). If every assertion that is reached and decided
  holds, and leaves the history as it was, then when the debug build ends so does the release build, and
  alike, and when the release build ends so does the debug build, and alike, exactly if all its
  assertions are decided; either may overflow its operand stack instead. All addresses shift.
* **The futex mutex** (`Mutex`). A transition system for any number of threads, with a program counter
  per thread, spurious wake-ups and barging, for the futex and the compare-and-swap variant.
* **The code-path tracer** (`Tracing`, `TraceRuns`, `Trails`, `TraceBounds`, `TracePolicies`). An object
  that follows a path and clones itself at branches, proved sound and complete over paths; the paths cover
  every run of the machine that halts; and exactly when tracing a compiled policy comes to an end.
* **Channels** (`Channels`). Sealing and opening into a buffer and in place, slice by slice, over any
  authenticated encryption whose open inverts its seal and which may also decline; two clients that share
  a key; the fixed buffer; the header's bytes. The closures that the client passes down become a value
  that says where the input stands, and the cipher's two forms are taken to compute the same.
* **Code map, writers, paths, type reachability** (`CodeMaps`, `Writers`, `Paths`, `Reachable`).

Where the code and its comments differ the model follows the code: `write_c_str` counts the
terminator, `if` and `match` bodies open no scope, `&&` and `||` evaluate both sides, `Some(e)` is `e`,
a path counts as ended at an exit or outermost return whatever was reported on it, and the paths that
ended behind a branch are lost when there is no analyzer to carry them (`Tracing.EndsExact`).

Some results are negative.

* Meeting the static rules is not enough to be accepted: the compiler makes up temporary labels called
  `anonymous0`, `anonymous1`, … and finish functions get temporary labels under their own names, so a
  finish function of such a name can be in the way (`Naming.RulesAreNotEnough`). `CompilePolicy` gives
  the exact condition: a policy that meets the rules and raises no objection of the type checker is
  refused if and only if a finish function bears the name of one of the first `Made(g)` such labels,
  where `Made` counts the constructs that need one.
* Tracing does not end on every compiled policy. It ends if and only if control gets neither into a loop
  nor into an unbounded chain of calls (`TraceBounds.Exact`). In terms of the policy: with an acyclic call
  graph it ends from every function and command, and from an action if and only if neither it nor any
  action it calls, however far away, holds a map statement (`TracePolicies.ActionTraceable`); a policy
  with one map (`MapNeverTraced`) and one that calls itself (`RecursionNeverTraced`) are never traced to
  the end, however they are compiled. The condition supposes that every match has an arm and every arm a
  value or the default, which is needed (`OrderMatters`).
* Not every run is one of the tracer's paths: a branch whose target was never resolved only fails when it is
  taken, but the tracer fails in any case. A run that halts is a path if and only if it passes no such branch
  (`TraceRuns.RunIsPath`), and compiled modules have none.
* Holding assertions are not enough for the two builds to end together: a condition may never be decided
  (`Builds.SettlingMatters`, `Builds.OnlyOneEnds`).
* Without an analyzer the tracer records every complete path if and only if all of them pass the same
  branches (`Tracing.EndsExact`, `Tracing.EndsMissing`).
* The search for the types of an interface can miss the fields of a struct that shares its name with an
  enum (`Reachable.TwoOfAName`). It finds exactly what is needed, from whatever arguments and effects, if
  and only if every struct named like an enum mentions only its own name (`Reachable.AlwaysPrecise`).
* Opening in place a message with a header but less than a tag panics in builds with overflow checks and
  is refused in the others (`Channels.Client.OpenInPlace`).

## Model

| member | source | states |
|---|---|---|
| `EndToEnd.CompilePolicy` | crates/aranya-policy-compiler/src/compile.rs:1788-1812 | On success every action, policy, recall, seal and open entry of the module implements its meaning against every host, in every context, on all inputs and histories: however a run ends the source explains it, and every outcome of the source is reached. All targets are resolved and inside memory. It succeeds if and only if the policy is permitted, which says of every occurring expression, statement and list that it is allowed where it stands, no finish function is named like a label the compiler makes up for this policy, and the type checker agrees to every question this policy makes the compiler ask; the error says which of these fails |
| `Acceptance.PolicyMeans` | crates/aranya-policy-compiler/src/compile.rs:1647-1734 | The checks accept a policy if and only if names are apart, functions, seal and open blocks hold a return, and everything that occurs in any body is allowed in its place: the forms of finish blocks, limits between 1 and what a signed word holds, fact literals that give the schema's members in order with the types their form fixes, calls to what is defined by then with as many arguments, foreign calls to the first procedure of the name, one default at the end, no repeated match value |
| `Acceptance.ListWhere` | crates/aranya-policy-compiler/src/compile.rs:812-1223 | The same for one statement list in one place |
| `Acceptance.ExprWhere` | crates/aranya-policy-compiler/src/compile.rs:513-790 | The same for one expression, with all that is nested in its literals and arguments |
| `Acceptance.FinishIsSimple` | crates/aranya-policy-compiler/src/compile.rs:793-809 | In an accepted policy every expression in a finish block or finish function, however deep, is a literal, enum reference, name, struct literal, `Some` or field access; any other form makes the policy one that is refused |
| `Acceptance.FactRule` | crates/aranya-policy-compiler/src/compile.rs:386-446 | The schema check accepts exactly the literals that give the schema's members by name and in order, where a type that the form of a value fixes is the declared one, and for keys one of the four a key can have |
| `Acceptance.MatchRule` | crates/aranya-policy-compiler/src/compile.rs:865-884 | The values of a match are listed without repetition if and only if no two of its arms, and no two places of an arm, hold the same expression |
| `Acceptance.KnownSigns` | crates/aranya-policy-compiler/src/compile.rs:1700-1712 | What can be called in a function's body: all finish functions, the functions before it and itself, under their names and numbers of parameters |
| `Acceptance.ReturnWhere` | crates/aranya-policy-compiler/src/compile.rs:1233-1267 | The code of a body returns somewhere if and only if a return statement occurs in it |
| `EndToEnd.LoadedIsCorrect` | crates/aranya-policy-compiler/src/compile.rs:1737-1740 | A linked image in which all definitions stand at their labels is correct at every entry point, also after the temporary labels are dropped |
| `EndToEnd.Implemented` | crates/aranya-policy-vm/src/machine.rs:449-870 | Agreement at every call depth carries over to the machine with its bounded operand stack: same end, or stack overflow, and no outcome is missed |
| `Hosting.LoadedOn` | crates/aranya-policy-compiler/src/compile.rs:1788-1812 | A policy loaded under one host and context is loaded, with the same code, under every other |
| `Asking.AllSaid` | crates/aranya-policy-compiler/src/compile.rs:513-790 | If the compiler heard all of the policy's questions and none was refused the policy is well typed; a refusal of one that was asked means it is not |
| `Builds.ActionBuildsAgree` | crates/aranya-policy-compiler/src/compile.rs:1199-1209 | If the assertions an action reaches and decides hold: a finished debug run is settled and the release run ends with the same value, reason or fault and the same effects, or overflows; a finished release run that is settled is matched by the debug run in the same way |
| `Builds.BlockBuildsAgree` | crates/aranya-policy-compiler/src/compile.rs:1402-1452 | The same for policy and recall blocks |
| `Builds.StubBuildsAgree` | crates/aranya-policy-compiler/src/compile.rs:1454-1549 | The same for seal and open blocks, with the value they leave |
| `Builds.SettlingMatters` | crates/aranya-policy-compiler/src/compile.rs:1199-1209 | A policy that both builds accept, in which no assertion fails and the release meaning ends while the debug meaning never does |
| `Builds.OnlyOneEnds` | crates/aranya-policy-compiler/src/compile.rs:1199-1209 | In whatever modules implement the two builds of that policy, the release run ends and the debug run never finishes |
| `Debugging.SameStmts` | crates/aranya-policy-compiler/src/compile.rs:1199-1209 | At every depth a statement list means the same in both builds, or the debug build needs more depth, when every assertion reached and decided at that depth holds and leaves the history as it was, through calls, branches, arms and map loops; and if the debug build is not short of depth, all assertions reached are decided |
| `Debugging.SameExpr` | crates/aranya-policy-compiler/src/compile.rs:1199-1209 | The same for expressions, whose calls may reach assertions |
| `Correctness.ActionAgrees` | crates/aranya-policy-vm/src/machine.rs:963-1017 | From an action's entry with its arguments pushed, the machine gets to the end its meaning gives at every depth, or to that depth of calls |
| `Correctness.BlockAgrees` | crates/aranya-policy-vm/src/machine.rs:883-952 | The same for a policy or recall block entered with the envelope on the stack and `this` in scope |
| `Correctness.StubAgrees` | crates/aranya-policy-vm/src/machine.rs:1019-1044 | The same for a seal or open block entered through its call stub; its value is left on the stack |
| `Correctness.Adequacy` | crates/aranya-policy-vm/src/machine.rs:859-870 | Agreement at every depth determines whole runs: every end is explained, every outcome is reached, and the machine runs forever exactly when the source needs unbounded depth |
| `Simulation.StmtsSim` | crates/aranya-policy-compiler/src/compile.rs:812-1223 | Running the code of any accepted statement list ends just behind it with the scope the source gives and the operand stack as it was, or returns to the caller with exactly the source's value pushed, or stops the same way |
| `Simulation.ExprSim` | crates/aranya-policy-compiler/src/compile.rs:513-790 | Running the code of any accepted expression ends just behind it with exactly its value pushed and nothing else changed, or stops with the same reason, fault and history |
| `Simulation.FunctionCallSim` | crates/aranya-policy-compiler/src/compile.rs:590-613 | A call pushes its arguments left to right, runs the callee and leaves exactly its value in place of the arguments |
| `Simulation.FunctionSim` | crates/aranya-policy-compiler/src/compile.rs:1233-1267 | From a function's entry to just behind the call, at any nesting; running past the end panics |
| `Simulation.ProcedureSim` | crates/aranya-policy-compiler/src/compile.rs:1270-1349 | The same for finish functions and actions, which leave no value |
| `Simulation.ConditionalSim` | crates/aranya-policy-compiler/src/compile.rs:554-568 | The branch taken is the one the condition asks for, although the labels are named the other way round |
| `Simulation.UnwrapSim` | crates/aranya-policy-compiler/src/compile.rs:1379-1400 | Unwrapping a present value leaves it; an absent one exits with the reason given |
| `Simulation.StructSim` | crates/aranya-policy-compiler/src/compile.rs:352-365 | Struct literals evaluate and set their fields in order, with the same type faults |
| `Simulation.QuerySim` | crates/aranya-policy-compiler/src/compile.rs:537-553 | Queries and existence tests answer as the source's meaning does, which `Effects.QueryMeans` spells out |
| `SimOps.CountingOps` | crates/aranya-policy-compiler/src/compile.rs:1606-1644 | Each counting function decides its bound with at most one fact read beyond the limit |
| `SimOps.OrderOps` | crates/aranya-policy-compiler/src/compile.rs:710-740 | The seven instructions of `>=` and `<=` compute them, with the faults of the strict comparison on other values |
| `Simulation.IfSim` | crates/aranya-policy-compiler/src/compile.rs:953-978 | The first branch whose condition holds runs, else the fallback; names it defines stay visible |
| `Simulation.MatchSim` | crates/aranya-policy-compiler/src/compile.rs:865-952 | The first arm with an equal value runs with the scrutinee popped, else the default, else a panic |
| `Simulation.LoopSim` | crates/aranya-policy-compiler/src/compile.rs:1014-1045 | A map loop runs its body once for every row in order, each time in a new block, and leaves the stacks and scope as they were |
| `Simulation.FinishSim` | crates/aranya-policy-compiler/src/compile.rs:993-1013 | A finish block runs in its own block and then exits normally; nothing after it runs |
| `Simulation.UpdateSim` | crates/aranya-policy-compiler/src/compile.rs:1066-1101 | Updating does what its meaning says, which `Effects.UpdateMeans` spells out: the row found by the literal is replaced by the fact with the new values |
| `Simulation.ForeignCallSim` | crates/aranya-policy-compiler/src/compile.rs:614-662 | A foreign call passes its arguments in order to the procedure at the indices of its module and name |
| `Effects.FactMeans` | crates/aranya-policy-vm/src/machine.rs:619-632 | A fact literal stands for the fact with the values its members supply: one entry a name, in the order the names are first given, each with the last value given |
| `Effects.CreateMeans` | crates/aranya-policy-vm/src/machine.rs:669-676 | Creating inserts exactly that fact, and deleting deletes by its keys, or fails with the host's code |
| `Effects.UpdateMeans` | crates/aranya-policy-vm/src/machine.rs:677-689 | Updating asks the host for the literal's keys and fails if there is no row; else it deletes the first row by the row's own keys and inserts the fact with the literal's keys and its values merged with the new ones |
| `Effects.UpdateTakesEffect` | crates/aranya-policy-compiler/src/compile.rs:1066-1101 | An accepted update that goes through adds exactly these two events to the history and nothing else |
| `Effects.FinishQuiet` | crates/aranya-policy-compiler/src/compile.rs:793-809 | Expressions that finish blocks admit leave the history as it is |
| `Effects.QueryMeans` | crates/aranya-policy-vm/src/machine.rs:705-736 | A query answers with the first row that begins with the given keys and has every given value, as a struct with the row's keys and values; with none if no row does; with the host's failure if that comes first. An existence test says whether there is such a row |
| `Effects.CountMeans` | crates/aranya-policy-vm/src/machine.rs:737-763 | The counting forms count those rows up to their limit; a failure behind the rows that decide does not matter |
| `Operations.EventMeans` | crates/aranya-policy-vm/src/machine.rs:661-704 | Publishing and emitting demand a struct with exactly the declared fields and record it once, an effect with the command it comes from and whether that is recalled; effects outside policy and recall fail |
| `Operations.ForeignMeans` | crates/aranya-policy-vm/src/machine.rs:551-553 | The host is asked for the first procedure of the name in the first module of the name, with the arguments in order, and the call is recorded |
| `Operations.SerializeMeans` | crates/aranya-policy-vm/src/machine.rs:797-848 | Only the struct of the command being sealed is serialized, and only the struct of the command being opened comes out of deserializing |
| `Operations.IdentifierMeans` | crates/aranya-policy-vm/src/scope.rs:65-78 | A name stands for its value in the innermost block that has it, else for the global |
| `Operations.LetMeans` | crates/aranya-policy-vm/src/scope.rs:81-107 | A new name goes into the innermost block; a name that is global or in any block of the function is refused |
| `Operations.StructMeans` | crates/aranya-policy-vm/src/machine.rs:633-652 | A struct literal has a value if and only if all it gives has one and is declared; the struct has exactly the fields it gives, and of several values for a field the last |
| `Operations.StructFaults` | crates/aranya-policy-vm/src/machine.rs:637-652 | The first field that is not declared ends the evaluation once its value is known, for the struct or for the field |
| `Operations.KeyFaults` | crates/aranya-policy-vm/src/machine.rs:623-627 | And so does the first key that is neither an integer, a boolean, a string nor an identifier |
| `Operations.ArithmeticMeans` | crates/aranya-policy-vm/src/machine.rs:555-568 | Sums and differences are those of integers where they fit 64 bits, and an overflow elsewhere |
| `Operations.OrderMeans` | crates/aranya-policy-compiler/src/compile.rs:710-740 | The four comparisons are those of integers |
| `Operations.RoundMeans` | crates/aranya-policy-vm/src/machine.rs:770-796 | A round of a map statement runs the body in a block of its own that binds the name to the next row as a struct |
| `Operations.MapMeans` | crates/aranya-policy-vm/src/machine.rs:764-769 | A map statement goes through all rows the host reports for the literal's keys |
| `Scoping.StmtsKeep` | crates/aranya-policy-vm/src/scope.rs:44-107 | Statements only add names to the innermost block of the scope they started in |
| `Scoping.ParamsBound` | crates/aranya-policy-compiler/src/compile.rs:1251-1255 | Binding parameters last to first binds each to its own argument and nothing else, and succeeds if and only if they are distinct and none hides a global |
| `Machine.RealAgrees` | crates/aranya-policy-vm/src/machine.rs:1093-1107 | The machine with the bounded stack does what the unbounded one does, or overflows |
| `Machine.EndIsFinal` | crates/aranya-policy-vm/src/machine.rs:859-870 | A run that has ended stays as it is |
| `Compiler.FindDuplicate` | crates/aranya-policy-compiler/src/compile.rs:1815-1833 | Finds a repetition if and only if there is one |
| `Compiler.CompileState.constructor` | crates/aranya-policy-compiler/src/compile.rs:1788-1805 | Starts empty and valid |
| `Compiler.CompileState.AppendInstruction` | crates/aranya-policy-compiler/src/compile.rs:130-133 | Appends and keeps the write pointer at the end of memory |
| `Compiler.CompileState.DefineLabel` | crates/aranya-policy-compiler/src/compile.rs:276-285 | Fails exactly on a label in use; every other label is as free as it was |
| `Compiler.CompileState.AnonymousLabel` | crates/aranya-policy-compiler/src/compile.rs:287-291 | The label was never made up before and is free unless a finish function has its name |
| `Compiler.CompileState.MapRange` | crates/aranya-policy-compiler/src/compile.rs:294-312 | Never fails, because the write pointer never moves back |
| `Compiler.CompileState.VerifyFactAgainstSchema` | crates/aranya-policy-compiler/src/compile.rs:386-446 | Accepts exactly the literals that agree with the schema member by member, spelled out by `Acceptance.FactRule` |
| `Compiler.CompileState.CompileExpression` | crates/aranya-policy-compiler/src/compile.rs:513-790 | Succeeds only on expressions that meet the static rules, spelled out by `Acceptance.ExprWhere`, appends code that linking turns into their layout whatever is still added, makes up exactly the labels counted for the expression, puts each of them to use, and leaves all other labels as they were; asks exactly the questions listed for the expression, in order, up to a failure; fails only with a reason, and for its type only if the last question asked was refused |
| `Compiler.CompileState.CompileConditional` | crates/aranya-policy-compiler/src/compile.rs:554-568 | The same, with two made-up labels defined once each |
| `Compiler.CompileState.CompileFunctionCall` | crates/aranya-policy-compiler/src/compile.rs:590-613 | Accepts exactly calls to functions already defined, of the right kind and number of arguments |
| `Compiler.CompileState.CompileForeignCall` | crates/aranya-policy-compiler/src/compile.rs:614-662 | Accepts exactly calls that fit a procedure of the module |
| `Compiler.CompileState.CompileUnwrap` | crates/aranya-policy-compiler/src/compile.rs:1379-1400 | Appends the layout of an unwrap with its own label |
| `Compiler.CompileState.CompileStatements` | crates/aranya-policy-compiler/src/compile.rs:812-1223 | The same as for expressions, for statement lists, with or without a block around them; contexts and signatures are as before |
| `Compiler.CompileState.CompileStatement` | crates/aranya-policy-compiler/src/compile.rs:826-1217 | The same for one statement; statements out of place are refused, and a finish block that is not last |
| `Compiler.CompileState.CompileMatch` | crates/aranya-policy-compiler/src/compile.rs:865-952 | Tests and bodies of all arms become the layout once every arm's label stands; repeated values and a default that is not last are refused |
| `Compiler.CompileState.CompileIf` | crates/aranya-policy-compiler/src/compile.rs:953-978 | All branches become the layout once the end label stands |
| `Compiler.CompileState.CompileMap` | crates/aranya-policy-compiler/src/compile.rs:1014-1045 | Query and loop become the layout, with the jump back to the head |
| `Compiler.CompileState.CompileFinish` | crates/aranya-policy-compiler/src/compile.rs:993-1013 | Only at the end, in the context of a finish block |
| `Compiler.CompileState.CompileUpdate` | crates/aranya-policy-compiler/src/compile.rs:1066-1101 | Refuses immutable facts and values that do not fit; appends the layout |
| `Compiler.CompileState.CompileFinishCall` | crates/aranya-policy-compiler/src/compile.rs:1116-1151 | Accepts exactly calls to finish functions with the right number of arguments |
| `Compiler.CompileState.CompileActionCall` | crates/aranya-policy-compiler/src/compile.rs:1152-1198 | Accepts exactly calls to actions with the right number of arguments |
| `Compiler.CompileState.CompileCheck` | crates/aranya-policy-compiler/src/compile.rs:843-864 | A failing check exits; the branch skips exactly that exit |
| `Compiler.CompileState.CompileDebugAssert` | crates/aranya-policy-compiler/src/compile.rs:1199-1209 | Appends nothing in a release build |
| `Compiler.CompileState.CompileFunction` | crates/aranya-policy-compiler/src/compile.rs:1233-1267 | The function stands at its own label; it is accepted exactly if label and name are new, parameters distinct, the body accepted with itself known, and some return was emitted |
| `Compiler.CompileState.CompileFinishFunction` | crates/aranya-policy-compiler/src/compile.rs:1270-1288 | The finish function stands at its label |
| `Compiler.CompileState.CompileAction` | crates/aranya-policy-compiler/src/compile.rs:1312-1349 | The action stands at its label; accepted exactly if the label is new, parameters distinct and the body accepted |
| `Compiler.CompileState.CompileBlock` | crates/aranya-policy-compiler/src/compile.rs:1402-1452 | A policy or recall block stands at its label |
| `Compiler.CompileState.CompileStub` | crates/aranya-policy-compiler/src/compile.rs:1454-1549 | A seal or open block stands at its label behind a call stub; it must exist and contain a return |
| `Compiler.CompileState.CompileCommand` | crates/aranya-policy-compiler/src/compile.rs:1552-1604 | All four blocks of a command stand at their labels; accepted exactly if its name is new and its blocks are accepted |
| `Compiler.CompileState.DefineFinishSignatures` | crates/aranya-policy-compiler/src/compile.rs:1700-1704 | All finish functions are known before any function is compiled, if and only if their names are distinct |
| `Compiler.CompileState.CompileFunctions` | crates/aranya-policy-compiler/src/compile.rs:1706-1712 | Functions stand one after the other, accepted if and only if each is, with what is known by then, and names do not repeat |
| `Compiler.CompileState.ResolveTargets` | crates/aranya-policy-compiler/src/compile.rs:317-349 | Succeeds if and only if no symbolic target dangles; patches exactly the symbolic targets and drops exactly the temporary labels |
| `Compiler.CompileState.Compile` | crates/aranya-policy-compiler/src/compile.rs:1647-1734 | Before linking, memory is the whole layout with every definition at its label; linking only patches. An unmappable address is never the reason of failure |
| `Naming.AnonymousInjective` | crates/aranya-policy-compiler/src/compile.rs:287-291 | Different counts make different labels |
| `Naming.AnonymousMeans` | crates/aranya-policy-compiler/src/compile.rs:287-291 | The label's name is `anonymous` and the decimal digits of the count |
| `Naming.RulesAreNotEnough` | crates/aranya-policy-compiler/src/compile.rs:276-291 | A policy with a finish function `anonymous0` and one if statement meets the static rules and yet collides with a made-up label |
| `Naming.FunctionReady` | crates/aranya-policy-compiler/src/compile.rs:1233-1245 | Before a function is compiled its label is free exactly if no function before has its name, and its own signature is what its body knows besides |
| `Programs.FunctionsSplit` | crates/aranya-policy-compiler/src/compile.rs:1706-1712 | One more function is accepted if and only if it is accepted on its own with a new name |
| `Branching.TestsRealized` | crates/aranya-policy-compiler/src/compile.rs:885-940 | The tests of all arms reach their own bodies |
| `Branching.BranchesRealized` | crates/aranya-policy-compiler/src/compile.rs:953-978 | Every branch of an if statement leaves for the same end |
| `Images.Linked` | crates/aranya-policy-compiler/src/compile.rs:317-349 | Complete memory links without a dangling target into the program's layout, every definition is loaded at its label, and every target is inside memory |
| `Flow.ExprTakes` | crates/aranya-policy-compiler/src/compile.rs:513-790 | Every address in an expression's code has one stack height and block depth, all edges agree on it, and the end is one value higher |
| `Flow.StmtsTake` | crates/aranya-policy-compiler/src/compile.rs:812-1223 | The same for statement lists, which end at the height they started |
| `Flow.MatchTakes` | crates/aranya-policy-compiler/src/compile.rs:865-952 | All tests that lead to an arm enter it at the same height |
| `Flow.LoopTakes` | crates/aranya-policy-compiler/src/compile.rs:1014-1045 | Head and exit of a map loop have one height and block depth for all edges |
| `Discipline.FunctionSealed` | crates/aranya-policy-compiler/src/compile.rs:1233-1267 | A function's code is typed from its entry, never leaves itself, only moves forward, and returns exactly one value |
| `Discipline.BlockSealed` | crates/aranya-policy-compiler/src/compile.rs:1402-1452 | The same for policy and recall blocks, which take the envelope |
| `Discipline.StubSealed` | crates/aranya-policy-compiler/src/compile.rs:1454-1549 | The same for seal and open blocks with their call stubs |
| `Discipline.ProgramLegal` | crates/aranya-policy-compiler/src/compile.rs:1647-1734 | In the whole layout every jump stays inside, every call names a definition, and control cannot run off the end |
| `Discipline.NothingDangles` | crates/aranya-policy-compiler/src/compile.rs:317-333 | In complete memory every symbolic target has a label |
| `Heights.EffectSound` | crates/aranya-policy-vm/src/machine.rs:375-397 | The stack effects used statically are those of the machine |
| `Heights.OneHeight` | crates/aranya-policy-compiler/src/compile.rs:812-1223 | Wherever control can get in a piece of code, all ways of giving it heights agree |
| `Heights.HeightsAreStatic` | crates/aranya-policy-vm/src/machine.rs:449-857 | So the heights of a state are those of its frame's code, however they are given to it |
| `Heights.StepKeeps` | crates/aranya-policy-vm/src/machine.rs:449-857 | A step from a state whose operand height and block depth are the ones its address, its pending calls and the entry point say, in every frame, does not underflow and leads to such a state |
| `Heights.LoadedIsSteady` | crates/aranya-policy-vm/src/machine.rs:859-870 | From every entry point of a compiled policy, on all inputs, against every host and in every context, every state of the run has exactly the operand height and block depth that its address, its pending calls and the entry point say, and no run ever faults for a missing operand or closes a block that is not there |
| `CodeMaps.CodeMap.MapInstructionRange` | crates/aranya-policy-module/src/codemap.rs:134-149 | Accepts exactly addresses that do not go back; the table stays strictly increasing |
| `CodeMaps.CodeMap.LocatorFromInstruction` | crates/aranya-policy-module/src/codemap.rs:167-179 | Binary search finds the locator of the last insertion at the greatest address not above the one asked for, and nothing if there is none |
| `CodeMaps.LookupIsHistory` | crates/aranya-policy-module/src/codemap.rs:134-179 | Replacing an entry at the same address loses nothing a lookup could see |
| `CodeMaps.ReplayIncreasing` | crates/aranya-policy-module/src/codemap.rs:134-149 | After any accepted insertions the table is strictly increasing and ends with the last one |
| `Mutex.RunKeeps` | crates/aranya-fast-channels/src/mutex.rs:150-253 | Every state of every run of any number of threads satisfies the invariant, in both variants |
| `Mutex.MutualExclusion` | crates/aranya-fast-channels/src/mutex.rs:155-253 | At most one thread is inside, and the lock word is nonzero exactly when one is |
| `Mutex.Linearizable` | crates/aranya-fast-channels/src/mutex.rs:142-253 | Both variants refine an atomic lock: the events so far are a run of it with the same value and owner |
| `Mutex.AppliedInOrder` | crates/aranya-fast-channels/src/mutex.rs:47-62 | In every run of the atomic lock the protected value is the updates applied in order |
| `Mutex.OwnSections` | crates/aranya-fast-channels/src/mutex.rs:39-45 | In every run of the atomic lock each update and release comes after an acquisition by the same thread with only its own updates between |
| `Mutex.NothingLost` | crates/aranya-fast-channels/src/mutex.rs:39-62 | In every state of every run, of any number of threads and in both variants, the protected value is the initial one with all updates so far applied once and in order, and every update and release fell into a section of its own thread |
| `Mutex.NeverBug` | crates/aranya-fast-channels/src/mutex.rs:239-253 | Dropping a guard never finds the lock free or in an unknown state |
| `Mutex.NoLostWakeUp` | crates/aranya-fast-channels/src/mutex.rs:178-253 | While a thread sleeps, the lock word says so, or an unlocker still owes a wake, or an awake contender will set it again |
| `Mutex.NeverAllAsleep` | crates/aranya-fast-channels/src/mutex.rs:178-253 | Whenever a thread waits or is inside, some thread that is not asleep is at work |
| `Mutex.WaiterCanEnter` | crates/aranya-fast-channels/src/mutex.rs:155-253 | From every state of every run a thread that waits, asleep or not, can still get in, with no thread having to wake up by itself |
| `Tracing.TraceAnalyzer.AnalyzeInstruction` | crates/aranya-policy-compiler/src/tracer.rs:237-252 | An enabled analyzer sees the instruction; a disabled one is left alone |
| `Tracing.TraceAnalyzer.TraceInner` | crates/aranya-policy-compiler/src/tracer.rs:137-235 | Computes the exploration of the tree of paths from a place, with its call stack, path, branches and enabled analyzers |
| `Tracing.TraceAnalyzer.TracePc` | crates/aranya-policy-compiler/src/tracer.rs:113-135 | Tracing fails if and only if broken code or the breakdown of an enabled analyzer on its own is met on some stretch of a path; otherwise the report is all failures in the stable order of their instructions, less those that repeat the one before them; no two neighbours agree, every entry is, path included, what some analyzer alone says on some complete path, and a pair of instruction and message is in it if and only if some analyzer alone reports it on some complete path |
| `Tracing.TraceAnalyzer.Trace` | crates/aranya-policy-compiler/src/tracer.rs:99-110 | The same from a label, failing also if the module has no such label |
| `Tracing.SortStable` | crates/aranya-policy-compiler/src/tracer.rs:128 | Sorting orders by instruction and keeps the order of failures at one instruction |
| `Tracing.DedupFirsts` | crates/aranya-policy-compiler/src/tracer.rs:129-131 | What is left are the entries that do not repeat the one before them, in their order |
| `TraceRuns.StepFollows` | crates/aranya-policy-compiler/src/tracer.rs:161-233 | Wherever the machine goes in one step the tracer goes too, unless it passes a branch that was never resolved; where the machine halts the path ends |
| `TraceRuns.RunIsPath` | crates/aranya-policy-compiler/src/tracer.rs:137-235 | A run that halts is one of the complete paths if and only if it passes no branch that was never resolved |
| `TraceRuns.CompiledRunIsPath` | crates/aranya-policy-compiler/src/tracer.rs:137-235 | In a module whose targets are all resolved, as the compiler's are, every run that halts is a complete path |
| `TraceRuns.RunsAreReported` | crates/aranya-policy-compiler/src/tracer.rs:105-135 | So what an analyzer would say of such a run, on the machine with its bounded operand stack, is in the tracer's report |
| `TraceRuns.AheadIsReached` | crates/aranya-policy-compiler/src/tracer.rs:161-233 | At jumps, branches, calls and returns every way on that the tracer follows is one the machine can go |
| `Tracing.Sound` | crates/aranya-policy-compiler/src/tracer.rs:137-235 | What is reported for an analyzer, the analyzer reports on its own on some complete call-matched path |
| `Tracing.Complete` | crates/aranya-policy-compiler/src/tracer.rs:137-235 | What an analyzer reports on its own on a complete path, up to being halted, is reported |
| `Tracing.FailsExactly` | crates/aranya-policy-compiler/src/tracer.rs:137-235 | Tracing fails if and only if broken code or an enabled analyzer's own breakdown is met on some stretch of a path |
| `Tracing.ReportExact` | crates/aranya-policy-compiler/src/tracer.rs:113-135 | Sorting and removing neighbours loses no pair and adds none |
| `Tracing.EndsSound` | crates/aranya-policy-compiler/src/tracer.rs:208-225 | Every recorded list of branches belongs to a complete path |
| `Tracing.EndsComplete` | crates/aranya-policy-compiler/src/tracer.rs:180-225 | With at least one analyzer every complete path is recorded |
| `Tracing.EndsWithoutAnalyzers` | crates/aranya-policy-compiler/src/tracer.rs:180-225 | Without analyzers exactly one path is recorded, however many there are |
| `Tracing.EndsExact` | crates/aranya-policy-compiler/src/tracer.rs:180-225 | Every complete path is recorded if and only if there is an analyzer or all complete paths pass the same branches |
| `Tracing.EndsMissing` | crates/aranya-policy-compiler/src/tracer.rs:180-225 | Code with two complete paths of which, without analyzers, only one is recorded |
| `Trails.StmtsOpen` | crates/aranya-policy-compiler/src/compile.rs:812-1223 | Control gets to every operation of an orderly statement list that nothing leaves, and through it, whatever is nested in it |
| `Trails.StmtsSpin` | crates/aranya-policy-compiler/src/compile.rs:1014-1045 | An orderly list with a map statement anywhere in it goes round |
| `Trails.StmtsGet` | crates/aranya-policy-compiler/src/compile.rs:812-1223 | Control gets to a return of every function body that holds one |
| `TraceBounds.WayWalks` | crates/aranya-policy-compiler/src/tracer.rs:161-233 | Every way through a definition, through calls that come back, is a walk of the tracer with the same calls pending |
| `TraceBounds.CycleUnbounded` | crates/aranya-policy-compiler/src/tracer.rs:161-233 | A place control can come back to with the same calls pending is never traced to the end |
| `TraceBounds.BoundedCalm` | crates/aranya-policy-compiler/src/tracer.rs:137-235 | Where tracing ends, control gets into no loop and the calls it gets to settle |
| `TraceBounds.CalmEnds` | crates/aranya-policy-compiler/src/tracer.rs:137-235 | Where control gets into no loop and calls settle, tracing ends from every place it gets to |
| `TraceBounds.Exact` | crates/aranya-policy-compiler/src/tracer.rs:105-235 | So tracing ends if and only if, for some bound on pending calls, control goes round nowhere it gets to; recursion included |
| `TracePolicies.PolicyTraceable` | crates/aranya-policy-compiler/src/tracer.rs:105-135 | On a loaded policy with an acyclic call graph tracing ends from every function and from all entry points of every command |
| `TracePolicies.ActionTraceable` | crates/aranya-policy-compiler/src/tracer.rs:105-135 | On a loaded policy with an acyclic call graph and orderly matches tracing ends from an action if and only if neither it nor any action it calls, however far away, holds a map statement |
| `TracePolicies.StmtsCall` | crates/aranya-policy-compiler/src/compile.rs:1152-1198 | The code of an accepted list calls exactly the actions the list mentions, and there are none outside actions |
| `TracePolicies.MapNeverTraced` | crates/aranya-policy-compiler/src/compile.rs:1014-1045 | A policy with one map statement that the compiler accepts and whose action is never traced to the end in any image it is loaded in |
| `TracePolicies.RecursionNeverTraced` | crates/aranya-policy-compiler/src/tracer.rs:195-207 | A policy whose function calls itself, accepted and never traced to the end in any image, though no place comes back |
| `TracePolicies.OrderMatters` | crates/aranya-policy-compiler/src/compile.rs:865-952 | A policy with a map statement around a match without arms, accepted and traced to the end in every image |
| `Channels.HeaderRoundTrip` | crates/aranya-fast-channels/src/header.rs:103-141 | Parsing an encoded header gives it back |
| `Channels.ParseRoundTrip` | crates/aranya-fast-channels/src/header.rs:103-141 | Encoding a parsed header gives its bytes back |
| `Channels.EncodeOctets` | crates/aranya-fast-channels/src/header.rs:124-141 | The header's twelve octets: the label in four and the sequence number in eight, each least significant first |
| `Channels.MessageOnWire` | crates/aranya-fast-channels/src/client.rs:136-173 | A message is the ciphertext, then the tag, both under the protocol version and the label, then these octets |
| `Channels.RoundTrip` | crates/aranya-fast-channels/src/client.rs:62-304 | Reading a sealed message gives back plaintext, label and sequence number |
| `Channels.FixedBuf.Truncate` | crates/aranya-fast-channels/src/buf.rs:231-235 | Keeps a prefix, or everything if asked for more |
| `Channels.FixedBuf.TryReserveExact` | crates/aranya-fast-channels/src/buf.rs:237-244 | Fails exactly when the capacity would be exceeded |
| `Channels.FixedBuf.TryResize` | crates/aranya-fast-channels/src/buf.rs:246-260 | The visible bytes are those of the vector model; fails exactly beyond the capacity, and then changes nothing |
| `Channels.Client.DoSeal` | crates/aranya-fast-channels/src/client.rs:136-173 | The key seals into what precedes the header, and only the header is written besides, octet by octet; the sequence number is used up exactly on success; errors are those of the lookup and of the key |
| `Channels.Client.Seal` | crates/aranya-fast-channels/src/client.rs:62-92 | The buffer starts with ciphertext, tag and the header's twelve octets and the rest is untouched; whatever a declining cipher leaves is zeroed; too long an input or too small a buffer changes nothing |
| `Channels.Client.SealInPlace` | crates/aranya-fast-channels/src/client.rs:100-131 | The same message replaces the plaintext, with the same sequence number and failures; too small a capacity changes nothing |
| `Channels.Client.Open` | crates/aranya-fast-channels/src/client.rs:184-232 | Gives what the message says under the peer's keys, leaving the buffer behind the plaintext as it was, or the same error with the output zeroed; messages without a tag and too small a buffer change nothing |
| `Channels.Client.OpenInPlace` | crates/aranya-fast-channels/src/client.rs:242-283 | Agrees with the buffered opener, truncated to the plaintext; panics if and only if the build checks for overflow and the message has a header but less than a tag |
| `Channels.Exchange` | crates/aranya-fast-channels/src/client.rs:62-283 | Whichever sealer and opener are used, a client that shares the key gets the plaintext with the label and the sequence number it was sealed with |
| `Channels.Converse` | crates/aranya-fast-channels/src/client.rs:62-283 | Over a whole conversation a message is received if and only if it can be sealed at its turn, and then with its own plaintext, the label and the next number after those received before it |
| `Channels.NumbersGrow` | crates/aranya-fast-channels/src/client.rs:136-173 | Later messages are received under greater numbers |
| `Reachable.Visit` | crates/aranya-policy-ifgen-build/src/imp.rs:147-173 | Computes the search from one type, on recursive structs too; an undefined struct panics |
| `Reachable.CollectReachableTypes` | crates/aranya-policy-ifgen-build/src/imp.rs:146-189 | Computes the search from all arguments and effect fields in order; where shared names are harmless it finds exactly the names of the least set of types that holds the roots and with every struct the types of its fields, and panics if and only if one of these is an undefined struct |
| `Reachable.NothingExtra` | crates/aranya-policy-ifgen-build/src/imp.rs:147-173 | The search finds only names that every closed set of types has, and panics only on an undefined struct every such set has |
| `Reachable.NothingMissed` | crates/aranya-policy-ifgen-build/src/imp.rs:147-173 | If every needed struct that shares its name with a needed enum mentions only its own name, what is found are the names of a closed set |
| `Reachable.Exact` | crates/aranya-policy-ifgen-build/src/imp.rs:146-189 | Then the search is precise: it panics exactly on an undefined struct that is needed and otherwise finds exactly the names that are needed |
| `Reachable.ReachedLeast` | crates/aranya-policy-ifgen-build/src/imp.rs:146-189 | There is a least set of types that holds the roots and with every struct the types of its fields |
| `Reachable.HiddenField` | crates/aranya-policy-ifgen-build/src/imp.rs:152-166 | From an enum and then a struct of one name, the search finds that name alone, although every other name a field mentions is needed |
| `Reachable.AlwaysPrecise` | crates/aranya-policy-ifgen-build/src/imp.rs:146-189 | With all structs and enums defined, the search is precise from all roots over them if and only if every struct named like an enum mentions only its own name |
| `Reachable.TwoOfAName` | crates/aranya-policy-ifgen-build/src/imp.rs:152-166 | Definitions for which the search is not precise from an enum and a struct of one name, and is precise from the same roots in the other order |
| `Paths.TryNew` | crates/aranya-libc/src/path.rs:50-59 | Ends at the first null byte, if there is one |
| `Paths.PathBuf.Push` | crates/aranya-libc/src/path.rs:395-416 | Appends a component, or replaces everything by an absolute one; exactly one null byte, at the end |
| `Paths.PathBuf.Extend` | crates/aranya-libc/src/path.rs:454-463 | Pushes all components in order |
| `Paths.Join` | crates/aranya-libc/src/path.rs:152-154 | Joins two paths with or without terminators |
| `Paths.OneSlash` | crates/aranya-libc/src/path.rs:403-416 | Between two texts, the second relative, stands a slash, the first text's own or one put in; both are kept as they are |
| `Paths.JoinAssociative` | crates/aranya-libc/src/path.rs:395-416 | Joining is associative |
| `Paths.LastAbsoluteWins` | crates/aranya-libc/src/path.rs:395-416 | Everything before the last absolute component is forgotten |
| `Paths.JoinedBytesAgree` | crates/aranya-libc/src/path.rs:152-154 | Joined paths agree byte for byte however they are grouped and terminated |
| `Writers.Buffer.Write` | crates/aranya-capi-core/src/safe.rs:803-825 | A piece is counted in any case and stored if all before it and itself fit; bytes beyond the limit are untouched |
| `Writers.CopyTo` | crates/aranya-capi-core/src/safe.rs:784-800 | Reports the whole size, and holds the text if it fits, whatever the pieces were |
| `Writers.WriteCStr` | crates/aranya-capi-core/src/cstr.rs:41-106 | The same for a null-terminated string; the size counts the terminator in both outcomes |
| `Writers.RetryFits` | crates/aranya-capi-core/src/cstr.rs:41-106 | Retrying with the reported size succeeds and reports the same size |

## Left out

- TracePolicies.ActionTraceable: the half that says tracing never ends supposes orderly matches; without them whether a map is reached depends on which arms can be chosen, which `TraceBounds.Exact` covers in terms of the code.
- RetryFits: requires that the size does not reach the largest machine word, where counting saturates.
- TracePc: failures of post-analysis and the contents of a trace error are not modelled.
- Type calculation is a parameter that may refuse any question the compiler asks, depending on how many were asked before.
- Building the tables of structs, facts, enums and globals, and global let statements; the tables are part of the input.
- The `stub_ffi` mode, in which a foreign call pushes nothing.
- Foreign procedures are assumed to take as many values as their schema says and to push one.
- Texts and source positions of compile errors, the internal error for a missing statement context, and overflow of counters.
- Static heights do not count the machine's stack of open queries.
- Memory ordering weaker than interleaving, the futex system calls themselves, and fairness of the lock.
- Concrete analyzers, and printing the tracer's results.
- Assignment of channel keys, cryptographic primitives, and the shared-memory state behind a client; a client here holds its channels in a map.
- `add_text_range` and spans of source text.
- Parsing and serialization of policies and modules, procedural macros and generated bindings, foreign-function modules, sync and sessions of the runtime model.
- Pointer checks around the C interface; only copying out is modelled.
