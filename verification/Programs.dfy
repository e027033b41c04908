/** Whole programs: their checks and their layout. */
module Programs {
  import opened Values
  import opened Ast
  import opened Static
  import opened Layout
  import opened Linking
  import M = Machine

  // ---- Checks on definitions ----

  predicate FunctionOk(g: Program, d: Definition) {
    NoRepeats(d.params) && StmtsOk(g, FunctionSite(KnownIn(g.policy, d.name)), d.body) &&
      I(M.Return) in StmtsCode(g, d.body)
  }

  predicate FinishFunctionOk(g: Program, d: Definition) {
    StmtsOk(g, FinishSite(AllKnown(g.policy)), d.body)
  }

  predicate ActionOk(g: Program, d: Definition) {
    NoRepeats(d.params) && StmtsOk(g, ActionSite(AllKnown(g.policy)), d.body)
  }

  /** Seal and open blocks are functions without a signature; they must not be missing. */
  predicate StubOk(g: Program, ss: seq<Node>) {
    ss != [] && StmtsOk(g, FunctionSite(AllKnown(g.policy)), ss) && I(M.Return) in StmtsCode(g, ss)
  }

  predicate CommandOk(g: Program, c: Command) {
    StmtsOk(g, PolicySite(AllKnown(g.policy)), c.policy) && StmtsOk(g, RecallSite(AllKnown(g.policy)), c.recall) &&
    StubOk(g, c.seal) && StubOk(g, c.open)
  }

  function Names(ds: seq<Definition>): seq<string> {
    seq(|ds|, i requires 0 <= i < |ds| => ds[i].name)
  }

  function CommandNames(cs: seq<Command>): seq<string> {
    seq(|cs|, i requires 0 <= i < |cs| => cs[i].name)
  }

  /** The first `n` functions are accepted: named apart from each other and from finish
      functions, and calling only what is known by then. */
  predicate FunctionsOk(g: Program, n: nat)
    requires n <= |g.policy.functions|
  {
    NoRepeats(Names(g.policy.functions[..n])) &&
    forall i :: 0 <= i < n ==>
      g.policy.functions[i].name !in Names(g.policy.finishFunctions) && FunctionOk(g, g.policy.functions[i])
  }

  predicate FinishFunctionsOk(g: Program, n: nat)
    requires n <= |g.policy.finishFunctions|
  {
    forall i :: 0 <= i < n ==> FinishFunctionOk(g, g.policy.finishFunctions[i])
  }

  predicate CommandsOk(g: Program, n: nat)
    requires n <= |g.policy.commands|
  {
    NoRepeats(CommandNames(g.policy.commands[..n])) && forall i :: 0 <= i < n ==> CommandOk(g, g.policy.commands[i])
  }

  predicate ActionsOk(g: Program, n: nat)
    requires n <= |g.policy.actions|
  {
    NoRepeats(Names(g.policy.actions[..n])) && forall i :: 0 <= i < n ==> ActionOk(g, g.policy.actions[i])
  }

  predicate CallablesOk(g: Program) {
    FunctionsOk(g, |g.policy.functions|) && NoRepeats(Names(g.policy.finishFunctions)) &&
    FinishFunctionsOk(g, |g.policy.finishFunctions|)
  }

  predicate PolicyOk(g: Program) {
    CallablesOk(g) && CommandsOk(g, |g.policy.commands|) && ActionsOk(g, |g.policy.actions|)
  }

  lemma {:induction false} NamesSplit(ds: seq<Definition>, i: nat, n: nat)
    requires i < n <= |ds|
    ensures NoRepeats(Names(ds[..i + 1])) <==> NoRepeats(Names(ds[..i])) && ds[i].name !in Names(ds[..i])
    ensures NoRepeats(Names(ds[..n])) ==> NoRepeats(Names(ds[..i + 1]))
  {
    var xs, ys := Names(ds[..i]), Names(ds[..i + 1]);
    assert ys == xs + [ds[i].name];
    assert ys[i] == ds[i].name && forall j :: 0 <= j < i ==> ys[j] == xs[j];
    assert ys == Names(ds[..n])[..i + 1];
  }

  lemma {:induction false} CommandNamesSplit(cs: seq<Command>, i: nat, n: nat)
    requires i < n <= |cs|
    ensures NoRepeats(CommandNames(cs[..i + 1])) <==>
      NoRepeats(CommandNames(cs[..i])) && cs[i].name !in CommandNames(cs[..i])
    ensures NoRepeats(CommandNames(cs[..n])) ==> NoRepeats(CommandNames(cs[..i + 1]))
  {
    var xs, ys := CommandNames(cs[..i]), CommandNames(cs[..i + 1]);
    assert ys == xs + [cs[i].name];
    assert ys[i] == cs[i].name && forall j :: 0 <= j < i ==> ys[j] == xs[j];
    assert ys == CommandNames(cs[..n])[..i + 1];
  }

  /** One more function is accepted if and only if it is on its own, with a new name. */
  lemma {:induction false} FunctionsSplit(g: Program, i: nat)
    requires i < |g.policy.functions|
    ensures
      var d := g.policy.functions[i];
      FunctionsOk(g, i + 1) <==>
        FunctionsOk(g, i) && d.name !in Names(g.policy.functions[..i]) && d.name !in Names(g.policy.finishFunctions) &&
        FunctionOk(g, d)
    ensures FunctionsOk(g, |g.policy.functions|) ==> FunctionsOk(g, i + 1)
  {
    hide FunctionOk, Names, NoRepeats;
    NamesSplit(g.policy.functions, i, |g.policy.functions|);
  }

  lemma {:induction false} FinishFunctionsSplit(g: Program, i: nat)
    requires i < |g.policy.finishFunctions|
    ensures FinishFunctionsOk(g, i + 1) <==> FinishFunctionsOk(g, i) && FinishFunctionOk(g, g.policy.finishFunctions[i])
    ensures FinishFunctionsOk(g, |g.policy.finishFunctions|) ==> FinishFunctionsOk(g, i + 1)
  {
    hide FinishFunctionOk;
  }

  lemma {:induction false} CommandsSplit(g: Program, i: nat)
    requires i < |g.policy.commands|
    ensures
      var c := g.policy.commands[i];
      CommandsOk(g, i + 1) <==> CommandsOk(g, i) && c.name !in CommandNames(g.policy.commands[..i]) && CommandOk(g, c)
    ensures CommandsOk(g, |g.policy.commands|) ==> CommandsOk(g, i + 1)
  {
    hide CommandOk, CommandNames, NoRepeats;
    CommandNamesSplit(g.policy.commands, i, |g.policy.commands|);
  }

  lemma {:induction false} ActionsSplit(g: Program, i: nat)
    requires i < |g.policy.actions|
    ensures
      var d := g.policy.actions[i];
      ActionsOk(g, i + 1) <==> ActionsOk(g, i) && d.name !in Names(g.policy.actions[..i]) && ActionOk(g, d)
    ensures ActionsOk(g, |g.policy.actions|) ==> ActionsOk(g, i + 1)
  {
    hide ActionOk, Names, NoRepeats;
    NamesSplit(g.policy.actions, i, |g.policy.actions|);
  }

  lemma {:induction false} KnownNames(known: Known, ds: seq<Definition>, finish: bool, name: string)
    ensures name in AddAll(known, ds, finish) <==> name in known || name in Names(ds)
    decreases ds
  {
    if ds != [] {
      var less := ds[..|ds| - 1];
      KnownNames(known, less, finish, name);
      assert Names(ds) == Names(less) + [ds[|ds| - 1].name];
    }
  }

  lemma {:induction false} UptoFirst(ds: seq<Definition>, i: nat)
    requires i < |ds| && ds[i].name !in Names(ds[..i])
    ensures Upto(ds, ds[i].name) == i + 1
    decreases i
  {
    if i > 0 {
      assert Names(ds[..i])[0] == ds[0].name;
      assert Names(ds[1..][..i - 1]) == Names(ds[..i])[1..];
      UptoFirst(ds[1..], i - 1);
    }
  }

  /** What is known in a function's body: what was known before it, and itself. */
  lemma {:induction false} KnownStep(p: Policy, i: nat)
    requires i < |p.functions| && p.functions[i].name !in Names(p.functions[..i])
    ensures KnownIn(p, p.functions[i].name) ==
      KnownAfter(p, i)[p.functions[i].name := Signature(|p.functions[i].params|, false)]
    ensures KnownAfter(p, i + 1) == KnownIn(p, p.functions[i].name)
  {
    UptoFirst(p.functions, i);
    assert p.functions[..i + 1][..i] == p.functions[..i];
  }

  lemma {:induction false} KnownOf(p: Policy, i: nat, name: string)
    requires i <= |p.functions|
    ensures name in KnownAfter(p, i) <==> name in Names(p.finishFunctions) || name in Names(p.functions[..i])
  {
    hide AddAll, Names;
    KnownNames(map[], p.finishFunctions, true, name);
    KnownNames(AddAll(map[], p.finishFunctions, true), p.functions[..i], false, name);
  }

  // ---- Layout ----

  function FunctionsCode(g: Program, ds: seq<Definition>): Code {
    if ds == [] then [] else FunctionsCode(g, ds[..|ds| - 1]) + FunctionCode(g, ds[|ds| - 1])
  }

  function ProceduresCode(g: Program, ds: seq<Definition>): Code {
    if ds == [] then [] else ProceduresCode(g, ds[..|ds| - 1]) + ProcedureCode(g, ds[|ds| - 1])
  }

  function CommandCode(g: Program, c: Command): Code {
    ((BlockCode(g, c.policy) + BlockCode(g, c.recall)) + StubCode(g, "this", c.seal)) + StubCode(g, "envelope", c.open)
  }

  function CommandsCode(g: Program, cs: seq<Command>): Code {
    if cs == [] then [] else CommandsCode(g, cs[..|cs| - 1]) + CommandCode(g, cs[|cs| - 1])
  }

  /** Memory starts with an exit, so that running without an entry point panics. */
  function ProgramCode(g: Program): Code {
    ((([I(M.Exit(Panic))] + FunctionsCode(g, g.policy.functions)) + ProceduresCode(g, g.policy.finishFunctions)) +
      CommandsCode(g, g.policy.commands)) + ProceduresCode(g, g.policy.actions)
  }

  // ---- Definitions in unlinked memory ----

  /** The label stands before its code, whatever is still added. */
  ghost predicate Standing(m: Moment, l: M.Label, code: Code) {
    l in m.labels && 0 <= m.labels[l] && Written(m, m.labels[l], code)
  }

  lemma {:induction false} StandingLater(m: Moment, m': Moment, l: M.Label, code: Code)
    requires Standing(m, l, code) && Before(m, m')
    ensures Standing(m', l, code)
  {
    hide Written;
    Later(m, m', m.labels[l], code);
  }

  lemma {:induction false} StandingLabel(m: Moment, l: M.Label, code: Code)
    requires Standing(m, l, code)
    ensures l in m.labels
  {
  }

  ghost predicate CommandStanding(g: Program, m: Moment, c: Command) {
    Standing(m, M.Label(c.name, M.PolicyLabel), BlockCode(g, c.policy)) &&
    Standing(m, M.Label(c.name, M.RecallLabel), BlockCode(g, c.recall)) &&
    Standing(m, M.Label(c.name, M.SealLabel), StubCode(g, "this", c.seal)) &&
    Standing(m, M.Label(c.name, M.OpenLabel), StubCode(g, "envelope", c.open))
  }

  lemma {:induction false} CommandStandingLater(g: Program, m: Moment, m': Moment, c: Command)
    requires CommandStanding(g, m, c) && Before(m, m')
    ensures CommandStanding(g, m', c)
  {
    hide Standing, Before, BlockCode, StubCode;
    StandingLater(m, m', M.Label(c.name, M.PolicyLabel), BlockCode(g, c.policy));
    StandingLater(m, m', M.Label(c.name, M.RecallLabel), BlockCode(g, c.recall));
    StandingLater(m, m', M.Label(c.name, M.SealLabel), StubCode(g, "this", c.seal));
    StandingLater(m, m', M.Label(c.name, M.OpenLabel), StubCode(g, "envelope", c.open));
  }

  lemma {:induction false} FindFirst(ds: seq<Definition>, i: nat)
    requires i < |ds| && forall j :: 0 <= j < i ==> ds[j].name != ds[i].name
    ensures FindDefinition(ds, ds[i].name) == Some(ds[i])
  {
    if i > 0 {
      assert ds[1..][i - 1] == ds[i] && forall j :: 0 <= j < i - 1 ==> ds[1..][j] == ds[j + 1];
      FindFirst(ds[1..], i - 1);
      assert ds[0].name != ds[i].name;
    }
  }

  /** A return is found in memory exactly when it is part of the code. */
  lemma {:induction false} ReturnsWritten(m: Moment, from: nat, code: Code)
    requires Written(m, from, code) && |m.prog| == from + |code|
    ensures M.Return in m.prog[from..] <==> I(M.Return) in code
  {
    if M.Return in m.prog[from..] {
      var k :| 0 <= k < |code| && m.prog[from..][k] == M.Return;
      assert Becomes(m.labels, m.prog[from + k], code[k], from + k);
      assert Patch(m.labels, m.prog[from + k]) == Place(m.labels, code[k], from + k);
      assert code[k] == I(M.Return);
    }
    if I(M.Return) in code {
      var k :| 0 <= k < |code| && code[k] == I(M.Return);
      assert Becomes(m.labels, m.prog[from + k], code[k], from + k);
      assert Patch(m.labels, m.prog[from + k]) == Place(m.labels, code[k], from + k);
      assert m.prog[from..][k] == M.Return;
    }
  }
}
