/** From linked memory to a loaded image. */
module Images {
  import opened Values
  import opened Ast
  import opened Static
  import opened Layout
  import opened Linking
  import opened Programs
  import opened Assembly
  import opened Discipline
  import opened SimBase
  import M = Machine

  // ---- Commands in an image ----

  ghost predicate CommandLoaded(img: Image, c: Command) {
    CommandOk(img.g, c) &&
    Installed(img, M.Label(c.name, M.PolicyLabel), BlockCode(img.g, c.policy)) &&
    Installed(img, M.Label(c.name, M.RecallLabel), BlockCode(img.g, c.recall)) &&
    Installed(img, M.Label(c.name, M.SealLabel), StubCode(img.g, "this", c.seal)) &&
    Installed(img, M.Label(c.name, M.OpenLabel), StubCode(img.g, "envelope", c.open))
  }

  ghost predicate FullyLoaded(img: Image) {
    Loaded(img) && forall i :: 0 <= i < |img.g.policy.commands| ==> CommandLoaded(img, img.g.policy.commands[i])
  }

  /** Linking turns standing code into installed code. */
  lemma {:induction false} Link(g: Program, m: Moment, l: M.Label, code: Code)
    requires Standing(m, l, code)
    ensures Installed(Image(g, PatchAll(m.labels, m.prog), m.labels), l, code)
  {
    var base := m.labels[l];
    forall k | 0 <= k < |code| ensures PatchAll(m.labels, m.prog)[base + k] == Place(m.labels, code[k], base + k) {
      assert Becomes(m.labels, m.prog[base + k], code[k], base + k);
    }
  }

  /** Everything that stands before linking is loaded after it. */
  lemma {:induction false} LinkAll(g: Program, m: Moment)
    requires Complete(g, m)
    ensures FullyLoaded(Image(g, PatchAll(m.labels, m.prog), m.labels))
  {
    hide Standing, Installed, FunctionCode, ProcedureCode, BlockCode, StubCode, PatchAll, StmtsOk, StmtsCode;
    var img := Image(g, PatchAll(m.labels, m.prog), m.labels);
    forall i | 0 <= i < |g.policy.functions| ensures FunctionLoaded(img, g.policy.functions[i]) {
      var d := g.policy.functions[i];
      assert FunctionOk(g, d);
      Link(g, m, M.Label(d.name, M.FunctionLabel), FunctionCode(g, d));
    }
    forall i | 0 <= i < |g.policy.finishFunctions| ensures FinishLoaded(img, g.policy.finishFunctions[i]) {
      var d := g.policy.finishFunctions[i];
      assert FinishFunctionOk(g, d);
      Link(g, m, M.Label(d.name, M.Temporary), ProcedureCode(g, d));
    }
    forall i | 0 <= i < |g.policy.actions| ensures ActionLoaded(img, g.policy.actions[i]) {
      var d := g.policy.actions[i];
      assert ActionOk(g, d);
      Link(g, m, M.Label(d.name, M.ActionLabel), ProcedureCode(g, d));
    }
    forall i | 0 <= i < |g.policy.commands| ensures CommandLoaded(img, g.policy.commands[i]) {
      LinkCommand(g, m, g.policy.commands[i]);
    }
  }

  lemma {:induction false} LinkCommand(g: Program, m: Moment, c: Command)
    requires CommandOk(g, c) && CommandStanding(g, m, c)
    ensures CommandLoaded(Image(g, PatchAll(m.labels, m.prog), m.labels), c)
  {
    hide Standing, Installed, BlockCode, StubCode, PatchAll, StmtsOk, StmtsCode;
    Link(g, m, M.Label(c.name, M.PolicyLabel), BlockCode(g, c.policy));
    Link(g, m, M.Label(c.name, M.RecallLabel), BlockCode(g, c.recall));
    Link(g, m, M.Label(c.name, M.SealLabel), StubCode(g, "this", c.seal));
    Link(g, m, M.Label(c.name, M.OpenLabel), StubCode(g, "envelope", c.open));
  }

  /** Complete memory links without a dangling target, into the program's layout. */
  lemma {:induction false} Linked(g: Program, m: Moment)
    requires Complete(g, m)
    ensures forall k :: 0 <= k < |m.prog| ==> Resolvable(m.labels, m.prog[k])
    ensures FullyLoaded(Image(g, PatchAll(m.labels, m.prog), m.labels))
    ensures CodeAt(PatchAll(m.labels, m.prog), m.labels, 0, ProgramCode(g))
    ensures |PatchAll(m.labels, m.prog)| == |ProgramCode(g)|
    ensures forall k :: 0 <= k < |PatchAll(m.labels, m.prog)| ==> WellLinked(PatchAll(m.labels, m.prog), k)
  {
    assert CodeAt(PatchAll(m.labels, m.prog), m.labels, 0, ProgramCode(g)) by {
      hide ProgramCode, Complete;
      forall k | 0 <= k < |m.prog|
        ensures PatchAll(m.labels, m.prog)[0 + k] == Place(m.labels, ProgramCode(g)[k], 0 + k)
      {
        assert Becomes(m.labels, m.prog[0 + k], ProgramCode(g)[k], 0 + k);
      }
    }
    hide Written, Standing, CommandStanding, FunctionCode, ProcedureCode, PolicyOk, ProgramCode, Resolvable,
      PatchAll;
    LinkAll(g, m);
    ProgramLegal(g);
    forall j | 0 <= j < |g.policy.functions| ensures M.Label(g.policy.functions[j].name, M.FunctionLabel) in m.labels {
      StandingLabel(m, M.Label(g.policy.functions[j].name, M.FunctionLabel), FunctionCode(g, g.policy.functions[j]));
    }
    forall j | 0 <= j < |g.policy.finishFunctions| ensures M.Label(g.policy.finishFunctions[j].name,
      M.Temporary) in m.labels {
      StandingLabel(m, M.Label(g.policy.finishFunctions[j].name, M.Temporary),
        ProcedureCode(g, g.policy.finishFunctions[j]));
    }
    forall j | 0 <= j < |g.policy.actions| ensures M.Label(g.policy.actions[j].name, M.ActionLabel) in m.labels {
      StandingLabel(m, M.Label(g.policy.actions[j].name, M.ActionLabel), ProcedureCode(g, g.policy.actions[j]));
    }
    forall k | 0 <= k < |m.prog| ensures Resolvable(m.labels, m.prog[k]) {
      NothingDangles(g, m, ProgramCode(g), k);
    }
    hide Complete, WellLinked, CodeAt, Legal;
    var img := Image(g, PatchAll(m.labels, m.prog), m.labels);
    forall k | 0 <= k < |img.prog| ensures WellLinked(img.prog, k) {
      LegalLinked(img, k);
    }
  }
}
