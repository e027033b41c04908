/** From a policy to what a host observes of its compiled module. */
module EndToEnd {
  import opened Values
  import opened Ast
  import opened Static
  import opened Layout
  import opened Linking
  import opened Programs
  import opened Naming
  import opened Asking
  import opened Discipline
  import opened Images
  import opened SimBase
  import opened Correctness
  import opened Hosting
  import A = Acceptance
  import C = Compiler
  import M = Machine

  /** What the compiler hands over: memory and the labels that are entry points. */
  datatype Module = Module(prog: seq<M.Instr>, labels: Labels)

  predicate Overflowed(t: M.State) {
    t.Faulted? && t.fault == StackOverflow
  }

  function Real(g: Program, prog: seq<M.Instr>, s: M.Config, k: nat): M.State {
    M.RealRun(prog, g.world, M.Running(s), k)
  }

  /** The ended run `t` overflowed the operand stack or shows what the source does. */
  ghost predicate Shows(s: M.Config, meaning: nat -> Outcome<List<Value>>, t: M.State) {
    Overflowed(t) || exists n: nat :: Explains(meaning(n), s, n, t)
  }

  /** Some run ends, in an overflow or the way outcome `o` says. */
  ghost predicate Reaches(g: Program, prog: seq<M.Instr>, s: M.Config, o: Outcome<List<Value>>, n: nat) {
    exists k: nat :: Overflowed(Real(g, prog, s, k)) || Explains(o, s, n, Real(g, prog, s, k))
  }

  /** The machine, with its bounded operand stack, does what the source means: however it ends
      the source explains it, and every outcome of the source is reached. */
  ghost predicate Implements(g: Program, prog: seq<M.Instr>, s: M.Config, meaning: nat -> Outcome<List<Value>>) {
    (forall k: nat :: Real(g, prog, s, k).Running? || Shows(s, meaning, Real(g, prog, s, k))) &&
    (forall n: nat :: !meaning(n).Timeout? ==> Reaches(g, prog, s, meaning(n), n))
  }

  lemma {:induction false} Implemented(img: Image, s: M.Config, meaning: nat -> Outcome<List<Value>>)
    requires forall n: nat :: AgreesAt(img, s, meaning(n), n)
    ensures Implements(img.g, img.prog, s, meaning)
  {
    hide Explains, AgreesAt, M.Run, M.RealRun;
    forall k: nat ensures Real(img.g, img.prog, s, k).Running? || Shows(s, meaning, Real(img.g, img.prog, s, k)) {
      M.RealAgrees(img.prog, img.g.world, M.Running(s), k);
      var t := Real(img.g, img.prog, s, k);
      if !t.Running? && !Overflowed(t) {
        assert Go(img, s, k) == t;
        var n := Explained(img, s, meaning, t);
      }
    }
    forall n: nat | !meaning(n).Timeout? ensures Reaches(img.g, img.prog, s, meaning(n), n) {
      var t := Ending(img, s, meaning(n), n);
      var k: nat :| Go(img, s, k) == t;
      M.RealAgrees(img.prog, img.g.world, M.Running(s), k);
      assert Overflowed(Real(img.g, img.prog, s, k)) || Explains(meaning(n), s, n, Real(img.g, img.prog, s, k));
    }
  }

  // ---- Entry points of a module ----

  /** The module has the label, and entering there implements the meaning. */
  ghost predicate Enters(
    g: Program, mod: Module, l: M.Label, stack: List<Value>, scope: Scope, h: History,
    meaning: nat -> Outcome<List<Value>>)
  {
    l in mod.labels && Implements(g, mod.prog, Start(mod.labels[l], stack, scope, h), meaning)
  }

  ghost predicate ActionRuns(g: Program, mod: Module, d: Definition, args: seq<Value>, h: History) {
    Enters(g, mod, M.Label(d.name, M.ActionLabel), PushAll(Nil, args), Cons(map[], Nil), h,
          (n: nat) => ActionMeaning(g, n, d, args, h))
  }

  ghost predicate BlockRuns(
    g: Program, mod: Module, l: M.Label, ss: seq<Node>, this_: Value, envelope: Value, h: History)
  {
    Enters(g, mod, l, Cons(envelope, Nil), Cons(map["this" := this_], Nil), h,
          (n: nat) => BlockMeaning(g, n, ss, this_, envelope, h))
  }

  ghost predicate StubRuns(g: Program, mod: Module, l: M.Label, ss: seq<Node>, x: string, arg: Value, h: History) {
    Enters(g, mod, l, Cons(arg, Nil), Cons(map[], Nil), h, (n: nat) => StubMeaning(g, n, ss, x, arg, h))
  }

  /** Every entry point of the module, on every input and from every history, does what the
      policy says. */
  ghost predicate Correct(g: Program, mod: Module) {
    (forall i, args, h :: 0 <= i < |g.policy.actions| && |args| == |g.policy.actions[i].params| ==>
      ActionRuns(g, mod, g.policy.actions[i], args, h)) &&
    (forall i, this_, envelope, h :: 0 <= i < |g.policy.commands| ==>
      BlockRuns(g, mod, M.Label(g.policy.commands[i].name, M.PolicyLabel), g.policy.commands[i].policy, this_,
        envelope, h)) &&
    (forall i, this_, envelope, h :: 0 <= i < |g.policy.commands| ==>
      BlockRuns(g, mod, M.Label(g.policy.commands[i].name, M.RecallLabel), g.policy.commands[i].recall, this_,
        envelope, h)) &&
    (forall i, arg, h :: 0 <= i < |g.policy.commands| ==>
      StubRuns(g, mod, M.Label(g.policy.commands[i].name, M.SealLabel), g.policy.commands[i].seal, "this", arg, h)) &&
    (forall i, arg, h :: 0 <= i < |g.policy.commands| ==>
      StubRuns(g, mod, M.Label(g.policy.commands[i].name, M.OpenLabel), g.policy.commands[i].open, "envelope", arg, h))
  }

  /** The labels a module keeps. */
  function Entries(linked: Labels): Labels {
    map l | l in linked && l.ltype != M.Temporary :: linked[l]
  }

  lemma {:induction false} ActionWorks(img: Image, d: Definition, args: seq<Value>, h: History)
    requires Loaded(img) && ActionLoaded(img, d) && |args| == |d.params|
    ensures ActionRuns(img.g, Module(img.prog, Entries(img.labels)), d, args, h)
  {
    hide Loaded, ActionMeaning, Ends, Implements, M.Run;
    var s := ActionStart(img, d, args, h);
    var meaning := (n: nat) => ActionMeaning(img.g, n, d, args, h);
    forall n: nat ensures AgreesAt(img, s, meaning(n), n) {
      var k := ActionAgrees(img, n, d, args, h);
    }
    Implemented(img, s, meaning);
  }

  lemma {:induction false} BlockWorks(
    img: Image, at: Site, l: M.Label, ss: seq<Node>, this_: Value, envelope: Value, h: History)
    requires Loaded(img) && StmtsOk(img.g, at, ss) && (at.PolicySite? || at.RecallSite?)
    requires Installed(img, l, BlockCode(img.g, ss)) && l.ltype != M.Temporary
    ensures BlockRuns(img.g, Module(img.prog, Entries(img.labels)), l, ss, this_, envelope, h)
  {
    hide Loaded, BlockMeaning, BlockCode, StmtsOk, Ends, Implements, M.Run;
    var s := Start(img.labels[l], Cons(envelope, Nil), Cons(map["this" := this_], Nil), h);
    var meaning := (n: nat) => BlockMeaning(img.g, n, ss, this_, envelope, h);
    forall n: nat ensures AgreesAt(img, s, meaning(n), n) {
      var k := BlockAgrees(img, n, at, ss, this_, envelope, img.labels[l], h);
    }
    Implemented(img, s, meaning);
  }

  lemma {:induction false} StubWorks(img: Image, l: M.Label, ss: seq<Node>, x: string, arg: Value, h: History)
    requires Loaded(img) && StmtsOk(img.g, FunctionSite(AllKnown(img.g.policy)), ss)
    requires Installed(img, l, StubCode(img.g, x, ss)) && l.ltype != M.Temporary
    ensures StubRuns(img.g, Module(img.prog, Entries(img.labels)), l, ss, x, arg, h)
  {
    hide Loaded, StubMeaning, StubCode, StmtsOk, Ends, Implements, M.Run;
    var s := Start(img.labels[l], Cons(arg, Nil), Cons(map[], Nil), h);
    var meaning := (n: nat) => StubMeaning(img.g, n, ss, x, arg, h);
    forall n: nat ensures AgreesAt(img, s, meaning(n), n) {
      var k := StubAgrees(img, n, ss, x, arg, img.labels[l], h);
    }
    Implemented(img, s, meaning);
  }

  lemma {:induction false} LoadedIsCorrect(img: Image)
    requires FullyLoaded(img)
    ensures Correct(img.g, Module(img.prog, Entries(img.labels)))
  {
    hide Installed, BlockCode, StubCode, ProcedureCode, FunctionLoaded, FinishLoaded, StmtsOk, StmtsCode, Entries,
      ActionRuns, BlockRuns, StubRuns;
    var g, mod := img.g, Module(img.prog, Entries(img.labels));
    forall i, args, h | 0 <= i < |g.policy.actions| && |args| == |g.policy.actions[i].params|
      ensures ActionRuns(g, mod, g.policy.actions[i], args, h)
    {
      ActionWorks(img, g.policy.actions[i], args, h);
    }
    forall i, this_, envelope, h | 0 <= i < |g.policy.commands|
      ensures BlockRuns(g, mod, M.Label(g.policy.commands[i].name, M.PolicyLabel), g.policy.commands[i].policy, this_,
        envelope, h)
      ensures BlockRuns(g, mod, M.Label(g.policy.commands[i].name, M.RecallLabel), g.policy.commands[i].recall, this_,
        envelope, h)
    {
      var c := g.policy.commands[i];
      assert CommandLoaded(img, c);
      BlockWorks(img, PolicySite(AllKnown(img.g.policy)), M.Label(c.name, M.PolicyLabel), c.policy, this_, envelope, h);
      BlockWorks(img, RecallSite(AllKnown(img.g.policy)), M.Label(c.name, M.RecallLabel), c.recall, this_, envelope, h);
    }
    forall i, arg, h | 0 <= i < |g.policy.commands|
      ensures StubRuns(g, mod, M.Label(g.policy.commands[i].name, M.SealLabel), g.policy.commands[i].seal, "this", arg,
        h)
      ensures StubRuns(g, mod, M.Label(g.policy.commands[i].name, M.OpenLabel), g.policy.commands[i].open, "envelope",
        arg, h)
    {
      var c := g.policy.commands[i];
      assert CommandLoaded(img, c);
      StubWorks(img, M.Label(c.name, M.SealLabel), c.seal, "this", arg, h);
      StubWorks(img, M.Label(c.name, M.OpenLabel), c.open, "envelope", arg, h);
    }
  }

  /** Why a policy is refused. */
  ghost predicate Blamed(g: Program, types: (nat, Question) -> bool, error: C.CompileError) {
    match error
    case BadType => !WellTyped(g, types)
    case LabelTaken(_) => !PolicyOk(g) || Collides(g)
    case BadTarget(_) | Unmapped => false
    case _ => !PolicyOk(g)
  }

  /** Compiling a policy yields a module that is correct whatever host it runs against and in
      whatever context, and all of whose targets are resolved and inside it. It succeeds
      exactly for the policies that meet the static rules, in which no finish function is named
      like a label the compiler makes up, and to all of whose questions the type checker
      agrees; otherwise the error says which of these fails. */
  method CompilePolicy(g: Program, types: (nat, Question) -> bool) returns (v: C.Verdict, mod: Module, ghost img: Image)
    ensures v.Fine? ==> PolicyOk(g) && forall host, ctx :: Correct(On(g, host, ctx), mod)
    ensures v.Fine? ==> FullyLoaded(img) && img.g == g && mod == Module(img.prog, Entries(img.labels))
    ensures v.Fine? ==> forall k :: 0 <= k < |mod.prog| ==> WellLinked(mod.prog, k)
    ensures v.Error? ==> Blamed(g, types, v.error)
    ensures v.Fine? <==> PolicyOk(g) && !Collides(g) && WellTyped(g, types)
    ensures v.Fine? <==> A.Permitted(g) && !Collides(g) && WellTyped(g, types)
  {
    hide Correct, PatchAll, Resolvable, WellLinked, PolicyOk, Agreed, Denied, Heard, Todo, Asks, FullyLoaded,
      A.Permitted;
    A.PolicyMeans(g);
    var state := new C.CompileState(g, types);
    ghost var before;
    v, before := state.Compile();
    AllSaid(g, types, state.asked);
    mod := Module(state.m.prog, state.m.labels);
    img := Image(g, PatchAll(before.labels, before.prog), before.labels);
    if v.Fine? || v.error.BadTarget? {
      Linked(g, before);
      forall host, ctx ensures Correct(On(g, host, ctx), Module(img.prog, Entries(img.labels))) {
        LoadedOn(img, host, ctx);
        LoadedIsCorrect(img.(g := On(g, host, ctx)));
      }
    }
  }
}
