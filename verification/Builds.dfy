/** The debug and the release module of a policy, run side by side. */
module Builds {
  import opened Values
  import opened Ast
  import opened Static
  import opened Layout
  import opened Programs
  import opened Naming
  import opened SimBase
  import opened Correctness
  import opened EndToEnd
  import opened Debugging
  import M = Machine
  import S = Semantics

  /** The ended run `t` shows outcome `o`: the value left behind, exit reason or fault, and the
      effects on the world. */
  predicate Came(o: Outcome<List<Value>>, t: M.State) {
    match o
    case Val(v, h) => t.Halted? && t.reason == Normal && t.cfg.stack == v && t.cfg.hist == h
    case Exit(r, h) => t.Halted? && t.reason == r && t.cfg.hist == h
    case Fail(f, h) => t == M.Faulted(f, h)
    case Timeout => false
  }

  /** Two ended runs that a host cannot tell apart. */
  ghost predicate Alike(t: M.State, t': M.State) {
    exists o :: Came(o, t) && Came(o, t')
  }

  /** An ended run whose operand stack did not overflow. */
  predicate Finished(t: M.State) {
    !t.Running? && !Overflowed(t)
  }

  /** The run from `s` comes to the same end as `t`, or overflows the operand stack. */
  ghost predicate EndsLike(g: Program, prog: seq<M.Instr>, s: M.Config, t: M.State) {
    exists j: nat :: Overflowed(Real(g, prog, s, j)) || Alike(t, Real(g, prog, s, j))
  }

  /** A finished run of what may need more depth is mirrored by what does not. */
  lemma {:induction false} Mirrored(
    g: Program, prog: seq<M.Instr>, s: M.Config, g': Program, prog': seq<M.Instr>, s': M.Config,
    f: nat -> Outcome<List<Value>>, f': nat -> Outcome<List<Value>>, k: nat) returns (n: nat)
    requires Implements(g, prog, s, f) && Implements(g', prog', s', f')
    requires forall n: nat :: Follows(true, f(n), f'(n))
    requires Finished(Real(g, prog, s, k))
    ensures !f(n).Timeout? && EndsLike(g', prog', s', Real(g, prog, s, k))
  {
    hide M.RealRun;
    var t := Real(g, prog, s, k);
    assert Shows(s, f, t);
    n :| Explains(f(n), s, n, t);
    assert f(n) == f'(n) && Came(f(n), t);
    assert Reaches(g', prog', s', f'(n), n);
    var j: nat :| Overflowed(Real(g', prog', s', j)) || Explains(f'(n), s', n, Real(g', prog', s', j));
    assert Overflowed(Real(g', prog', s', j)) || Came(f(n), Real(g', prog', s', j));
  }

  /** The other way round, once the first one comes to an outcome at all. */
  lemma {:induction false} MirroredBack(
    g: Program, prog: seq<M.Instr>, s: M.Config, g': Program, prog': seq<M.Instr>, s': M.Config,
    f: nat -> Outcome<List<Value>>, f': nat -> Outcome<List<Value>>, k: nat, n: nat)
    requires Implements(g, prog, s, f) && Implements(g', prog', s', f')
    requires Follows(true, f(n), f'(n)) && !f(n).Timeout?
    requires Finished(Real(g', prog', s', k))
    ensures EndsLike(g, prog, s, Real(g', prog', s', k))
  {
    hide M.RealRun;
    var t := Real(g', prog', s', k);
    assert Reaches(g', prog', s', f'(n), n);
    var j: nat :| Overflowed(Real(g', prog', s', j)) || Explains(f'(n), s', n, Real(g', prog', s', j));
    M.RealEndIsFinal(prog', g'.world, M.Running(s'), j, k);
    assert Came(f(n), t);
    assert Reaches(g, prog, s, f(n), n);
    var i: nat :| Overflowed(Real(g, prog, s, i)) || Explains(f(n), s, n, Real(g, prog, s, i));
    assert Overflowed(Real(g, prog, s, i)) || Came(f(n), Real(g, prog, s, i));
  }

  /** The run of a module from one of its labels. */
  function RunAt(g: Program, mod: Module, l: M.Label, stack: List<Value>, scope: Scope, h: History, k: nat): M.State
    requires l in mod.labels
  {
    Real(g, mod.prog, Start(mod.labels[l], stack, scope, h), k)
  }

  ghost predicate RunEndsLike(
    g: Program, mod: Module, l: M.Label, stack: List<Value>, scope: Scope, h: History, t: M.State)
    requires l in mod.labels
  {
    EndsLike(g, mod.prog, Start(mod.labels[l], stack, scope, h), t)
  }

  /** The two builds agree at an entry point: a finished debug run is mirrored by the release
      build; a finished release run is mirrored by the debug build if the conditions of the
      assertions are `settled`, and if they are not, the debug build never finishes. */
  ghost predicate Agree(
    g: Program, debug: Module, release: Module, l: M.Label, stack: List<Value>, scope: Scope, h: History, settled: bool)
  {
    l in debug.labels && l in release.labels &&
    (forall k: nat ::
      var t := RunAt(Debug(g), debug, l, stack, scope, h, k);
      Finished(t) ==> settled && RunEndsLike(Release(g), release, l, stack, scope, h, t)) &&
    (forall k: nat ::
      var t := RunAt(Release(g), release, l, stack, scope, h, k);
      Finished(t) && settled ==> RunEndsLike(Debug(g), debug, l, stack, scope, h, t))
  }

  lemma {:induction false} BuildsAgree(
    g: Program, debug: Module, release: Module, l: M.Label, stack: List<Value>, scope: Scope, h: History,
    f: nat -> Outcome<List<Value>>, f': nat -> Outcome<List<Value>>, settled: bool)
    requires Enters(Debug(g), debug, l, stack, scope, h, f) && Enters(Release(g), release, l, stack, scope, h, f')
    requires forall n: nat :: Follows(true, f(n), f'(n))
    requires settled <==> exists n: nat :: !f(n).Timeout?
    ensures Agree(g, debug, release, l, stack, scope, h, settled)
  {
    hide Implements, EndsLike, Finished, Real;
    var s, s' := Start(debug.labels[l], stack, scope, h), Start(release.labels[l], stack, scope, h);
    forall k: nat | Finished(Real(Debug(g), debug.prog, s, k))
      ensures settled && EndsLike(Release(g), release.prog, s', Real(Debug(g), debug.prog, s, k))
    {
      var n := Mirrored(Debug(g), debug.prog, s, Release(g), release.prog, s', f, f', k);
    }
    if settled {
      var n: nat :| !f(n).Timeout?;
      forall k: nat | Finished(Real(Release(g), release.prog, s', k))
        ensures EndsLike(Debug(g), debug.prog, s, Real(Release(g), release.prog, s', k))
      {
        MirroredBack(Debug(g), debug.prog, s, Release(g), release.prog, s', f, f', k, n);
      }
    }
  }

  // ---- Actions ----

  /** No assertion an action reaches in the release build ever comes out as anything but true,
      or has an effect, to whatever depth it is followed. */
  ghost predicate ActionHolds(g: Program, d: Definition, args: seq<Value>, h: History) {
    forall n: nat :: HoldBody(Release(g), n, true, Some(d), args, h)
  }

  /** At some depth the action ends and every assertion it reaches has come out. */
  ghost predicate ActionSettled(g: Program, d: Definition, args: seq<Value>, h: History) {
    exists n: nat :: HoldBody(Release(g), n, false, Some(d), args, h) &&
      !ActionMeaning(Release(g), n, d, args, h).Timeout?
  }

  lemma {:induction false} ActionFollows(g: Program, n: nat, late: bool, d: Definition, args: seq<Value>, h: History)
    requires HoldBody(Release(g), n, late, Some(d), args, h)
    ensures Follows(late, ActionMeaning(Debug(g), n, d, args, h), ActionMeaning(Release(g), n, d, args, h))
    ensures !ActionMeaning(Debug(g), n, d, args, h).Timeout? ==> HoldBody(Release(g), n, false, Some(d), args, h)
  {
    hide HoldBody, S.EvalProcedure;
    SameProcedure(g, n, late, Some(d), args, h);
  }

  /** Both builds of a policy take an action to the same end when no assertion it reaches
      fails. */
  lemma {:induction false} ActionBuildsAgree(
    g: Program, debug: Module, release: Module, i: nat, args: seq<Value>, h: History)
    requires Correct(Debug(g), debug) && Correct(Release(g), release)
    requires i < |g.policy.actions| && |args| == |g.policy.actions[i].params| &&
      ActionHolds(g, g.policy.actions[i], args, h)
    ensures
      var d := g.policy.actions[i];
      Agree(g, debug, release, M.Label(d.name, M.ActionLabel), PushAll(Nil, args), Cons(map[], Nil), h,
            ActionSettled(g, d, args, h))
  {
    hide Implements, ActionMeaning, HoldBody, Agree;
    var d := g.policy.actions[i];
    var f, f' := (n: nat) => ActionMeaning(Debug(g), n, d, args, h),
      (n: nat) => ActionMeaning(Release(g), n, d, args, h);
    assert ActionRuns(Debug(g), debug, d, args, h) && ActionRuns(Release(g), release, d, args, h);
    forall n: nat
      ensures Follows(true, f(n), f'(n)) && (!f(n).Timeout? ==> HoldBody(Release(g), n, false, Some(d), args, h))
    {
      ActionFollows(g, n, true, d, args, h);
    }
    if n: nat :| HoldBody(Release(g), n, false, Some(d), args, h) && !f'(n).Timeout? {
      ActionFollows(g, n, false, d, args, h);
      assert !f(n).Timeout?;
    }
    if n: nat :| !f(n).Timeout? { assert f(n) == f'(n); }
    BuildsAgree(g, debug, release, M.Label(d.name, M.ActionLabel), PushAll(Nil, args), Cons(map[], Nil), h, f, f',
                ActionSettled(g, d, args, h));
  }

  // ---- Policy and recall blocks ----

  ghost predicate BlockHolds(g: Program, n: nat, late: bool, ss: seq<Node>, this_: Value, envelope: Value, h: History) {
    var r := Define(g.world.globals, Cons(map["this" := this_], Nil), "envelope", envelope);
    r.Ok? ==> HoldStmts(Release(g), n, late, r.value, ss, h)
  }

  ghost predicate BlockSettled(g: Program, ss: seq<Node>, this_: Value, envelope: Value, h: History) {
    exists n: nat ::
      BlockHolds(g, n, false, ss, this_, envelope, h) && !BlockMeaning(Release(g), n, ss, this_, envelope, h).Timeout?
  }

  lemma {:induction false} BlockFollows(
    g: Program, n: nat, late: bool, ss: seq<Node>, this_: Value, envelope: Value, h: History)
    requires BlockHolds(g, n, late, ss, this_, envelope, h)
    ensures Follows(late, BlockMeaning(Debug(g), n, ss, this_, envelope, h),
      BlockMeaning(Release(g), n, ss, this_, envelope, h))
    ensures !BlockMeaning(Debug(g), n, ss, this_, envelope, h).Timeout? ==>
      BlockHolds(g, n, false, ss, this_, envelope, h)
  {
    hide HoldStmts, Define, S.EvalStmts;
    var r := Define(g.world.globals, Cons(map["this" := this_], Nil), "envelope", envelope);
    if r.Ok? { SameStmts(g, n, late, r.value, ss, h); }
  }

  lemma {:induction false} BlockBuildsAgree(
    g: Program, debug: Module, release: Module, l: M.Label, ss: seq<Node>, this_: Value, envelope: Value, h: History)
    requires BlockRuns(Debug(g), debug, l, ss, this_, envelope, h) &&
      BlockRuns(Release(g), release, l, ss, this_, envelope, h)
    requires forall n: nat :: BlockHolds(g, n, true, ss, this_, envelope, h)
    ensures Agree(g, debug, release, l, Cons(envelope, Nil), Cons(map["this" := this_], Nil), h,
                  BlockSettled(g, ss, this_, envelope, h))
  {
    hide Implements, BlockMeaning, BlockHolds, Agree;
    var f := (n: nat) => BlockMeaning(Debug(g), n, ss, this_, envelope, h);
    var f' := (n: nat) => BlockMeaning(Release(g), n, ss, this_, envelope, h);
    forall n: nat
      ensures Follows(true, f(n), f'(n)) && (!f(n).Timeout? ==> BlockHolds(g, n, false, ss, this_, envelope, h))
    {
      BlockFollows(g, n, true, ss, this_, envelope, h);
    }
    if n: nat :| BlockHolds(g, n, false, ss, this_, envelope, h) && !f'(n).Timeout? {
      BlockFollows(g, n, false, ss, this_, envelope, h);
      assert !f(n).Timeout?;
    }
    if n: nat :| !f(n).Timeout? { assert f(n) == f'(n); }
    BuildsAgree(g, debug, release, l, Cons(envelope, Nil), Cons(map["this" := this_], Nil), h, f, f',
                BlockSettled(g, ss, this_, envelope, h));
  }

  // ---- Seal and open blocks ----

  ghost predicate StubHolds(g: Program, n: nat, late: bool, ss: seq<Node>, x: string, arg: Value, h: History) {
    HoldBody(Release(g), n, late, Some(Definition("", [x], ss, 0)), [arg], h)
  }

  ghost predicate StubSettled(g: Program, ss: seq<Node>, x: string, arg: Value, h: History) {
    exists n: nat :: StubHolds(g, n, false, ss, x, arg, h) && !StubMeaning(Release(g), n, ss, x, arg, h).Timeout?
  }

  lemma {:induction false} StubFollows(g: Program, n: nat, late: bool, ss: seq<Node>, x: string, arg: Value, h: History)
    requires StubHolds(g, n, late, ss, x, arg, h)
    ensures Follows(late, StubMeaning(Debug(g), n, ss, x, arg, h), StubMeaning(Release(g), n, ss, x, arg, h))
    ensures !StubMeaning(Debug(g), n, ss, x, arg, h).Timeout? ==> StubHolds(g, n, false, ss, x, arg, h)
  {
    hide HoldBody, S.EvalFunction;
    SameFunction(g, n, late, Some(Definition("", [x], ss, 0)), [arg], h);
  }

  lemma {:induction false} StubBuildsAgree(
    g: Program, debug: Module, release: Module, l: M.Label, ss: seq<Node>, x: string, arg: Value, h: History)
    requires StubRuns(Debug(g), debug, l, ss, x, arg, h) && StubRuns(Release(g), release, l, ss, x, arg, h)
    requires forall n: nat :: StubHolds(g, n, true, ss, x, arg, h)
    ensures Agree(g, debug, release, l, Cons(arg, Nil), Cons(map[], Nil), h, StubSettled(g, ss, x, arg, h))
  {
    hide Implements, StubMeaning, StubHolds, Agree;
    var f := (n: nat) => StubMeaning(Debug(g), n, ss, x, arg, h);
    var f' := (n: nat) => StubMeaning(Release(g), n, ss, x, arg, h);
    forall n: nat ensures Follows(true, f(n), f'(n)) && (!f(n).Timeout? ==> StubHolds(g, n, false, ss, x, arg, h)) {
      StubFollows(g, n, true, ss, x, arg, h);
    }
    if n: nat :| StubHolds(g, n, false, ss, x, arg, h) && !f'(n).Timeout? {
      StubFollows(g, n, false, ss, x, arg, h);
      assert !f(n).Timeout?;
    }
    if n: nat :| !f(n).Timeout? { assert f(n) == f'(n); }
    BuildsAgree(g, debug, release, l, Cons(arg, Nil), Cons(map[], Nil), h, f, f', StubSettled(g, ss, x, arg, h));
  }

  // ---- An assertion that is never decided ----

  /** The condition of the only assertion calls a function that calls itself forever. */
  function Undecided(world: World): Program {
    var call := FunctionCall("f", []);
    Program(Policy([Definition("f", [], [Node(Return(call), 0)], 0)], [], [],
                   [Definition("act", [], [Node(DebugAssert(call), 0)], 0)]), world, false)
  }

  lemma {:induction false} NeverDecided(g: Program, n: nat, env: Scope, h: History)
    requires |g.policy.functions| == 1 &&
      g.policy.functions[0] == Definition("f", [], [Node(Return(FunctionCall("f", [])), 0)], 0)
    ensures S.EvalExpr(g, n, env, FunctionCall("f", []), h).Timeout?
    ensures HoldExpr(g, n, true, env, FunctionCall("f", []), h)
    decreases n
  {
    var d := g.policy.functions[0];
    assert FindDefinition(g.policy.functions, "f") == Some(d);
    assert S.EvalArgs(g, n, env, [], h) == Val([], h);
    if n > 0 {
      var inner: Scope := Cons(map[], Nil);
      NeverDecided(g, n - 1, inner, h);
      assert S.BindParams(g.world.globals, d.params, []) == Ok(inner);
      assert S.EvalStmt(g, n - 1, inner, d.body[0], h).Timeout?;
      assert S.EvalStmts(g, n - 1, inner, d.body, h).Timeout?;
      assert S.EvalFunction(g, n - 1, Some(d), [], h).Timeout?;
      assert HoldStmt(g, n - 1, true, inner, d.body[0], h);
      assert HoldStmts(g, n - 1, true, inner, d.body, h);
      assert HoldBody(g, n - 1, true, Some(d), [], h);
    }
  }

  /** So the release build can end where the debug build does not, without any assertion
      failing: being settled is needed. */
  lemma {:induction false} SettlingMatters(world: World, h: History, n: nat)
    ensures
      var g := Undecided(world);
      var d := g.policy.actions[0];
      PolicyOk(Debug(g)) && !Collides(Debug(g)) && PolicyOk(Release(g)) && !Collides(Release(g)) &&
      ActionHolds(g, d, [], h) && !ActionSettled(g, d, [], h) &&
      ActionMeaning(Release(g), n, d, [], h) == Val(Nil, h) && ActionMeaning(Debug(g), n, d, [], h).Timeout?
  {
    hide PolicyOk, Collides;
    UndecidedAccepted(world);
    var g := Undecided(world);
    var d := g.policy.actions[0];
    var env: Scope := Cons(map[], Nil);
    var call := FunctionCall("f", []);
    assert d.body[1..] == [];
    assert S.BindParams(g.world.globals, d.params, []) == Ok(env);
    forall n: nat
      ensures HoldBody(Release(g), n, true, Some(d), [], h) && !HoldBody(Release(g), n, false, Some(d), [], h)
    {
      NeverDecided(Release(g), n, env, h);
      assert HoldStmt(Release(g), n, true, env, d.body[0], h);
      assert S.EvalStmt(Release(g), n, env, d.body[0], h) == Val(S.Next(env), h);
      assert HoldStmts(Release(g), n, true, env, d.body[1..], h);
      assert !HoldStmt(Release(g), n, false, env, d.body[0], h);
    }
    assert S.EvalStmt(Release(g), n, env, d.body[0], h) == Val(S.Next(env), h);
    assert S.EvalStmts(Release(g), n, env, d.body[1..], h) == Val(S.Next(env), h);
    assert S.EvalStmts(Release(g), n, env, d.body, h) == Val(S.Next(env), h);
    assert S.EvalProcedure(Release(g), n, Some(d), [], h).Val?;
    NeverDecided(Debug(g), n, env, h);
    assert S.EvalStmt(Debug(g), n, env, d.body[0], h).Timeout?;
    assert S.EvalStmts(Debug(g), n, env, d.body, h).Timeout?;
  }

  /** The compiler takes this policy in both builds. */
  lemma {:induction false} UndecidedAccepted(world: World)
    ensures
      var g := Undecided(world);
      PolicyOk(Debug(g)) && !Collides(Debug(g)) && PolicyOk(Release(g)) && !Collides(Release(g))
  {
    BuildAccepted(Debug(Undecided(world)), world);
    BuildAccepted(Release(Undecided(world)), world);
  }

  lemma {:induction false} BuildAccepted(g: Program, world: World)
    requires g.policy == Undecided(world).policy
    ensures PolicyOk(g) && !Collides(g)
  {
    var call := FunctionCall("f", []);
    var f, d := g.policy.functions[0], g.policy.actions[0];
    assert f.body[1..] == [] && d.body[1..] == [] && g.policy.functions[1..] == [];
    assert FindDefinition(g.policy.functions, "f") == Some(f);
    assert g.policy.functions[..1] == [f] && [f][..0] == [];
    assert AddAll(map[], [f], false)["f"] == Signature(0, false);
    assert FunctionOk(g, f) by {
      assert Upto(g.policy.functions, "f") == 1;
      assert ExprOk(g, FunctionSite(KnownIn(g.policy, "f")), call);
      assert StmtOk(g, FunctionSite(KnownIn(g.policy, "f")), f.body[0]);
      assert StmtsCode(g, f.body) == StmtCode(g, f.body[0]);
      assert StmtCode(g, f.body[0])[|ExprCode(g, call)|] == I(M.Return);
    }
    assert ActionOk(g, d) by {
      assert ExprOk(g, ActionSite(AllKnown(g.policy)), call);
      assert StmtOk(g, ActionSite(AllKnown(g.policy)), d.body[0]);
    }
  }

  lemma OutcomeReached(
    g: Program, mod: Module, l: M.Label, stack: List<Value>, scope: Scope, h: History,
    meaning: nat -> Outcome<List<Value>>, n: nat)
    requires Enters(g, mod, l, stack, scope, h, meaning) && !meaning(n).Timeout?
    ensures Reaches(g, mod.prog, Start(mod.labels[l], stack, scope, h), meaning(n), n)
  {
    hide Reaches, Shows, Real;
  }

  /** Whatever modules the compiler makes of it, the release module ends and the debug module never
      finishes. */
  lemma {:induction false} OnlyOneEnds(world: World, debug: Module, release: Module, h: History)
    requires Correct(Debug(Undecided(world)), debug) && Correct(Release(Undecided(world)), release)
    ensures
      var g, l := Undecided(world), M.Label("act", M.ActionLabel);
      l in debug.labels && l in release.labels &&
      (exists k: nat :: !RunAt(Release(g), release, l, Nil, Cons(map[], Nil), h, k).Running?) &&
      forall k: nat :: !Finished(RunAt(Debug(g), debug, l, Nil, Cons(map[], Nil), h, k))
  {
    hide ActionMeaning, ActionHolds, ActionSettled, M.RealRun;
    var g, l := Undecided(world), M.Label("act", M.ActionLabel);
    var d := g.policy.actions[0];
    assert PushAll<Value>(Nil, []) == Nil;
    SettlingMatters(world, h, 0);
    ActionBuildsAgree(g, debug, release, 0, [], h);
    assert ActionRuns(Release(g), release, d, [], h);
    var s := Start(release.labels[l], Nil, Cons(map[], Nil), h);
    var meaning := (n: nat) => ActionMeaning(Release(g), n, d, [], h);
    assert meaning(0) == Val(Nil, h);
    OutcomeReached(Release(g), release, l, Nil, Cons(map[], Nil), h, meaning, 0);
    var k: nat :| Overflowed(Real(Release(g), release.prog, s, k)) ||
      Explains(Val(Nil, h), s, 0, Real(Release(g), release.prog, s, k));
    assert !RunAt(Release(g), release, l, Nil, Cons(map[], Nil), h, k).Running?;
  }
}
