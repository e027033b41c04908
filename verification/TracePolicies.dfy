/** Which entry points of a compiled policy can be traced to the end, in terms of the policy. */
module TracePolicies {
  import opened Values
  import opened Ast
  import opened Static
  import opened Layout
  import opened Programs
  import opened Flow
  import opened Discipline
  import opened Images
  import opened SimBase
  import opened Trails
  import opened TraceBounds
  import N = Naming
  import T = Tracing
  import M = Machine

  // ---- Calls of actions ----

  /** The list calls the action `b`. */
  predicate Mentions(ss: seq<Node>, b: string)
    decreases ss, 1
  {
    ss != [] && (StmtMentions(ss[0], b) || Mentions(ss[1..], b))
  }

  predicate StmtMentions(nd: Node, b: string)
    decreases nd, 0
  {
    match nd.stmt
    case ActionCall(name, _) => name == b
    case Match(_, arms) => ArmsMention(arms, b)
    case If(bs, fallback) => BranchesMention(bs, b) ||
      (match fallback case NoElse => false case Else(ss) => Mentions(ss, b))
    case Finish(body) => Mentions(body, b)
    case Map(_, _, body) => Mentions(body, b)
    case _ => false
  }

  predicate BranchesMention(bs: seq<Branch>, b: string)
    decreases bs, 2
  {
    bs != [] && (Mentions(bs[0].body, b) || BranchesMention(bs[1..], b))
  }

  predicate ArmsMention(arms: seq<Arm>, b: string)
    decreases arms, 2
  {
    arms != [] && (Mentions(arms[0].body, b) || ArmsMention(arms[1..], b))
  }

  function ActionCallTo(b: string): Op {
    CallTo(M.Label(b, M.ActionLabel))
  }

  lemma {:induction false} ExprCallsNone(g: Program, e: Expr, b: string)
    ensures ActionCallTo(b) !in ExprCode(g, e)
    decreases e, 0
  {
    hide ArgsCode, FieldsCode, FactCode;
    match e
    case NamedStruct(_, fields) => FieldsCallNone(g, StructMember, fields, b);
    case FactQuery(_, fact) => FactCallsNone(g, fact, b);
    case Conditional(c, yes, no) =>
      ExprCallsNone(g, c, b);
      ExprCallsNone(g, yes, b);
      ExprCallsNone(g, no, b);
    case FunctionCall(_, args) => ArgsCallNone(g, args, b);
    case ForeignCall(_, _, args) => ArgsCallNone(g, args, b);
    case Unary(_, a) => ExprCallsNone(g, a, b);
    case Binary(_, l, r) =>
      ExprCallsNone(g, l, b);
      ExprCallsNone(g, r, b);
    case _ =>
  }

  lemma {:induction false} ArgsCallNone(g: Program, es: seq<Expr>, b: string)
    ensures ActionCallTo(b) !in ArgsCode(g, es)
    decreases es, 0
  {
    hide ExprCode;
    if es != [] {
      ExprCallsNone(g, es[0], b);
      ArgsCallNone(g, es[1..], b);
    }
  }

  lemma {:induction false} FieldsCallNone(g: Program, m: Member, fs: seq<Field>, b: string)
    ensures ActionCallTo(b) !in FieldsCode(g, m, fs)
    decreases fs, 0
  {
    hide ExprCode;
    if fs != [] {
      FieldsCallNone(g, m, fs[1..], b);
      if fs[0].value.Given? { ExprCallsNone(g, fs[0].value.expr, b); }
    }
  }

  lemma {:induction false} FactCallsNone(g: Program, f: FactLiteral, b: string)
    ensures ActionCallTo(b) !in FactCode(g, f)
    decreases f, 0
  {
    hide FieldsCode;
    FieldsCallNone(g, KeyMember, f.keys, b);
    if f.values.GivenValues? { FieldsCallNone(g, ValueMember, f.values.fields, b); }
  }

  /** The code of an accepted list calls the actions that the list mentions, and there are none
      outside actions. */
  lemma {:induction false} StmtsCall(g: Program, at: Site, ss: seq<Node>, b: string)
    requires StmtsOk(g, at, ss)
    ensures ActionCallTo(b) in StmtsCode(g, ss) <==> Mentions(ss, b)
    ensures !at.ActionSite? ==> !Mentions(ss, b)
    decreases ss, 1
  {
    hide StmtCode, StmtOk, StmtMentions;
    if ss != [] {
      StmtCalls(g, at, ss[0], b);
      StmtsCall(g, at, ss[1..], b);
    }
  }

  lemma {:induction false} StmtCalls(g: Program, at: Site, nd: Node, b: string)
    requires StmtOk(g, at, nd)
    ensures ActionCallTo(b) in StmtCode(g, nd) <==> StmtMentions(nd, b)
    ensures !at.ActionSite? ==> !StmtMentions(nd, b)
    decreases nd, 0
  {
    hide ExprCode, ArgsCode, FieldsCode, FactCode, StmtsCode, BranchesCode, TestsCode, BodiesCode, ExprOk, ArgsOk,
      FactOk,
      StmtsOk, BranchesOk, ArmsOk, FactFitsSchema, Mentions;
    match nd.stmt
    case Let(_, e) => ExprCallsNone(g, e, b);
    case CheckThat(e) => ExprCallsNone(g, e, b);
    case DebugAssert(e) => ExprCallsNone(g, e, b);
    case Return(e) => ExprCallsNone(g, e, b);
    case Publish(e) => ExprCallsNone(g, e, b);
    case Emit(e) => ExprCallsNone(g, e, b);
    case Match(e, arms) =>
      ExprCallsNone(g, e, b);
      ArmsCall(g, at, arms, if HasDefault(arms) then 0 else 1, b);
    case If(bs, fallback) =>
      BranchesCall(g, at, bs, match fallback case NoElse => 0 case Else(ss) => |StmtsCode(g, ss)|, b);
      if fallback.Else? { StmtsCall(g, at, fallback.body, b); }
    case Finish(body) => StmtsCall(g, FinishSite(at.known), body, b);
    case Map(fact, _, body) =>
      FactCallsNone(g, fact, b);
      StmtsCall(g, at, body, b);
    case ActionCall(_, args) => ArgsCallNone(g, args, b);
    case FinishCall(_, args) => ArgsCallNone(g, args, b);
    case Create(fact) => FactCallsNone(g, fact, b);
    case Delete(fact) => FactCallsNone(g, fact, b);
    case Update(fact, to) =>
      FactCallsNone(g, fact, b);
      FieldsCallNone(g, ValueMember, to, b);
  }

  lemma {:induction false} BranchesCall(g: Program, at: Site, bs: seq<Branch>, after: nat, b: string)
    requires BranchesOk(g, at, bs)
    ensures ActionCallTo(b) in BranchesCode(g, bs, after) <==> BranchesMention(bs, b)
    ensures !at.ActionSite? ==> !BranchesMention(bs, b)
    decreases bs, 2
  {
    hide ExprCode, StmtsCode, StmtsOk, ExprOk, Mentions;
    if bs != [] {
      ExprCallsNone(g, bs[0].cond, b);
      StmtsCall(g, at, bs[0].body, b);
      BranchesCall(g, at, bs[1..], after, b);
    }
  }

  lemma {:induction false} ArmsCall(g: Program, at: Site, arms: seq<Arm>, gap: nat, b: string)
    requires ArmsOk(g, at, arms)
    ensures ActionCallTo(b) !in TestsCode(g, arms, gap)
    ensures ActionCallTo(b) in BodiesCode(g, arms) <==> ArmsMention(arms, b)
    ensures !at.ActionSite? ==> !ArmsMention(arms, b)
    decreases arms, 2
  {
    hide ValueTests, StmtsCode, StmtsOk, ArgsOk, Mentions;
    if arms != [] {
      var gap' := gap + |StmtsCode(g, arms[0].body)| + 2;
      if arms[0].pattern.Values? { TestsCallNone(g, arms[0].pattern.values, |TestsCode(g, arms[1..], gap')| + gap, b); }
      StmtsCall(g, at, arms[0].body, b);
      ArmsCall(g, at, arms[1..], gap', b);
    }
  }

  lemma {:induction false} TestsCallNone(g: Program, es: seq<Expr>, gap: nat, b: string)
    ensures ActionCallTo(b) !in ValueTests(g, es, gap)
    decreases |es|
  {
    hide ExprCode;
    if es != [] {
      ExprCallsNone(g, es[0], b);
      TestsCallNone(g, es[1..], gap, b);
    }
  }

  lemma {:induction false} ParamsCallNone(ps: seq<string>, b: string)
    ensures ActionCallTo(b) !in ParamsCode(ps)
  {
    if ps != [] { ParamsCallNone(ps[1..], b); }
  }

  // ---- Map statements, here or in what is called ----

  /** The action holds a map statement, or calls one that does, `n` calls away at most. */
  ghost predicate HoldsMap(g: Program, name: string, n: nat)
    decreases n
  {
    var d := FindDefinition(g.policy.actions, name);
    d.Some? && (!MapFree(d.value.body) || (n > 0 && exists b :: Mentions(d.value.body, b) && HoldsMap(g, b, n - 1)))
  }

  ghost predicate ReachesMap(g: Program, name: string) {
    exists n: nat :: HoldsMap(g, name, n)
  }

  /** Ranks that calls lower: an acyclic call graph. */
  type Rank = M.Label -> nat

  ghost predicate CallsBelow(rank: Rank, code: Code, r: nat) {
    forall k :: 0 <= k < |code| && code[k].CallTo? ==> rank(code[k].target) < r
  }

  ghost predicate Acyclic(g: Program, rank: Rank) {
    forall l :: CodeOf(g, l).Some? ==> CallsBelow(rank, CodeOf(g, l).value, rank(l))
  }

  // ---- Code that only moves forward ----

  predicate Forward(code: Code) {
    forall k :: 0 <= k < |code| ==>
      (code[k].JumpBy? ==> code[k].distance > 0) && (code[k].BranchBy? ==> code[k].distance > 0)
  }

  lemma {:induction false} SealedForward(md: Mode, code: Code, h: Height)
    requires Sealed(md, code, h) && !md.loops && !md.stub
    ensures Forward(code) && Tidy(md.g, code) && code != []
  {
    SealedTidy(md, code, h);
    hide CallEffect, Tidy;
    var hs :| Closed(md, code, hs, h);
    forall k | 0 <= k < |code|
      ensures (code[k].JumpBy? ==> code[k].distance > 0) && (code[k].BranchBy? ==> code[k].distance > 0)
    {
      assert Flows(md, code[k], hs, k);
    }
  }

  lemma {:induction false} WayForward(g: Program, n: nat, code: Code, a: int, b: int, m: nat)
    requires Forward(code) && Way(g, n, code, a, b, m)
    ensures a + m <= b
    decreases m
  {
    hide Returns;
    if m > 0 {
      var x :| Edge(g, n, code, a, x) && Way(g, n, code, x, b, m - 1);
      WayForward(g, n, code, x, b, m - 1);
    }
  }

  lemma {:induction false} ForwardCalm(g: Program, n: nat, code: Code)
    requires Forward(code)
    requires forall k :: 0 <= k < |code| && code[k].CallTo? ==> Settles(g, n, code[k].target)
    ensures Calm(g, n, code)
  {
    hide Way, Settles, Live, Forward;
    forall k | Live(g, n, code, k) ensures !Further(g, n, code, k, k) {
      if Further(g, n, code, k, k) {
        var m: nat :| m > 0 && Way(g, n, code, k, k, m);
        WayForward(g, n, code, k, k, m);
      }
    }
  }

  // ---- What settles ----

  /** A definition that only moves forward, and calls actions only if it is one. */
  lemma {:induction false} Definitive(g: Program, l: M.Label)
    requires PolicyOk(g) && CodeOf(g, l).Some? && (l.ltype.ActionLabel? ==> !HoldsMap(g, l.name, 0))
    ensures var code := CodeOf(g, l).value;
      Forward(code) && Tidy(g, code) &&
      forall b :: ActionCallTo(b) in code ==>
        l.ltype.ActionLabel? && Mentions(FindDefinition(g.policy.actions, l.name).value.body, b)
  {
    hide FindDefinition, Sealed, StmtsOk, Tidy, MapFree, Forward, StmtsCode, ParamsCode, Mentions;
    var p := g.policy;
    match l.ltype
    case FunctionLabel =>
      var d := FindDefinition(p.functions, l.name).value;
      assert FunctionOk(g, d) by { Found(p.functions, l.name); }
      FunctionSealed(g, d);
      SealedForward(Mode(g, Height(1, 0), false, false), FunctionCode(g, d), Height(|d.params|, 0));
      forall b ensures ActionCallTo(b) !in FunctionCode(g, d) {
        ParamsCallNone(d.params, b);
        StmtsCall(g, FunctionSite(KnownIn(p, d.name)), d.body, b);
      }
    case ActionLabel =>
      var d := FindDefinition(p.actions, l.name).value;
      assert ActionOk(g, d) by { Found(p.actions, l.name); }
      ActionSealed(g, d);
      SealedForward(Mode(g, Height(0, 0), false, false), ProcedureCode(g, d), Height(|d.params|, 0));
      forall b ensures ActionCallTo(b) in ProcedureCode(g, d) ==> Mentions(d.body, b) {
        ParamsCallNone(d.params, b);
        StmtsCall(g, ActionSite(AllKnown(p)), d.body, b);
      }
    case Temporary =>
      var d := FindDefinition(p.finishFunctions, l.name).value;
      assert FinishFunctionOk(g, d) by { Found(p.finishFunctions, l.name); }
      FinishFunctionSealed(g, d);
      SealedForward(Mode(g, Height(0, 0), false, false), ProcedureCode(g, d), Height(|d.params|, 0));
      forall b ensures ActionCallTo(b) !in ProcedureCode(g, d) {
        ParamsCallNone(d.params, b);
        StmtsCall(g, FinishSite(AllKnown(p)), d.body, b);
      }
  }

  lemma {:induction false} Found(ds: seq<Definition>, name: string)
    requires FindDefinition(ds, name).Some?
    ensures FindDefinition(ds, name).value in ds && FindDefinition(ds, name).value.name == name
  {
    FindSound(ds, name);
  }

  /** With an acyclic call graph every definition settles, unless a map statement can be reached. */
  lemma {:induction false} SettlesUnlessMap(g: Program, rank: Rank, l: M.Label, n: nat)
    requires PolicyOk(g) && Acyclic(g, rank) && CodeOf(g, l).Some? && rank(l) < n
    requires l.ltype.ActionLabel? ==> !ReachesMap(g, l.name)
    ensures Settles(g, n, l)
    decreases n
  {
    hide PolicyOk, Calm, Forward, TidyAt;
    var code := CodeOf(g, l).value;
    assert CallsBelow(rank, code, rank(l));
    Definitive(g, l);
    hide Acyclic, CodeOf;
    forall k | 0 <= k < |code| && code[k].CallTo? ensures Settles(g, n - 1, code[k].target) {
      var l' := code[k].target;
      assert CodeOf(g, l').Some? by { CallFound(g, code, k); }
      if l'.ltype.ActionLabel? {
        assert code[k] == ActionCallTo(l'.name);
        MapBehind(g, l.name, l'.name);
      }
      SettlesUnlessMap(g, rank, l', n - 1);
    }
    ForwardCalm(g, n - 1, code);
  }

  lemma CallFound(g: Program, code: Code, k: int)
    requires Tidy(g, code) && 0 <= k < |code| && code[k].CallTo?
    ensures CodeOf(g, code[k].target).Some?
  {
    hide CodeOf;
    assert TidyAt(g, code, k);
  }

  lemma {:induction false} MapBehind(g: Program, name: string, b: string)
    requires FindDefinition(g.policy.actions, name).Some? &&
      Mentions(FindDefinition(g.policy.actions, name).value.body, b)
    ensures ReachesMap(g, b) ==> ReachesMap(g, name)
  {
    hide FindDefinition, Mentions, MapFree;
    if ReachesMap(g, b) {
      var n: nat :| HoldsMap(g, b, n);
      assert HoldsMap(g, name, n + 1);
    }
  }

  // ---- Entry points without actions ----

  /** A rank above everything a piece of code calls. */
  function Above(rank: Rank, code: Code): nat {
    if code == [] then 0
    else
      var rest := Above(rank, code[1..]);
      if code[0].CallTo? && rest <= rank(code[0].target) then rank(code[0].target) + 1 else rest
  }

  lemma {:induction false} AboveAll(rank: Rank, code: Code)
    ensures CallsBelow(rank, code, Above(rank, code))
  {
    if code != [] {
      AboveAll(rank, code[1..]);
      forall k | 0 <= k < |code| && code[k].CallTo? ensures rank(code[k].target) < Above(rank, code) {
        if k > 0 { assert code[1..][k - 1] == code[k]; }
      }
    }
  }

  /** Forward code that calls no action. */
  lemma {:induction false} EverForward(g: Program, rank: Rank, code: Code)
    requires PolicyOk(g) && Acyclic(g, rank) && Forward(code) && Tidy(g, code)
    requires forall b :: ActionCallTo(b) !in code
    ensures EverCalm(g, code)
  {
    hide PolicyOk, Acyclic, Forward, TidyAt, Calm, CodeOf, ReachesMap, Settles;
    var n := Above(rank, code);
    AboveAll(rank, code);
    forall k | 0 <= k < |code| && code[k].CallTo? ensures Settles(g, n, code[k].target) {
      CallFound(g, code, k);
      assert code[k].target.ltype.ActionLabel? ==> code[k] == ActionCallTo(code[k].target.name);
      SettlesUnlessMap(g, rank, code[k].target, n);
    }
    ForwardCalm(g, n, code);
  }

  ghost predicate Traceable<A>(c: T.Code<A>, at: int) {
    Ends(c, T.Place(at, []))
  }

  lemma {:induction false} BlockTraceable<A>(c: T.Code<A>, img: Image, rank: Rank, at: Site, ss: seq<Node>, base: int)
    requires c.prog == img.prog && Loaded(img) && PolicyOk(img.g) && Acyclic(img.g, rank)
    requires (at.PolicySite? || at.RecallSite?) && StmtsOk(img.g, at, ss) && Holds(img, base, BlockCode(img.g, ss))
    ensures Traceable(c, base)
  {
    hide Loaded, PolicyOk, Acyclic, Holds, StmtsOk, StmtsCode, Sealed, Tidy, Forward, Ends, EverCalm, Mentions;
    var g, code := img.g, BlockCode(img.g, ss);
    BlockSealed(g, at, ss);
    SealedForward(Mode(g, Height(0, 0), false, false), code, Height(1, 0));
    forall b ensures ActionCallTo(b) !in code {
      StmtsCall(g, at, ss, b);
    }
    EverForward(g, rank, code);
    Exact(c, img, base, code, []);
  }

  /** A call stub in front of code like a function's. */
  lemma {:induction false} StubTraceable<A>(c: T.Code<A>, img: Image, rank: Rank, x: string, ss: seq<Node>, base: int)
    requires c.prog == img.prog && Loaded(img) && PolicyOk(img.g) && Acyclic(img.g, rank)
    requires StubOk(img.g, ss) && Holds(img, base, StubCode(img.g, x, ss))
    ensures Traceable(c, base)
  {
    hide Loaded, PolicyOk, Acyclic, Holds, StmtsOk, StmtsCode, Sealed, Tidy, Forward, Ends, EverCalm, Mentions, T.Ahead;
    var g, head := img.g, [CallBy(2), I(M.Exit(Normal))];
    var body := ([I(M.Def(x))] + StmtsCode(g, ss)) + [I(M.Exit(Panic))];
    assert StubCode(g, x, ss) == head + body;
    Split(img, base, head, body);
    StubSealed(g, x, ss);
    SealedForward(Mode(g, Height(1, 0), false, false), body, Height(1, 0));
    forall b ensures ActionCallTo(b) !in body {
      StmtsCall(g, FunctionSite(AllKnown(g.policy)), ss, b);
    }
    EverForward(g, rank, body);
    HeadAhead(c, img, base);
    EndsAfter(c, T.Place(base + 1, []));
    ResumesAt(c, base, []);
    assert [] + [base] == [base];
    Exact(c, img, base + 2, body, [base]);
    EndsAfter(c, T.Place(base, []));
  }

  lemma {:induction false} HeadAhead<A>(c: T.Code<A>, img: Image, base: int)
    requires c.prog == img.prog && Holds(img, base, [CallBy(2), I(M.Exit(Normal))])
    ensures T.Ahead(c, T.Place(base, [])) == Some([T.Place(base + 2, [base])])
    ensures T.Ahead(c, T.Place(base + 1, [])) == Some([])
  {
    var code: Code := [CallBy(2), I(M.Exit(Normal))];
    var none: seq<int> := [];
    assert none + [base] == [base];
    OpAt(img, base, code, 0);
    OpAt(img, base, code, 1);
  }

  ghost predicate CommandTraceable<A>(c: T.Code<A>, img: Image, cmd: Command)
    requires CommandLoaded(img, cmd)
  {
    Traceable(c, img.labels[M.Label(cmd.name, M.PolicyLabel)]) &&
    Traceable(c, img.labels[M.Label(cmd.name, M.RecallLabel)]) &&
    Traceable(c, img.labels[M.Label(cmd.name, M.SealLabel)]) &&
    Traceable(c, img.labels[M.Label(cmd.name, M.OpenLabel)])
  }

  /** With an acyclic call graph, tracing ends from every function and from all four entry points
      of every command, whatever the actions hold. */
  lemma {:induction false} PolicyTraceable<A>(c: T.Code<A>, img: Image, rank: Rank)
    requires c.prog == img.prog && FullyLoaded(img) && PolicyOk(img.g) && Acyclic(img.g, rank)
    ensures forall i :: 0 <= i < |img.g.policy.functions| ==>
      Traceable(c, img.labels[M.Label(img.g.policy.functions[i].name, M.FunctionLabel)])
    ensures forall i :: 0 <= i < |img.g.policy.commands| ==> CommandTraceable(c, img, img.g.policy.commands[i])
  {
    hide Holds, FunctionCode, ProcedureCode, StmtsOk, StmtsCode, Acyclic, CommandTraceable, CommandOk, FunctionOk,
      FinishFunctionOk, ActionOk, CommandLoaded, Ends, EverSettles, FindDefinition;
    var g := img.g;
    forall i | 0 <= i < |g.policy.functions|
      ensures Traceable(c, img.labels[M.Label(g.policy.functions[i].name, M.FunctionLabel)])
    {
      var l := M.Label(g.policy.functions[i].name, M.FunctionLabel);
      Finds(g.policy.functions, i);
      CallExact(c, img, l);
      SettlesUnlessMap(g, rank, l, rank(l) + 1);
      EverFrom(g, rank(l) + 1, l);
    }
    forall i | 0 <= i < |g.policy.commands| ensures CommandTraceable(c, img, g.policy.commands[i]) {
      assert CommandLoaded(img, g.policy.commands[i]);
      CommandEnds(c, img, rank, g.policy.commands[i]);
    }
  }

  lemma EverFrom(g: Program, n: nat, l: M.Label)
    requires Settles(g, n, l)
    ensures EverSettles(g, l)
  {
  }

  lemma {:induction false} Finds(ds: seq<Definition>, i: nat)
    requires i < |ds|
    ensures FindDefinition(ds, ds[i].name).Some?
  {
    if i > 0 && ds[0].name != ds[i].name {
      Finds(ds[1..], i - 1);
      assert ds[1..][i - 1] == ds[i];
    }
  }

  lemma {:induction false} CommandEnds<A>(c: T.Code<A>, img: Image, rank: Rank, cmd: Command)
    requires c.prog == img.prog && Loaded(img) && PolicyOk(img.g) && Acyclic(img.g, rank) && CommandLoaded(img, cmd)
    ensures CommandTraceable(c, img, cmd)
  {
    hide Holds, Loaded, PolicyOk, StmtsOk, StmtsCode, StubCode, StubOk, BlockCode, Acyclic, Traceable;
    var known := AllKnown(img.g.policy);
    BlockTraceable(c, img, rank, PolicySite(known), cmd.policy, img.labels[M.Label(cmd.name, M.PolicyLabel)]);
    BlockTraceable(c, img, rank, RecallSite(known), cmd.recall, img.labels[M.Label(cmd.name, M.RecallLabel)]);
    StubTraceable(c, img, rank, "this", cmd.seal, img.labels[M.Label(cmd.name, M.SealLabel)]);
    StubTraceable(c, img, rank, "envelope", cmd.open, img.labels[M.Label(cmd.name, M.OpenLabel)]);
  }

  // ---- Actions with map statements ----

  /** Every match of every definition has an arm, and every arm can be chosen. */
  predicate AllOrderly(g: Program) {
    (forall i :: 0 <= i < |g.policy.functions| ==> Orderly(g.policy.functions[i].body, true)) &&
    (forall i :: 0 <= i < |g.policy.finishFunctions| ==> Orderly(g.policy.finishFunctions[i].body, true)) &&
    forall i :: 0 <= i < |g.policy.actions| ==> Orderly(g.policy.actions[i].body, true)
  }

  lemma {:induction false} ParamsOpen(ps: seq<string>)
    ensures Open(ParamsCode(ps))
  {
    hide Open;
    if ps == [] {
      OpenNone();
    } else {
      var last := [M.Meta(M.LetMark(ps[0])), M.Def(ps[0])];
      ParamsOpen(ps[1..]);
      InstrsOpen(last);
      OpenThen(ParamsCode(ps[1..]), Instrs(last));
      assert Instrs(last) == [I(M.Meta(M.LetMark(ps[0]))), I(M.Def(ps[0]))];
    }
  }

  lemma {:induction false} FunctionGets(g: Program, d: Definition)
    requires FunctionOk(g, d) && Orderly(d.body, true)
    ensures Gets(FunctionCode(g, d))
  {
    hide StmtsOk, StmtsCode, ParamsCode, Orderly, Gets, Leads;
    if Orderly(d.body, false) { StmtsOpen(g, d.body); }
    StmtsGet(g, FunctionSite(KnownIn(g.policy, d.name)), d.body);
    ParamsOpen(d.params);
    var code, ps := FunctionCode(g, d), ParamsCode(d.params);
    LeadsWithin(code, 0, ps, 0, |ps|);
    GetWithin(code, |ps|, StmtsCode(g, d.body));
  }

  /** Control gets everywhere in an orderly action or finish function, and round if it holds a map. */
  lemma {:induction false} ProcedureReached(g: Program, d: Definition)
    requires Orderly(d.body, false)
    ensures var code := ProcedureCode(g, d);
      Gets(code) && (forall k :: 0 <= k < |code| ==> Leads(code, 0, k)) && (!MapFree(d.body) ==> Spins(code))
  {
    hide StmtsCode, ParamsCode, Orderly, Leads, MapFree, Spins;
    var ps, body, code := ParamsCode(d.params), StmtsCode(g, d.body), ProcedureCode(g, d);
    ParamsOpen(d.params);
    StmtsOpen(g, d.body);
    OpenThen(ps, body);
    assert code == (ps + body) + [I(M.Return)];
    assert Within(code, 0, ps + body) && Within(code, |ps|, body);
    forall k | 0 <= k < |code| ensures Leads(code, 0, k) {
      LeadsWithin(code, 0, ps + body, 0, k);
    }
    assert code[|ps + body|] == I(M.Return);
    if !MapFree(d.body) {
      StmtsSpin(g, d.body);
      SpinWithin(code, |ps|, body);
    }
  }

  /** Where everything called comes back, trails are ways. */
  lemma {:induction false} TrailWay(g: Program, n: nat, code: Code, a: int, b: int, m: nat)
    requires forall k :: 0 <= k < |code| && code[k].CallTo? ==> Returns(g, n, code[k].target)
    requires Trail(code, a, b, m)
    ensures Way(g, n, code, a, b, m)
    decreases m
  {
    hide Returns;
    if m > 0 {
      var x :| Step(code, a, x) && Trail(code, x, b, m - 1);
      TrailWay(g, n, code, x, b, m - 1);
      assert Edge(g, n, code, a, x);
    }
  }

  lemma {:induction false} LeadsLive(g: Program, n: nat, code: Code, k: int)
    requires forall k :: 0 <= k < |code| && code[k].CallTo? ==> Returns(g, n, code[k].target)
    requires Leads(code, 0, k)
    ensures Live(g, n, code, k)
  {
    hide Returns, Trail;
    var m: nat :| Trail(code, 0, k, m);
    TrailWay(g, n, code, 0, k, m);
  }

  lemma {:induction false} GetsComes(g: Program, n: nat, code: Code)
    requires forall k :: 0 <= k < |code| && code[k].CallTo? ==> Returns(g, n, code[k].target)
    requires Gets(code)
    ensures Comes(g, n, code, 0)
  {
    hide Returns, Trail;
    var k :| 0 <= k < |code| && code[k] == I(M.Return) && Leads(code, 0, k);
    var m: nat :| Trail(code, 0, k, m);
    TrailWay(g, n, code, 0, k, m);
    assert At(code, k, I(M.Return));
  }

  lemma {:induction false} DefinitionGets(g: Program, l: M.Label)
    requires PolicyOk(g) && AllOrderly(g) && CodeOf(g, l).Some?
    ensures Gets(CodeOf(g, l).value) && Tidy(g, CodeOf(g, l).value)
  {
    hide Gets, FunctionOk, FinishFunctionOk, ActionOk, FindDefinition, FunctionCode, ProcedureCode, Tidy, Orderly,
      CommandOk, Sealed;
    var p := g.policy;
    match l.ltype
    case FunctionLabel =>
      var d := FindDefinition(p.functions, l.name).value;
      assert FunctionOk(g, d) && Orderly(d.body, true) by { Found(p.functions, l.name); }
      FunctionGets(g, d);
      FunctionSealed(g, d);
      SealedTidy(Mode(g, Height(1, 0), false, false), FunctionCode(g, d), Height(|d.params|, 0));
    case ActionLabel =>
      var d := FindDefinition(p.actions, l.name).value;
      assert ActionOk(g, d) && Orderly(d.body, true) by { Found(p.actions, l.name); }
      ActionGets(g, d);
    case Temporary =>
      var d := FindDefinition(p.finishFunctions, l.name).value;
      assert FinishFunctionOk(g, d) && Orderly(d.body, true) by { Found(p.finishFunctions, l.name); }
      FinishGets(g, d);
  }

  lemma {:induction false} ActionGets(g: Program, d: Definition)
    requires ActionOk(g, d) && Orderly(d.body, true)
    ensures Orderly(d.body, false) && Gets(ProcedureCode(g, d)) && Tidy(g, ProcedureCode(g, d))
  {
    hide Gets, StmtsOk, Orderly, ProcedureCode, Tidy, Sealed, MapFree;
    StmtsStay(g, ActionSite(AllKnown(g.policy)), d.body);
    ProcedureReached(g, d);
    ActionSealed(g, d);
    SealedTidy(Mode(g, Height(0, 0), !MapFree(d.body), false), ProcedureCode(g, d), Height(|d.params|, 0));
  }

  lemma {:induction false} FinishGets(g: Program, d: Definition)
    requires FinishFunctionOk(g, d) && Orderly(d.body, true)
    ensures Gets(ProcedureCode(g, d)) && Tidy(g, ProcedureCode(g, d))
  {
    hide Gets, StmtsOk, Orderly, ProcedureCode, Tidy, Sealed;
    StmtsStay(g, FinishSite(AllKnown(g.policy)), d.body);
    ProcedureReached(g, d);
    FinishFunctionSealed(g, d);
    SealedTidy(Mode(g, Height(0, 0), false, false), ProcedureCode(g, d), Height(|d.params|, 0));
  }

  /** With an acyclic call graph every orderly definition comes back. */
  lemma {:induction false} AllReturn(g: Program, rank: Rank, l: M.Label, n: nat)
    requires PolicyOk(g) && AllOrderly(g) && Acyclic(g, rank) && CodeOf(g, l).Some? && rank(l) < n
    ensures Returns(g, n, l)
    decreases n
  {
    hide PolicyOk, AllOrderly, Gets, TidyAt, Comes;
    var code := CodeOf(g, l).value;
    assert CallsBelow(rank, code, rank(l));
    DefinitionGets(g, l);
    hide Acyclic, CodeOf;
    forall k | 0 <= k < |code| && code[k].CallTo? ensures Returns(g, n - 1, code[k].target) {
      CallFound(g, code, k);
      AllReturn(g, rank, code[k].target, n - 1);
    }
    GetsComes(g, n - 1, code);
  }

  /** An action from which a map statement is reached is not calm. */
  lemma {:induction false} MapNotCalm(g: Program, rank: Rank, name: string, m: nat, n: nat)
    requires PolicyOk(g) && AllOrderly(g) && Acyclic(g, rank) && HoldsMap(g, name, m)
    requires rank(M.Label(name, M.ActionLabel)) <= n
    ensures !Calm(g, n, CodeOf(g, M.Label(name, M.ActionLabel)).value)
    decreases m
  {
    hide PolicyOk, TidyAt, Orderly, Returns, Live, Further, MapFree, Mentions, FindDefinition, ProcedureCode, Leads,
      Gets;
    var l, d := M.Label(name, M.ActionLabel), FindDefinition(g.policy.actions, name).value;
    var code := ProcedureCode(g, d);
    assert CodeOf(g, l) == Some(code);
    assert CallsBelow(rank, code, rank(l));
    assert ActionOk(g, d) && Orderly(d.body, true) by { Accepted(g, name); }
    ActionGets(g, d);
    ProcedureReached(g, d);
    hide Acyclic, Spins;
    forall k | 0 <= k < |code| && code[k].CallTo? ensures Returns(g, n, code[k].target) {
      CallFound(g, code, k);
      AllReturn(g, rank, code[k].target, n);
    }
    if !MapFree(d.body) {
      SpinNotCalm(g, n, code);
    } else {
      var b :| Mentions(d.body, b) && HoldsMap(g, b, m - 1);
      var k := Called(g, d, b);
      LeadsLive(g, n, code, k);
      if n > 0 { MapNotCalm(g, rank, b, m - 1, n - 1); }
      hide HoldsMap, CodeOf;
      assert !Settles(g, n, code[k].target);
    }
  }

  lemma {:induction false} Accepted(g: Program, name: string)
    requires PolicyOk(g) && AllOrderly(g) && FindDefinition(g.policy.actions, name).Some?
    ensures ActionOk(g, FindDefinition(g.policy.actions, name).value) &&
      Orderly(FindDefinition(g.policy.actions, name).value.body, true)
  {
    hide ActionOk, Orderly, FindDefinition, FunctionOk, FinishFunctionOk, CommandOk;
    Found(g.policy.actions, name);
  }

  lemma {:induction false} Called(g: Program, d: Definition, b: string) returns (k: int)
    requires ActionOk(g, d) && Mentions(d.body, b)
    ensures 0 <= k < |ProcedureCode(g, d)| && ProcedureCode(g, d)[k] == ActionCallTo(b)
  {
    hide StmtsOk, StmtsCode, ParamsCode, Mentions;
    StmtsCall(g, ActionSite(AllKnown(g.policy)), d.body, b);
    assert ActionCallTo(b) in ProcedureCode(g, d);
    k :| 0 <= k < |ProcedureCode(g, d)| && ProcedureCode(g, d)[k] == ActionCallTo(b);
  }

  lemma {:induction false} SpinNotCalm(g: Program, n: nat, code: Code)
    requires forall k :: 0 <= k < |code| && code[k].CallTo? ==> Returns(g, n, code[k].target)
    requires (forall k :: 0 <= k < |code| ==> Leads(code, 0, k)) && Spins(code)
    ensures !Calm(g, n, code)
  {
    hide Returns, Leads, Trail, Live, Settles;
    var k :| 0 <= k < |code| && Turns(code, k);
    var m: nat :| m > 0 && Trail(code, k, k, m);
    LeadsLive(g, n, code, k);
    TrailWay(g, n, code, k, k, m);
    assert Further(g, n, code, k, k);
  }

  /** The exact condition for actions: with an acyclic call graph and orderly matches, tracing ends
      if and only if neither the action nor any action it calls, however far away, holds a map. */
  lemma {:induction false} ActionTraceable<A>(c: T.Code<A>, img: Image, rank: Rank, i: nat)
    requires c.prog == img.prog && Loaded(img) && PolicyOk(img.g) && Acyclic(img.g, rank) && i < |img.g.policy.actions|
    ensures
      var name := img.g.policy.actions[i].name;
      var l := M.Label(name, M.ActionLabel);
      l in img.labels && (!ReachesMap(img.g, name) ==> Traceable(c, img.labels[l])) &&
      (AllOrderly(img.g) ==> (Traceable(c, img.labels[l]) <==> !ReachesMap(img.g, name)))
  {
    hide Loaded, PolicyOk, Acyclic, AllOrderly, T.Bounded, Calm, EverSettles, FindDefinition, ProcedureCode, HoldsMap,
      Holds, Settles;
    var g, name := img.g, img.g.policy.actions[i].name;
    var l := M.Label(name, M.ActionLabel);
    Finds(g.policy.actions, i);
    CallExact(c, img, l);
    if !ReachesMap(g, name) {
      SettlesUnlessMap(g, rank, l, rank(l) + 1);
      EverFrom(g, rank(l) + 1, l);
    } else if AllOrderly(g) && Traceable(c, img.labels[l]) {
      Callee(img, l);
      var m: nat :| HoldsMap(g, name, m);
      var n: nat :| T.Bounded(c, T.Place(img.labels[l], []), n);
      var n' := if n < rank(l) then rank(l) else n;
      BoundedMore(c, T.Place(img.labels[l], []), n, n');
      BoundedCalm(c, img, img.labels[l], CodeOf(g, l).value, [], n');
      MapNotCalm(g, rank, name, m, n');
    }
  }

  // ---- Policies that cannot be traced ----

  /** The compiler takes the policy: it meets the rules and no name is in the way. */
  ghost predicate Compiles(g: Program) {
    PolicyOk(g) && !N.Collides(g)
  }

  const GO := M.Label("go", M.ActionLabel)

  /** One action that goes through all facts `F` and does `body` for each. */
  function Mapper(world: World, body: seq<Node>): Program {
    var facts := map["F" := FactDef(false, [], [])];
    Program(Policy([], [], [], [Definition("go", [], [Node(Map(FactLiteral("F", [], NoValues), "x", body), 0)], 0)]),
            world.(facts := facts), false)
  }

  /** However this policy is compiled, its action is never traced to the end. */
  lemma {:induction false} MapNeverTraced<A>(c: T.Code<A>, img: Image, world: World)
    requires FullyLoaded(img) && img.g == Mapper(world, []) && c.prog == img.prog
    ensures Compiles(img.g) && GO in img.labels && !Traceable(c, img.labels[GO])
  {
    hide Loaded, Acyclic, AllOrderly, HoldsMap, Traceable, Mapper, PolicyOk, N.Collides, CommandLoaded;
    MapperAccepted(world);
    MapperMaps(world);
    assert ReachesMap(img.g, "go");
    ActionTraceable(c, img, FLAT, 0);
  }

  const FLAT: Rank := l => 0

  lemma {:induction false} FindOnly(d: Definition, name: string)
    ensures FindDefinition([d], name) == if d.name == name then Some(d) else None
  {
    assert [d][1..] == [];
  }

  lemma {:induction false} MapperMaps(world: World)
    ensures var g := Mapper(world, []); Acyclic(g, FLAT) && AllOrderly(g) && HoldsMap(g, "go", 0)
  {
    var g, d := Mapper(world, []), Mapper(world, []).policy.actions[0];
    MapperCode(world);
    forall l | CodeOf(g, l).Some? ensures CallsBelow(FLAT, CodeOf(g, l).value, FLAT(l)) {
      hide ProcedureCode;
      FindOnly(d, l.name);
    }
    FindOnly(d, "go");
    assert FindDefinition(g.policy.actions, "go") == Some(d);
    assert d.body[1..] == [];
    assert StmtOrderly(d.body[0], true) && Orderly(d.body, true);
    assert !StmtMapFree(d.body[0]) && !MapFree(d.body);
  }

  lemma MapperCode(world: World)
    ensures ProcedureCode(Mapper(world, []), Mapper(world, []).policy.actions[0]) ==
      [I(M.FactNew("F")), I(M.QueryStart), I(M.Block), I(M.QueryNext("x")), BranchBy(3), I(M.End), JumpBy(-4), I(M.End),
       I(M.Return)]
  {
    var g, d := Mapper(world, []), Mapper(world, []).policy.actions[0];
    var nd := d.body[0];
    assert FactCode(g, nd.stmt.fact) == [I(M.FactNew("F"))];
    assert StmtsCode(g, nd.stmt.body) == [];
    assert StmtCode(g, nd) == [I(M.FactNew("F"))] + ([I(M.QueryStart)] + LoopCode("x", []));
    assert d.body[1..] == [];
    assert StmtsCode(g, d.body) == StmtCode(g, nd);
  }

  lemma MapperAccepted(world: World)
    ensures
      var g := Mapper(world, []);
      Compiles(g) && |g.policy.actions| == 1 && g.policy.actions[0].name == "go"
  {
    var g, d := Mapper(world, []), Mapper(world, []).policy.actions[0];
    assert d.body[1..] == [];
    assert StmtOk(g, ActionSite(AllKnown(g.policy)), d.body[0]);
  }

  /** A match without arms: no way leads past it. */
  const STOP := Node(Match(Literal(IntV(1)), []), 0)

  /** So orderly matches are needed: this action holds a map and is traced to the end. */
  lemma {:induction false} OrderMatters<A>(c: T.Code<A>, img: Image, world: World)
    requires FullyLoaded(img) && img.g == Mapper(world, [STOP]) && c.prog == img.prog
    ensures Compiles(img.g) && ReachesMap(img.g, "go") && GO in img.labels && Traceable(c, img.labels[GO])
  {
    hide HoldsMap, Traceable, PolicyOk, N.Collides, CommandLoaded, FunctionLoaded, FinishLoaded, StmtsOk, Holds,
      ProcedureCode;
    StoppedAccepted(world);
    StoppedMaps(world);
    StoppedCode(world);
    assert ActionLoaded(img, img.g.policy.actions[0]);
    StoppedEnds(c, img, img.labels[GO]);
  }

  lemma {:induction false} StoppedMaps(world: World)
    ensures HoldsMap(Mapper(world, [STOP]), "go", 0)
  {
    var g, d := Mapper(world, [STOP]), Mapper(world, [STOP]).policy.actions[0];
    FindOnly(d, "go");
    assert FindDefinition(g.policy.actions, "go") == Some(d);
    assert !StmtMapFree(d.body[0]) && !MapFree(d.body);
  }

  function Stopped(): Code {
    [I(M.FactNew("F")), I(M.QueryStart), I(M.Block), I(M.QueryNext("x")), BranchBy(5), I(M.Const(IntV(1))),
      I(M.Exit(Panic)),
     I(M.End), JumpBy(-6), I(M.End), I(M.Return)]
  }

  lemma {:induction false} StoppedAhead<A>(c: T.Code<A>, img: Image, base: int, k: int)
    requires c.prog == img.prog && Holds(img, base, Stopped()) && (0 <= k <= 6 || 9 <= k <= 10)
    ensures
      var next := T.Ahead(c, T.Place(base + k, []));
      if k == 6 || k == 10 then next == Some([])
      else if k == 4 then next == Some([T.Place(base + 9, []), T.Place(base + 5, [])])
      else next == Some([T.Place(base + k + 1, [])])
  {
    OpAt(img, base, Stopped(), k);
  }

  lemma {:induction false} StoppedEnds<A>(c: T.Code<A>, img: Image, base: int)
    requires c.prog == img.prog && Holds(img, base, Stopped())
    ensures Traceable(c, base)
  {
    hide Ends, T.Ahead, Holds;
    StoppedEndsFrom(c, img, base, 10);
    StoppedEndsFrom(c, img, base, 9);
    StoppedEndsFrom(c, img, base, 6);
    StoppedEndsFrom(c, img, base, 5);
    StoppedEndsFrom(c, img, base, 4);
    StoppedEndsFrom(c, img, base, 3);
    StoppedEndsFrom(c, img, base, 2);
    StoppedEndsFrom(c, img, base, 1);
    StoppedEndsFrom(c, img, base, 0);
  }

  lemma {:induction false} StoppedEndsFrom<A>(c: T.Code<A>, img: Image, base: int, k: int)
    requires c.prog == img.prog && Holds(img, base, Stopped()) && (0 <= k <= 6 || 9 <= k <= 10)
    requires k != 6 && k != 10 ==> Ends(c, T.Place(base + k + 1, []))
    requires k == 4 ==> Ends(c, T.Place(base + 9, []))
    ensures Ends(c, T.Place(base + k, []))
  {
    hide Ends, T.Ahead, Holds;
    StoppedAhead(c, img, base, k);
    EndsAfter(c, T.Place(base + k, []));
  }

  lemma StoppedCode(world: World)
    ensures ProcedureCode(Mapper(world, [STOP]), Mapper(world, [STOP]).policy.actions[0]) == Stopped()
  {
    var g, d := Mapper(world, [STOP]), Mapper(world, [STOP]).policy.actions[0];
    var nd := d.body[0];
    var inner := [I(M.Const(IntV(1))), I(M.Exit(Panic))];
    assert FactCode(g, nd.stmt.fact) == [I(M.FactNew("F"))];
    assert StmtCode(g, STOP) == inner;
    assert [STOP][1..] == [];
    assert StmtsCode(g, nd.stmt.body) == inner;
    assert StmtCode(g, nd) == [I(M.FactNew("F"))] + ([I(M.QueryStart)] + LoopCode("x", inner));
    assert d.body[1..] == [];
    assert StmtsCode(g, d.body) == StmtCode(g, nd);
  }

  lemma StoppedAccepted(world: World)
    ensures Compiles(Mapper(world, [STOP]))
  {
    var g, d := Mapper(world, [STOP]), Mapper(world, [STOP]).policy.actions[0];
    var at := ActionSite(AllKnown(g.policy));
    assert [STOP][1..] == [] && d.body[1..] == [];
    assert StmtOk(g, at, STOP) && StmtsOk(g, at, [STOP]);
    assert StmtOk(g, at, d.body[0]);
  }

  const AGAIN := M.Label("again", M.FunctionLabel)

  /** One function that calls itself. */
  function Recursive(world: World): Program {
    Program(Policy([Definition("again", [], [Node(Return(FunctionCall("again", [])), 0)], 0)], [], [], []), world,
      false)
  }

  /** However this policy is compiled, its function is never traced to the end: every round has one
      more call pending, so control never comes back to the same place. */
  lemma {:induction false} RecursionNeverTraced<A>(c: T.Code<A>, img: Image, world: World)
    requires FullyLoaded(img) && img.g == Recursive(world) && c.prog == img.prog
    ensures Compiles(img.g) && AGAIN in img.labels && !Traceable(c, img.labels[AGAIN])
  {
    var g, d := img.g, Recursive(world).policy.functions[0];
    RecursiveAccepted(world);
    RecursiveCode(world);
    FindOnly(d, "again");
    hide FunctionCode, FullyLoaded, PolicyOk, N.Collides, Ends, FindDefinition;
    assert CodeOf(g, AGAIN) == Some(FunctionCode(g, d));
    assert Loaded(img) by { IsLoaded(img); }
    CallExact(c, img, AGAIN);
    if EverSettles(g, AGAIN) {
      var n: nat :| Settles(g, n, AGAIN);
      NeverSettles(g, n, FunctionCode(g, d));
    }
  }

  lemma IsLoaded(img: Image)
    requires FullyLoaded(img)
    ensures Loaded(img)
  {
    hide Loaded, CommandLoaded;
  }

  lemma RecursiveCode(world: World)
    ensures FunctionCode(Recursive(world), Recursive(world).policy.functions[0]) ==
      [CallTo(AGAIN), I(M.Return), I(M.Exit(Panic))]
  {
    var g, d := Recursive(world), Recursive(world).policy.functions[0];
    assert d.body[1..] == [];
    assert ArgsCode(g, []) == [];
    assert ExprCode(g, FunctionCall("again", [])) == [CallTo(AGAIN)];
    assert StmtsCode(g, d.body) == [CallTo(AGAIN), I(M.Return)];
  }

  lemma RecursiveAccepted(world: World)
    ensures Compiles(Recursive(world))
  {
    var g, d := Recursive(world), Recursive(world).policy.functions[0];
    RecursiveCode(world);
    assert StmtsCode(g, d.body)[1] == I(M.Return);
  }

  lemma {:induction false} NeverSettles(g: Program, n: nat, code: Code)
    requires CodeOf(g, AGAIN) == Some(code) && code != [] && code[0] == CallTo(AGAIN)
    ensures !Settles(g, n, AGAIN)
    decreases n
  {
    hide CodeOf;
    if n > 0 {
      Begins(g, n - 1, code);
      NeverSettles(g, n - 1, code);
    }
  }
}
