/** What the compiler looks at: not the host a module will run against, nor the context it will
    run in. So one module serves them all. */
module Hosting {
  import opened Values
  import opened Ast
  import opened Static
  import opened Layout
  import opened Programs
  import opened SimBase
  import opened Images
  import M = Machine

  /** The same policy run against another host, in another context. */
  function On(g: Program, host: Host, ctx: Context): Program {
    g.(world := g.world.(host := host, ctx := ctx))
  }

  /** The tables the checks look into. */
  lemma {:induction false} TablesOn(g: Program, host: Host, ctx: Context)
    ensures forall f, needs :: FactFitsSchema(On(g, host, ctx).world, f, needs) == FactFitsSchema(g.world, f, needs)
    ensures forall m, name, n :: ForeignOk(On(g, host, ctx).world, m, name, n) == ForeignOk(g.world, m, name, n)
    ensures forall m, name :: ForeignIndex(On(g, host, ctx).world, m, name) == ForeignIndex(g.world, m, name)
  {
    hide FindModule, FindProcedure, KeyFits, ValuesFit;
  }

  lemma FitsKnown(w: World)
    ensures forall f, needs :: FactFitsSchema(w, f, needs) ==> f.name in w.facts
  {
  }

  lemma {:induction false} ExprOn(g: Program, host: Host, ctx: Context, at: Site, e: Expr)
    ensures ExprOk(On(g, host, ctx), at, e) == ExprOk(g, at, e)
    ensures ExprCode(On(g, host, ctx), e) == ExprCode(g, e)
    decreases e, 1
  {
    hide ExprOk, ExprCode;
    if e.FactQuery? || e.ForeignCall? || e.NamedStruct? || e.FunctionCall? {
      LookupOn(g, host, ctx, at, e);
    } else {
      OperatorOn(g, host, ctx, at, e);
    }
  }

  /** Expressions that look into the tables. */
  lemma {:induction false} LookupOn(g: Program, host: Host, ctx: Context, at: Site, e: Expr)
    requires e.FactQuery? || e.ForeignCall? || e.NamedStruct? || e.FunctionCall?
    ensures ExprOk(On(g, host, ctx), at, e) == ExprOk(g, at, e)
    ensures ExprCode(On(g, host, ctx), e) == ExprCode(g, e)
    decreases e, 0
  {
    hide ArgsOk, ArgsCode, FieldsOk, FieldsCode, FactOk, FactCode, FindModule, FindProcedure, FindDefinition,
      UnaryCode, BinaryInstrs, QueryInstrs, FinishExpr, LimitOk, NoBinds, Instrs, FactFitsSchema, ForeignOk,
        ForeignIndex,
      CallOk;
    TablesOn(g, host, ctx);
    match e
    case NamedStruct(_, fields) => FieldsOn(g, host, ctx, at, StructMember, fields);
    case FactQuery(_, fact) => FactOn(g, host, ctx, at, fact);
    case FunctionCall(_, args) => ArgsOn(g, host, ctx, at, args);
    case ForeignCall(_, _, args) => ArgsOn(g, host, ctx, at, args);
  }

  lemma {:induction false} OperatorOn(g: Program, host: Host, ctx: Context, at: Site, e: Expr)
    requires !e.FactQuery? && !e.ForeignCall? && !e.NamedStruct? && !e.FunctionCall?
    ensures ExprOk(On(g, host, ctx), at, e) == ExprOk(g, at, e)
    ensures ExprCode(On(g, host, ctx), e) == ExprCode(g, e)
    decreases e, 0
  {
    hide ArgsOk, ArgsCode, FieldsOk, FieldsCode, FactOk, FactCode, FindModule, FindProcedure, FindDefinition,
      UnaryCode, BinaryInstrs, QueryInstrs, FinishExpr, LimitOk, NoBinds, Instrs, FactFitsSchema, ForeignOk,
        ForeignIndex,
      CallOk;
    match e
    case Literal(_) | EnumReference(_, _) | Identifier(_) =>
    case Conditional(c, yes, no) =>
      ExprOn(g, host, ctx, at, c);
      ExprOn(g, host, ctx, at, yes);
      ExprOn(g, host, ctx, at, no);
    case Unary(_, a) => ExprOn(g, host, ctx, at, a);
    case Binary(_, a, b) =>
      ExprOn(g, host, ctx, at, a);
      ExprOn(g, host, ctx, at, b);
  }

  lemma {:induction false} ArgsOn(g: Program, host: Host, ctx: Context, at: Site, es: seq<Expr>)
    ensures ArgsOk(On(g, host, ctx), at, es) == ArgsOk(g, at, es)
    ensures ArgsCode(On(g, host, ctx), es) == ArgsCode(g, es)
    decreases es, 0
  {
    hide ExprOk, ExprCode;
    if es != [] {
      ExprOn(g, host, ctx, at, es[0]);
      ArgsOn(g, host, ctx, at, es[1..]);
    }
  }

  lemma {:induction false} FieldsOn(g: Program, host: Host, ctx: Context, at: Site, m: Member, fs: seq<Field>)
    ensures FieldsOk(On(g, host, ctx), at, fs) == FieldsOk(g, at, fs)
    ensures FieldsCode(On(g, host, ctx), m, fs) == FieldsCode(g, m, fs)
    decreases fs, 0
  {
    hide ExprOk, ExprCode;
    if fs != [] {
      if fs[0].value.Given? { ExprOn(g, host, ctx, at, fs[0].value.expr); }
      FieldsOn(g, host, ctx, at, m, fs[1..]);
    }
  }

  lemma {:induction false} FactOn(g: Program, host: Host, ctx: Context, at: Site, f: FactLiteral)
    ensures FactOk(On(g, host, ctx), at, f) == FactOk(g, at, f)
    ensures FactCode(On(g, host, ctx), f) == FactCode(g, f)
    decreases f, 0
  {
    hide FieldsOk, FieldsCode;
    FieldsOn(g, host, ctx, at, KeyMember, f.keys);
    if f.values.GivenValues? { FieldsOn(g, host, ctx, at, ValueMember, f.values.fields); }
  }

  lemma {:induction false} StmtsOn(g: Program, host: Host, ctx: Context, at: Site, ss: seq<Node>)
    ensures StmtsOk(On(g, host, ctx), at, ss) == StmtsOk(g, at, ss)
    ensures StmtsCode(On(g, host, ctx), ss) == StmtsCode(g, ss)
    decreases ss, 1
  {
    hide StmtOk, StmtCode;
    if ss != [] {
      StmtOn(g, host, ctx, at, ss[0]);
      StmtsOn(g, host, ctx, at, ss[1..]);
    }
  }

  lemma {:induction false} StmtOn(g: Program, host: Host, ctx: Context, at: Site, nd: Node)
    ensures StmtOk(On(g, host, ctx), at, nd) == StmtOk(g, at, nd)
    ensures StmtCode(On(g, host, ctx), nd) == StmtCode(g, nd)
    decreases nd, 0
  {
    hide ExprOk, ExprCode, ArgsOk, ArgsCode, FieldsOk, FieldsCode, FactOk, FactCode, StmtsOk, StmtsCode, BranchesOk,
      BranchesCode, ArmsOk, TestsCode, BodiesCode, FindDefinition, HasDefault, MatchValues, NoRepeats, LoopCode,
      FactFitsSchema, CallOk, ValuesFit, NoBinds;
    TablesOn(g, host, ctx);
    FitsKnown(g.world);
    match nd.stmt
    case Let(_, e) => ExprOn(g, host, ctx, at, e);
    case CheckThat(e) => ExprOn(g, host, ctx, at, e);
    case DebugAssert(e) => ExprOn(g, host, ctx, at, e);
    case Match(e, arms) =>
      ExprOn(g, host, ctx, at, e);
      ArmsOn(g, host, ctx, at, arms);
      TestsOn(g, host, ctx, arms, if HasDefault(arms) then 0 else 1);
    case If(branches, fallback) =>
      if fallback.Else? { StmtsOn(g, host, ctx, at, fallback.body); }
      BranchesOn(g, host, ctx, at, branches, match fallback case NoElse => 0 case Else(ss) => |StmtsCode(g, ss)|);
    case Finish(body) => StmtsOn(g, host, ctx, FinishSite(at.known), body);
    case Map(fact, _, body) =>
      FactOn(g, host, ctx, at, fact);
      StmtsOn(g, host, ctx, at, body);
    case Return(e) => ExprOn(g, host, ctx, at, e);
    case ActionCall(_, args) => ArgsOn(g, host, ctx, at, args);
    case FinishCall(_, args) => ArgsOn(g, host, ctx, at, args);
    case Publish(e) => ExprOn(g, host, ctx, at, e);
    case Emit(e) => ExprOn(g, host, ctx, at, e);
    case Create(fact) => FactOn(g, host, ctx, at, fact);
    case Delete(fact) => FactOn(g, host, ctx, at, fact);
    case Update(fact, to) =>
      FactOn(g, host, ctx, at, fact);
      FieldsOn(g, host, ctx, at, ValueMember, to);
  }

  lemma {:induction false} BranchesOn(g: Program, host: Host, ctx: Context, at: Site, bs: seq<Branch>, after: nat)
    ensures BranchesOk(On(g, host, ctx), at, bs) == BranchesOk(g, at, bs)
    ensures BranchesCode(On(g, host, ctx), bs, after) == BranchesCode(g, bs, after)
    decreases bs, 2
  {
    hide ExprOk, ExprCode, StmtsOk, StmtsCode;
    if bs != [] {
      ExprOn(g, host, ctx, at, bs[0].cond);
      StmtsOn(g, host, ctx, at, bs[0].body);
      BranchesOn(g, host, ctx, at, bs[1..], after);
    }
  }

  lemma {:induction false} ArmsOn(g: Program, host: Host, ctx: Context, at: Site, arms: seq<Arm>)
    ensures ArmsOk(On(g, host, ctx), at, arms) == ArmsOk(g, at, arms)
    ensures BodiesCode(On(g, host, ctx), arms) == BodiesCode(g, arms)
    decreases arms, 2
  {
    hide ArgsOk, StmtsOk, StmtsCode;
    if arms != [] {
      if arms[0].pattern.Values? { ArgsOn(g, host, ctx, at, arms[0].pattern.values); }
      StmtsOn(g, host, ctx, at, arms[0].body);
      ArmsOn(g, host, ctx, at, arms[1..]);
    }
  }

  lemma {:induction false} TestsOn(g: Program, host: Host, ctx: Context, arms: seq<Arm>, gap: nat)
    ensures TestsCode(On(g, host, ctx), arms, gap) == TestsCode(g, arms, gap)
    decreases arms, 2
  {
    hide StmtsCode, PatternCode;
    if arms != [] {
      StmtsOn(g, host, ctx, ActionSite(map[]), arms[0].body);
      var size := |StmtsCode(g, arms[0].body)| + 2;
      TestsOn(g, host, ctx, arms[1..], gap + size);
      PatternOn(g, host, ctx, arms[0].pattern, |TestsCode(g, arms[1..], gap + size)| + gap);
    }
  }

  lemma {:induction false} PatternOn(g: Program, host: Host, ctx: Context, p: Pattern, gap: nat)
    ensures PatternCode(On(g, host, ctx), p, gap) == PatternCode(g, p, gap)
    decreases p, 1
  {
    hide ValueTests;
    if p.Values? { ValuesOn(g, host, ctx, p.values, gap); }
  }

  lemma {:induction false} ValuesOn(g: Program, host: Host, ctx: Context, es: seq<Expr>, gap: nat)
    ensures ValueTests(On(g, host, ctx), es, gap) == ValueTests(g, es, gap)
    decreases es, 0
  {
    hide ExprCode, ExprOk, On;
    if es != [] {
      ExprOn(g, host, ctx, ActionSite(map[]), es[0]);
      ValuesOn(g, host, ctx, es[1..], gap);
    }
  }

  /** A loaded image stays loaded whatever it runs against. */
  lemma {:induction false} LoadedOn(img: Image, host: Host, ctx: Context)
    requires FullyLoaded(img)
    ensures FullyLoaded(img.(g := On(img.g, host, ctx)))
  {
    hide StmtsOk, StmtsCode, KnownIn, AllKnown, ParamsCode, CodeAt;
    var g, img' := img.g, img.(g := On(img.g, host, ctx));
    forall i | 0 <= i < |g.policy.functions| ensures FunctionLoaded(img', g.policy.functions[i]) {
      var d := g.policy.functions[i];
      StmtsOn(g, host, ctx, FunctionSite(KnownIn(g.policy, d.name)), d.body);
      assert FunctionLoaded(img, d);
    }
    forall i | 0 <= i < |g.policy.actions| ensures ActionLoaded(img', g.policy.actions[i]) {
      var d := g.policy.actions[i];
      StmtsOn(g, host, ctx, ActionSite(AllKnown(g.policy)), d.body);
      assert ActionLoaded(img, d);
    }
    forall i | 0 <= i < |g.policy.finishFunctions| ensures FinishLoaded(img', g.policy.finishFunctions[i]) {
      var d := g.policy.finishFunctions[i];
      StmtsOn(g, host, ctx, FinishSite(AllKnown(g.policy)), d.body);
      assert FinishLoaded(img, d);
    }
    forall i | 0 <= i < |g.policy.commands| ensures CommandLoaded(img', g.policy.commands[i]) {
      CommandOn(img, host, ctx, g.policy.commands[i]);
    }
  }

  lemma {:induction false} CommandOn(img: Image, host: Host, ctx: Context, c: Command)
    requires CommandLoaded(img, c)
    ensures CommandLoaded(img.(g := On(img.g, host, ctx)), c)
  {
    hide StmtsOk, StmtsCode, AllKnown, CodeAt;
    var known := AllKnown(img.g.policy);
    StmtsOn(img.g, host, ctx, PolicySite(known), c.policy);
    StmtsOn(img.g, host, ctx, RecallSite(known), c.recall);
    StmtsOn(img.g, host, ctx, FunctionSite(known), c.seal);
    StmtsOn(img.g, host, ctx, FunctionSite(known), c.open);
  }
}
