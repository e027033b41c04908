/** How the pieces the compiler writes come together to the layout of each construct. */
module Assembly {
  import opened Values
  import opened Ast
  import opened Static
  import opened Layout
  import opened Linking
  import opened Branching
  import opened Programs
  import M = Machine

  // ---- How the pieces of a construct come together ----

  lemma {:induction false} ConditionalUnfold(g: Program, at: Site, e: Expr)
    requires e.Conditional? && (at.FinishSite? ==> FinishExpr(e))
    ensures ExprOk(g, at, e) <==> ExprOk(g, at, e.cond) && ExprOk(g, at, e.yes) && ExprOk(g, at, e.no)
    ensures ExprCode(g, e) ==
      var t, f := ExprCode(g, e.yes), ExprCode(g, e.no);
      ExprCode(g, e.cond) + ([BranchBy(|f| + 2)] + (f + ([JumpBy(|t| + 1)] + t)))
  {
  }

  lemma {:induction false} StructLiteralUnfold(g: Program, at: Site, e: Expr)
    requires e.NamedStruct? && (at.FinishSite? ==> FinishExpr(e))
    ensures ExprOk(g, at, e) <==> e.name in g.world.structs && NoBinds(e.fields) && FieldsOk(g, at, e.fields)
    ensures ExprCode(g, e) == [I(M.StructNew(e.name))] + FieldsCode(g, StructMember, e.fields)
  {
    hide FieldsOk, FieldsCode, FactOk, FactCode, FactFitsSchema, FindDefinition, FindModule, FindProcedure, ArgsOk,
      ArgsCode, UnaryCode, UnwrapCode;
  }

  lemma {:induction false} QueryUnfold(g: Program, at: Site, e: Expr)
    requires e.FactQuery? && (at.FinishSite? ==> FinishExpr(e))
    ensures ExprOk(g, at, e) <==> LimitOk(e.kind) && FactFitsSchema(g.world, e.fact, false) && FactOk(g, at, e.fact)
    ensures ExprCode(g, e) == FactCode(g, e.fact) + Instrs(QueryInstrs(e.kind))
  {
    hide FieldsOk, FieldsCode, FactOk, FactCode, FactFitsSchema, FindDefinition, FindModule, FindProcedure, ArgsOk,
      ArgsCode, UnaryCode, UnwrapCode;
  }

  lemma {:induction false} FunctionCallUnfold(g: Program, at: Site, e: Expr)
    requires e.FunctionCall? && (at.FinishSite? ==> FinishExpr(e))
    ensures ExprOk(g, at, e) <==>
      e.name in at.known && at.known[e.name] == Signature(|e.args|, false) &&
      CallOk(g.policy.functions, e.name, |e.args|) && ArgsOk(g, at, e.args)
    ensures ExprCode(g, e) == ArgsCode(g, e.args) + [CallTo(M.Label(e.name, M.FunctionLabel))]
  {
    hide FieldsOk, FieldsCode, FactOk, FactCode, FactFitsSchema, FindDefinition, FindModule, FindProcedure, ArgsOk,
      ArgsCode, UnaryCode, UnwrapCode;
  }

  lemma {:induction false} ForeignCallUnfold(g: Program, at: Site, e: Expr)
    requires e.ForeignCall? && (at.FinishSite? ==> FinishExpr(e))
    ensures ExprOk(g, at, e) <==> ForeignOk(g.world, e.mod, e.name, |e.args|) && ArgsOk(g, at, e.args)
    ensures ExprCode(g, e) == [I(M.Meta(M.FfiMark(e.mod, e.name)))] + (ArgsCode(g, e.args) +
      [I(M.ExtCall(ForeignIndex(g.world, e.mod, e.name).0, ForeignIndex(g.world, e.mod, e.name).1))])
  {
    hide FieldsOk, FieldsCode, FactOk, FactCode, FactFitsSchema, FindDefinition, FindModule, FindProcedure, ArgsOk,
      ArgsCode, UnaryCode, UnwrapCode;
  }

  lemma {:induction false} UnaryUnfold(g: Program, at: Site, e: Expr)
    requires e.Unary? && (at.FinishSite? ==> FinishExpr(e))
    ensures ExprOk(g, at, e) <==>
      ((e.uop.Serialize? || e.uop.Deserialize?) ==> at.FunctionSite?) && ExprOk(g, at, e.arg)
    ensures ExprCode(g, e) == ExprCode(g, e.arg) + UnaryCode(e.uop)
  {
    hide FieldsOk, FieldsCode, FactOk, FactCode, FactFitsSchema, FindDefinition, FindModule, FindProcedure, ArgsOk,
      ArgsCode, UnaryCode, UnwrapCode;
  }

  lemma {:induction false} BinaryUnfold(g: Program, at: Site, e: Expr)
    requires e.Binary? && (at.FinishSite? ==> FinishExpr(e))
    ensures ExprOk(g, at, e) <==> ExprOk(g, at, e.left) && ExprOk(g, at, e.right)
    ensures ExprCode(g, e) == ExprCode(g, e.left) + (ExprCode(g, e.right) + Instrs(BinaryInstrs(e.bop)))
  {
    hide FieldsOk, FieldsCode, FactOk, FactCode, FactFitsSchema, FindDefinition, FindModule, FindProcedure, ArgsOk,
      ArgsCode, UnaryCode, UnwrapCode;
  }

  lemma {:induction false} LetUnfold(g: Program, at: Site, nd: Node)
    requires nd.stmt.Let? && Allowed(nd.stmt, at)
    ensures StmtOk(g, at, nd) <==> ExprOk(g, at, nd.stmt.expr)
    ensures StmtCode(g, nd) == ExprCode(g, nd.stmt.expr) + [I(M.Meta(M.LetMark(nd.stmt.name))), I(M.Def(nd.stmt.name))]
  {
    hide ExprOk, ExprCode, FieldsOk, FieldsCode, FactOk, FactCode, FactFitsSchema, FindDefinition, ArgsOk, ArgsCode,
      StmtsOk, StmtsCode, BranchesOk, BranchesCode, ArmsOk, TestsCode, BodiesCode, LoopCode, MatchValues, NoRepeats,
      HasDefault;
  }

  lemma {:induction false} CheckUnfold(g: Program, at: Site, nd: Node)
    requires nd.stmt.CheckThat? && Allowed(nd.stmt, at)
    ensures StmtOk(g, at, nd) <==> ExprOk(g, at, nd.stmt.expr)
    ensures StmtCode(g, nd) == ExprCode(g, nd.stmt.expr) + [BranchBy(2), I(M.Exit(Check))]
  {
    hide ExprOk, ExprCode, FieldsOk, FieldsCode, FactOk, FactCode, FactFitsSchema, FindDefinition, ArgsOk, ArgsCode,
      StmtsOk, StmtsCode, BranchesOk, BranchesCode, ArmsOk, TestsCode, BodiesCode, LoopCode, MatchValues, NoRepeats,
      HasDefault;
  }

  lemma {:induction false} DebugAssertUnfold(g: Program, at: Site, nd: Node)
    requires nd.stmt.DebugAssert? && Allowed(nd.stmt, at)
    ensures StmtOk(g, at, nd) <==> (g.debug ==> ExprOk(g, at, nd.stmt.expr))
    ensures StmtCode(g, nd) == if g.debug then ExprCode(g, nd.stmt.expr) + [BranchBy(2), I(M.Exit(Panic))] else []
  {
    hide ExprOk, ExprCode, FieldsOk, FieldsCode, FactOk, FactCode, FactFitsSchema, FindDefinition, ArgsOk, ArgsCode,
      StmtsOk, StmtsCode, BranchesOk, BranchesCode, ArmsOk, TestsCode, BodiesCode, LoopCode, MatchValues, NoRepeats,
      HasDefault;
  }

  lemma {:induction false} ReturnUnfold(g: Program, at: Site, nd: Node)
    requires nd.stmt.Return? && Allowed(nd.stmt, at)
    ensures StmtOk(g, at, nd) <==> ExprOk(g, at, nd.stmt.expr)
    ensures StmtCode(g, nd) == ExprCode(g, nd.stmt.expr) + [I(M.Return)]
  {
    hide ExprOk, ExprCode, FieldsOk, FieldsCode, FactOk, FactCode, FactFitsSchema, FindDefinition, ArgsOk, ArgsCode,
      StmtsOk, StmtsCode, BranchesOk, BranchesCode, ArmsOk, TestsCode, BodiesCode, LoopCode, MatchValues, NoRepeats,
      HasDefault;
  }

  lemma {:induction false} PublishUnfold(g: Program, at: Site, nd: Node)
    requires nd.stmt.Publish? && Allowed(nd.stmt, at)
    ensures StmtOk(g, at, nd) <==> ExprOk(g, at, nd.stmt.expr)
    ensures StmtCode(g, nd) == ExprCode(g, nd.stmt.expr) + [I(M.Publish)]
  {
    hide ExprOk, ExprCode, FieldsOk, FieldsCode, FactOk, FactCode, FactFitsSchema, FindDefinition, ArgsOk, ArgsCode,
      StmtsOk, StmtsCode, BranchesOk, BranchesCode, ArmsOk, TestsCode, BodiesCode, LoopCode, MatchValues, NoRepeats,
      HasDefault;
  }

  lemma {:induction false} EmitUnfold(g: Program, at: Site, nd: Node)
    requires nd.stmt.Emit? && Allowed(nd.stmt, at)
    ensures StmtOk(g, at, nd) <==> ExprOk(g, at, nd.stmt.expr)
    ensures StmtCode(g, nd) == ExprCode(g, nd.stmt.expr) + [I(M.Emit)]
  {
    hide ExprOk, ExprCode, FieldsOk, FieldsCode, FactOk, FactCode, FactFitsSchema, FindDefinition, ArgsOk, ArgsCode,
      StmtsOk, StmtsCode, BranchesOk, BranchesCode, ArmsOk, TestsCode, BodiesCode, LoopCode, MatchValues, NoRepeats,
      HasDefault;
  }

  lemma {:induction false} CreateUnfold(g: Program, at: Site, nd: Node)
    requires nd.stmt.Create? && Allowed(nd.stmt, at)
    ensures StmtOk(g, at, nd) <==>
      NoBinds(nd.stmt.fact.keys) && NoBinds(ValueFields(nd.stmt.fact)) &&
      FactFitsSchema(g.world, nd.stmt.fact, true) && FactOk(g, at, nd.stmt.fact)
    ensures StmtCode(g, nd) == FactCode(g, nd.stmt.fact) + [I(M.Create)]
  {
    hide ExprOk, ExprCode, FieldsOk, FieldsCode, FactOk, FactCode, FactFitsSchema, FindDefinition, ArgsOk, ArgsCode,
      StmtsOk, StmtsCode, BranchesOk, BranchesCode, ArmsOk, TestsCode, BodiesCode, LoopCode, MatchValues, NoRepeats,
      HasDefault;
  }

  lemma {:induction false} DeleteUnfold(g: Program, at: Site, nd: Node)
    requires nd.stmt.Delete? && Allowed(nd.stmt, at)
    ensures StmtOk(g, at, nd) <==> FactFitsSchema(g.world, nd.stmt.fact, false) && FactOk(g, at, nd.stmt.fact)
    ensures StmtCode(g, nd) == FactCode(g, nd.stmt.fact) + [I(M.Delete)]
  {
    hide ExprOk, ExprCode, FieldsOk, FieldsCode, FactOk, FactCode, FactFitsSchema, FindDefinition, ArgsOk, ArgsCode,
      StmtsOk, StmtsCode, BranchesOk, BranchesCode, ArmsOk, TestsCode, BodiesCode, LoopCode, MatchValues, NoRepeats,
      HasDefault;
  }

  lemma {:induction false} UpdateUnfold(g: Program, at: Site, nd: Node)
    requires nd.stmt.Update? && Allowed(nd.stmt, at)
    ensures FactFitsSchema(g.world, nd.stmt.fact, true) ==> nd.stmt.fact.name in g.world.facts
    ensures StmtOk(g, at, nd) <==>
      FactFitsSchema(g.world, nd.stmt.fact, true) && FactOk(g, at, nd.stmt.fact) &&
      !g.world.facts[nd.stmt.fact.name].immutable && ValuesFit(nd.stmt.to, g.world.facts[nd.stmt.fact.name].value) &&
      NoBinds(nd.stmt.to) && FieldsOk(g, at, nd.stmt.to)
    ensures StmtCode(g, nd) ==
      FactCode(g, nd.stmt.fact) + ([I(M.Dup(0))] + (FieldsCode(g, ValueMember, nd.stmt.to) + [I(M.Update)]))
  {
    hide FactOk, FactCode, FieldsOk, FieldsCode;
  }

  lemma {:induction false} FinishCallUnfold(g: Program, at: Site, nd: Node)
    requires nd.stmt.FinishCall? && Allowed(nd.stmt, at)
    ensures StmtOk(g, at, nd) <==>
      nd.stmt.name in at.known && at.known[nd.stmt.name] == Signature(|nd.stmt.args|, true) &&
      CallOk(g.policy.finishFunctions, nd.stmt.name, |nd.stmt.args|) && ArgsOk(g, at, nd.stmt.args)
    ensures StmtCode(g, nd) == ArgsCode(g, nd.stmt.args) + [CallTo(M.Label(nd.stmt.name, M.Temporary))]
  {
    hide ExprOk, ExprCode, FieldsOk, FieldsCode, FactOk, FactCode, FactFitsSchema, FindDefinition, ArgsOk, ArgsCode,
      StmtsOk, StmtsCode, BranchesOk, BranchesCode, ArmsOk, TestsCode, BodiesCode, LoopCode, MatchValues, NoRepeats,
      HasDefault;
  }

  lemma {:induction false} ActionCallUnfold(g: Program, at: Site, nd: Node)
    requires nd.stmt.ActionCall? && Allowed(nd.stmt, at)
    ensures StmtOk(g, at, nd) <==> CallOk(g.policy.actions, nd.stmt.name, |nd.stmt.args|) && ArgsOk(g, at, nd.stmt.args)
    ensures StmtCode(g, nd) == ArgsCode(g, nd.stmt.args) + [CallTo(M.Label(nd.stmt.name, M.ActionLabel))]
  {
    hide ExprOk, ExprCode, FieldsOk, FieldsCode, FactOk, FactCode, FactFitsSchema, FindDefinition, ArgsOk, ArgsCode,
      StmtsOk, StmtsCode, BranchesOk, BranchesCode, ArmsOk, TestsCode, BodiesCode, LoopCode, MatchValues, NoRepeats,
      HasDefault;
  }

  lemma {:induction false} FinishUnfold(g: Program, at: Site, nd: Node)
    requires nd.stmt.Finish? && Allowed(nd.stmt, at)
    ensures StmtOk(g, at, nd) <==> StmtsOk(g, FinishSite(at.known), nd.stmt.body)
    ensures StmtCode(g, nd) == [I(M.Meta(M.FinishMark(true)))] +
      ((([I(M.Block)] + StmtsCode(g, nd.stmt.body)) + [I(M.End)]) + [I(M.Exit(Normal))])
  {
    hide ExprOk, ExprCode, FieldsOk, FieldsCode, FactOk, FactCode, FactFitsSchema, FindDefinition, ArgsOk, ArgsCode,
      StmtsOk, StmtsCode, BranchesOk, BranchesCode, ArmsOk, TestsCode, BodiesCode, LoopCode, MatchValues, NoRepeats,
      HasDefault;
  }

  lemma {:induction false} MapUnfold(g: Program, at: Site, nd: Node)
    requires nd.stmt.Map? && Allowed(nd.stmt, at)
    ensures StmtOk(g, at, nd) <==>
      FactFitsSchema(g.world, nd.stmt.fact, false) && FactOk(g, at, nd.stmt.fact) && StmtsOk(g, at, nd.stmt.body)
    ensures StmtCode(g, nd) ==
      FactCode(g, nd.stmt.fact) + ([I(M.QueryStart)] + LoopCode(nd.stmt.name, StmtsCode(g, nd.stmt.body)))
  {
    hide ExprOk, ExprCode, FieldsOk, FieldsCode, FactOk, FactCode, FactFitsSchema, FindDefinition, ArgsOk, ArgsCode,
      StmtsOk, StmtsCode, BranchesOk, BranchesCode, ArmsOk, TestsCode, BodiesCode, LoopCode, MatchValues, NoRepeats,
      HasDefault;
  }

  lemma {:induction false} IfUnfold(g: Program, at: Site, nd: Node)
    requires nd.stmt.If? && Allowed(nd.stmt, at)
    ensures StmtOk(g, at, nd) <==>
      BranchesOk(g, at, nd.stmt.branches) &&
      (match nd.stmt.fallback case NoElse => true case Else(ss) => StmtsOk(g, at, ss))
    ensures StmtCode(g, nd) ==
      var otherwise := match nd.stmt.fallback case NoElse => [] case Else(ss) => StmtsCode(g, ss);
      BranchesCode(g, nd.stmt.branches, |otherwise|) + otherwise
  {
    hide BranchesOk, BranchesCode, StmtsOk, StmtsCode;
  }

  lemma {:induction false} MatchUnfold(g: Program, at: Site, nd: Node)
    requires nd.stmt.Match? && Allowed(nd.stmt, at)
    ensures StmtOk(g, at, nd) <==>
      NoRepeats(MatchValues(nd.stmt.arms)) && ExprOk(g, at, nd.stmt.expr) &&
      PatternsOk(g, at, nd.stmt.arms) && BodiesOk(g, at, nd.stmt.arms)
    ensures StmtCode(g, nd) ==
      var miss := if HasDefault(nd.stmt.arms) then [] else [I(M.Exit(Panic))];
      ExprCode(g, nd.stmt.expr) + (TestsCode(g, nd.stmt.arms, |miss|) + (miss + BodiesCode(g, nd.stmt.arms)))
  {
    hide ExprOk, ExprCode, ArmsOk, TestsCode, BodiesCode, NoRepeats, MatchValues, HasDefault, PatternsOk, BodiesOk;
    ArmsSplit(g, at, nd.stmt.arms);
  }

  lemma {:induction false} StmtsUnfold(g: Program, at: Site, ss: seq<Node>, i: nat)
    requires i < |ss|
    ensures StmtsOk(g, at, ss[i..]) <==>
      StmtOk(g, at, ss[i]) && (ss[i].stmt.Finish? ==> ss[i] == ss[|ss| - 1]) && StmtsOk(g, at, ss[i + 1..])
    ensures StmtsCode(g, ss[i..]) == StmtCode(g, ss[i]) + StmtsCode(g, ss[i + 1..])
  {
    hide StmtOk, StmtCode;
    assert ss[i..][0] == ss[i] && ss[i..][1..] == ss[i + 1..] && ss[i..][|ss[i..]| - 1] == ss[|ss| - 1];
  }

  lemma {:induction false} StmtsNone(g: Program, at: Site)
    ensures StmtsOk(g, at, []) && StmtsCode(g, []) == []
  {
  }

  lemma {:induction false} UnwrapWritten(
    from: nat, m1: Moment, m2: Moment, m: Moment, code: Code, reason: ExitReason, present: M.Label)
    requires Before(m1, m2) && Before(m2, m) && Written(m1, from, code) && |m1.prog| == from + |code|
    requires m2.prog == m1.prog + [M.Dup(0), M.Const(NoneV), M.Eq, M.Not]
    requires m.prog == m2.prog + [M.Branch(M.Unresolved(present))] + [M.Exit(reason)]
    requires present in m.labels && m.labels[present] == |m.prog|
    ensures Written(m, from, code + UnwrapCode(reason)) && |UnwrapCode(reason)| == 6
  {
    var test := [M.Dup(0), M.Const(NoneV), M.Eq, M.Not];
    Single(m, |m2.prog|, BranchBy(2));
    Single(m, |m2.prog| + 1, I(M.Exit(reason)));
    hide Written, Before;
    AppendPlain(m1, m2, from, code, test);
    Join(m, |m2.prog|, [BranchBy(2)], [I(M.Exit(reason))]);
    assert [BranchBy(2)] + [I(M.Exit(reason))] == [BranchBy(2), I(M.Exit(reason))];
    Append(m2, m, from, code + Instrs(test), [BranchBy(2), I(M.Exit(reason))]);
    assert (code + Instrs(test)) + [BranchBy(2), I(M.Exit(reason))] == code + UnwrapCode(reason);
  }

  lemma FinishRule(g: Program, at: Site, e: Expr)
    ensures at.FinishSite? && !FinishExpr(e) ==> !ExprOk(g, at, e)
  {
  }

  /** The false branch of a conditional while its labels are open. */
  function SymOtherwise(g: Program, e: Expr, elseName: M.Label, endName: M.Label): Code {
    [BranchTo(elseName)] + (ExprCode(g, e) + [JumpTo(endName)])
  }

  lemma {:induction false} ConditionalWritten(
    g: Program, e: Expr, from: nat, m1: Moment, m2: Moment, m3: Moment, m: Moment, elseName: M.Label, endName: M.Label)
    requires e.Conditional? && Before(m1, m) && Before(m2, m) && Before(m3, m)
    requires Written(m1, from, ExprCode(g, e.cond)) && |m1.prog| == from + |ExprCode(g, e.cond)|
    requires Written(m2, |m1.prog|, SymOtherwise(g, e.no, elseName, endName))
    requires |m2.prog| == |m1.prog| + |SymOtherwise(g, e.no, elseName, endName)|
    requires Written(m3, |m2.prog|, ExprCode(g, e.yes)) && |m3.prog| == |m2.prog| + |ExprCode(g, e.yes)|
    requires elseName in m2.labels && m2.labels[elseName] == |m2.prog|
    requires endName in m.labels && m.labels[endName] == |m3.prog|
    ensures Written(m, from, ExprCode(g, e)) && |m3.prog| == from + |ExprCode(g, e)|
  {
    hide Written, Before, ExprCode, Realized, Realizes;
    assert ExprCode(g, e) ==
      var t, f := ExprCode(g, e.yes), ExprCode(g, e.no);
      ExprCode(g, e.cond) + ([BranchBy(|f| + 2)] + (f + ([JumpBy(|t| + 1)] + t))) by { ConditionalCode(g, e); }
    var c, f, t := ExprCode(g, e.cond), ExprCode(g, e.no), ExprCode(g, e.yes);
    var k := from + |c|;
    LabelKept(m2, m, elseName);
    OtherwiseRealized(m.labels, k, f, t, elseName, endName);
    Later(m2, m, k, SymOtherwise(g, e.no, elseName, endName));
    Later(m3, m, |m2.prog|, t);
    Join(m, k, SymOtherwise(g, e.no, elseName, endName), t);
    RealizedWritten(m, k, SymOtherwise(g, e.no, elseName, endName) + t,
      [BranchBy(|f| + 2)] + (f + ([JumpBy(|t| + 1)] + t)));
    Append(m1, m, from, c, [BranchBy(|f| + 2)] + (f + ([JumpBy(|t| + 1)] + t)));
  }

  lemma ConditionalCode(g: Program, e: Expr)
    requires e.Conditional?
    ensures ExprCode(g, e) ==
      var t, f := ExprCode(g, e.yes), ExprCode(g, e.no);
      ExprCode(g, e.cond) + ([BranchBy(|f| + 2)] + (f + ([JumpBy(|t| + 1)] + t)))
  {
  }

  lemma {:induction false} OtherwiseRealized(labels: Labels, k: int, f: Code, t: Code, elseName: M.Label,
      endName: M.Label)
    requires elseName in labels && labels[elseName] == k + |f| + 2 && endName in labels &&
      labels[endName] == k + |f| + 2 + |t|
    ensures Realized(labels, k, ([BranchTo(elseName)] + (f + [JumpTo(endName)])) + t,
                     [BranchBy(|f| + 2)] + (f + ([JumpBy(|t| + 1)] + t)))
  {
    hide Realized;
    var a := k + 1 + |f|;
    RealizedSame(labels, a + 1, t);
    RealizedCons(labels, a, JumpTo(endName), JumpBy(|t| + 1), t, t);
    RealizedAfter(labels, k + 1, f, [JumpTo(endName)] + t, [JumpBy(|t| + 1)] + t);
    RealizedCons(labels, k, BranchTo(elseName), BranchBy(|f| + 2), f + ([JumpTo(endName)] + t),
      f + ([JumpBy(|t| + 1)] + t));
    assert ([BranchTo(elseName)] + (f + [JumpTo(endName)])) + t == [BranchTo(elseName)] + (f + ([JumpTo(endName)] + t));
  }

  lemma {:induction false} IfWritten(
    g: Program, bs: seq<Branch>, end: M.Label, otherwise: Code, from: nat, m1: Moment, m: Moment)
    requires Before(m1, m) && |m1.prog| == from + |SymBranches(g, bs, end)|
    requires Written(m1, from, SymBranches(g, bs, end)) && Written(m, |m1.prog|, otherwise)
    requires |m.prog| == |m1.prog| + |otherwise| && end in m.labels && m.labels[end] == |m.prog|
    ensures Written(m, from, BranchesCode(g, bs, |otherwise|) + otherwise)
  {
    hide Written, Before, SymBranches, BranchesCode;
    SymSizes(g, bs, end, |otherwise|);
    Later(m1, m, from, SymBranches(g, bs, end));
    BranchesRealized(g, bs, end, |otherwise|, m.labels, from);
    RealizedWritten(m, from, SymBranches(g, bs, end), BranchesCode(g, bs, |otherwise|));
    Join(m, from, BranchesCode(g, bs, |otherwise|), otherwise);
  }

  lemma {:induction false} MatchWritten(
    g: Program, arms: seq<Arm>, ls: seq<M.Label>, end: M.Label, value: Code, miss: Code, from: nat,
    m1: Moment, m2: Moment, m3: Moment, m4: Moment, m: Moment)
    requires |ls| == |arms| && Before(m1, m) && Before(m2, m) && Before(m3, m) && Before(m4, m)
    requires Written(m1, from, value) && |m1.prog| == from + |value|
    requires Written(m2, |m1.prog|, SymTests(g, arms, ls)) && |m2.prog| == |m1.prog| + |SymTests(g, arms, ls)|
    requires Written(m3, |m2.prog|, miss) && |m3.prog| == |m2.prog| + |miss|
    requires Written(m4, |m3.prog|, SymBodies(g, arms, end)) && |m4.prog| == |m3.prog| + |SymBodies(g, arms, end)|
    requires ArmsPlaced(g, arms, ls, m4.labels, |m3.prog|) && end in m.labels && m.labels[end] == |m4.prog|
    ensures Written(m, from, value + (TestsCode(g, arms, |miss|) + (miss + BodiesCode(g, arms))))
  {
    hide Written, Before, SymTests, SymBodies, TestsCode, BodiesCode, ArmsPlaced;
    var tests, bodies := TestsCode(g, arms, |miss|), BodiesCode(g, arms);
    BodiesWritten(g, arms, end, |m3.prog|, m4, m);
    Append(m3, m, |m2.prog|, miss, bodies);
    StillPlaced(g, arms, ls, m4, m, |m3.prog|);
    TestsWritten(g, arms, ls, |miss|, |m1.prog|, m2, m);
    Join(m, |m1.prog|, tests, miss + bodies);
    Append(m1, m, from, value, tests + (miss + bodies));
  }

  lemma {:induction false} BodiesWritten(g: Program, arms: seq<Arm>, end: M.Label, from: nat, m4: Moment, m: Moment)
    requires Before(m4, m) && Written(m4, from, SymBodies(g, arms, end)) &&
      |m4.prog| == from + |SymBodies(g, arms, end)|
    requires end in m.labels && m.labels[end] == |m4.prog|
    ensures Written(m, from, BodiesCode(g, arms))
  {
    hide Written, Before, SymBodies, BodiesCode;
    BodiesLength(g, arms, end);
    Later(m4, m, from, SymBodies(g, arms, end));
    BodiesRealized(g, arms, end, m.labels, from);
    RealizedWritten(m, from, SymBodies(g, arms, end), BodiesCode(g, arms));
  }

  lemma {:induction false} TestsWritten(g: Program, arms: seq<Arm>, ls: seq<M.Label>, gap: nat, from: nat, m2: Moment,
      m: Moment)
    requires |ls| == |arms| && Before(m2, m) && Written(m2, from, SymTests(g, arms, ls))
    requires ArmsPlaced(g, arms, ls, m.labels, from + |SymTests(g, arms, ls)| + gap)
    ensures Written(m, from, TestsCode(g, arms, gap)) && |TestsCode(g, arms, gap)| == |SymTests(g, arms, ls)|
  {
    hide Written, Before, SymTests, TestsCode, ArmsPlaced;
    TestsLength(g, arms, ls, gap);
    TestsRealized(g, arms, ls, gap, m.labels, from, from + |TestsCode(g, arms, gap)| + gap);
    Later(m2, m, from, SymTests(g, arms, ls));
    RealizedWritten(m, from, SymTests(g, arms, ls), TestsCode(g, arms, gap));
  }

  /** The two halves of checking a match statement's arms. */
  predicate PatternsOk(g: Program, at: Site, arms: seq<Arm>) {
    arms != [] ==>
      (match arms[0].pattern case Default => true case Values(es) => ArgsOk(g, at, es)) &&
      (arms[0].pattern.Default? ==> arms[0] == arms[|arms| - 1]) && PatternsOk(g, at, arms[1..])
  }

  predicate BodiesOk(g: Program, at: Site, arms: seq<Arm>) {
    arms != [] ==> StmtsOk(g, at, arms[0].body) && BodiesOk(g, at, arms[1..])
  }

  lemma {:induction false} ArmsSplit(g: Program, at: Site, arms: seq<Arm>)
    ensures ArmsOk(g, at, arms) <==> PatternsOk(g, at, arms) && BodiesOk(g, at, arms)
    decreases arms
  {
    if arms != [] { ArmsSplit(g, at, arms[1..]); }
  }

  lemma Kept(m: Moment, m': Moment, k: nat)
    requires Before(m, m') && k < |m.prog|
    ensures k < |m'.prog| && m'.prog[k] == m.prog[k]
  {
  }

  lemma {:induction false} LabelKept(m: Moment, m': Moment, l: M.Label)
    requires Before(m, m') && l in m.labels
    ensures l in m'.labels && m'.labels[l] == m.labels[l]
  {
  }

  lemma {:induction false} NotAllowed(g: Program, at: Site, nd: Node)
    requires !Allowed(nd.stmt, at)
    ensures !StmtOk(g, at, nd)
  {
    hide ExprOk, StmtsOk, FactOk, FieldsOk, ArgsOk, BranchesOk, ArmsOk;
  }

  lemma {:induction false} StubHeadWritten(from: nat, actual: M.Label, x: string, m: Moment)
    requires from + 3 == |m.prog| && m.prog[from..] == [M.Call(M.Unresolved(actual)), M.Exit(Normal), M.Def(x)]
    requires actual in m.labels && m.labels[actual] == from + 2
    ensures Written(m, from, [CallBy(2), I(M.Exit(Normal)), I(M.Def(x))])
  {
    assert forall k :: 0 <= k < 3 ==> m.prog[from + k] == m.prog[from..][k];
    Single(m, from, CallBy(2));
    Straight(m, from + 1, [M.Exit(Normal), M.Def(x)]);
    Join(m, from, [CallBy(2)], Instrs([M.Exit(Normal), M.Def(x)]));
    assert [CallBy(2)] + Instrs([M.Exit(Normal), M.Def(x)]) == [CallBy(2), I(M.Exit(Normal)), I(M.Def(x))];
  }

  /** All these functions stand in memory. */
  ghost predicate AllFunctions(g: Program, m: Moment, ds: seq<Definition>) {
    forall j :: 0 <= j < |ds| ==> Standing(m, M.Label(ds[j].name, M.FunctionLabel), FunctionCode(g, ds[j]))
  }

  /** All these finish functions or actions stand in memory. */
  ghost predicate AllProcedures(g: Program, m: Moment, t: M.LabelType, ds: seq<Definition>) {
    forall j :: 0 <= j < |ds| ==> Standing(m, M.Label(ds[j].name, t), ProcedureCode(g, ds[j]))
  }

  ghost predicate AllCommands(g: Program, m: Moment, cs: seq<Command>) {
    forall j :: 0 <= j < |cs| ==> CommandStanding(g, m, cs[j])
  }

  lemma FunctionsNone(g: Program, m: Moment)
    ensures AllFunctions(g, m, []) && FunctionsCode(g, []) == [] && FunctionsOk(g, 0) && Names([]) == []
  {
  }

  lemma ProceduresNone(g: Program, m: Moment, t: M.LabelType)
    ensures AllProcedures(g, m, t, []) && ProceduresCode(g, []) == [] && FinishFunctionsOk(g, 0)
  {
  }

  lemma CommandsAbsent(g: Program, m: Moment)
    ensures AllCommands(g, m, []) && CommandsCode(g, []) == []
  {
  }

  lemma {:induction false} FunctionsLater(g: Program, m: Moment, m': Moment, ds: seq<Definition>)
    requires AllFunctions(g, m, ds) && Before(m, m')
    ensures AllFunctions(g, m', ds)
  {
    hide Before, Standing, FunctionCode;
    forall j | 0 <= j < |ds| ensures Standing(m', M.Label(ds[j].name, M.FunctionLabel), FunctionCode(g, ds[j])) {
      StandingLater(m, m', M.Label(ds[j].name, M.FunctionLabel), FunctionCode(g, ds[j]));
    }
  }

  lemma {:induction false} ProceduresLater(g: Program, m: Moment, m': Moment, t: M.LabelType, ds: seq<Definition>)
    requires AllProcedures(g, m, t, ds) && Before(m, m')
    ensures AllProcedures(g, m', t, ds)
  {
    hide Before, Standing, ProcedureCode;
    forall j | 0 <= j < |ds| ensures Standing(m', M.Label(ds[j].name, t), ProcedureCode(g, ds[j])) {
      StandingLater(m, m', M.Label(ds[j].name, t), ProcedureCode(g, ds[j]));
    }
  }

  lemma {:induction false} CommandsLater(g: Program, m: Moment, m': Moment, cs: seq<Command>)
    requires AllCommands(g, m, cs) && Before(m, m')
    ensures AllCommands(g, m', cs)
  {
    hide Before, CommandStanding;
    forall j | 0 <= j < |cs| ensures CommandStanding(g, m', cs[j]) {
      CommandStandingLater(g, m, m', cs[j]);
    }
  }

  /** One more function behind the others. */
  lemma {:induction false} MoreFunctions(g: Program, m: Moment, m': Moment, ds: seq<Definition>, i: nat)
    requires i < |ds| && AllFunctions(g, m, ds[..i]) && Before(m, m')
    requires Standing(m', M.Label(ds[i].name, M.FunctionLabel), FunctionCode(g, ds[i]))
    ensures AllFunctions(g, m', ds[..i + 1])
    ensures FunctionsCode(g, ds[..i + 1]) == FunctionsCode(g, ds[..i]) + FunctionCode(g, ds[i])
  {
    hide Before, Standing, FunctionCode;
    FunctionsLater(g, m, m', ds[..i]);
    assert ds[..i + 1][..i] == ds[..i];
  }

  lemma {:induction false} MoreProcedures(g: Program, m: Moment, m': Moment, t: M.LabelType, ds: seq<Definition>,
      i: nat)
    requires i < |ds| && AllProcedures(g, m, t, ds[..i]) && Before(m, m')
    requires Standing(m', M.Label(ds[i].name, t), ProcedureCode(g, ds[i]))
    ensures AllProcedures(g, m', t, ds[..i + 1])
    ensures ProceduresCode(g, ds[..i + 1]) == ProceduresCode(g, ds[..i]) + ProcedureCode(g, ds[i])
  {
    hide Before, Standing, ProcedureCode;
    ProceduresLater(g, m, m', t, ds[..i]);
    assert ds[..i + 1][..i] == ds[..i];
  }

  lemma {:induction false} MoreCommands(g: Program, m: Moment, m': Moment, cs: seq<Command>, i: nat)
    requires i < |cs| && AllCommands(g, m, cs[..i]) && Before(m, m') && CommandStanding(g, m', cs[i])
    ensures AllCommands(g, m', cs[..i + 1])
    ensures CommandsCode(g, cs[..i + 1]) == CommandsCode(g, cs[..i]) + CommandCode(g, cs[i])
  {
    hide Before, CommandStanding, CommandCode;
    CommandsLater(g, m, m', cs[..i]);
    assert cs[..i + 1][..i] == cs[..i];
  }

  /** What the compiler has written when it starts to link. */
  ghost predicate Complete(g: Program, m: Moment) {
    PolicyOk(g) && Written(m, 0, ProgramCode(g)) && |m.prog| == |ProgramCode(g)| &&
    AllFunctions(g, m, g.policy.functions) && AllProcedures(g, m, M.Temporary, g.policy.finishFunctions) &&
    AllCommands(g, m, g.policy.commands) && AllProcedures(g, m, M.ActionLabel, g.policy.actions)
  }

  lemma {:induction false} AllStanding(g: Program, m2: Moment, m: Moment)
    requires PolicyOk(g) && Before(m2, m)
    requires Written(m, 0, ProgramCode(g)) && |m.prog| == |ProgramCode(g)|
    requires AllFunctions(g, m2, g.policy.functions) && AllProcedures(g, m2, M.Temporary, g.policy.finishFunctions)
    requires AllCommands(g, m, g.policy.commands) && AllProcedures(g, m, M.ActionLabel, g.policy.actions)
    ensures Complete(g, m)
  {
    hide Before, AllFunctions, AllProcedures, AllCommands, PolicyOk, Written, ProgramCode;
    FunctionsLater(g, m2, m, g.policy.functions);
    ProceduresLater(g, m2, m, M.Temporary, g.policy.finishFunctions);
  }

  /** One branch, leaving for `end`. */
  function SymBranch(g: Program, b: Branch, end: M.Label): Code {
    var body := StmtsCode(g, b.body);
    ExprCode(g, b.cond) + ([I(M.Not), BranchBy(|body| + 2)] + (body + [JumpTo(end)]))
  }

  lemma {:induction false} SymBranchesUnfold(g: Program, bs: seq<Branch>, end: M.Label)
    ensures SymBranches(g, bs, end) ==
      if bs == [] then [] else SymBranch(g, bs[0], end) + SymBranches(g, bs[1..], end)
  {
    hide ExprCode, StmtsCode;
  }

  /** One test of a match arm. */
  function SymTest(g: Program, e: Expr, arm: M.Label): Code {
    [I(M.Dup(0))] + (ExprCode(g, e) + [I(M.Eq), BranchTo(arm)])
  }

  lemma {:induction false} SymValuesUnfold(g: Program, es: seq<Expr>, arm: M.Label)
    ensures SymValues(g, es, arm) ==
      if es == [] then [] else SymTest(g, es[0], arm) + SymValues(g, es[1..], arm)
  {
    hide ExprCode;
  }

  function SymBody(g: Program, arm: Arm, end: M.Label): Code {
    [I(M.Pop)] + (StmtsCode(g, arm.body) + [JumpTo(end)])
  }

  lemma {:induction false} BodiesUnfold(g: Program, at: Site, arms: seq<Arm>, end: M.Label, i: nat)
    requires i < |arms|
    ensures BodiesOk(g, at, arms[i..]) <==> StmtsOk(g, at, arms[i].body) && BodiesOk(g, at, arms[i + 1..])
    ensures SymBodies(g, arms[i..], end) == SymBody(g, arms[i], end) + SymBodies(g, arms[i + 1..], end)
    ensures |SymBody(g, arms[i], end)| == |StmtsCode(g, arms[i].body)| + 2
  {
    hide StmtsOk, StmtsCode;
    assert arms[i..][0] == arms[i] && arms[i..][1..] == arms[i + 1..];
  }

  lemma {:induction false} BodiesNone(g: Program, at: Site, end: M.Label, labels: Labels, from: int)
    ensures BodiesOk(g, at, []) && SymBodies(g, [], end) == [] && ArmsPlaced(g, [], [], labels, from) &&
      BodiesSize(g, []) == 0
  {
  }

  lemma {:induction false} BranchWritten(
    g: Program, b: Branch, next: M.Label, end: M.Label, from: nat, m1: Moment, m2: Moment, m3: Moment, m: Moment)
    requires Before(m1, m) && Before(m2, m) && Before(m3, m)
    requires Written(m1, from, ExprCode(g, b.cond)) && |m1.prog| == from + |ExprCode(g, b.cond)|
    requires m2.prog == m1.prog + [M.Not] + [M.Branch(M.Unresolved(next))]
    requires Written(m3, |m2.prog|, StmtsCode(g, b.body)) && |m3.prog| == |m2.prog| + |StmtsCode(g, b.body)|
    requires m.prog == m3.prog + [M.Jump(M.Unresolved(end))] && next in m.labels && m.labels[next] == |m.prog|
    ensures Written(m, from, SymBranch(g, b, end))
  {
    hide ExprCode, StmtsCode;
    var cond, body := ExprCode(g, b.cond), StmtsCode(g, b.body);
    var a := from + |cond|;
    assert m.prog[a] == m2.prog[a] && m.prog[a + 1] == m2.prog[a + 1];
    Single(m, a, I(M.Not));
    Single(m, a + 1, BranchBy(|body| + 2));
    hide Written, Before;
    Join(m, a, [I(M.Not)], [BranchBy(|body| + 2)]);
    assert [I(M.Not)] + [BranchBy(|body| + 2)] == [I(M.Not), BranchBy(|body| + 2)];
    AppendOne(m3, m, a + 2, body, JumpTo(end));
    Join(m, a, [I(M.Not), BranchBy(|body| + 2)], body + [JumpTo(end)]);
    Append(m1, m, from, cond, [I(M.Not), BranchBy(|body| + 2)] + (body + [JumpTo(end)]));
  }

  /** The first three instructions are still there. */
  lemma {:induction false} HeadKept(m3: Moment, m: Moment, from: nat, xs: seq<M.Instr>)
    requires Before(m3, m) && |xs| == 3 && from + 3 == |m3.prog| && m3.prog[from..] == xs
    ensures from + 3 <= |m.prog| && m.prog[from] == xs[0] && m.prog[from + 1] == xs[1] && m.prog[from + 2] == xs[2]
  {
    assert forall k :: 0 <= k < 3 ==> m3.prog[from + k] == m3.prog[from..][k];
    assert m3.prog[from + 0] == xs[0];
  }

  lemma {:induction false} LoopWritten(
    x: string, top: M.Label, end: M.Label, from: nat, m3: Moment, m4: Moment, m: Moment, body: Code)
    requires Before(m3, m) && Before(m4, m) && from + 3 == |m3.prog|
    requires m3.prog[from..] == [M.Block, M.QueryNext(x), M.Branch(M.Unresolved(end))]
    requires top in m3.labels && m3.labels[top] == from
    requires Written(m4, |m3.prog|, body) && |m4.prog| == |m3.prog| + |body|
    requires m.prog == m4.prog + [M.End] + [M.Jump(M.Unresolved(top))] + [M.End]
    requires end in m.labels && m.labels[end] == |m4.prog| + 2
    ensures Written(m, from, LoopCode(x, body))
  {
    hide Written, Before;
    var a := |m4.prog|;
    HeadKept(m3, m, from, [M.Block, M.QueryNext(x), M.Branch(M.Unresolved(end))]);
    LabelKept(m3, m, top);
    var head: Code := [I(M.Block), I(M.QueryNext(x)), BranchBy(|body| + 3)];
    var tail: Code := [I(M.End), JumpBy(-(|body| + 4)), I(M.End)];
    ThreeWritten(m, from, head);
    ThreeWritten(m, a, tail);
    Append(m4, m, from + 3, body, tail);
    Join(m, from, head, body + tail);
  }

  lemma {:induction false} ThreeWritten(m: Moment, a: nat, ops: Code)
    requires |ops| == 3 && a + 3 <= |m.prog|
    requires Writes(m.labels, m.prog[a], ops[0], a) && Writes(m.labels, m.prog[a + 1], ops[1], a + 1) &&
      Writes(m.labels, m.prog[a + 2], ops[2], a + 2)
    ensures Written(m, a, ops)
  {
    hide Written, Writes;
    Single(m, a, ops[0]);
    Single(m, a + 1, ops[1]);
    Single(m, a + 2, ops[2]);
    Join(m, a, [ops[0]], [ops[1]]);
    Join(m, a, [ops[0]] + [ops[1]], [ops[2]]);
    assert ops == ([ops[0]] + [ops[1]]) + [ops[2]];
  }

  /** Which statements may stand where. */
  predicate Allowed(s: Stmt, at: Site) {
    match s
    case Let(_, _) | CheckThat(_) | Match(_, _) | If(_, _) => !at.FinishSite?
    case Publish(_) | Map(_, _, _) | ActionCall(_, _) => at.ActionSite?
    case Return(_) => at.FunctionSite?
    case Finish(_) => at.PolicySite? || at.RecallSite?
    case Create(_) | Update(_, _) | Delete(_) | Emit(_) | FinishCall(_, _) => at.FinishSite?
    case DebugAssert(_) => true
  }

  lemma {:induction false} FieldsUnfold(g: Program, at: Site, kind: Member, fs: seq<Field>)
    ensures fs == [] ==> FieldsOk(g, at, fs) && FieldsCode(g, kind, fs) == []
    ensures fs != [] ==>
      (FieldsOk(g, at, fs) <==>
        (fs[0].value.Given? ==> ExprOk(g, at, fs[0].value.expr)) && FieldsOk(g, at, fs[1..]))
    ensures fs != [] ==>
      FieldsCode(g, kind, fs) == (
        match fs[0].value
        case Bind => []
        case Given(e) => ExprCode(g, e) + [I(SetterInstr(kind, fs[0].name))]) + FieldsCode(g, kind, fs[1..])
  {
    hide ExprOk, ExprCode;
  }

  lemma {:induction false} GuardWritten(m1: Moment, m: Moment, from: nat, code: Code, reason: ExitReason)
    requires Before(m1, m) && Written(m1, from, code) && |m1.prog| == from + |code|
    requires m.prog == m1.prog + [M.Branch(M.Resolved(|m1.prog| + 2)), M.Exit(reason)]
    ensures Written(m, from, code + [BranchBy(2), I(M.Exit(reason))])
  {
    hide Written, Before;
    Single(m, from + |code|, BranchBy(2));
    Single(m, from + |code| + 1, I(M.Exit(reason)));
    Join(m, from + |code|, [BranchBy(2)], [I(M.Exit(reason))]);
    assert [BranchBy(2)] + [I(M.Exit(reason))] == [BranchBy(2), I(M.Exit(reason))];
    Append(m1, m, from, code, [BranchBy(2), I(M.Exit(reason))]);
  }

  lemma {:induction false} TestWritten(
    g: Program, e: Expr, arm: M.Label, from: nat, m1: Moment, m2: Moment, m: Moment)
    requires Before(m1, m2) && Before(m1, m) && Before(m2, m) && |m1.prog| == from + 1 && m1.prog[from] == M.Dup(0)
    requires Written(m2, from + 1, ExprCode(g, e)) && |m2.prog| == from + 1 + |ExprCode(g, e)|
    requires m.prog == m2.prog + [M.Eq, M.Branch(M.Unresolved(arm))]
    ensures Written(m, from, SymTest(g, e, arm))
  {
    hide Written, Before, ExprCode;
    var code, k := ExprCode(g, e), |m2.prog|;
    Kept(m1, m, from);
    Single(m, from, I(M.Dup(0)));
    Single(m, k, I(M.Eq));
    Single(m, k + 1, BranchTo(arm));
    Join(m, k, [I(M.Eq)], [BranchTo(arm)]);
    assert [I(M.Eq)] + [BranchTo(arm)] == [I(M.Eq), BranchTo(arm)];
    Append(m2, m, from + 1, code, [I(M.Eq), BranchTo(arm)]);
    Join(m, from, [I(M.Dup(0))], code + [I(M.Eq), BranchTo(arm)]);
  }

  /** Code written between an opening and one closing operation. */
  lemma {:induction false} Between(m1: Moment, m2: Moment, m: Moment, from: nat, a: Code, body: Code, op: Op)
    requires Before(m1, m) && Before(m2, m) && Written(m1, from, a) && |m1.prog| == from + |a|
    requires Written(m2, |m1.prog|, body) && |m2.prog| == |m1.prog| + |body|
    requires |m2.prog| < |m.prog| && Writes(m.labels, m.prog[|m2.prog|], op, |m2.prog|)
    ensures Written(m, from, a + (body + [op]))
  {
    hide Written, Before;
    AppendOne(m2, m, |m1.prog|, body, op);
    Append(m1, m, from, a, body + [op]);
  }
}
