/** Definitions as wholes: control stays inside them and heights always agree. */
module Discipline {
  import opened Values
  import opened Ast
  import opened Static
  import opened Layout
  import opened Linking
  import opened Programs
  import opened Flow
  import S = SimBase
  import M = Machine

  /** Entered at height `h`, control leaves the code only by an exit, a return or for the time of
      a call; every instruction has one height; nothing below the frame is touched; and every
      return happens at the height the mode asks for. */
  ghost predicate Sealed(md: Mode, code: Code, h: Height) {
    exists hs :: Closed(md, code, hs, h)
  }

  ghost predicate Closed(md: Mode, code: Code, hs: seq<Height>, h: Height) {
    |hs| == |code| && 0 < |code| && hs[0] == h && forall k :: 0 <= k < |code| ==> Flows(md, code[k], hs, k)
  }

  lemma {:induction false} Seal(md: Mode, a: Code, op: Op, h: Height, h1: Height)
    requires Takes(md, a, h, h1) && op.I? && (op.instr.Exit? || (op.instr.Return? && h1 == md.ret))
    ensures Sealed(md, a + [op], h)
  {
    var hs :| Between(md, a, hs, h, h1);
    forall k | 0 <= k < |a + [op]| ensures Flows(md, (a + [op])[k], hs, k) {
      if k < |a| { assert Flows(md, a[k], hs, k); }
    }
    assert Closed(md, a + [op], hs, h);
  }

  lemma {:induction false} ParamsTake(md: Mode, ps: seq<string>, h: Height)
    requires 0 <= h.values
    ensures Takes(md, ParamsCode(ps), h.Plus(|ps|), h)
  {
    hide Takes;
    if ps == [] {
      TakesNone(md, h);
    } else {
      ParamsTake(md, ps[1..], h.Plus(1));
      TakesInstr(md, M.Def(ps[0]), h.Plus(1));
      InstrThen(md, M.Meta(M.LetMark(ps[0])), [I(M.Def(ps[0]))], h.Plus(1), h);
      assert [I(M.Meta(M.LetMark(ps[0])))] + [I(M.Def(ps[0]))] == [I(M.Meta(M.LetMark(ps[0]))), I(M.Def(ps[0]))];
      TakesThen(md, ParamsCode(ps[1..]), [I(M.Meta(M.LetMark(ps[0]))), I(M.Def(ps[0]))], h.Plus(|ps|), h.Plus(1), h);
    }
  }

  lemma {:induction false} BodySealed(md: Mode, at: Site, ps: seq<string>, ss: seq<Node>, op: Op)
    requires StmtsOk(md.g, at, ss) && Suits(md, at, Height(0, 0)) && (at.ActionSite? && !md.loops ==> MapFree(ss))
    requires op.I? && (op.instr.Exit? || (op.instr.Return? && md.ret == Height(0, 0)))
    ensures Sealed(md, ParamsCode(ps) + (StmtsCode(md.g, ss) + [op]), Height(|ps|, 0))
  {
    hide Takes, Sealed, StmtsOk, StmtsCode, ParamsCode;
    var h := Height(0, 0);
    ParamsTake(md, ps, h);
    StmtsTake(md, at, ss, h);
    TakesThen(md, ParamsCode(ps), StmtsCode(md.g, ss), h.Plus(|ps|), h, h);
    Seal(md, ParamsCode(ps) + StmtsCode(md.g, ss), op, h.Plus(|ps|), h);
    assert (ParamsCode(ps) + StmtsCode(md.g, ss)) + [op] == ParamsCode(ps) + (StmtsCode(md.g, ss) + [op]);
  }

  // ---- The discipline of each kind of definition ----

  /** A function takes its parameters, only moves forward, and returns exactly one value. */
  lemma {:induction false} FunctionSealed(g: Program, d: Definition)
    requires FunctionOk(g, d)
    ensures Sealed(Mode(g, Height(1, 0), false, false), FunctionCode(g, d), Height(|d.params|, 0))
  {
    hide Sealed, StmtsOk, StmtsCode;
    BodySealed(Mode(g, Height(1, 0), false, false), FunctionSite(KnownIn(g.policy, d.name)), d.params, d.body,
      I(M.Exit(Panic)));
  }

  /** A finish function only moves forward and leaves nothing behind. */
  lemma {:induction false} FinishFunctionSealed(g: Program, d: Definition)
    requires FinishFunctionOk(g, d)
    ensures Sealed(Mode(g, Height(0, 0), false, false), ProcedureCode(g, d), Height(|d.params|, 0))
  {
    hide Sealed, StmtsOk, StmtsCode;
    BodySealed(Mode(g, Height(0, 0), false, false), FinishSite(AllKnown(g.policy)), d.params, d.body, I(M.Return));
  }

  /** An action leaves nothing behind, and only moves forward unless it holds a map statement. */
  lemma {:induction false} ActionSealed(g: Program, d: Definition)
    requires ActionOk(g, d)
    ensures Sealed(Mode(g, Height(0, 0), !MapFree(d.body), false), ProcedureCode(g, d), Height(|d.params|, 0))
  {
    hide Sealed, StmtsOk, StmtsCode, MapFree;
    BodySealed(Mode(g, Height(0, 0), !MapFree(d.body), false), ActionSite(AllKnown(g.policy)), d.params, d.body,
      I(M.Return));
  }

  /** A policy or recall block takes the envelope and only moves forward. */
  lemma {:induction false} BlockSealed(g: Program, at: Site, ss: seq<Node>)
    requires StmtsOk(g, at, ss) && (at.PolicySite? || at.RecallSite?)
    ensures Sealed(Mode(g, Height(0, 0), false, false), BlockCode(g, ss), Height(1, 0))
  {
    hide Takes, Sealed, StmtsOk, StmtsCode;
    var md, h := Mode(g, Height(0, 0), false, false), Height(0, 0);
    StmtsTake(md, at, ss, h);
    InstrThen(md, M.Def("envelope"), StmtsCode(g, ss), h.Plus(1), h);
    Seal(md, [I(M.Def("envelope"))] + StmtsCode(g, ss), I(M.Exit(Normal)), h.Plus(1), h);
    assert ([I(M.Def("envelope"))] + StmtsCode(g, ss)) + [I(M.Exit(Normal))] == BlockCode(g, ss);
  }

  /** A seal or open block takes one value, only moves forward and returns one value: its body
      by itself, and with the stub that calls it. */
  lemma {:induction false} StubSealed(g: Program, x: string, ss: seq<Node>)
    requires StubOk(g, ss)
    ensures Sealed(Mode(g, Height(1, 0), false, false), ([I(M.Def(x))] + StmtsCode(g, ss)) + [I(M.Exit(Panic))],
      Height(1, 0))
    ensures Sealed(Mode(g, Height(1, 0), false, true), StubCode(g, x, ss), Height(1, 0))
  {
    hide Takes, Sealed, StmtsOk, StmtsCode;
    StubBodyTakes(Mode(g, Height(1, 0), false, false), x, ss);
    Seal(Mode(g, Height(1, 0), false, false), [I(M.Def(x))] + StmtsCode(g, ss), I(M.Exit(Panic)), Height(1, 0),
      Height(0, 0));
    var md, h := Mode(g, Height(1, 0), false, true), Height(0, 0);
    StubBodyTakes(md, x, ss);
    CallStubTakes(md, [I(M.Def(x))] + StmtsCode(g, ss), h);
    var head: Code := [CallBy(2), I(M.Exit(Normal))];
    Seal(md, head + ([I(M.Def(x))] + StmtsCode(g, ss)), I(M.Exit(Panic)), h.Plus(1), h);
    assert (head + ([I(M.Def(x))] + StmtsCode(g, ss))) + [I(M.Exit(Panic))] == StubCode(g, x, ss);
  }

  lemma {:induction false} StubBodyTakes(md: Mode, x: string, ss: seq<Node>)
    requires StmtsOk(md.g, FunctionSite(AllKnown(md.g.policy)), ss) && md.ret == Height(1, 0)
    ensures Takes(md, [I(M.Def(x))] + StmtsCode(md.g, ss), Height(1, 0), Height(0, 0))
  {
    hide Takes, StmtsOk, StmtsCode;
    StmtsTake(md, FunctionSite(AllKnown(md.g.policy)), ss, Height(0, 0));
    InstrThen(md, M.Def(x), StmtsCode(md.g, ss), Height(1, 0), Height(0, 0));
  }

  lemma {:induction false} CallStubTakes(md: Mode, body: Code, h: Height)
    requires Takes(md, body, h.Plus(1), h) && md.ret == h.Plus(1) && md.stub && h.blocks == 0
    ensures Takes(md, [CallBy(2), I(M.Exit(Normal))] + body, h.Plus(1), h)
  {
    var hs :| Between(md, body, hs, h.Plus(1), h);
    First(md, I(M.Exit(Normal)), h.Plus(1), body, hs);
    First(md, CallBy(2), h.Plus(1), [I(M.Exit(Normal))] + body, [h.Plus(1)] + hs);
    assert [CallBy(2)] + ([I(M.Exit(Normal))] + body) == [CallBy(2), I(M.Exit(Normal))] + body;
    assert Between(md, [CallBy(2), I(M.Exit(Normal))] + body, [h.Plus(1)] + ([h.Plus(1)] + hs), h.Plus(1), h);
  }

  // ---- What a call runs ----

  /** The code a call runs. */
  function CodeOf(g: Program, l: M.Label): Option<Code> {
    match l.ltype
    case FunctionLabel => (
      match FindDefinition(g.policy.functions, l.name)
      case Some(d) => Some(FunctionCode(g, d))
      case None => None)
    case ActionLabel => (
      match FindDefinition(g.policy.actions, l.name)
      case Some(d) => Some(ProcedureCode(g, d))
      case None => None)
    case Temporary => (
      match FindDefinition(g.policy.finishFunctions, l.name)
      case Some(d) => Some(ProcedureCode(g, d))
      case None => None)
    case _ => None
  }

  /** What the code of a call is checked for. */
  function CalledMode(g: Program, l: M.Label): Mode {
    match l.ltype
    case FunctionLabel => Mode(g, Height(1, 0), false, false)
    case ActionLabel => (
      match FindDefinition(g.policy.actions, l.name)
      case Some(d) => Mode(g, Height(0, 0), !MapFree(d.body), false)
      case None => Mode(g, Height(0, 0), false, false))
    case _ => Mode(g, Height(0, 0), false, false)
  }

  /** Whatever is called stands where its label points, takes the operands the call gives it and
      returns with what the call leaves. */
  lemma {:induction false} CalledSealed(img: S.Image, l: M.Label)
    requires S.Loaded(img) && CodeOf(img.g, l).Some?
    ensures S.Installed(img, l, CodeOf(img.g, l).value) && CallEffect(img.g, l).Some?
    ensures CalledMode(img.g, l).g == img.g && !CalledMode(img.g, l).stub
    ensures CalledMode(img.g, l).ret == Height(CallEffect(img.g, l).value.1, 0)
    ensures Sealed(CalledMode(img.g, l), CodeOf(img.g, l).value, Height(CallEffect(img.g, l).value.0, 0))
  {
    hide FindDefinition, StmtsCode, ParamsCode, Sealed, StmtsOk, S.Installed, MapFree;
    var g, p, md := img.g, img.g.policy, CalledMode(img.g, l);
    match l.ltype
    case FunctionLabel =>
      var d := FindDefinition(p.functions, l.name).value;
      assert S.FunctionLoaded(img, d) && d.name == l.name by { S.FindSound(p.functions, l.name); }
      BodySealed(md, FunctionSite(KnownIn(p, d.name)), d.params, d.body, I(M.Exit(Panic)));
    case ActionLabel =>
      var d := FindDefinition(p.actions, l.name).value;
      assert S.ActionLoaded(img, d) && d.name == l.name by { S.FindSound(p.actions, l.name); }
      BodySealed(md, ActionSite(AllKnown(p)), d.params, d.body, I(M.Return));
    case Temporary =>
      var d := FindDefinition(p.finishFunctions, l.name).value;
      assert S.FinishLoaded(img, d) && d.name == l.name by { S.FindSound(p.finishFunctions, l.name); }
      BodySealed(md, FinishSite(AllKnown(p)), d.params, d.body, I(M.Return));
  }

  // ---- No target is left dangling ----

  predicate LegalOp(g: Program, op: Op) {
    match op
    case I(i) => !i.Branch? && !i.Jump? && !i.Call?
    case CallTo(l) => CallEffect(g, l).Some?
    case JumpTo(_) | BranchTo(_) => false
    case _ => true
  }

  /** Wherever control goes from position `k`, or comes back to after a call, lies in the code. */
  predicate Stays(op: Op, k: int, size: int) {
    match op
    case I(i) => i.Exit? || i.Return? || k + 1 < size
    case JumpBy(d) => 0 <= k + d < size
    case BranchBy(d) => k + 1 < size && 0 <= k + d < size
    case CallBy(d) => k + 1 < size && 0 <= k + d < size
    case CallTo(_) => k + 1 < size
    case JumpTo(_) | BranchTo(_) => false
  }

  /** Calls go to definitions, everything else stays inside the code. */
  ghost predicate Legal(g: Program, code: Code) {
    forall k :: 0 <= k < |code| ==> LegalOp(g, code[k]) && Stays(code[k], k, |code|)
  }

  lemma {:induction false} SealedLegal(md: Mode, code: Code, h: Height)
    requires Sealed(md, code, h)
    ensures Legal(md.g, code)
  {
    var hs :| Closed(md, code, hs, h);
    forall k | 0 <= k < |code| ensures LegalOp(md.g, code[k]) && Stays(code[k], k, |code|) {
      assert Flows(md, code[k], hs, k);
    }
  }

  lemma {:induction false} LegalJoin(g: Program, a: Code, b: Code)
    requires Legal(g, a) && Legal(g, b)
    ensures Legal(g, a + b)
  {
    hide LegalOp;
    forall k | 0 <= k < |a + b| ensures LegalOp(g, (a + b)[k]) && Stays((a + b)[k], k, |a + b|) {
      if k < |a| {
        assert (a + b)[k] == a[k] && Stays(a[k], k, |a|);
      } else {
        assert (a + b)[k] == b[k - |a|] && Stays(b[k - |a|], k - |a|, |b|);
      }
    }
  }

  lemma {:induction false} FunctionsLegal(g: Program, ds: seq<Definition>)
    requires forall i :: 0 <= i < |ds| ==> FunctionOk(g, ds[i])
    ensures Legal(g, FunctionsCode(g, ds))
  {
    hide FunctionOk, FunctionCode, Legal, Sealed;
    if ds == [] {
      LegalNone(g);
    } else {
      var d := ds[|ds| - 1];
      FunctionsLegal(g, ds[..|ds| - 1]);
      FunctionSealed(g, d);
      SealedLegal(Mode(g, Height(1, 0), false, false), FunctionCode(g, d), Height(|d.params|, 0));
      LegalJoin(g, FunctionsCode(g, ds[..|ds| - 1]), FunctionCode(g, d));
    }
  }

  lemma {:induction false} ProceduresLegal(g: Program, ds: seq<Definition>)
    requires forall i :: 0 <= i < |ds| ==> FinishFunctionOk(g, ds[i]) || ActionOk(g, ds[i])
    ensures Legal(g, ProceduresCode(g, ds))
  {
    hide FinishFunctionOk, ActionOk, ProcedureCode, Legal, Sealed, MapFree;
    if ds == [] {
      LegalNone(g);
    } else {
      var d := ds[|ds| - 1];
      ProceduresLegal(g, ds[..|ds| - 1]);
      if FinishFunctionOk(g, d) {
        FinishFunctionSealed(g, d);
        SealedLegal(Mode(g, Height(0, 0), false, false), ProcedureCode(g, d), Height(|d.params|, 0));
      } else {
        ActionSealed(g, d);
        SealedLegal(Mode(g, Height(0, 0), !MapFree(d.body), false), ProcedureCode(g, d), Height(|d.params|, 0));
      }
      LegalJoin(g, ProceduresCode(g, ds[..|ds| - 1]), ProcedureCode(g, d));
    }
  }

  lemma {:induction false} CommandLegal(g: Program, c: Command)
    requires CommandOk(g, c)
    ensures Legal(g, CommandCode(g, c))
  {
    hide StmtsOk, StubOk, BlockCode, StubCode, Legal, Sealed;
    BlockSealed(g, PolicySite(AllKnown(g.policy)), c.policy);
    SealedLegal(Mode(g, Height(0, 0), false, false), BlockCode(g, c.policy), Height(1, 0));
    BlockSealed(g, RecallSite(AllKnown(g.policy)), c.recall);
    SealedLegal(Mode(g, Height(0, 0), false, false), BlockCode(g, c.recall), Height(1, 0));
    StubSealed(g, "this", c.seal);
    SealedLegal(Mode(g, Height(1, 0), false, true), StubCode(g, "this", c.seal), Height(1, 0));
    StubSealed(g, "envelope", c.open);
    SealedLegal(Mode(g, Height(1, 0), false, true), StubCode(g, "envelope", c.open), Height(1, 0));
    LegalJoin(g, BlockCode(g, c.policy), BlockCode(g, c.recall));
    LegalJoin(g, BlockCode(g, c.policy) + BlockCode(g, c.recall), StubCode(g, "this", c.seal));
    LegalJoin(g, (BlockCode(g, c.policy) + BlockCode(g, c.recall)) + StubCode(g, "this", c.seal),
      StubCode(g, "envelope", c.open));
  }

  lemma {:induction false} CommandsLegal(g: Program, cs: seq<Command>)
    requires forall i :: 0 <= i < |cs| ==> CommandOk(g, cs[i])
    ensures Legal(g, CommandsCode(g, cs))
  {
    hide CommandOk, CommandCode, Legal;
    if cs == [] {
      LegalNone(g);
    } else {
      CommandsLegal(g, cs[..|cs| - 1]);
      CommandLegal(g, cs[|cs| - 1]);
      LegalJoin(g, CommandsCode(g, cs[..|cs| - 1]), CommandCode(g, cs[|cs| - 1]));
    }
  }

  lemma LegalNone(g: Program)
    ensures Legal(g, []) && Legal(g, [I(M.Exit(Panic))])
  {
  }

  lemma {:induction false} ProgramLegal(g: Program)
    requires PolicyOk(g)
    ensures Legal(g, ProgramCode(g))
  {
    hide FunctionOk, FinishFunctionOk, ActionOk, CommandOk, FunctionsCode, ProceduresCode, CommandsCode, Legal;
    FunctionsLegal(g, g.policy.functions);
    ProceduresLegal(g, g.policy.finishFunctions);
    CommandsLegal(g, g.policy.commands);
    ProceduresLegal(g, g.policy.actions);
    LegalNone(g);
    var c1 := [I(M.Exit(Panic))] + FunctionsCode(g, g.policy.functions);
    LegalJoin(g, [I(M.Exit(Panic))], FunctionsCode(g, g.policy.functions));
    LegalJoin(g, c1, ProceduresCode(g, g.policy.finishFunctions));
    var c2 := c1 + ProceduresCode(g, g.policy.finishFunctions);
    LegalJoin(g, c2, CommandsCode(g, g.policy.commands));
    LegalJoin(g, c2 + CommandsCode(g, g.policy.commands), ProceduresCode(g, g.policy.actions));
  }

  /** Every definition that can be called has its label. */
  ghost predicate Labelled(g: Program, labels: Labels) {
    (forall i :: 0 <= i < |g.policy.functions| ==> M.Label(g.policy.functions[i].name, M.FunctionLabel) in labels) &&
    (forall i :: 0 <= i < |g.policy.finishFunctions| ==>
      M.Label(g.policy.finishFunctions[i].name, M.Temporary) in labels) &&
    (forall i :: 0 <= i < |g.policy.actions| ==> M.Label(g.policy.actions[i].name, M.ActionLabel) in labels)
  }

  lemma {:induction false} CalledLabelled(g: Program, labels: Labels, l: M.Label)
    requires Labelled(g, labels) && CallEffect(g, l).Some?
    ensures l in labels
  {
    hide FindDefinition;
    var ds := if l.ltype.FunctionLabel? then g.policy.functions
      else if l.ltype.ActionLabel? then g.policy.actions else g.policy.finishFunctions;
    assert l.ltype.FunctionLabel? || l.ltype.ActionLabel? || l.ltype.Temporary? by { FindNone(l.name); }
    S.FindSound(ds, l.name);
  }

  lemma FindNone(name: string)
    ensures FindDefinition([], name) == None
  {
  }

  /** Once everything is written, every symbolic target has a label. */
  lemma {:induction false} NothingDangles(g: Program, m: Moment, code: Code, k: nat)
    requires Written(m, 0, code) && |m.prog| == |code| && Legal(g, code) && Labelled(g, m.labels) && k < |code|
    ensures Resolvable(m.labels, m.prog[k])
  {
    hide Labelled, CallEffect;
    assert LegalOp(g, code[k]);
    assert Becomes(m.labels, m.prog[0 + k], code[k], 0 + k);
    assert Patch(m.labels, m.prog[k]) == Place(m.labels, code[k], k);
    if code[k].CallTo? { CalledLabelled(g, m.labels, code[k].target); }
  }

  /** The successors of a linked instruction are addresses of the program: targets are resolved
      and inside, and control does not run off the end. */
  predicate WellLinked(prog: seq<M.Instr>, k: int)
    requires 0 <= k < |prog|
  {
    var i := prog[k];
    ((i.Branch? || i.Jump? || i.Call?) ==> i.target.Resolved? && 0 <= i.target.addr < |prog|) &&
    (!i.Jump? && !i.Exit? && !i.Return? ==> k + 1 < |prog|)
  }

  lemma {:induction false} LegalLinked(img: S.Image, k: nat)
    requires CodeAt(img.prog, img.labels, 0, ProgramCode(img.g)) && |img.prog| == |ProgramCode(img.g)|
    requires Legal(img.g, ProgramCode(img.g)) && S.Loaded(img) && k < |img.prog|
    ensures WellLinked(img.prog, k)
  {
    hide ProgramCode, S.Loaded, CallEffect;
    var op := ProgramCode(img.g)[k];
    assert LegalOp(img.g, op) && Stays(op, k, |img.prog|);
    assert img.prog[0 + k] == Place(img.labels, op, 0 + k);
    if op.CallTo? { CalledInside(img, op.target); }
  }

  /** A called definition stands inside the program. */
  lemma {:induction false} CalledInside(img: S.Image, l: M.Label)
    requires S.Loaded(img) && CallEffect(img.g, l).Some?
    ensures l in img.labels && 0 <= img.labels[l] < |img.prog|
  {
    hide FindDefinition, StmtsCode, ParamsCode, StmtsOk;
    assert l.ltype.FunctionLabel? || l.ltype.ActionLabel? || l.ltype.Temporary? by { FindNone(l.name); }
    if l.ltype.FunctionLabel? {
      S.FindSound(img.g.policy.functions, l.name);
      var i :| 0 <= i < |img.g.policy.functions| && img.g.policy.functions[i].name == l.name;
      assert S.FunctionLoaded(img, img.g.policy.functions[i]);
    } else if l.ltype.ActionLabel? {
      S.FindSound(img.g.policy.actions, l.name);
      var i :| 0 <= i < |img.g.policy.actions| && img.g.policy.actions[i].name == l.name;
      assert S.ActionLoaded(img, img.g.policy.actions[i]);
    } else {
      S.FindSound(img.g.policy.finishFunctions, l.name);
      var i :| 0 <= i < |img.g.policy.finishFunctions| && img.g.policy.finishFunctions[i].name == l.name;
      assert S.FinishLoaded(img, img.g.policy.finishFunctions[i]);
    }
  }
}
