/** Vocabulary and basic steps of the simulation between policies and their code. */
module SimBase {
  import opened Values
  import opened Ast
  import opened Layout
  import opened Static
  import M = Machine
  import S = Semantics

  /** A program together with a memory image and its symbol table. */
  datatype Image = Image(g: Program, prog: seq<M.Instr>, labels: Labels)

  function Go(img: Image, s: M.Config, k: nat): M.State {
    M.Run(img.prog, img.g.world, M.Running(s), k)
  }

  ghost predicate Holds(img: Image, base: int, code: Code) {
    CodeAt(img.prog, img.labels, base, code)
  }

  ghost predicate Installed(img: Image, l: M.Label, code: Code) {
    l in img.labels && Holds(img, img.labels[l], code)
  }

  ghost predicate FunctionLoaded(img: Image, d: Definition) {
    StmtsOk(img.g, FunctionSite(KnownIn(img.g.policy, d.name)), d.body) &&
    Installed(img, M.Label(d.name, M.FunctionLabel), FunctionCode(img.g, d))
  }

  ghost predicate ActionLoaded(img: Image, d: Definition) {
    StmtsOk(img.g, ActionSite(AllKnown(img.g.policy)), d.body) &&
    Installed(img, M.Label(d.name, M.ActionLabel), ProcedureCode(img.g, d))
  }

  ghost predicate FinishLoaded(img: Image, d: Definition) {
    StmtsOk(img.g, FinishSite(AllKnown(img.g.policy)), d.body) &&
    Installed(img, M.Label(d.name, M.Temporary), ProcedureCode(img.g, d))
  }

  /** Every definition is checked and its code stands where its label points. */
  ghost predicate Loaded(img: Image) {
    (forall i :: 0 <= i < |img.g.policy.functions| ==> FunctionLoaded(img, img.g.policy.functions[i])) &&
    (forall i :: 0 <= i < |img.g.policy.actions| ==> ActionLoaded(img, img.g.policy.actions[i])) &&
    (forall i :: 0 <= i < |img.g.policy.finishFunctions| ==> FinishLoaded(img, img.g.policy.finishFunctions[i]))
  }

  lemma {:induction false} FindSound(ds: seq<Definition>, name: string)
    ensures FindDefinition(ds, name).Some? ==>
      exists i :: 0 <= i < |ds| && ds[i] == FindDefinition(ds, name).value && ds[i].name == name
  {
    if ds != [] && ds[0].name != name {
      FindSound(ds[1..], name);
      if FindDefinition(ds[1..], name).Some? {
        var i :| 0 <= i < |ds[1..]| && ds[1..][i] == FindDefinition(ds[1..], name).value && ds[1..][i].name == name;
        assert ds[i + 1] == ds[1..][i];
      }
    }
  }

  // ---- Agreement of outcomes and machine states ----

  /** The machine ended the way the evaluation did. For a `Timeout`, it is still running with
      `n` more pending calls. */
  ghost predicate Stopped<T>(o: Outcome<T>, s: M.Config, n: nat, t: M.State) {
    match o
    case Val(_, _) => false
    case Exit(r, h) => t.Halted? && t.reason == r && t.cfg.hist == h
    case Fail(f, h) => t == M.Faulted(f, h)
    case Timeout => t.Running? && Length(t.cfg.calls) >= Length(s.calls) + n
  }

  /** After an expression: just behind its code, with its value on the stack and nothing else
      changed. */
  ghost predicate ExprAgrees(o: Outcome<Value>, s: M.Config, len: nat, n: nat, t: M.State) {
    if o.Val? then t == M.Running(s.(pc := s.pc + len, stack := Cons(o.value, s.stack), hist := o.hist))
    else Stopped(o, s, n, t)
  }

  /** After an argument list: all values pushed in order. */
  ghost predicate ArgsAgree(o: Outcome<seq<Value>>, s: M.Config, len: nat, n: nat, t: M.State) {
    if o.Val? then t == M.Running(s.(pc := s.pc + len, stack := PushAll(s.stack, o.value), hist := o.hist))
    else Stopped(o, s, n, t)
  }

  /** After setting members: the object on top is replaced by its completed form. */
  ghost predicate FieldsAgree(o: Outcome<Value>, s: M.Config, len: nat, n: nat, t: M.State) {
    if o.Val? then
      s.stack.Cons? &&
      t == M.Running(s.(pc := s.pc + len, stack := Cons(o.value, s.stack.tail), hist := o.hist))
    else Stopped(o, s, n, t)
  }

  /** Two runs in a row. */
  lemma {:induction false} Chain(img: Image, s: M.Config, a: nat, s1: M.Config, b: nat)
    requires Go(img, s, a) == M.Running(s1)
    ensures Go(img, s, a + b) == Go(img, s1, b)
  {
    M.RunSplit(img.prog, img.g.world, M.Running(s), a, b);
  }

  /** A single step at a known instruction. */
  lemma {:induction false} StepAt(img: Image, s: M.Config)
    ensures Go(img, s, 1) == M.Step(img.prog, img.g.world, s)
  {
    assert M.Run(img.prog, img.g.world, M.Step(img.prog, img.g.world, s), 0) == M.Step(img.prog, img.g.world, s);
  }

  lemma Fetch(img: Image, s: M.Config, op: Op, rest: Code)
    requires Holds(img, s.pc, [op] + rest)
    ensures 0 <= s.pc < |img.prog| && img.prog[s.pc] == Place(img.labels, op, s.pc)
    ensures Holds(img, s.pc + 1, rest)
  {
    CodeSplit(img.prog, img.labels, s.pc, [op], rest);
    assert ([op] + rest)[0] == op;
    assert img.prog[s.pc + 0] == Place(img.labels, ([op] + rest)[0], s.pc + 0);
  }

  // ---- Straight-line code ----

  /** Executes instructions one after the other. */
  function Exec(w: World, xs: seq<M.Instr>, s: M.Config): M.State
    decreases xs
  {
    if xs == [] then M.Running(s)
    else
      var t := M.Operate(w, xs[0], s);
      if t.Running? then Exec(w, xs[1..], t.cfg.(pc := s.pc + 1)) else t
  }

  ghost predicate NoControl(xs: seq<M.Instr>) {
    forall i :: 0 <= i < |xs| ==> !M.IsControl(xs[i])
  }

  lemma {:induction false} StraightLine(img: Image, xs: seq<M.Instr>, s: M.Config)
    requires NoControl(xs) && Holds(img, s.pc, Instrs(xs))
    ensures Go(img, s, |xs|) == Exec(img.g.world, xs, s)
    decreases xs
  {
    hide Holds, M.Operate, M.Step, M.IsControl;
    if xs != [] {
      assert Instrs(xs) == [I(xs[0])] + Instrs(xs[1..]);
      DoInstr(img, s, xs[0], Instrs(xs[1..]));
      var t := M.Operate(img.g.world, xs[0], s);
      if t.Running? {
        var s1 := t.cfg.(pc := s.pc + 1);
        StraightLine(img, xs[1..], s1);
        Chain(img, s, 1, s1, |xs| - 1);
      } else {
        M.EndIsFinal(img.prog, img.g.world, M.Running(s), 1, |xs|);
      }
    }
  }

  lemma {:induction false} ExecCons(w: World, x: M.Instr, rest: seq<M.Instr>, s: M.Config)
    ensures Exec(w, [x] + rest, s) ==
      var t := M.Operate(w, x, s);
      if t.Running? then Exec(w, rest, t.cfg.(pc := s.pc + 1)) else t
  {
    hide M.Operate;
    var xs := [x] + rest;
    assert xs[0] == x && xs[1..] == rest;
  }

  // ---- Single steps at known code ----

  /** An instruction that does not transfer control. */
  lemma {:induction false} DoInstr(img: Image, s: M.Config, i: M.Instr, rest: Code)
    requires Holds(img, s.pc, [I(i)] + rest) && !M.IsControl(i)
    ensures Go(img, s, 1) ==
      var t := M.Operate(img.g.world, i, s);
      if t.Running? then M.Running(t.cfg.(pc := s.pc + 1)) else t
    ensures Holds(img, s.pc + 1, rest)
  {
    hide M.Operate;
    Fetch(img, s, I(i), rest);
    StepAt(img, s);
  }

  /** What a value-introducing instruction pushes. */
  function Pushed(i: M.Instr): Option<Value> {
    match i
    case Const(v) => Some(v)
    case FactNew(n) => Some(FactV(n, [], []))
    case StructNew(n) => Some(StructV(n, map[]))
    case _ => None
  }

  lemma {:induction false} DoPush(img: Image, s: M.Config, i: M.Instr, rest: Code)
    requires Holds(img, s.pc, [I(i)] + rest) && Pushed(i).Some?
    ensures Go(img, s, 1) == M.Running(s.(pc := s.pc + 1, stack := Cons(Pushed(i).value, s.stack)))
    ensures Holds(img, s.pc + 1, rest)
  {
    hide M.Run, M.Step;
    DoInstr(img, s, i, rest);
  }

  /** Trace marks change nothing. */
  lemma {:induction false} DoMark(img: Image, s: M.Config, m: M.Meta, rest: Code)
    requires Holds(img, s.pc, [I(M.Meta(m))] + rest)
    ensures Go(img, s, 1) == M.Running(s.(pc := s.pc + 1))
    ensures Holds(img, s.pc + 1, rest)
  {
    hide M.Run, M.Step;
    DoInstr(img, s, M.Meta(m), rest);
  }

  /** A branch on a boolean goes one of two ways; anything else is an error. */
  lemma {:induction false} DoBranch(img: Image, s: M.Config, d: int, rest: Code)
    requires Holds(img, s.pc, [BranchBy(d)] + rest) && s.stack.Cons?
    ensures Go(img, s, 1) ==
      var v := s.stack.head;
      if v.BoolV? then M.Running(s.(pc := if v.b then s.pc + d else s.pc + 1, stack := s.stack.tail))
      else M.Faulted(InvalidType, s.hist)
    ensures Holds(img, s.pc + 1, rest)
  {
    hide M.Operate;
    Fetch(img, s, BranchBy(d), rest);
    StepAt(img, s);
  }

  lemma {:induction false} DoJump(img: Image, s: M.Config, d: int, rest: Code)
    requires Holds(img, s.pc, [JumpBy(d)] + rest)
    ensures Go(img, s, 1) == M.Running(s.(pc := s.pc + d))
    ensures Holds(img, s.pc + 1, rest)
  {
    hide M.Operate;
    Fetch(img, s, JumpBy(d), rest);
    StepAt(img, s);
  }

  lemma {:induction false} DoExit(img: Image, s: M.Config, r: ExitReason, rest: Code)
    requires Holds(img, s.pc, [I(M.Exit(r))] + rest)
    ensures Go(img, s, 1) == M.Halted(r, s)
    ensures Holds(img, s.pc + 1, rest)
  {
    hide M.Operate;
    Fetch(img, s, I(M.Exit(r)), rest);
    StepAt(img, s);
  }

  /** The configuration in which a called definition starts. */
  function Entered(s: M.Config, addr: int): M.Config {
    s.(pc := addr, calls := Cons(s.pc, s.calls), locals := Cons(Cons(map[], Nil), s.locals))
  }

  lemma {:induction false} DoCall(img: Image, s: M.Config, l: M.Label, rest: Code)
    requires Holds(img, s.pc, [CallTo(l)] + rest) && l in img.labels
    ensures Go(img, s, 1) == M.Running(Entered(s, img.labels[l]))
    ensures Holds(img, s.pc + 1, rest)
  {
    hide M.Operate;
    Fetch(img, s, CallTo(l), rest);
    StepAt(img, s);
  }

  /** The configuration after returning from the innermost call. */
  function Left(s: M.Config): M.Config
    requires s.calls.Cons? && s.locals.Cons?
  {
    s.(pc := s.calls.head + 1, calls := s.calls.tail, locals := s.locals.tail)
  }

  lemma {:induction false} DoReturn(img: Image, s: M.Config, rest: Code)
    requires Holds(img, s.pc, [I(M.Return)] + rest) && s.locals.Cons?
    ensures Go(img, s, 1) == if s.calls.Cons? then M.Running(Left(s)) else M.Halted(Normal, s)
    ensures Holds(img, s.pc + 1, rest)
  {
    hide M.Operate;
    Fetch(img, s, I(M.Return), rest);
    StepAt(img, s);
  }

  lemma Split(img: Image, base: int, a: Code, b: Code)
    requires Holds(img, base, a + b)
    ensures Holds(img, base, a) && Holds(img, base + |a|, b)
  {
    CodeSplit(img.prog, img.labels, base, a, b);
  }
}
