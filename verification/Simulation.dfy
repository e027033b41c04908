/** Running the code of a piece of syntax agrees with its meaning. Every lemma returns the
    number of machine steps it accounts for. */
module Simulation {
  import opened Values
  import opened Ast
  import opened Layout
  import opened Static
  import opened SimBase
  import opened SimOps
  import Scoping
  import M = Machine
  import S = Semantics

  // ---- Expressions ----

  lemma {:induction false} ExprSim(img: Image, n: nat, at: Site, e: Expr, s: M.Config) returns (k: nat)
    requires Loaded(img) && ExprOk(img.g, at, e)
    requires s.locals.Cons? && Holds(img, s.pc, ExprCode(img.g, e))
    ensures ExprAgrees(S.EvalExpr(img.g, n, s.locals.head, e, s.hist), s, |ExprCode(img.g, e)|, n, Go(img, s, k))
    decreases n, e, 0
  {
    hide Holds, M.Step, M.Operate, M.Run, Loaded;
    match e
    case Literal(v) => k := ConstSim(img, n, e, v, s);
    case EnumReference(t, v) => k := ConstSim(img, n, e, EnumV(t, v), s);
    case Identifier(x) => k := IdentifierSim(img, n, x, s);
    case NamedStruct(name, fields) => k := StructSim(img, n, at, e, s);
    case FactQuery(kind, fact) => k := QuerySim(img, n, at, e, s);
    case Conditional(c, yes, no) => k := ConditionalSim(img, n, at, e, s);
    case FunctionCall(name, args) => k := FunctionCallSim(img, n, at, e, s);
    case ForeignCall(m, name, args) => k := ForeignCallSim(img, n, at, e, s);
    case Unary(op, a) => k := UnarySim(img, n, at, e, s);
    case Binary(op, a, b) => k := BinarySim(img, n, at, e, s);
  }

  lemma {:induction false} ConstSim(img: Image, n: nat, e: Expr, v: Value, s: M.Config) returns (k: nat)
    requires s.locals.Cons? && Holds(img, s.pc, ExprCode(img.g, e))
    requires ExprCode(img.g, e) == [I(M.Const(v))]
    requires S.EvalExpr(img.g, n, s.locals.head, e, s.hist) == Val(v, s.hist)
    ensures ExprAgrees(S.EvalExpr(img.g, n, s.locals.head, e, s.hist), s, |ExprCode(img.g, e)|, n, Go(img, s, k))
  {
    hide Holds, M.Run, M.Step, M.Operate, S.EvalExpr, ExprCode;
    assert [I(M.Const(v))] == [I(M.Const(v))] + [];
    DoPush(img, s, M.Const(v), []);
    k := 1;
  }

  lemma {:induction false} IdentifierSim(img: Image, n: nat, x: string, s: M.Config) returns (k: nat)
    requires s.locals.Cons? && Holds(img, s.pc, ExprCode(img.g, Identifier(x)))
    ensures ExprAgrees(S.EvalExpr(img.g, n, s.locals.head, Identifier(x), s.hist), s,
                       |ExprCode(img.g, Identifier(x))|, n, Go(img, s, k))
  {
    hide Holds, M.Run, M.Step;
    var mark, get := M.Meta(M.GetMark(x)), M.Get(x);
    assert ExprCode(img.g, Identifier(x)) == [I(mark)] + ([I(get)] + []);
    DoMark(img, s, mark.meta, [I(get)] + []);
    var s1 := s.(pc := s.pc + 1);
    DoInstr(img, s1, get, []);
    Chain(img, s, 1, s1, 1);
    k := 2;
  }

  lemma {:induction false} UnarySim(img: Image, n: nat, at: Site, e: Expr, s: M.Config) returns (k: nat)
    requires e.Unary? && Loaded(img) && ExprOk(img.g, at, e)
    requires s.locals.Cons? && Holds(img, s.pc, ExprCode(img.g, e))
    ensures ExprAgrees(S.EvalExpr(img.g, n, s.locals.head, e, s.hist), s, |ExprCode(img.g, e)|, n, Go(img, s, k))
    decreases n, e.arg, 1
  {
    hide Holds, M.Step, M.Operate, M.Run, Loaded;
    Split(img, s.pc, ExprCode(img.g, e.arg), UnaryCode(e.uop));
    k := ExprSim(img, n, at, e.arg, s);
    var o := S.EvalExpr(img.g, n, s.locals.head, e.arg, s.hist);
    if o.Val? {
      var s1 := s.(pc := s.pc + |ExprCode(img.g, e.arg)|, stack := Cons(o.value, s.stack), hist := o.hist);
      var k1 := UnaryStep(img, n, e.uop, s1);
      Chain(img, s, k, s1, k1);
      k := k + k1;
    }
  }

  /** A unary operator applied to the value on top of the stack. */
  lemma {:induction false} UnaryStep(img: Image, n: nat, op: UnaryOp, s: M.Config) returns (k: nat)
    requires s.stack.Cons? && Holds(img, s.pc, UnaryCode(op))
    ensures FieldsAgree(S.UnaryValue(img.g.world, op, s.stack.head, s.hist), s, |UnaryCode(op)|, n, Go(img, s, k))
  {
    hide Holds, M.Step, M.Operate, M.Run, Exec;
    if op.Unwrap? {
      k := UnwrapSim(img, Panic, s);
    } else if op.CheckUnwrap? {
      k := UnwrapSim(img, Check, s);
    } else {
      k := |UnaryInstrs(op)|;
      StraightLine(img, UnaryInstrs(op), s);
      UnaryOps(img.g.world, op, s);
    }
  }

  /** Unwrapping keeps a present value and ends the run on an absent one. */
  lemma {:induction false} UnwrapSim(img: Image, reason: ExitReason, s: M.Config) returns (k: nat)
    requires s.stack.Cons? && Holds(img, s.pc, UnwrapCode(reason))
    ensures Go(img, s, k) ==
      if s.stack.head.NoneV? then M.Halted(reason, s.(pc := s.pc + 5)) else M.Running(s.(pc := s.pc + 6))
  {
    hide Holds, M.Step, M.Operate, M.Run, Exec;
    var test := [M.Dup(0), M.Const(NoneV), M.Eq, M.Not];
    Split(img, s.pc, Instrs(test), [BranchBy(2), I(M.Exit(reason))]);
    StraightLine(img, test, s);
    TestNone(img.g.world, s);
    var s1 := s.(pc := s.pc + 4, stack := Cons(BoolV(!s.stack.head.NoneV?), s.stack));
    assert [BranchBy(2), I(M.Exit(reason))] == [BranchBy(2)] + ([I(M.Exit(reason))] + []);
    DoBranch(img, s1, 2, [I(M.Exit(reason))] + []);
    Chain(img, s, 4, s1, 1);
    k := 5;
    if s.stack.head.NoneV? {
      var s2 := s.(pc := s.pc + 5);
      DoExit(img, s2, reason, []);
      Chain(img, s, 5, s2, 1);
      k := 6;
    }
  }

  lemma {:induction false} TestNone(w: World, s: M.Config)
    requires s.stack.Cons?
    ensures Exec(w, [M.Dup(0), M.Const(NoneV), M.Eq, M.Not], s) ==
      M.Running(s.(pc := s.pc + 4, stack := Cons(BoolV(!s.stack.head.NoneV?), s.stack)))
  {
    hide M.Operate, Exec;
    var rest := [M.Const(NoneV), M.Eq, M.Not];
    assert [M.Dup(0), M.Const(NoneV), M.Eq, M.Not] == [M.Dup(0)] + rest;
    DoCopy(w, rest, s);
    IsSomeOps(w, s.(pc := s.pc + 1, stack := Cons(s.stack.head, s.stack)));
  }

  lemma {:induction false} BinarySim(img: Image, n: nat, at: Site, e: Expr, s: M.Config) returns (k: nat)
    requires e.Binary? && Loaded(img) && ExprOk(img.g, at, e)
    requires s.locals.Cons? && Holds(img, s.pc, ExprCode(img.g, e))
    ensures ExprAgrees(S.EvalExpr(img.g, n, s.locals.head, e, s.hist), s, |ExprCode(img.g, e)|, n, Go(img, s, k))
    decreases n, e, -1
  {
    hide Holds, M.Step, M.Operate, M.Run, Loaded, Exec, S.BinaryValue, BinaryInstrs, Instrs, ExprCode, ExprOk,
      S.EvalExpr;
    BinaryCase(img.g, n, at, s.locals.head, e, s.hist);
    InstrsLength(BinaryInstrs(e.bop));
    NoControlBinary(e.bop);
    var ca, cb, ops := ExprCode(img.g, e.left), ExprCode(img.g, e.right), BinaryInstrs(e.bop);
    Split(img, s.pc, ca, cb + Instrs(ops));
    Split(img, s.pc + |ca|, cb, Instrs(ops));
    k := ExprSim(img, n, at, e.left, s);
    var oa := S.EvalExpr(img.g, n, s.locals.head, e.left, s.hist);
    if oa.Val? {
      var s1 := s.(pc := s.pc + |ca|, stack := Cons(oa.value, s.stack), hist := oa.hist);
      var k1 := ExprSim(img, n, at, e.right, s1);
      Chain(img, s, k, s1, k1);
      k := k + k1;
      var ob := S.EvalExpr(img.g, n, s.locals.head, e.right, oa.hist);
      if ob.Val? {
        var s2 := s1.(pc := s1.pc + |cb|, stack := Cons(ob.value, s1.stack), hist := ob.hist);
        StraightLine(img, ops, s2);
        BinaryOps(img.g.world, e.bop, s2);
        Chain(img, s, k, s2, |ops|);
        k := k + |ops|;
      }
    }
  }

  lemma {:induction false} ConditionalCase(g: Program, n: nat, at: Site, env: Scope, e: Expr, h: History)
    requires e.Conditional? && ExprOk(g, at, e)
    ensures ExprOk(g, at, e.cond) && ExprOk(g, at, e.yes) && ExprOk(g, at, e.no)
    ensures ExprCode(g, e) ==
      var t, f := ExprCode(g, e.yes), ExprCode(g, e.no);
      ExprCode(g, e.cond) + ([BranchBy(|f| + 2)] + (f + ([JumpBy(|t| + 1)] + t)))
    ensures
      var o := S.EvalExpr(g, n, env, e.cond, h);
      S.EvalExpr(g, n, env, e, h) ==
        if !o.Val? then o
        else if !o.value.BoolV? then Fail(InvalidType, o.hist)
        else S.EvalExpr(g, n, env, if o.value.b then e.yes else e.no, o.hist)
  {
  }

  lemma InstrsLength(xs: seq<M.Instr>)
    ensures |Instrs(xs)| == |xs|
  {
  }

  lemma NoControlBinary(op: BinaryOp)
    ensures NoControl(BinaryInstrs(op))
  {
  }

  lemma {:induction false} BinaryCase(g: Program, n: nat, at: Site, env: Scope, e: Expr, h: History)
    requires e.Binary? && ExprOk(g, at, e)
    ensures ExprOk(g, at, e.left) && ExprOk(g, at, e.right)
    ensures ExprCode(g, e) == ExprCode(g, e.left) + (ExprCode(g, e.right) + Instrs(BinaryInstrs(e.bop)))
    ensures
      var o := S.EvalExpr(g, n, env, e.left, h);
      S.EvalExpr(g, n, env, e, h) ==
        if !o.Val? then o
        else
          var p := S.EvalExpr(g, n, env, e.right, o.hist);
          if !p.Val? then p else Lift(S.BinaryValue(e.bop, o.value, p.value), p.hist)
  {
    hide S.BinaryValue, BinaryInstrs, Instrs;
  }

  lemma {:induction false} ConditionalSim(img: Image, n: nat, at: Site, e: Expr, s: M.Config) returns (k: nat)
    requires e.Conditional? && Loaded(img) && ExprOk(img.g, at, e)
    requires s.locals.Cons? && Holds(img, s.pc, ExprCode(img.g, e))
    ensures ExprAgrees(S.EvalExpr(img.g, n, s.locals.head, e, s.hist), s, |ExprCode(img.g, e)|, n, Go(img, s, k))
    decreases n, e, -1
  {
    hide Holds, M.Step, M.Operate, M.Run, Loaded, Exec, ExprCode, ExprOk, S.EvalExpr;
    ConditionalCase(img.g, n, at, s.locals.head, e, s.hist);
    var cc, cy, cn := ExprCode(img.g, e.cond), ExprCode(img.g, e.yes), ExprCode(img.g, e.no);
    var tail := cn + ([JumpBy(|cy| + 1)] + cy);
    Split(img, s.pc, cc, [BranchBy(|cn| + 2)] + tail);
    k := ExprSim(img, n, at, e.cond, s);
    var o := S.EvalExpr(img.g, n, s.locals.head, e.cond, s.hist);
    if o.Val? {
      var s1 := s.(pc := s.pc + |cc|, stack := Cons(o.value, s.stack), hist := o.hist);
      DoBranch(img, s1, |cn| + 2, tail);
      Chain(img, s, k, s1, 1);
      k := k + 1;
      if o.value.BoolV? {
        Split(img, s1.pc + 1, cn, [JumpBy(|cy| + 1)] + cy);
        Split(img, s1.pc + 1 + |cn|, [JumpBy(|cy| + 1)], cy);
        var s2 := s.(pc := if o.value.b then s1.pc + |cn| + 2 else s1.pc + 1, hist := o.hist);
        var k1 := ChosenSim(img, n, at, if o.value.b then e.yes else e.no, o.value.b, cy, s2);
        Chain(img, s, k, s2, k1);
        k := k + k1;
      }
    }
  }

  /** One side of a conditional; the false side jumps over the true one. */
  lemma {:induction false} ChosenSim(img: Image, n: nat, at: Site, e: Expr, yes: bool, over: Code, s: M.Config)
    returns (k: nat)
    requires Loaded(img) && ExprOk(img.g, at, e)
    requires s.locals.Cons? && Holds(img, s.pc, ExprCode(img.g, e))
    requires !yes ==> Holds(img, s.pc + |ExprCode(img.g, e)|, [JumpBy(|over| + 1)] + over)
    ensures ExprAgrees(S.EvalExpr(img.g, n, s.locals.head, e, s.hist), s,
                       |ExprCode(img.g, e)| + (if yes then 0 else |over| + 1), n, Go(img, s, k))
    decreases n, e, 1
  {
    hide Holds, M.Step, M.Operate, M.Run, Exec, Loaded, S.EvalExpr, ExprCode;
    k := ExprSim(img, n, at, e, s);
    var o := S.EvalExpr(img.g, n, s.locals.head, e, s.hist);
    if o.Val? && !yes {
      var s1 := s.(pc := s.pc + |ExprCode(img.g, e)|, stack := Cons(o.value, s.stack), hist := o.hist);
      DoJump(img, s1, |over| + 1, over);
      Chain(img, s, k, s1, 1);
      k := k + 1;
    }
  }

  // ---- Arguments and members ----

  lemma {:induction false} ArgsSim(img: Image, n: nat, at: Site, es: seq<Expr>, s: M.Config) returns (k: nat)
    requires Loaded(img) && ArgsOk(img.g, at, es)
    requires s.locals.Cons? && Holds(img, s.pc, ArgsCode(img.g, es))
    ensures ArgsAgree(S.EvalArgs(img.g, n, s.locals.head, es, s.hist), s, |ArgsCode(img.g, es)|, n, Go(img, s, k))
    decreases n, es, 0
  {
    hide Holds, M.Step, M.Operate, Loaded, ExprOk, ExprCode, S.EvalExpr;
    k := 0;
    if es != [] {
      var c := ExprCode(img.g, es[0]);
      Split(img, s.pc, c, ArgsCode(img.g, es[1..]));
      k := ExprSim(img, n, at, es[0], s);
      var o := S.EvalExpr(img.g, n, s.locals.head, es[0], s.hist);
      if o.Val? {
        var s1 := s.(pc := s.pc + |c|, stack := Cons(o.value, s.stack), hist := o.hist);
        var k1 := ArgsSim(img, n, at, es[1..], s1);
        Chain(img, s, k, s1, k1);
        k := k + k1;
        var os := S.EvalArgs(img.g, n, s.locals.head, es[1..], o.hist);
        if os.Val? {
          assert PushAll(s.stack, [o.value] + os.value) == PushAll(Cons(o.value, s.stack), os.value) by {
            assert ([o.value] + os.value)[1..] == os.value;
          }
        }
      }
    }
  }

  lemma {:induction false} FieldsSim(img: Image, n: nat, at: Site, m: Member, fs: seq<Field>, s: M.Config)
    returns (k: nat)
    requires Loaded(img) && FieldsOk(img.g, at, fs)
    requires s.locals.Cons? && s.stack.Cons? && Holds(img, s.pc, FieldsCode(img.g, m, fs))
    ensures FieldsAgree(S.EvalFields(img.g, n, s.locals.head, m, fs, s.stack.head, s.hist), s,
                        |FieldsCode(img.g, m, fs)|, n, Go(img, s, k))
    decreases n, fs, 0
  {
    hide Holds, M.Step, M.Operate, Loaded;
    if fs == [] {
      k := 0;
    } else if fs[0].value.Bind? {
      k := FieldsSim(img, n, at, m, fs[1..], s);
    } else {
      k := FieldSim(img, n, at, m, fs, s);
    }
  }

  lemma {:induction false} FieldSim(img: Image, n: nat, at: Site, m: Member, fs: seq<Field>, s: M.Config)
    returns (k: nat)
    requires fs != [] && fs[0].value.Given? && Loaded(img) && FieldsOk(img.g, at, fs)
    requires s.locals.Cons? && s.stack.Cons? && Holds(img, s.pc, FieldsCode(img.g, m, fs))
    ensures FieldsAgree(S.EvalFields(img.g, n, s.locals.head, m, fs, s.stack.head, s.hist), s,
                        |FieldsCode(img.g, m, fs)|, n, Go(img, s, k))
    decreases n, fs, -1
  {
    hide Holds, M.Step, M.Operate, M.Run, Loaded, ExprOk, ExprCode, S.EvalExpr, S.SetMemberOf;
    var e, target := fs[0].value.expr, s.stack.head;
    var c, rest := ExprCode(img.g, e), FieldsCode(img.g, m, fs[1..]);
    var setter := SetterInstr(m, fs[0].name);
    Split(img, s.pc, c, [I(setter)] + rest);
    k := ExprSim(img, n, at, e, s);
    var o := S.EvalExpr(img.g, n, s.locals.head, e, s.hist);
    if o.Val? {
      var s1 := s.(pc := s.pc + |c|, stack := Cons(o.value, s.stack), hist := o.hist);
      SetterStep(img, m, fs[0].name, s1, rest);
      Chain(img, s, k, s1, 1);
      k := k + 1;
      var r := S.SetMemberOf(img.g.world, m, target, fs[0].name, o.value);
      if r.Ok? {
        var s2 := s.(pc := s1.pc + 1, stack := Cons(r.value, s.stack.tail), hist := o.hist);
        var k1 := FieldsSim(img, n, at, m, fs[1..], s2);
        Chain(img, s, k, s2, k1);
        k := k + k1;
      }
    }
  }

  lemma {:induction false} SetterStep(img: Image, m: Member, name: string, s: M.Config, rest: Code)
    requires s.stack.Cons? && s.stack.tail.Cons? && Holds(img, s.pc, [I(SetterInstr(m, name))] + rest)
    ensures Go(img, s, 1) ==
      var r := S.SetMemberOf(img.g.world, m, s.stack.tail.head, name, s.stack.head);
      if r.Ok? then M.Running(s.(pc := s.pc + 1, stack := Cons(r.value, s.stack.tail.tail)))
      else M.Faulted(r.fault, s.hist)
    ensures Holds(img, s.pc + 1, rest)
  {
    hide Holds, M.Run, SetField, SetKey, SetValue, M.Administer;
    DoInstr(img, s, SetterInstr(m, name), rest);
  }

  lemma {:induction false} StructSim(img: Image, n: nat, at: Site, e: Expr, s: M.Config) returns (k: nat)
    requires e.NamedStruct? && Loaded(img) && ExprOk(img.g, at, e)
    requires s.locals.Cons? && Holds(img, s.pc, ExprCode(img.g, e))
    ensures ExprAgrees(S.EvalExpr(img.g, n, s.locals.head, e, s.hist), s, |ExprCode(img.g, e)|, n, Go(img, s, k))
    decreases n, e, -1
  {
    hide Holds, M.Run, M.Step, M.Operate, Loaded;
    DoPush(img, s, M.StructNew(e.name), FieldsCode(img.g, StructMember, e.fields));
    var s1 := s.(pc := s.pc + 1, stack := Cons(StructV(e.name, map[]), s.stack));
    var k1 := FieldsSim(img, n, at, StructMember, e.fields, s1);
    Chain(img, s, 1, s1, k1);
    k := 1 + k1;
  }

  /** A fact literal pushes the completed fact. */
  lemma {:induction false} FactSim(img: Image, n: nat, at: Site, f: FactLiteral, s: M.Config) returns (k: nat)
    requires Loaded(img) && FactOk(img.g, at, f)
    requires s.locals.Cons? && Holds(img, s.pc, FactCode(img.g, f))
    ensures ExprAgrees(S.EvalFact(img.g, n, s.locals.head, f, s.hist), s, |FactCode(img.g, f)|, n, Go(img, s, k))
    decreases n, f, 0
  {
    hide Holds, M.Step, M.Operate, M.Run, Loaded, FieldsCode, S.EvalFields, FieldsOk;
    var keys := FieldsCode(img.g, KeyMember, f.keys);
    var values := match f.values case NoValues => [] case GivenValues(fs) => FieldsCode(img.g, ValueMember, fs);
    assert FactCode(img.g, f) == [I(M.FactNew(f.name))] + (keys + values);
    DoPush(img, s, M.FactNew(f.name), keys + values);
    Split(img, s.pc + 1, keys, values);
    var s1 := s.(pc := s.pc + 1, stack := Cons(FactV(f.name, [], []), s.stack));
    var k1 := FieldsSim(img, n, at, KeyMember, f.keys, s1);
    Chain(img, s, 1, s1, k1);
    k := 1 + k1;
    var o := S.EvalFields(img.g, n, s.locals.head, KeyMember, f.keys, s1.stack.head, s.hist);
    if o.Val? && f.values.GivenValues? {
      var s2 := s.(pc := s1.pc + |keys|, stack := Cons(o.value, s.stack), hist := o.hist);
      var k2 := FieldsSim(img, n, at, ValueMember, f.values.fields, s2);
      Chain(img, s, k, s2, k2);
      k := k + k2;
    }
  }

  lemma {:induction false} QuerySim(img: Image, n: nat, at: Site, e: Expr, s: M.Config) returns (k: nat)
    requires e.FactQuery? && Loaded(img) && ExprOk(img.g, at, e)
    requires s.locals.Cons? && Holds(img, s.pc, ExprCode(img.g, e))
    ensures ExprAgrees(S.EvalExpr(img.g, n, s.locals.head, e, s.hist), s, |ExprCode(img.g, e)|, n, Go(img, s, k))
    decreases n, e, -1
  {
    hide Holds, M.Step, M.Operate, M.Run, Exec, Loaded, S.EvalQuery, FactOk, FactCode, S.EvalFact, FactFitsSchema;
    var c, ops := FactCode(img.g, e.fact), QueryInstrs(e.kind);
    Split(img, s.pc, c, Instrs(ops));
    k := FactSim(img, n, at, e.fact, s);
    var o := S.EvalFact(img.g, n, s.locals.head, e.fact, s.hist);
    if o.Val? {
      var s1 := s.(pc := s.pc + |c|, stack := Cons(o.value, s.stack), hist := o.hist);
      StraightLine(img, ops, s1);
      QueryOps(img.g.world, e.kind, s1);
      Chain(img, s, k, s1, |ops|);
      k := k + |ops|;
    }
  }

  // ---- Calls ----

  lemma {:induction false} ForeignCallSim(img: Image, n: nat, at: Site, e: Expr, s: M.Config) returns (k: nat)
    requires e.ForeignCall? && Loaded(img) && ExprOk(img.g, at, e)
    requires s.locals.Cons? && Holds(img, s.pc, ExprCode(img.g, e))
    ensures ExprAgrees(S.EvalExpr(img.g, n, s.locals.head, e, s.hist), s, |ExprCode(img.g, e)|, n, Go(img, s, k))
    decreases n, e, -1
  {
    hide Holds, M.Run, M.Step, M.Operate, Loaded;
    var (mi, pi) := ForeignIndex(img.g.world, e.mod, e.name);
    var mark, c, call := M.Meta(M.FfiMark(e.mod, e.name)), ArgsCode(img.g, e.args), M.ExtCall(mi, pi);
    DoMark(img, s, mark.meta, c + [I(call)]);
    var s1 := s.(pc := s.pc + 1);
    Split(img, s1.pc, c, [I(call)]);
    var k1 := ArgsSim(img, n, at, e.args, s1);
    Chain(img, s, 1, s1, k1);
    k := 1 + k1;
    var o := S.EvalArgs(img.g, n, s.locals.head, e.args, s.hist);
    if o.Val? {
      ArgsLength(img.g, n, s.locals.head, e.args, s.hist);
      var s2 := s.(pc := s1.pc + |c|, stack := PushAll(s.stack, o.value), hist := o.hist);
      ForeignStep(img, e.mod, e.name, o.value, s.stack, s2);
      Chain(img, s, k, s2, 1);
      k := k + 1;
    }
  }

  lemma {:induction false} ArgsLength(g: Program, n: nat, env: Scope, es: seq<Expr>, h: History)
    ensures S.EvalArgs(g, n, env, es, h).Val? ==> |S.EvalArgs(g, n, env, es, h).value| == |es|
    decreases es
  {
    if es != [] {
      var o := S.EvalExpr(g, n, env, es[0], h);
      if o.Val? { ArgsLength(g, n, env, es[1..], o.hist); }
    }
  }

  lemma {:induction false} ForeignStep(
    img: Image, m: string, name: string, vs: seq<Value>, below: List<Value>, s: M.Config)
    requires ForeignOk(img.g.world, m, name, |vs|) && s.stack == PushAll(below, vs)
    requires
      var (mi, pi) := ForeignIndex(img.g.world, m, name);
      Holds(img, s.pc, [I(M.ExtCall(mi, pi))])
    ensures
      var o := S.EvalForeign(img.g.world, m, name, vs, s.hist);
      (o.Val? || o.Fail?) &&
      Go(img, s, 1) ==
        if o.Val? then M.Running(s.(pc := s.pc + 1, stack := Cons(o.value, below), hist := o.hist))
        else M.Faulted(o.fault, o.hist)
  {
    hide Holds, M.Run;
    var (mi, pi) := ForeignIndex(img.g.world, m, name);
    assert [I(M.ExtCall(mi, pi))] == [I(M.ExtCall(mi, pi))] + [];
    DoInstr(img, s, M.ExtCall(mi, pi), []);
    PushThenPop(below, vs);
  }

  lemma {:induction false} FunctionCallSim(img: Image, n: nat, at: Site, e: Expr, s: M.Config) returns (k: nat)
    requires e.FunctionCall? && Loaded(img) && ExprOk(img.g, at, e)
    requires s.locals.Cons? && Holds(img, s.pc, ExprCode(img.g, e))
    ensures ExprAgrees(S.EvalExpr(img.g, n, s.locals.head, e, s.hist), s, |ExprCode(img.g, e)|, n, Go(img, s, k))
    decreases n, e, -1
  {
    hide Holds, M.Step, M.Operate, M.Run, S.EvalFunction, ArgsOk, ArgsCode, S.EvalArgs, FindDefinition, KnownIn,
      AllKnown, StmtsOk, FunctionCode;
    var c, l := ArgsCode(img.g, e.args), M.Label(e.name, M.FunctionLabel);
    Split(img, s.pc, c, [CallTo(l)]);
    k := ArgsSim(img, n, at, e.args, s);
    var o := S.EvalArgs(img.g, n, s.locals.head, e.args, s.hist);
    if o.Val? && n > 0 {
      FindSound(img.g.policy.functions, e.name);
      ArgsLength(img.g, n, s.locals.head, e.args, s.hist);
      var d := FindDefinition(img.g.policy.functions, e.name).value;
      assert FunctionLoaded(img, d);
      var s1 := s.(pc := s.pc + |c|, stack := PushAll(s.stack, o.value), hist := o.hist);
      assert [CallTo(l)] == [CallTo(l)] + [];
      DoCall(img, s1, l, []);
      var s2 := Entered(s1, img.labels[l]);
      var k2 := FunctionSim(img, n - 1, d, o.value, s.stack, s2);
      Chain(img, s, k, s1, 1);
      Chain(img, s, k + 1, s2, k2);
      k := k + 1 + k2;
    }
  }

  /** From a function's entry, with its arguments pushed, to just behind the call. */
  lemma {:induction false} FunctionSim(img: Image, n: nat, d: Definition, vs: seq<Value>, below: List<Value>,
      s: M.Config)
    returns (k: nat)
    requires Loaded(img) && FunctionLoaded(img, d) && |vs| == |d.params|
    requires s.pc == img.labels[M.Label(d.name, M.FunctionLabel)] && s.stack == PushAll(below, vs)
    requires s.calls.Cons? && s.locals.Cons? && s.locals.head == Cons(map[], Nil)
    ensures
      var o := S.EvalFunction(img.g, n, Some(d), vs, s.hist);
      if o.Val? then Go(img, s, k) == M.Running(Left(s).(stack := Cons(o.value, below), hist := o.hist))
      else Stopped(o, s, n, Go(img, s, k))
    decreases n
  {
    hide Holds, M.Step, M.Operate, M.Run, Loaded, StmtsCode, S.EvalStmts, StmtsOk, S.BindParams, ParamsCode, KnownIn;
    var ps, body := ParamsCode(d.params), StmtsCode(img.g, d.body);
    Split(img, s.pc, ps, body + [I(M.Exit(Panic))]);
    Split(img, s.pc + |ps|, body, [I(M.Exit(Panic))]);
    k := ParamsSim(img, d.params, vs, below, s);
    var r := S.BindParams(img.g.world.globals, d.params, vs);
    if r.Ok? {
      var s1 := s.(pc := s.pc + |ps|, stack := below, locals := Cons(r.value, s.locals.tail));
      var k1 := StmtsSim(img, n, FunctionSite(KnownIn(img.g.policy, d.name)), d.body, s1);
      Chain(img, s, k, s1, k1);
      k := k + k1;
      var o := S.EvalStmts(img.g, n, r.value, d.body, s.hist);
      if o.Val? && o.value.Next? {
        var s2 := s1.(pc := s1.pc + |body|, locals := Cons(o.value.env, s.locals.tail), hist := o.hist);
        assert [I(M.Exit(Panic))] == [I(M.Exit(Panic))] + [];
        DoExit(img, s2, Panic, []);
        Chain(img, s, k, s2, 1);
        k := k + 1;
      }
    }
  }

  /** Parameters, taken last to first, bind each to its own argument and use up the arguments. */
  lemma {:induction false} ParamsSim(img: Image, ps: seq<string>, vs: seq<Value>, below: List<Value>, s: M.Config)
    returns (k: nat)
    requires |ps| == |vs| && s.stack == PushAll(below, vs)
    requires s.locals.Cons? && s.locals.head == Cons(map[], Nil) && Holds(img, s.pc, ParamsCode(ps))
    ensures Go(img, s, k) ==
      var r := S.BindParams(img.g.world.globals, ps, vs);
      if r.Ok? then M.Running(s.(pc := s.pc + |ParamsCode(ps)|, stack := below, locals := Cons(r.value, s.locals.tail)))
      else M.Faulted(r.fault, s.hist)
    decreases ps
  {
    hide Holds, M.Step, M.Operate;
    k := 0;
    if ps != [] {
      var c, x := ParamsCode(ps[1..]), ps[0];
      Split(img, s.pc, c, [I(M.Meta(M.LetMark(x))), I(M.Def(x))]);
      k := ParamsSim(img, ps[1..], vs[1..], Cons(vs[0], below), s);
      var r := S.BindParams(img.g.world.globals, ps[1..], vs[1..]);
      if r.Ok? {
        var s1 := s.(pc := s.pc + |c|, stack := Cons(vs[0], below), locals := Cons(r.value, s.locals.tail));
        DefineSim(img, x, s1);
        Chain(img, s, k, s1, 2);
        k := k + 2;
      }
    }
  }

  /** Marking and defining a name with the value on top of the stack. */
  lemma {:induction false} DefineSim(img: Image, x: string, s: M.Config)
    requires s.stack.Cons? && s.locals.Cons? && Holds(img, s.pc, [I(M.Meta(M.LetMark(x))), I(M.Def(x))])
    ensures Go(img, s, 2) ==
      var r := Define(img.g.world.globals, s.locals.head, x, s.stack.head);
      if r.Ok? then M.Running(s.(pc := s.pc + 2, stack := s.stack.tail, locals := Cons(r.value, s.locals.tail)))
      else M.Faulted(r.fault, s.hist)
  {
    hide Holds, M.Run, M.Step;
    var mark, def := M.Meta(M.LetMark(x)), M.Def(x);
    assert [I(mark), I(def)] == [I(mark)] + ([I(def)] + []);
    DoMark(img, s, mark.meta, [I(def)] + []);
    var s1 := s.(pc := s.pc + 1);
    DoInstr(img, s1, def, []);
    Chain(img, s, 1, s1, 1);
  }

  /** From the entry of an action or finish function to just behind the call, or to the normal
      end of the run if it was not called. */
  lemma {:induction false} ProcedureSim(
    img: Image, n: nat, at: Site, d: Definition, vs: seq<Value>, below: List<Value>, s: M.Config)
    returns (k: nat)
    requires Loaded(img) && !at.FunctionSite? && StmtsOk(img.g, at, d.body) && |vs| == |d.params|
    requires Holds(img, s.pc, ProcedureCode(img.g, d)) && s.stack == PushAll(below, vs)
    requires s.locals.Cons? && s.locals.head == Cons(map[], Nil)
    ensures
      var o := S.EvalProcedure(img.g, n, Some(d), vs, s.hist);
      var t := Go(img, s, k);
      if o.Val? then
        if s.calls.Cons? then t == M.Running(Left(s).(stack := below, hist := o.hist))
        else t.Halted? && t.reason == Normal && t.cfg.hist == o.hist && t.cfg.stack == below
      else Stopped(o, s, n, t)
    decreases n
  {
    hide Holds, M.Step, M.Operate, M.Run, Loaded, StmtsCode, S.EvalStmts, StmtsOk, S.BindParams, ParamsCode;
    var ps, body := ParamsCode(d.params), StmtsCode(img.g, d.body);
    Split(img, s.pc, ps, body + [I(M.Return)]);
    Split(img, s.pc + |ps|, body, [I(M.Return)]);
    k := ParamsSim(img, d.params, vs, below, s);
    var r := S.BindParams(img.g.world.globals, d.params, vs);
    if r.Ok? {
      var s1 := s.(pc := s.pc + |ps|, stack := below, locals := Cons(r.value, s.locals.tail));
      var k1 := StmtsSim(img, n, at, d.body, s1);
      Chain(img, s, k, s1, k1);
      k := k + k1;
      var o := S.EvalStmts(img.g, n, r.value, d.body, s.hist);
      if o.Val? {
        var s2 := s1.(pc := s1.pc + |body|, locals := Cons(o.value.env, s.locals.tail), hist := o.hist);
        assert [I(M.Return)] == [I(M.Return)] + [];
        DoReturn(img, s2, []);
        Chain(img, s, k, s2, 1);
        k := k + 1;
      }
    }
  }

  // ---- Statements ----

  /** After a statement list: behind it with the scope it leaves and the operand stack as
      before, or back at the caller with the returned value pushed. */
  ghost predicate FlowAgrees(o: Outcome<S.Flow>, at: Site, s: M.Config, len: nat, n: nat, t: M.State)
    requires s.locals.Cons?
  {
    match o
    case Val(Next(env), h) => t == M.Running(s.(pc := s.pc + len, locals := Cons(env, s.locals.tail), hist := h))
    case Val(Returned(v), h) =>
      at.FunctionSite? && s.calls.Cons? && t == M.Running(Left(s).(stack := Cons(v, s.stack), hist := h))
    case _ => Stopped(o, s, n, t)
  }

  lemma {:induction false} StmtsSim(img: Image, n: nat, at: Site, ss: seq<Node>, s: M.Config) returns (k: nat)
    requires Loaded(img) && StmtsOk(img.g, at, ss) && (at.FunctionSite? ==> s.calls.Cons?)
    requires s.locals.Cons? && Holds(img, s.pc, StmtsCode(img.g, ss))
    ensures FlowAgrees(S.EvalStmts(img.g, n, s.locals.head, ss, s.hist), at, s, |StmtsCode(img.g, ss)|, n,
      Go(img, s, k))
    decreases n, ss, 1
  {
    hide Holds, M.Step, M.Operate, Loaded, StmtOk, StmtCode, S.EvalStmt;
    k := 0;
    if ss != [] {
      var c := StmtCode(img.g, ss[0]);
      Split(img, s.pc, c, StmtsCode(img.g, ss[1..]));
      k := StmtSim(img, n, at, ss[0], s);
      var o := S.EvalStmt(img.g, n, s.locals.head, ss[0], s.hist);
      if o.Val? && o.value.Next? {
        var s1 := s.(pc := s.pc + |c|, locals := Cons(o.value.env, s.locals.tail), hist := o.hist);
        var k1 := StmtsSim(img, n, at, ss[1..], s1);
        Chain(img, s, k, s1, k1);
        k := k + k1;
      }
    }
  }

  lemma {:induction false} StmtSim(img: Image, n: nat, at: Site, nd: Node, s: M.Config) returns (k: nat)
    requires Loaded(img) && StmtOk(img.g, at, nd) && (at.FunctionSite? ==> s.calls.Cons?)
    requires s.locals.Cons? && Holds(img, s.pc, StmtCode(img.g, nd))
    ensures FlowAgrees(S.EvalStmt(img.g, n, s.locals.head, nd, s.hist), at, s, |StmtCode(img.g, nd)|, n, Go(img, s, k))
    decreases n, nd, 0
  {
    hide Holds, M.Step, M.Operate, M.Run, Loaded;
    match nd.stmt
    case Let(_, _) => k := LetSim(img, n, at, nd, s);
    case CheckThat(e) => k := RequireSim(img, n, at, nd, e, Check, s);
    case DebugAssert(e) =>
      if img.g.debug {
        k := RequireSim(img, n, at, nd, e, Panic, s);
      } else {
        k := 0;
        GoZero(img, s);
      }
    case Match(_, _) => k := MatchSim(img, n, at, nd, s);
    case If(_, _) => k := IfSim(img, n, at, nd, s);
    case Finish(_) => k := FinishSim(img, n, at, nd, s);
    case Map(_, _, _) => k := MapSim(img, n, at, nd, s);
    case Return(_) => k := ReturnSim(img, n, at, nd, s);
    case ActionCall(_, _) => k := ActionCallSim(img, n, at, nd, s);
    case FinishCall(_, _) => k := FinishCallSim(img, n, at, nd, s);
    case Publish(e) => k := ValueEffectSim(img, n, at, nd, e, M.Publish, s);
    case Emit(e) => k := ValueEffectSim(img, n, at, nd, e, M.Emit, s);
    case Create(f) => k := FactEffectSim(img, n, at, nd, f, M.Create, s);
    case Delete(f) => k := FactEffectSim(img, n, at, nd, f, M.Delete, s);
    case Update(_, _) => k := UpdateSim(img, n, at, nd, s);
  }

  lemma {:induction false} GoZero(img: Image, s: M.Config)
    ensures Go(img, s, 0) == M.Running(s)
  {
  }

  lemma {:induction false} LetSim(img: Image, n: nat, at: Site, nd: Node, s: M.Config) returns (k: nat)
    requires nd.stmt.Let? && Loaded(img) && StmtOk(img.g, at, nd)
    requires s.locals.Cons? && Holds(img, s.pc, StmtCode(img.g, nd))
    ensures FlowAgrees(S.EvalStmt(img.g, n, s.locals.head, nd, s.hist), at, s, |StmtCode(img.g, nd)|, n, Go(img, s, k))
    decreases n, nd, -1
  {
    hide Holds, M.Step, M.Operate, M.Run, Loaded, ExprOk, ExprCode, S.EvalExpr;
    var x, e := nd.stmt.name, nd.stmt.expr;
    var c := ExprCode(img.g, e);
    Split(img, s.pc, c, [I(M.Meta(M.LetMark(x))), I(M.Def(x))]);
    k := ExprSim(img, n, at, e, s);
    var o := S.EvalExpr(img.g, n, s.locals.head, e, s.hist);
    if o.Val? {
      var s1 := s.(pc := s.pc + |c|, stack := Cons(o.value, s.stack), hist := o.hist);
      DefineSim(img, x, s1);
      Chain(img, s, k, s1, 2);
      k := k + 2;
    }
  }

  /** Check statements and debug assertions. */
  lemma {:induction false} RequireSim(img: Image, n: nat, at: Site, nd: Node, e: Expr, r: ExitReason, s: M.Config)
    returns (k: nat)
    requires (nd.stmt == CheckThat(e) && r == Check) || (nd.stmt == DebugAssert(e) && r == Panic && img.g.debug)
    requires Loaded(img) && StmtOk(img.g, at, nd)
    requires s.locals.Cons? && Holds(img, s.pc, StmtCode(img.g, nd))
    ensures FlowAgrees(S.EvalStmt(img.g, n, s.locals.head, nd, s.hist), at, s, |StmtCode(img.g, nd)|, n, Go(img, s, k))
    decreases n, nd, -1
  {
    hide Holds, M.Step, M.Operate, M.Run, Loaded, ExprCode, S.EvalExpr, ExprOk;
    var c := ExprCode(img.g, e);
    Split(img, s.pc, c, [BranchBy(2), I(M.Exit(r))]);
    k := ExprSim(img, n, at, e, s);
    var o := S.EvalExpr(img.g, n, s.locals.head, e, s.hist);
    if o.Val? {
      var s1 := s.(pc := s.pc + |c|, stack := Cons(o.value, s.stack), hist := o.hist);
      assert [BranchBy(2), I(M.Exit(r))] == [BranchBy(2)] + ([I(M.Exit(r))] + []);
      DoBranch(img, s1, 2, [I(M.Exit(r))] + []);
      Chain(img, s, k, s1, 1);
      k := k + 1;
      if o.value.BoolV? && !o.value.b {
        var s2 := s.(pc := s1.pc + 1, hist := o.hist);
        DoExit(img, s2, r, []);
        Chain(img, s, k, s2, 1);
        k := k + 1;
      }
    }
  }

  lemma {:induction false} ReturnSim(img: Image, n: nat, at: Site, nd: Node, s: M.Config) returns (k: nat)
    requires nd.stmt.Return? && Loaded(img) && StmtOk(img.g, at, nd) && s.calls.Cons?
    requires s.locals.Cons? && Holds(img, s.pc, StmtCode(img.g, nd))
    ensures FlowAgrees(S.EvalStmt(img.g, n, s.locals.head, nd, s.hist), at, s, |StmtCode(img.g, nd)|, n, Go(img, s, k))
    decreases n, nd, -1
  {
    hide Holds, M.Step, M.Operate, M.Run, Loaded;
    var c := ExprCode(img.g, nd.stmt.expr);
    Split(img, s.pc, c, [I(M.Return)]);
    k := ExprSim(img, n, at, nd.stmt.expr, s);
    var o := S.EvalExpr(img.g, n, s.locals.head, nd.stmt.expr, s.hist);
    if o.Val? {
      var s1 := s.(pc := s.pc + |c|, stack := Cons(o.value, s.stack), hist := o.hist);
      assert [I(M.Return)] == [I(M.Return)] + [];
      DoReturn(img, s1, []);
      Chain(img, s, k, s1, 1);
      k := k + 1;
    }
  }

  /** What an instruction that consumes one value does to the outside world. */
  lemma {:induction false} ConsumeStep(img: Image, i: M.Instr, s: M.Config)
    requires M.IsConsumer(i) && s.stack.Cons? && Holds(img, s.pc, [I(i)])
    ensures
      var o := M.Consume(img.g.world, i, s.stack.head, s.hist);
      (o.Val? || o.Fail?) &&
      Go(img, s, 1) ==
        if o.Val? then M.Running(s.(pc := s.pc + 1, stack := s.stack.tail, hist := o.hist))
        else M.Faulted(o.fault, o.hist)
  {
    hide Holds, M.Run, M.Step, M.Administer;
    assert [I(i)] == [I(i)] + [];
    DoInstr(img, s, i, []);
  }

  /** What is left of a statement once the value it hands over is there. */
  function Handing(w: World, env: Scope, i: M.Instr, o: Outcome<Value>): Outcome<S.Flow> {
    var (v, h1) :- o;
    var (_, h2) :- M.Consume(w, i, v, h1);
    Val(S.Next(env), h2)
  }

  lemma {:induction false} HandingSim(
    img: Image, n: nat, at: Site, c: Code, i: M.Instr, o: Outcome<Value>, s: M.Config, k0: nat) returns (k: nat)
    requires M.IsConsumer(i) && s.locals.Cons? && Holds(img, s.pc, c + [I(i)])
    requires ExprAgrees(o, s, |c|, n, Go(img, s, k0))
    ensures FlowAgrees(Handing(img.g.world, s.locals.head, i, o), at, s, |c| + 1, n, Go(img, s, k))
  {
    hide Holds, M.Step, M.Operate, M.Run, M.Consume;
    Split(img, s.pc, c, [I(i)]);
    k := k0;
    if o.Val? {
      var s1 := s.(pc := s.pc + |c|, stack := Cons(o.value, s.stack), hist := o.hist);
      ConsumeStep(img, i, s1);
      Chain(img, s, k, s1, 1);
      k := k + 1;
    }
  }

  lemma {:induction false} ValueEffectUnfold(g: Program, n: nat, at: Site, nd: Node, e: Expr, i: M.Instr, env: Scope,
      h: History)
    requires (nd.stmt == Publish(e) && i == M.Publish) || (nd.stmt == Emit(e) && i == M.Emit)
    ensures StmtOk(g, at, nd) ==> ExprOk(g, at, e)
    ensures StmtCode(g, nd) == ExprCode(g, e) + [I(i)]
    ensures S.EvalStmt(g, n, env, nd, h) == Handing(g.world, env, i, S.EvalExpr(g, n, env, e, h))
  {
    hide ExprOk, ExprCode, S.EvalExpr, PublishStruct, EmitStruct;
  }

  /** Publishing and emitting. */
  lemma {:induction false} ValueEffectSim(img: Image, n: nat, at: Site, nd: Node, e: Expr, i: M.Instr, s: M.Config)
    returns (k: nat)
    requires (nd.stmt == Publish(e) && i == M.Publish) || (nd.stmt == Emit(e) && i == M.Emit)
    requires Loaded(img) && StmtOk(img.g, at, nd)
    requires s.locals.Cons? && Holds(img, s.pc, StmtCode(img.g, nd))
    ensures FlowAgrees(S.EvalStmt(img.g, n, s.locals.head, nd, s.hist), at, s, |StmtCode(img.g, nd)|, n, Go(img, s, k))
    decreases n, nd, -1
  {
    hide Holds, Loaded, ExprOk, ExprCode, StmtOk, StmtCode, S.EvalExpr, S.EvalStmt, ExprAgrees, FlowAgrees, Handing;
    ValueEffectUnfold(img.g, n, at, nd, e, i, s.locals.head, s.hist);
    Split(img, s.pc, ExprCode(img.g, e), [I(i)]);
    var k0 := ExprSim(img, n, at, e, s);
    k := HandingSim(img, n, at, ExprCode(img.g, e), i, S.EvalExpr(img.g, n, s.locals.head, e, s.hist), s, k0);
  }

  lemma {:induction false} FactEffectUnfold(g: Program, n: nat, at: Site, nd: Node, f: FactLiteral, i: M.Instr,
      env: Scope, h: History)
    requires (nd.stmt == Create(f) && i == M.Create) || (nd.stmt == Delete(f) && i == M.Delete)
    ensures StmtOk(g, at, nd) ==> FactOk(g, at, f)
    ensures StmtCode(g, nd) == FactCode(g, f) + [I(i)]
    ensures S.EvalStmt(g, n, env, nd, h) == Handing(g.world, env, i, S.EvalFact(g, n, env, f, h))
  {
    hide FactOk, FactCode, S.EvalFact, CreateFact, DeleteFact, FactFitsSchema, NoBinds;
  }

  /** Creating and deleting facts. */
  lemma {:induction false} FactEffectSim(
    img: Image, n: nat, at: Site, nd: Node, f: FactLiteral, i: M.Instr, s: M.Config)
    returns (k: nat)
    requires (nd.stmt == Create(f) && i == M.Create) || (nd.stmt == Delete(f) && i == M.Delete)
    requires Loaded(img) && StmtOk(img.g, at, nd)
    requires s.locals.Cons? && Holds(img, s.pc, StmtCode(img.g, nd))
    ensures FlowAgrees(S.EvalStmt(img.g, n, s.locals.head, nd, s.hist), at, s, |StmtCode(img.g, nd)|, n, Go(img, s, k))
    decreases n, nd, -1
  {
    hide Holds, Loaded, FactOk, FactCode, StmtOk, StmtCode, S.EvalFact, S.EvalStmt, ExprAgrees, FlowAgrees, Handing;
    FactEffectUnfold(img.g, n, at, nd, f, i, s.locals.head, s.hist);
    Split(img, s.pc, FactCode(img.g, f), [I(i)]);
    var k0 := FactSim(img, n, at, f, s);
    k := HandingSim(img, n, at, FactCode(img.g, f), i, S.EvalFact(img.g, n, s.locals.head, f, s.hist), s, k0);
  }

  lemma {:induction false} UpdateSim(img: Image, n: nat, at: Site, nd: Node, s: M.Config) returns (k: nat)
    requires nd.stmt.Update? && Loaded(img) && StmtOk(img.g, at, nd)
    requires s.locals.Cons? && Holds(img, s.pc, StmtCode(img.g, nd))
    ensures FlowAgrees(S.EvalStmt(img.g, n, s.locals.head, nd, s.hist), at, s, |StmtCode(img.g, nd)|, n, Go(img, s, k))
    decreases n, nd, -1
  {
    hide Holds, M.Step, M.Operate, M.Run, Loaded, UpdateFact, FactOk, FactCode, S.EvalFact, FieldsOk, FieldsCode,
      S.EvalFields, FactFitsSchema;
    var f, to := nd.stmt.fact, nd.stmt.to;
    var c, cf := FactCode(img.g, f), FieldsCode(img.g, ValueMember, to);
    Split(img, s.pc, c, [I(M.Dup(0))] + (cf + [I(M.Update)]));
    k := FactSim(img, n, at, f, s);
    var o := S.EvalFact(img.g, n, s.locals.head, f, s.hist);
    if o.Val? {
      var s1 := s.(pc := s.pc + |c|, stack := Cons(o.value, s.stack), hist := o.hist);
      DupStep(img, s1, cf + [I(M.Update)]);
      var s2 := s1.(pc := s1.pc + 1, stack := Cons(o.value, s1.stack));
      Split(img, s2.pc, cf, [I(M.Update)]);
      var k1 := FieldsSim(img, n, at, ValueMember, to, s2);
      Chain(img, s, k, s1, 1);
      Chain(img, s, k + 1, s2, k1);
      k := k + 1 + k1;
      var o1 := S.EvalFields(img.g, n, s.locals.head, ValueMember, to, o.value, o.hist);
      if o1.Val? {
        var s3 := s1.(pc := s2.pc + |cf|, stack := Cons(o1.value, s1.stack), hist := o1.hist);
        UpdateStep(img, s3);
        Chain(img, s, k, s3, 1);
        k := k + 1;
      }
    }
  }

  lemma {:induction false} DupStep(img: Image, s: M.Config, rest: Code)
    requires s.stack.Cons? && Holds(img, s.pc, [I(M.Dup(0))] + rest)
    ensures Go(img, s, 1) == M.Running(s.(pc := s.pc + 1, stack := Cons(s.stack.head, s.stack)))
    ensures Holds(img, s.pc + 1, rest)
  {
    hide Holds, M.Run, M.Step;
    DoInstr(img, s, M.Dup(0), rest);
  }

  lemma {:induction false} UpdateStep(img: Image, s: M.Config)
    requires s.stack.Cons? && s.stack.tail.Cons? && Holds(img, s.pc, [I(M.Update)])
    ensures
      var o := UpdateFact(img.g.world, s.stack.tail.head, s.stack.head, s.hist);
      (o.Val? || o.Fail?) &&
      Go(img, s, 1) ==
        if o.Val? then M.Running(s.(pc := s.pc + 1, stack := s.stack.tail.tail, hist := o.hist))
        else M.Faulted(o.fault, o.hist)
  {
    hide Holds, M.Run, M.Step;
    assert [I(M.Update)] == [I(M.Update)] + [];
    DoInstr(img, s, M.Update, []);
  }

  lemma {:induction false} ActionCallSim(img: Image, n: nat, at: Site, nd: Node, s: M.Config) returns (k: nat)
    requires nd.stmt.ActionCall? && Loaded(img) && StmtOk(img.g, at, nd)
    requires s.locals.Cons? && Holds(img, s.pc, StmtCode(img.g, nd))
    ensures FlowAgrees(S.EvalStmt(img.g, n, s.locals.head, nd, s.hist), at, s, |StmtCode(img.g, nd)|, n, Go(img, s, k))
    decreases n, nd, -1
  {
    hide Holds, M.Step, M.Operate, M.Run, S.EvalProcedure, ArgsCode, S.EvalArgs, ArgsOk, ProcedureCode,
      FindDefinition, KnownIn, AllKnown, StmtsOk;
    var c, l := ArgsCode(img.g, nd.stmt.args), M.Label(nd.stmt.name, M.ActionLabel);
    Split(img, s.pc, c, [CallTo(l)]);
    k := ArgsSim(img, n, at, nd.stmt.args, s);
    var o := S.EvalArgs(img.g, n, s.locals.head, nd.stmt.args, s.hist);
    if o.Val? && n > 0 {
      FindSound(img.g.policy.actions, nd.stmt.name);
      ArgsLength(img.g, n, s.locals.head, nd.stmt.args, s.hist);
      var d := FindDefinition(img.g.policy.actions, nd.stmt.name).value;
      assert ActionLoaded(img, d);
      var s1 := s.(pc := s.pc + |c|, stack := PushAll(s.stack, o.value), hist := o.hist);
      assert [CallTo(l)] == [CallTo(l)] + [];
      DoCall(img, s1, l, []);
      var s2 := Entered(s1, img.labels[l]);
      var k2 := ProcedureSim(img, n - 1, ActionSite(AllKnown(img.g.policy)), d, o.value, s.stack, s2);
      Chain(img, s, k, s1, 1);
      Chain(img, s, k + 1, s2, k2);
      k := k + 1 + k2;
    }
  }

  lemma {:induction false} FinishCallSim(img: Image, n: nat, at: Site, nd: Node, s: M.Config) returns (k: nat)
    requires nd.stmt.FinishCall? && Loaded(img) && StmtOk(img.g, at, nd)
    requires s.locals.Cons? && Holds(img, s.pc, StmtCode(img.g, nd))
    ensures FlowAgrees(S.EvalStmt(img.g, n, s.locals.head, nd, s.hist), at, s, |StmtCode(img.g, nd)|, n, Go(img, s, k))
    decreases n, nd, -1
  {
    hide Holds, M.Step, M.Operate, M.Run, S.EvalProcedure, ArgsCode, S.EvalArgs, ArgsOk, ProcedureCode,
      FindDefinition, KnownIn, AllKnown, StmtsOk;
    var c, l := ArgsCode(img.g, nd.stmt.args), M.Label(nd.stmt.name, M.Temporary);
    Split(img, s.pc, c, [CallTo(l)]);
    k := ArgsSim(img, n, at, nd.stmt.args, s);
    var o := S.EvalArgs(img.g, n, s.locals.head, nd.stmt.args, s.hist);
    if o.Val? && n > 0 {
      FindSound(img.g.policy.finishFunctions, nd.stmt.name);
      ArgsLength(img.g, n, s.locals.head, nd.stmt.args, s.hist);
      var d := FindDefinition(img.g.policy.finishFunctions, nd.stmt.name).value;
      assert FinishLoaded(img, d);
      var s1 := s.(pc := s.pc + |c|, stack := PushAll(s.stack, o.value), hist := o.hist);
      assert [CallTo(l)] == [CallTo(l)] + [];
      DoCall(img, s1, l, []);
      var s2 := Entered(s1, img.labels[l]);
      var k2 := ProcedureSim(img, n - 1, FinishSite(AllKnown(img.g.policy)), d, o.value, s.stack, s2);
      Chain(img, s, k, s1, 1);
      Chain(img, s, k + 1, s2, k2);
      k := k + 1 + k2;
    }
  }

  // ---- If ----

  function FallbackCode(g: Program, fb: Fallback): Code {
    match fb case NoElse => [] case Else(ss) => StmtsCode(g, ss)
  }

  lemma {:induction false} IfSim(img: Image, n: nat, at: Site, nd: Node, s: M.Config) returns (k: nat)
    requires nd.stmt.If? && Loaded(img) && StmtOk(img.g, at, nd) && (at.FunctionSite? ==> s.calls.Cons?)
    requires s.locals.Cons? && Holds(img, s.pc, StmtCode(img.g, nd))
    ensures FlowAgrees(S.EvalStmt(img.g, n, s.locals.head, nd, s.hist), at, s, |StmtCode(img.g, nd)|, n, Go(img, s, k))
    decreases n, nd, -1
  {
    hide Holds, M.Step, M.Operate, M.Run, Loaded, BranchesCode, S.EvalBranches, BranchesOk, StmtsCode, StmtsOk,
      S.EvalStmts;
    var bs, fb := nd.stmt.branches, nd.stmt.fallback;
    var other := FallbackCode(img.g, fb);
    var c := BranchesCode(img.g, bs, |other|);
    Split(img, s.pc, c, other);
    k := BranchesSim(img, n, at, bs, |other|, s);
    var o := S.EvalBranches(img.g, n, s.locals.head, bs, s.hist);
    if o.Val? && o.value.None? && fb.Else? {
      var s1 := s.(pc := s.pc + |c|, hist := o.hist);
      var k1 := StmtsSim(img, n, at, fb.body, s1);
      Chain(img, s, k, s1, k1);
      k := k + k1;
    }
  }

  /** Branches either run one body and go to the end, `after` instructions behind them, or fall
      through with nothing changed. */
  lemma {:induction false} BranchesSim(img: Image, n: nat, at: Site, bs: seq<Branch>, after: nat, s: M.Config)
    returns (k: nat)
    requires Loaded(img) && BranchesOk(img.g, at, bs) && (at.FunctionSite? ==> s.calls.Cons?)
    requires s.locals.Cons? && Holds(img, s.pc, BranchesCode(img.g, bs, after))
    ensures
      var o := S.EvalBranches(img.g, n, s.locals.head, bs, s.hist);
      var len := |BranchesCode(img.g, bs, after)|;
      if !o.Val? then Stopped(o, s, n, Go(img, s, k))
      else if o.value.None? then Go(img, s, k) == M.Running(s.(pc := s.pc + len, hist := o.hist))
      else FlowAgrees(Val(o.value.value, o.hist), at, s, len + after, n, Go(img, s, k))
    decreases n, bs, 2
  {
    hide Holds, M.Step, M.Operate, Loaded, ExprCode, StmtsCode, S.EvalExpr, S.EvalStmts, ExprOk, StmtsOk;
    k := 0;
    if bs != [] {
      var cc, body, rest := ExprCode(img.g, bs[0].cond), StmtsCode(img.g, bs[0].body),
        BranchesCode(img.g, bs[1..], after);
      var d := |rest| + after + 1;
      Split(img, s.pc, cc, [I(M.Not), BranchBy(|body| + 2)] + (body + ([JumpBy(d)] + rest)));
      k := ExprSim(img, n, at, bs[0].cond, s);
      var o := S.EvalExpr(img.g, n, s.locals.head, bs[0].cond, s.hist);
      if o.Val? {
        var s1 := s.(pc := s.pc + |cc|, stack := Cons(o.value, s.stack), hist := o.hist);
        NotBranch(img, |body| + 2, body + ([JumpBy(d)] + rest), s1);
        Chain(img, s, k, s1, 2);
        k := k + 2;
        if o.value.BoolV? {
          Split(img, s1.pc + 2, body, [JumpBy(d)] + rest);
          Split(img, s1.pc + 2 + |body|, [JumpBy(d)], rest);
          var s2 := s.(pc := if o.value.b then s1.pc + 2 else s1.pc + 3 + |body|, hist := o.hist);
          var k1: nat;
          if o.value.b { k1 := BodySim(img, n, at, bs[0].body, d, rest, s2); }
          else { k1 := BranchesSim(img, n, at, bs[1..], after, s2); }
          Chain(img, s, k, s2, k1);
          k := k + k1;
        }
      }
    }
  }

  /** Negating a condition and branching on it; a condition that is not a boolean is an error. */
  lemma {:induction false} NotBranch(img: Image, d: int, rest: Code, s: M.Config)
    requires s.stack.Cons? && Holds(img, s.pc, [I(M.Not), BranchBy(d)] + rest)
    ensures Go(img, s, 2) ==
      var v := s.stack.head;
      if v.BoolV? then M.Running(s.(pc := if v.b then s.pc + 2 else s.pc + 1 + d, stack := s.stack.tail))
      else M.Faulted(InvalidType, s.hist)
    ensures Holds(img, s.pc + 2, rest)
  {
    hide Holds, M.Run, M.Step;
    assert [I(M.Not), BranchBy(d)] + rest == [I(M.Not)] + ([BranchBy(d)] + rest);
    DoInstr(img, s, M.Not, [BranchBy(d)] + rest);
    var v := s.stack.head;
    if v.BoolV? {
      var s1 := s.(pc := s.pc + 1, stack := Cons(BoolV(!v.b), s.stack.tail));
      DoBranch(img, s1, d, rest);
      Chain(img, s, 1, s1, 1);
    } else {
      Fetch(img, s.(pc := s.pc + 1), BranchBy(d), rest);
      M.RunSplit(img.prog, img.g.world, M.Running(s), 1, 1);
      Final(img, M.Faulted(InvalidType, s.hist), 1);
    }
  }

  lemma {:induction false} Final(img: Image, t: M.State, k: nat)
    requires !t.Running?
    ensures M.Run(img.prog, img.g.world, t, k) == t
  {
  }

  /** A body followed by a jump. */
  lemma {:induction false} BodySim(img: Image, n: nat, at: Site, ss: seq<Node>, d: int, rest: Code, s: M.Config)
    returns (k: nat)
    requires Loaded(img) && StmtsOk(img.g, at, ss) && (at.FunctionSite? ==> s.calls.Cons?) && d >= 0
    requires s.locals.Cons? && Holds(img, s.pc, StmtsCode(img.g, ss))
    requires Holds(img, s.pc + |StmtsCode(img.g, ss)|, [JumpBy(d)] + rest)
    ensures FlowAgrees(S.EvalStmts(img.g, n, s.locals.head, ss, s.hist), at, s,
                       |StmtsCode(img.g, ss)| + d, n, Go(img, s, k))
    decreases n, ss, 2
  {
    hide Holds, M.Step, M.Operate, M.Run, Loaded, S.EvalStmts, StmtsCode;
    k := StmtsSim(img, n, at, ss, s);
    var o := S.EvalStmts(img.g, n, s.locals.head, ss, s.hist);
    if o.Val? && o.value.Next? {
      var s1 := s.(pc := s.pc + |StmtsCode(img.g, ss)|, locals := Cons(o.value.env, s.locals.tail), hist := o.hist);
      DoJump(img, s1, d, rest);
      Chain(img, s, k, s1, 1);
      k := k + 1;
    }
  }

  // ---- Match ----

  lemma {:induction false} MatchSim(img: Image, n: nat, at: Site, nd: Node, s: M.Config) returns (k: nat)
    requires nd.stmt.Match? && Loaded(img) && StmtOk(img.g, at, nd) && (at.FunctionSite? ==> s.calls.Cons?)
    requires s.locals.Cons? && Holds(img, s.pc, StmtCode(img.g, nd))
    ensures FlowAgrees(S.EvalStmt(img.g, n, s.locals.head, nd, s.hist), at, s, |StmtCode(img.g, nd)|, n, Go(img, s, k))
    decreases n, nd, -1
  {
    hide Holds, M.Step, M.Operate, M.Run, Loaded, ExprCode, TestsCode, BodiesCode, S.EvalExpr, S.EvalArms, ExprOk,
      ArmsOk, HasDefault;
    var e, arms := nd.stmt.expr, nd.stmt.arms;
    var miss := if HasDefault(arms) then [] else [I(M.Exit(Panic))];
    var c, tests, bodies := ExprCode(img.g, e), TestsCode(img.g, arms, |miss|), BodiesCode(img.g, arms);
    Split(img, s.pc, c, tests + (miss + bodies));
    Split(img, s.pc + |c|, tests, miss + bodies);
    Split(img, s.pc + |c| + |tests|, miss, bodies);
    k := ExprSim(img, n, at, e, s);
    var o := S.EvalExpr(img.g, n, s.locals.head, e, s.hist);
    if o.Val? {
      var s1 := s.(pc := s.pc + |c|, stack := Cons(o.value, s.stack), hist := o.hist);
      var k1 := ArmsSim(img, n, at, arms, |miss|, s1);
      Chain(img, s, k, s1, k1);
      k := k + k1;
    }
  }

  /** From the tests of the remaining arms, with the matched value on top, to the end of the
      statement with the value gone. */
  lemma {:induction false} ArmsSim(img: Image, n: nat, at: Site, arms: seq<Arm>, gap: nat, s: M.Config)
    returns (k: nat)
    requires Loaded(img) && ArmsOk(img.g, at, arms) && (at.FunctionSite? ==> s.calls.Cons?)
    requires s.locals.Cons? && s.stack.Cons? && Holds(img, s.pc, TestsCode(img.g, arms, gap))
    requires Holds(img, s.pc + |TestsCode(img.g, arms, gap)| + gap, BodiesCode(img.g, arms))
    requires HasDefault(arms) || Holds(img, s.pc + |TestsCode(img.g, arms, gap)|, [I(M.Exit(Panic))])
    ensures FlowAgrees(S.EvalArms(img.g, n, s.locals.head, arms, s.stack.head, s.hist), at, s.(stack := s.stack.tail),
                       |TestsCode(img.g, arms, gap)| + gap + |BodiesCode(img.g, arms)|, n, Go(img, s, k))
    decreases n, arms, 3
  {
    hide Holds, M.Step, M.Operate, M.Run, Loaded, StmtsCode, PatternCode, ValueTests, ExprCode, S.EvalStmts,
      S.AnyEqual, S.EvalExpr, StmtsOk, ExprOk, ArgsOk;
    if arms == [] {
      assert [I(M.Exit(Panic))] == [I(M.Exit(Panic))] + [];
      DoExit(img, s, Panic, []);
      k := 1;
    } else {
      var body, later := StmtsCode(img.g, arms[0].body), BodiesCode(img.g, arms[1..]);
      var gap1 := gap + |body| + 2;
      var rest := TestsCode(img.g, arms[1..], gap1);
      var p := PatternCode(img.g, arms[0].pattern, |rest| + gap);
      Split(img, s.pc, p, rest);
      var b := s.pc + |p| + |rest| + gap;
      Split(img, b, [I(M.Pop)], body + ([JumpBy(|later| + 1)] + later));
      Split(img, b + 1, body, [JumpBy(|later| + 1)] + later);
      Split(img, b + 1 + |body|, [JumpBy(|later| + 1)], later);
      k := ArmSim(img, n, at, arms, gap, s);
    }
  }

  /** The first arm: either its body runs, or the remaining arms are tried. */
  lemma {:induction false} ArmSim(img: Image, n: nat, at: Site, arms: seq<Arm>, gap: nat, s: M.Config)
    returns (k: nat)
    requires arms != [] && Loaded(img) && ArmsOk(img.g, at, arms) && (at.FunctionSite? ==> s.calls.Cons?)
    requires s.locals.Cons? && s.stack.Cons?
    requires
      var body, later := StmtsCode(img.g, arms[0].body), BodiesCode(img.g, arms[1..]);
      var rest := TestsCode(img.g, arms[1..], gap + |body| + 2);
      var p := PatternCode(img.g, arms[0].pattern, |rest| + gap);
      var b := s.pc + |p| + |rest| + gap;
      Holds(img, s.pc, p) && Holds(img, s.pc + |p|, rest) &&
      Holds(img, b, [I(M.Pop)] + (body + ([JumpBy(|later| + 1)] + later))) &&
      Holds(img, b + 1, body) && Holds(img, b + 1 + |body|, [JumpBy(|later| + 1)] + later) &&
      Holds(img, b + 2 + |body|, later) &&
      (HasDefault(arms) || Holds(img, s.pc + |p| + |rest|, [I(M.Exit(Panic))]))
    ensures FlowAgrees(S.EvalArms(img.g, n, s.locals.head, arms, s.stack.head, s.hist), at, s.(stack := s.stack.tail),
                       |TestsCode(img.g, arms, gap)| + gap + |BodiesCode(img.g, arms)|, n, Go(img, s, k))
    decreases n, arms, 2
  {
    hide Holds, M.Step, M.Operate, M.Run, Loaded, StmtsCode, PatternCode, TestsCode, BodiesCode, S.EvalArms,
      S.EvalStmts, S.AnyEqual, StmtsOk, ArgsOk, HasDefault;
    var body, later := StmtsCode(img.g, arms[0].body), BodiesCode(img.g, arms[1..]);
    var rest := TestsCode(img.g, arms[1..], gap + |body| + 2);
    var p := PatternCode(img.g, arms[0].pattern, |rest| + gap);
    var b := s.pc + |p| + |rest| + gap;
    ArmUnfold(img.g, n, s.locals.head, arms, gap, s.stack.head, s.hist);
    k := PatternSim(img, n, at, arms[0].pattern, |rest| + gap, s);
    var o := PatternHit(img.g, n, s.locals.head, arms[0].pattern, s.stack.head, s.hist);
    if o.Val? && o.value {
      var s1 := s.(pc := b, hist := o.hist);
      PopStep(img, s1, body + ([JumpBy(|later| + 1)] + later));
      var s2 := s1.(pc := b + 1, stack := s.stack.tail);
      var k1 := BodySim(img, n, at, arms[0].body, |later| + 1, later, s2);
      Chain(img, s, k, s1, 1);
      Chain(img, s, k + 1, s2, k1);
      k := k + 1 + k1;
    } else if o.Val? {
      var s1 := s.(pc := s.pc + |p|, hist := o.hist);
      var k1 := ArmsSim(img, n, at, arms[1..], gap + |body| + 2, s1);
      Chain(img, s, k, s1, k1);
      k := k + k1;
    }
  }

  /** One arm at a time: the sizes of its code and the meaning of trying it. */
  lemma {:induction false} ArmUnfold(g: Program, n: nat, env: Scope, arms: seq<Arm>, gap: nat, v: Value, h: History)
    requires arms != []
    ensures
      var body, later := StmtsCode(g, arms[0].body), BodiesCode(g, arms[1..]);
      var rest := TestsCode(g, arms[1..], gap + |body| + 2);
      |TestsCode(g, arms, gap)| == |PatternCode(g, arms[0].pattern, |rest| + gap)| + |rest| &&
      |BodiesCode(g, arms)| == |body| + 2 + |later|
    ensures
      var o := PatternHit(g, n, env, arms[0].pattern, v, h);
      S.EvalArms(g, n, env, arms, v, h) ==
        if !o.Val? then o.PropagateFailure()
        else if o.value then S.EvalStmts(g, n, env, arms[0].body, o.hist)
        else S.EvalArms(g, n, env, arms[1..], v, o.hist)
    ensures HasDefault(arms) ==> arms[0].pattern.Default? || HasDefault(arms[1..])
  {
    hide Holds, StmtsCode, PatternCode, S.EvalStmts, S.AnyEqual;
  }

  lemma {:induction false} PopStep(img: Image, s: M.Config, rest: Code)
    requires s.stack.Cons? && Holds(img, s.pc, [I(M.Pop)] + rest)
    ensures Go(img, s, 1) == M.Running(s.(pc := s.pc + 1, stack := s.stack.tail))
  {
    hide Holds, M.Run, M.Step;
    DoInstr(img, s, M.Pop, rest);
  }

  /** Whether a pattern applies to `v`. */
  ghost function PatternHit(g: Program, n: nat, env: Scope, p: Pattern, v: Value, h: History): Outcome<bool> {
    match p
    case Default => Val(true, h)
    case Values(es) => S.AnyEqual(g, n, env, es, v, h)
  }

  /** The tests of one pattern keep the matched value and go to the arm exactly on a hit. */
  lemma {:induction false} PatternSim(img: Image, n: nat, at: Site, p: Pattern, gap: nat, s: M.Config)
    returns (k: nat)
    requires Loaded(img) && (p.Values? ==> ArgsOk(img.g, at, p.values))
    requires s.locals.Cons? && s.stack.Cons? && Holds(img, s.pc, PatternCode(img.g, p, gap))
    ensures
      var o := PatternHit(img.g, n, s.locals.head, p, s.stack.head, s.hist);
      var len := |PatternCode(img.g, p, gap)|;
      if !o.Val? then Stopped(o, s, n, Go(img, s, k))
      else Go(img, s, k) == M.Running(s.(pc := s.pc + len + (if o.value then gap else 0), hist := o.hist))
    decreases n, p, 1
  {
    hide Holds, M.Step, M.Operate, M.Run, Loaded;
    match p
    case Default =>
      assert [JumpBy(gap + 1)] == [JumpBy(gap + 1)] + [];
      DoJump(img, s, gap + 1, []);
      k := 1;
    case Values(es) => k := ValueTestsSim(img, n, at, es, gap, s);
  }

  lemma {:induction false} ValueTestsSim(img: Image, n: nat, at: Site, es: seq<Expr>, gap: nat, s: M.Config)
    returns (k: nat)
    requires Loaded(img) && ArgsOk(img.g, at, es)
    requires s.locals.Cons? && s.stack.Cons? && Holds(img, s.pc, ValueTests(img.g, es, gap))
    ensures
      var o := S.AnyEqual(img.g, n, s.locals.head, es, s.stack.head, s.hist);
      var len := |ValueTests(img.g, es, gap)|;
      if !o.Val? then Stopped(o, s, n, Go(img, s, k))
      else Go(img, s, k) == M.Running(s.(pc := s.pc + len + (if o.value then gap else 0), hist := o.hist))
    decreases n, es, 0
  {
    hide Holds, M.Step, M.Operate, Loaded, ExprCode, S.EvalExpr, ExprOk;
    k := 0;
    if es != [] {
      var c, rest := ExprCode(img.g, es[0]), ValueTests(img.g, es[1..], gap);
      var d := |rest| + gap + 1;
      DupStep(img, s, c + ([I(M.Eq), BranchBy(d)] + rest));
      var s1 := s.(pc := s.pc + 1, stack := Cons(s.stack.head, s.stack));
      Split(img, s1.pc, c, [I(M.Eq), BranchBy(d)] + rest);
      var k1 := ExprSim(img, n, at, es[0], s1);
      Chain(img, s, 1, s1, k1);
      k := 1 + k1;
      var o := S.EvalExpr(img.g, n, s.locals.head, es[0], s.hist);
      if o.Val? {
        var s2 := s.(pc := s1.pc + |c|, stack := Cons(o.value, s1.stack), hist := o.hist);
        EqBranch(img, d, rest, s2);
        Chain(img, s, k, s2, 2);
        k := k + 2;
        if o.value != s.stack.head {
          var s3 := s.(pc := s2.pc + 2, hist := o.hist);
          var k3 := ValueTestsSim(img, n, at, es[1..], gap, s3);
          Chain(img, s, k, s3, k3);
          k := k + k3;
        }
      }
    }
  }

  /** Comparing the two values on top and branching on equality. */
  lemma {:induction false} EqBranch(img: Image, d: int, rest: Code, s: M.Config)
    requires s.stack.Cons? && s.stack.tail.Cons? && Holds(img, s.pc, [I(M.Eq), BranchBy(d)] + rest)
    ensures Go(img, s, 2) == M.Running(s.(
      pc := if s.stack.head == s.stack.tail.head then s.pc + 1 + d else s.pc + 2, stack := s.stack.tail.tail))
    ensures Holds(img, s.pc + 2, rest)
  {
    hide Holds, M.Run, M.Step;
    assert [I(M.Eq), BranchBy(d)] + rest == [I(M.Eq)] + ([BranchBy(d)] + rest);
    DoInstr(img, s, M.Eq, [BranchBy(d)] + rest);
    var s1 := s.(pc := s.pc + 1, stack := Cons(BoolV(s.stack.tail.head == s.stack.head), s.stack.tail.tail));
    DoBranch(img, s1, d, rest);
    Chain(img, s, 1, s1, 1);
  }

  // ---- Finish and map ----

  lemma {:induction false} FinishSim(img: Image, n: nat, at: Site, nd: Node, s: M.Config) returns (k: nat)
    requires nd.stmt.Finish? && Loaded(img) && StmtOk(img.g, at, nd)
    requires s.locals.Cons? && Holds(img, s.pc, StmtCode(img.g, nd))
    ensures FlowAgrees(S.EvalStmt(img.g, n, s.locals.head, nd, s.hist), at, s, |StmtCode(img.g, nd)|, n, Go(img, s, k))
    decreases n, nd, -1
  {
    hide Holds, M.Step, M.Operate, M.Run, Loaded, StmtsOk, StmtsCode, S.EvalStmts;
    var b := StmtsCode(img.g, nd.stmt.body);
    var tail := b + [I(M.End), I(M.Exit(Normal))];
    assert StmtCode(img.g, nd) == [I(M.Meta(M.FinishMark(true)))] + ([I(M.Block)] + tail);
    DoMark(img, s, M.FinishMark(true), [I(M.Block)] + tail);
    var s1 := s.(pc := s.pc + 1);
    BlockStep(img, s1, tail);
    var s2 := s.(pc := s.pc + 2, locals := Cons(Cons(map[], s.locals.head), s.locals.tail));
    Split(img, s2.pc, b, [I(M.End), I(M.Exit(Normal))]);
    var k1 := StmtsSim(img, n, FinishSite(at.known), nd.stmt.body, s2);
    Chain(img, s, 1, s1, 1);
    Chain(img, s, 2, s2, k1);
    k := 2 + k1;
    var o := S.EvalStmts(img.g, n, s2.locals.head, nd.stmt.body, s.hist);
    if o.Val? {
      Scoping.StmtsKeep(img.g, n, s2.locals.head, nd.stmt.body, s.hist);
      var s3 := s2.(pc := s2.pc + |b|, locals := Cons(o.value.env, s.locals.tail), hist := o.hist);
      assert [I(M.End), I(M.Exit(Normal))] == [I(M.End)] + ([I(M.Exit(Normal))] + []);
      EndStep(img, s3, [I(M.Exit(Normal))] + []);
      var s4 := s3.(pc := s3.pc + 1, locals := Cons(o.value.env.tail, s.locals.tail));
      DoExit(img, s4, Normal, []);
      Chain(img, s, k, s3, 1);
      Chain(img, s, k + 1, s4, 1);
      k := k + 2;
    }
  }

  lemma {:induction false} BlockStep(img: Image, s: M.Config, rest: Code)
    requires s.locals.Cons? && Holds(img, s.pc, [I(M.Block)] + rest)
    ensures Go(img, s, 1) == M.Running(s.(pc := s.pc + 1, locals := Cons(Cons(map[], s.locals.head), s.locals.tail)))
    ensures Holds(img, s.pc + 1, rest)
  {
    hide Holds, M.Run, M.Step;
    DoInstr(img, s, M.Block, rest);
  }

  lemma {:induction false} EndStep(img: Image, s: M.Config, rest: Code)
    requires s.locals.Cons? && s.locals.head.Cons? && Holds(img, s.pc, [I(M.End)] + rest)
    ensures Go(img, s, 1) == M.Running(s.(pc := s.pc + 1, locals := Cons(s.locals.head.tail, s.locals.tail)))
    ensures Holds(img, s.pc + 1, rest)
  {
    hide Holds, M.Run, M.Step;
    DoInstr(img, s, M.End, rest);
  }

  lemma {:induction false} MapSim(img: Image, n: nat, at: Site, nd: Node, s: M.Config) returns (k: nat)
    requires nd.stmt.Map? && Loaded(img) && StmtOk(img.g, at, nd)
    requires s.locals.Cons? && Holds(img, s.pc, StmtCode(img.g, nd))
    ensures FlowAgrees(S.EvalStmt(img.g, n, s.locals.head, nd, s.hist), at, s, |StmtCode(img.g, nd)|, n, Go(img, s, k))
    decreases n, nd, -1
  {
    hide Holds, M.Step, M.Operate, M.Run, Loaded, FactOk, FactCode, S.EvalFact, StmtsOk, StmtsCode, S.EvalMap,
      QueryRows, FactFitsSchema;
    var fact, x, body := nd.stmt.fact, nd.stmt.name, nd.stmt.body;
    var c, loop := FactCode(img.g, fact), LoopCode(x, StmtsCode(img.g, body));
    Split(img, s.pc, c, [I(M.QueryStart)] + loop);
    k := FactSim(img, n, at, fact, s);
    var o := S.EvalFact(img.g, n, s.locals.head, fact, s.hist);
    if o.Val? {
      var s1 := s.(pc := s.pc + |c|, stack := Cons(o.value, s.stack), hist := o.hist);
      StartStep(img, s1, loop);
      Chain(img, s, k, s1, 1);
      k := k + 1;
      var rows := QueryRows(img.g.world, o.value, o.hist);
      if rows.Ok? {
        var s2 := s.(pc := s1.pc + 1, iters := Cons(rows.value, s.iters), hist := o.hist);
        var k2 := LoopSim(img, n, at, x, body, rows.value, s2);
        Chain(img, s, k, s2, k2);
        k := k + k2;
      }
    }
  }

  lemma {:induction false} StartStep(img: Image, s: M.Config, rest: Code)
    requires s.stack.Cons? && Holds(img, s.pc, [I(M.QueryStart)] + rest)
    ensures Go(img, s, 1) ==
      var rows := QueryRows(img.g.world, s.stack.head, s.hist);
      if rows.Ok? then M.Running(s.(pc := s.pc + 1, stack := s.stack.tail, iters := Cons(rows.value, s.iters)))
      else M.Faulted(rows.fault, s.hist)
    ensures Holds(img, s.pc + 1, rest)
  {
    hide Holds, M.Run, M.Step, QueryRows;
    DoInstr(img, s, M.QueryStart, rest);
  }

  /** From the head of the loop, with `rows` left to fetch, to behind its exit. */
  lemma {:induction false} LoopSim(
    img: Image, n: nat, at: Site, x: string, body: seq<Node>, rows: seq<Row>, s: M.Config)
    returns (k: nat)
    requires Loaded(img) && StmtsOk(img.g, at, body) && !at.FunctionSite?
    requires s.locals.Cons? && s.iters.Cons? && s.iters.head == rows
    requires Holds(img, s.pc, LoopCode(x, StmtsCode(img.g, body)))
    ensures FlowAgrees(S.EvalMap(img.g, n, s.locals.head, x, body, rows, s.hist), at, s.(iters := s.iters.tail),
                       |StmtsCode(img.g, body)| + 6, n, Go(img, s, k))
    decreases n, body, 2 * |rows| + 3
  {
    hide Holds, M.Step, M.Operate, M.Run, Loaded, StmtsCode, S.EvalStmts, StmtsOk;
    var b := StmtsCode(img.g, body);
    var tail := b + [I(M.End), JumpBy(-(|b| + 4)), I(M.End)];
    assert LoopCode(x, b) == [I(M.Block)] + ([I(M.QueryNext(x))] + ([BranchBy(|b| + 3)] + tail));
    BlockStep(img, s, [I(M.QueryNext(x))] + ([BranchBy(|b| + 3)] + tail));
    var s1 := s.(pc := s.pc + 1, locals := Cons(Cons(map[], s.locals.head), s.locals.tail));
    NextStep(img, x, s1, [BranchBy(|b| + 3)] + tail);
    Chain(img, s, 1, s1, 1);
    k := 2;
    if rows == [] {
      var s2 := s1.(pc := s.pc + 2, iters := s.iters.tail, stack := Cons(BoolV(true), s.stack));
      LoopExit(img, b, s2);
      Chain(img, s, 2, s2, 2);
      k := 4;
    } else if rows[0].Row? {
      var inner := Define(img.g.world.globals, s1.locals.head, x, StructV(x, Collect(rows[0].keys + rows[0].values)));
      if inner.Ok? {
        var s2 := s.(pc := s.pc + 2, iters := Cons(rows[1..], s.iters.tail), stack := Cons(BoolV(false), s.stack),
                     locals := Cons(inner.value, s.locals.tail));
        DoBranch(img, s2, |b| + 3, tail);
        Chain(img, s, 2, s2, 1);
        var s3 := s2.(pc := s.pc + 3, stack := s.stack);
        var k3 := RoundSim(img, n, at, x, body, rows, s, s3);
        Chain(img, s, 3, s3, k3);
        k := 3 + k3;
      }
    }
  }

  /** One round of the loop, from the body on, and all the rounds after it. */
  lemma {:induction false} RoundSim(
    img: Image, n: nat, at: Site, x: string, body: seq<Node>, rows: seq<Row>, s: M.Config, s3: M.Config)
    returns (k: nat)
    requires rows != [] && rows[0].Row? && Loaded(img) && StmtsOk(img.g, at, body) && !at.FunctionSite?
    requires s.locals.Cons? && s.iters.Cons? && Holds(img, s.pc, LoopCode(x, StmtsCode(img.g, body)))
    requires
      var inner := Define(img.g.world.globals, Cons(map[], s.locals.head), x,
                          StructV(x, Collect(rows[0].keys + rows[0].values)));
      inner.Ok? &&
      s3 == s.(pc := s.pc + 3, iters := Cons(rows[1..], s.iters.tail), locals := Cons(inner.value, s.locals.tail))
    ensures FlowAgrees(S.EvalMap(img.g, n, s.locals.head, x, body, rows, s.hist), at, s.(iters := s.iters.tail),
                       |StmtsCode(img.g, body)| + 6, n, Go(img, s3, k))
    decreases n, body, 2 * |rows| + 2
  {
    hide Holds, M.Step, M.Operate, M.Run, Loaded, StmtsCode, Define, StmtsOk, S.EvalStmts, Collect;
    var b := StmtsCode(img.g, body);
    var back := [I(M.End), JumpBy(-(|b| + 4)), I(M.End)];
    Split(img, s.pc, [I(M.Block), I(M.QueryNext(x)), BranchBy(|b| + 3)], b + back);
    Split(img, s.pc + 3, b, back);
    k := StmtsSim(img, n, at, body, s3);
    var o := S.EvalStmts(img.g, n, s3.locals.head, body, s.hist);
    if o.Val? {
      RoundScope(img.g, n, s.locals.head, x, body, rows, s.hist);
      var s4 := s3.(pc := s3.pc + |b|, locals := Cons(o.value.env, s.locals.tail), hist := o.hist);
      assert back == [I(M.End)] + ([JumpBy(-(|b| + 4))] + [I(M.End)]);
      EndStep(img, s4, [JumpBy(-(|b| + 4))] + [I(M.End)]);
      var s5 := s4.(pc := s4.pc + 1, locals := Cons(o.value.env.tail, s.locals.tail));
      DoJump(img, s5, -(|b| + 4), [I(M.End)]);
      var s6 := s5.(pc := s.pc);
      Chain(img, s3, k, s4, 1);
      Chain(img, s3, k + 1, s5, 1);
      var k6 := LoopSim(img, n, at, x, body, rows[1..], s6);
      Chain(img, s3, k + 2, s6, k6);
      k := k + 2 + k6;
    }
  }

  /** The body of a round leaves a scope whose outer blocks are those before the loop. */
  lemma {:induction false} RoundScope(
    g: Program, n: nat, env: Scope, x: string, body: seq<Node>, rows: seq<Row>, h: History)
    requires rows != [] && rows[0].Row?
    ensures
      var inner := Define(g.world.globals, Cons(map[], env), x, StructV(x, Collect(rows[0].keys + rows[0].values)));
      inner.Ok? ==>
        var o := S.EvalStmts(g, n, inner.value, body, h);
        o.Val? && o.value.Next? ==> o.value.env.Cons? && o.value.env.tail == env
  {
    var inner := Define(g.world.globals, Cons(map[], env), x, StructV(x, Collect(rows[0].keys + rows[0].values)));
    if inner.Ok? { Scoping.StmtsKeep(g, n, inner.value, body, h); }
  }

  /** Fetching a row defines the loop variable and pushes false; an exhausted iterator is
      dropped and true pushed. */
  lemma {:induction false} NextStep(img: Image, x: string, s: M.Config, rest: Code)
    requires s.locals.Cons? && s.iters.Cons? && Holds(img, s.pc, [I(M.QueryNext(x))] + rest)
    ensures Go(img, s, 1) ==
      var rows := s.iters.head;
      if rows == [] then M.Running(s.(pc := s.pc + 1, iters := s.iters.tail, stack := Cons(BoolV(true), s.stack)))
      else if rows[0].RowFailed? then M.Faulted(IoError(rows[0].code), s.hist)
      else
        var inner := Define(img.g.world.globals, s.locals.head, x, StructV(x, Collect(rows[0].keys + rows[0].values)));
        if inner.Err? then M.Faulted(inner.fault, s.hist)
        else M.Running(s.(pc := s.pc + 1, iters := Cons(rows[1..], s.iters.tail), stack := Cons(BoolV(false), s.stack),
                          locals := Cons(inner.value, s.locals.tail)))
    ensures Holds(img, s.pc + 1, rest)
  {
    hide Holds, M.Run, M.Step, Define, Collect;
    DoInstr(img, s, M.QueryNext(x), rest);
  }

  /** Leaving the loop: the branch is taken and the last block closed. */
  lemma {:induction false} LoopExit(img: Image, b: Code, s: M.Config)
    requires s.stack.Cons? && s.stack.head == BoolV(true) && s.locals.Cons? && s.locals.head.Cons?
    requires Holds(img, s.pc, [BranchBy(|b| + 3)] + (b + [I(M.End), JumpBy(-(|b| + 4)), I(M.End)]))
    ensures Go(img, s, 2) == M.Running(s.(
      pc := s.pc + |b| + 4, stack := s.stack.tail, locals := Cons(s.locals.head.tail, s.locals.tail)))
  {
    hide Holds, M.Run, M.Step, M.Operate;
    var back := [I(M.End), JumpBy(-(|b| + 4)), I(M.End)];
    DoBranch(img, s, |b| + 3, b + back);
    Split(img, s.pc + 1, b, back);
    assert back == [I(M.End), JumpBy(-(|b| + 4))] + ([I(M.End)] + []);
    Split(img, s.pc + 1 + |b|, [I(M.End), JumpBy(-(|b| + 4))], [I(M.End)] + []);
    var s1 := s.(pc := s.pc + |b| + 3, stack := s.stack.tail);
    EndStep(img, s1, []);
    Chain(img, s, 1, s1, 1);
  }
}
