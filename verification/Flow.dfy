/** Static discipline of the operand stack and of blocks: every instruction of compiled code has
    one height, whichever way control reaches it. */
module Flow {
  import opened Values
  import opened Ast
  import opened Static
  import opened Layout
  import opened Programs
  import M = Machine

  /** Operands above those of the caller, and open blocks. */
  datatype Height = Height(values: int, blocks: int) {
    function Plus(n: int): Height { Height(values + n, blocks) }
  }

  // ---- Effects of instructions ----

  function ArityOf(w: World, m: nat, p: nat): nat {
    if m < |w.ffi| && p < |w.ffi[m].procedures| then w.ffi[m].procedures[p].arity else 0
  }

  /** How many operands an instruction looks at. */
  function Needs(w: World, i: M.Instr): nat {
    match i
    case Swap(d) => d + 1
    case Dup(d) => d + 1
    case Add | Sub | And | Or | Gt | Lt | Eq | StructSet(_) | FactKeySet(_) | FactValueSet(_) | Update => 2
    case Def(_) | Pop | Not | StructGet(_) | Publish | Create | Delete | Emit | Query | FactCount(_) | QueryStart
      | Serialize | Deserialize => 1
    case ExtCall(m, p) => ArityOf(w, m, p)
    case _ => 0
  }

  /** How much an instruction changes the height of the operand stack. */
  function Net(w: World, i: M.Instr): int {
    match i
    case Const(_) | Get(_) | Dup(_) | FactNew(_) | StructNew(_) | QueryNext(_) => 1
    case Def(_) | Pop | Add | Sub | And | Or | Gt | Lt | Eq | StructSet(_) | FactKeySet(_) | FactValueSet(_)
      | Publish | Create | Delete | Emit | QueryStart => -1
    case Update => -2
    case ExtCall(m, p) => 1 - ArityOf(w, m, p)
    case _ => 0
  }

  function After(w: World, i: M.Instr, h: Height): Height {
    Height(h.values + Net(w, i), h.blocks + if i.Block? then 1 else if i.End? then -1 else 0)
  }

  // ---- Heights of code ----

  /** What a call takes and leaves. */
  function CallEffect(g: Program, l: M.Label): Option<(nat, nat)> {
    var ds := match l.ltype
      case FunctionLabel => g.policy.functions
      case ActionLabel => g.policy.actions
      case Temporary => g.policy.finishFunctions
      case _ => [];
    match FindDefinition(ds, l.name)
    case Some(d) => Some((|d.params|, if l.ltype.FunctionLabel? then 1 else 0))
    case None => None
  }

  /** What code is checked for: a program, the height at which it returns, whether it may jump
      back, and whether it may call into itself. */
  datatype Mode = Mode(g: Program, ret: Height, loops: bool, stub: bool)

  /** What `op` at position `k` demands of the heights: enough operands, and the resulting height
      at every position control may go to, all of them within the code or just behind it. */
  ghost predicate Flows(md: Mode, op: Op, hs: seq<Height>, k: int) {
    0 <= k < |hs| &&
    match op
    case I(i) =>
      if i.Exit? then true
      else if i.Return? then hs[k] == md.ret
      else
        k + 1 < |hs| && !M.IsControl(i) && Needs(md.g.world, i) <= hs[k].values && (i.End? ==> 0 < hs[k].blocks) &&
        hs[k + 1] == After(md.g.world, i, hs[k])
    case JumpBy(d) => (0 < d || md.loops) && 0 <= k + d < |hs| && hs[k + d] == hs[k]
    case BranchBy(d) =>
      0 < d && k + 1 < |hs| && k + d < |hs| && 0 < hs[k].values && hs[k + 1] == hs[k].Plus(-1) &&
        hs[k + d] == hs[k].Plus(-1)
    case CallBy(d) =>
      md.stub && 0 < d && k + 1 < |hs| && k + d < |hs| && hs[k].blocks == 0 && hs[k + d] == hs[k] && hs[k + 1] == md.ret
    case CallTo(l) =>
      k + 1 < |hs| && CallEffect(md.g, l).Some? && CallEffect(md.g, l).value.0 <= hs[k].values &&
      hs[k + 1] == hs[k].Plus(CallEffect(md.g, l).value.1 - CallEffect(md.g, l).value.0)
    case JumpTo(_) => false
    case BranchTo(_) => false
  }

  /** `hs` gives the height before each operation and behind the last. */
  ghost predicate Typed(md: Mode, code: Code, hs: seq<Height>) {
    |hs| == |code| + 1 && forall k :: 0 <= k < |code| ==> Flows(md, code[k], hs, k)
  }

  lemma {:induction false} FlowsShift(md: Mode, op: Op, pre: seq<Height>, hs: seq<Height>, k: nat)
    requires Flows(md, op, hs, k)
    ensures Flows(md, op, pre + hs, |pre| + k)
  {
  }

  /** A piece, then the rest, meeting at the same height. */
  lemma {:induction false} Then(md: Mode, a: Code, ha: seq<Height>, b: Code, hb: seq<Height>)
    requires Typed(md, a, ha) && Typed(md, b, hb) && ha[|a|] == hb[0]
    ensures Typed(md, a + b, ha[..|a|] + hb)
  {
    var hs := ha[..|a|] + hb;
    assert forall k :: 0 <= k <= |a| ==> hs[k] == ha[k];
    forall k | 0 <= k < |a + b| ensures Flows(md, (a + b)[k], hs, k) {
      if k < |a| {
        assert Flows(md, a[k], ha, k);
      } else {
        FlowsShift(md, b[k - |a|], ha[..|a|], hb, k - |a|);
      }
    }
  }

  /** One operation, then the rest. */
  lemma {:induction false} First(md: Mode, op: Op, h: Height, b: Code, hb: seq<Height>)
    requires Typed(md, b, hb) && Flows(md, op, [h] + hb, 0)
    ensures Typed(md, [op] + b, [h] + hb)
  {
    hide Flows;
    forall k | 0 <= k < |[op] + b| ensures Flows(md, ([op] + b)[k], [h] + hb, k) {
      if k > 0 { FlowsShift(md, b[k - 1], [h], hb, k - 1); }
    }
  }

  ghost predicate Between(md: Mode, code: Code, hs: seq<Height>, h: Height, h': Height) {
    |hs| == |code| + 1 && hs[0] == h && hs[|code|] == h' && Typed(md, code, hs)
  }

  /** Every way through the code leads from height `h` to height `h'`. */
  ghost predicate Takes(md: Mode, code: Code, h: Height, h': Height) {
    exists hs :: Between(md, code, hs, h, h')
  }

  lemma {:induction false} TakesThen(md: Mode, a: Code, b: Code, h: Height, h1: Height, h2: Height)
    requires Takes(md, a, h, h1) && Takes(md, b, h1, h2)
    ensures Takes(md, a + b, h, h2)
  {
    hide Typed;
    var ha :| Between(md, a, ha, h, h1);
    var hb :| Between(md, b, hb, h1, h2);
    Then(md, a, ha, b, hb);
    assert Between(md, a + b, ha[..|a|] + hb, h, h2);
  }

  lemma {:induction false} TakesNone(md: Mode, h: Height)
    ensures Takes(md, [], h, h)
  {
    assert Between(md, [], [h], h, h);
  }

  predicate Straight(w: World, i: M.Instr, h: Height) {
    !M.IsControl(i) && Needs(w, i) <= h.values && (i.End? ==> 0 < h.blocks)
  }

  lemma {:induction false} TakesInstr(md: Mode, i: M.Instr, h: Height)
    requires Straight(md.g.world, i, h)
    ensures Takes(md, [I(i)], h, After(md.g.world, i, h))
  {
    assert Between(md, [I(i)], [h, After(md.g.world, i, h)], h, After(md.g.world, i, h));
  }

  /** An instruction in front of code. */
  lemma {:induction false} InstrThen(md: Mode, i: M.Instr, b: Code, h: Height, h2: Height)
    requires Straight(md.g.world, i, h) && Takes(md, b, After(md.g.world, i, h), h2)
    ensures Takes(md, [I(i)] + b, h, h2)
  {
    hide Takes, After, Needs;
    TakesInstr(md, i, h);
    TakesThen(md, [I(i)], b, h, After(md.g.world, i, h), h2);
  }

  /** An instruction behind code. */
  lemma {:induction false} ThenInstr(md: Mode, a: Code, i: M.Instr, h: Height, h1: Height)
    requires Takes(md, a, h, h1) && Straight(md.g.world, i, h1)
    ensures Takes(md, a + [I(i)], h, After(md.g.world, i, h1))
  {
    hide Takes, After, Needs;
    TakesInstr(md, i, h1);
    TakesThen(md, a, [I(i)], h, h1, After(md.g.world, i, h1));
  }

  // ---- Operators ----

  lemma {:induction false} InstrsTake(md: Mode, xs: seq<M.Instr>, hs: seq<Height>)
    requires |hs| == |xs| + 1
    requires forall k :: 0 <= k < |xs| ==>
      Straight(md.g.world, xs[k], hs[k]) && hs[k + 1] == After(md.g.world, xs[k], hs[k])
    ensures Takes(md, Instrs(xs), hs[0], hs[|xs|])
  {
    assert Between(md, Instrs(xs), hs, hs[0], hs[|xs|]);
  }

  /** An instruction that replaces what it looks at by one value. */
  lemma {:induction false} OneTakes(md: Mode, i: M.Instr, h: Height)
    requires 0 <= h.values && !M.IsControl(i) && !i.Block? && !i.End? && Net(md.g.world, i) == 1 - Needs(md.g.world, i)
    ensures Takes(md, Instrs([i]), h.Plus(Needs(md.g.world, i)), h.Plus(1))
  {
    hide Takes;
    InstrsTake(md, [i], [h.Plus(Needs(md.g.world, i)), h.Plus(1)]);
  }

  lemma {:induction false} ComparisonTakes(md: Mode, strict: M.Instr, h: Height)
    requires 0 <= h.values && (strict.Gt? || strict.Lt?)
    ensures Takes(md, Instrs([M.Dup(1), M.Dup(1), M.Eq, M.Swap(2), M.Swap(1), strict, M.Or]), h.Plus(2), h.Plus(1))
  {
    hide Takes;
    InstrsTake(md, [M.Dup(1), M.Dup(1), M.Eq, M.Swap(2), M.Swap(1), strict, M.Or],
               [h.Plus(2), h.Plus(3), h.Plus(4), h.Plus(3), h.Plus(3), h.Plus(3), h.Plus(2), h.Plus(1)]);
  }

  lemma {:induction false} NegatedTakes(md: Mode, fetch: M.Instr, v: Value, test: M.Instr, h: Height)
    requires 0 <= h.values && (fetch.Query? || fetch.FactCount?) && (test.Eq? || test.Lt? || test.Gt?)
    ensures Takes(md, Instrs([fetch, M.Const(v), test, M.Not]), h.Plus(1), h.Plus(1))
  {
    hide Takes;
    InstrsTake(md, [fetch, M.Const(v), test, M.Not], [h.Plus(1), h.Plus(1), h.Plus(2), h.Plus(1), h.Plus(1)]);
  }

  lemma {:induction false} CountedTakes(md: Mode, k: int, h: Height)
    requires 0 <= h.values
    ensures Takes(md, Instrs([M.FactCount(k + 1), M.Const(IntV(k)), M.Eq]), h.Plus(1), h.Plus(1))
  {
    hide Takes;
    InstrsTake(md, [M.FactCount(k + 1), M.Const(IntV(k)), M.Eq], [h.Plus(1), h.Plus(1), h.Plus(2), h.Plus(1)]);
  }

  lemma {:induction false} NotEqualTakes(md: Mode, h: Height)
    requires 0 <= h.values
    ensures Takes(md, Instrs([M.Eq, M.Not]), h.Plus(2), h.Plus(1))
  {
    hide Takes;
    InstrsTake(md, [M.Eq, M.Not], [h.Plus(2), h.Plus(1), h.Plus(1)]);
  }

  lemma {:induction false} BinaryTakes(md: Mode, op: BinaryOp, h: Height)
    requires 0 <= h.values
    ensures Takes(md, Instrs(BinaryInstrs(op)), h.Plus(2), h.Plus(1))
  {
    hide Takes, Instrs;
    match op
    case NotEqual => NotEqualTakes(md, h);
    case GreaterOrEqual => ComparisonTakes(md, M.Gt, h);
    case LessOrEqual => ComparisonTakes(md, M.Lt, h);
    case Add => OneTakes(md, M.Add, h);
    case Subtract => OneTakes(md, M.Sub, h);
    case And => OneTakes(md, M.And, h);
    case Or => OneTakes(md, M.Or, h);
    case Equal => OneTakes(md, M.Eq, h);
    case GreaterThan => OneTakes(md, M.Gt, h);
    case LessThan => OneTakes(md, M.Lt, h);
  }

  lemma {:induction false} QueryTakes(md: Mode, kind: QueryKind, h: Height)
    requires 0 <= h.values
    ensures Takes(md, Instrs(QueryInstrs(kind)), h.Plus(1), h.Plus(1))
  {
    hide Takes, Instrs;
    match kind
    case Query => OneTakes(md, M.Query, h);
    case UpTo(k) => OneTakes(md, M.FactCount(k), h);
    case Exists => NegatedTakes(md, M.Query, NoneV, M.Eq, h);
    case AtLeast(k) => NegatedTakes(md, M.FactCount(k), IntV(k), M.Lt, h);
    case AtMost(k) => NegatedTakes(md, M.FactCount(k + 1), IntV(k), M.Gt, h);
    case Exactly(k) => CountedTakes(md, k, h);
  }

  lemma {:induction false} ComparedTakes(md: Mode, h: Height)
    requires 0 <= h.values
    ensures Takes(md, Instrs([M.Const(NoneV), M.Eq]), h.Plus(1), h.Plus(1))
    ensures Takes(md, Instrs([M.Const(NoneV), M.Eq, M.Not]), h.Plus(1), h.Plus(1))
    ensures Takes(md, Instrs([M.Const(IntV(0)), M.Swap(1), M.Sub]), h.Plus(1), h.Plus(1))
    ensures Takes(md, Instrs([]), h.Plus(1), h.Plus(1))
  {
    hide Takes;
    InstrsTake(md, [M.Const(NoneV), M.Eq], [h.Plus(1), h.Plus(2), h.Plus(1)]);
    InstrsTake(md, [M.Const(NoneV), M.Eq, M.Not], [h.Plus(1), h.Plus(2), h.Plus(1), h.Plus(1)]);
    InstrsTake(md, [M.Const(IntV(0)), M.Swap(1), M.Sub], [h.Plus(1), h.Plus(2), h.Plus(2), h.Plus(1)]);
    InstrsTake(md, [], [h.Plus(1)]);
  }

  lemma {:induction false} UnaryTakes(md: Mode, op: UnaryOp, h: Height)
    requires 0 <= h.values
    ensures Takes(md, UnaryCode(op), h.Plus(1), h.Plus(1))
  {
    hide Takes, Instrs, UnwrapCode;
    match op
    case SomeOf | Negative | IsSome | IsNone => ComparedTakes(md, h);
    case Unwrap => UnwrapTakes(md, Panic, h);
    case CheckUnwrap => UnwrapTakes(md, Check, h);
    case Not => OneTakes(md, M.Not, h);
    case Dot(k) => OneTakes(md, M.StructGet(k), h);
    case Serialize => OneTakes(md, M.Serialize, h);
    case Deserialize => OneTakes(md, M.Deserialize, h);
  }

  lemma {:induction false} UnwrapTakes(md: Mode, reason: ExitReason, h: Height)
    requires 0 <= h.values
    ensures Takes(md, UnwrapCode(reason), h.Plus(1), h.Plus(1))
  {
    hide Takes;
    InstrsTake(md, [M.Dup(0), M.Const(NoneV), M.Eq, M.Not], [h.Plus(1), h.Plus(2), h.Plus(3), h.Plus(2), h.Plus(2)]);
    GuardTakes(md, reason, h.Plus(1));
    TakesThen(md, Instrs([M.Dup(0), M.Const(NoneV), M.Eq, M.Not]), [BranchBy(2), I(M.Exit(reason))],
              h.Plus(1), h.Plus(2), h.Plus(1));
  }

  /** Leaves the program unless the value on top is true. */
  lemma {:induction false} GuardTakes(md: Mode, reason: ExitReason, h: Height)
    requires 0 <= h.values
    ensures Takes(md, [BranchBy(2), I(M.Exit(reason))], h.Plus(1), h)
  {
    assert Between(md, [BranchBy(2), I(M.Exit(reason))], [h.Plus(1), h, h], h.Plus(1), h);
  }

  /** Two ways to the same height, chosen by the value on top. */
  lemma {:induction false} ChoiceTakes(md: Mode, f: Code, t: Code, h: Height, h1: Height)
    requires Takes(md, f, h, h1) && Takes(md, t, h, h1) && 0 <= h.values
    ensures Takes(md, [BranchBy(|f| + 2)] + (f + ([JumpBy(|t| + 1)] + t)), h.Plus(1), h1)
  {
    var hf :| Between(md, f, hf, h, h1);
    var ht :| Between(md, t, ht, h, h1);
    hide Typed;
    First(md, JumpBy(|t| + 1), h1, t, ht);
    Then(md, f, hf, [JumpBy(|t| + 1)] + t, [h1] + ht);
    var rest := hf[..|f|] + ([h1] + ht);
    assert rest[0] == h && rest[|f| + 1] == h;
    First(md, BranchBy(|f| + 2), h.Plus(1), f + ([JumpBy(|t| + 1)] + t), rest);
    assert Between(md, [BranchBy(|f| + 2)] + (f + ([JumpBy(|t| + 1)] + t)), [h.Plus(1)] + rest, h.Plus(1), h1);
  }

  // ---- Expressions ----

  lemma {:induction false} CallTakes(md: Mode, l: M.Label, h: Height, n: nat)
    requires CallEffect(md.g, l).Some? && CallEffect(md.g, l).value.0 == n && 0 <= h.values
    ensures Takes(md, [CallTo(l)], h.Plus(n), h.Plus(CallEffect(md.g, l).value.1))
  {
    hide CallEffect;
    var h' := h.Plus(CallEffect(md.g, l).value.1);
    assert Between(md, [CallTo(l)], [h.Plus(n), h'], h.Plus(n), h');
  }

  lemma {:induction false} ExprTakes(md: Mode, at: Site, e: Expr, h: Height)
    requires ExprOk(md.g, at, e) && 0 <= h.values
    ensures Takes(md, ExprCode(md.g, e), h, h.Plus(1))
    decreases e, 1
  {
    hide Takes, FieldsOk, FactOk, ArgsOk, FinishExpr, FactFitsSchema, FindDefinition, FindModule, FindProcedure,
      FieldsCode, FactCode, ArgsCode, UnaryCode, BinaryInstrs, QueryInstrs, Instrs;
    match e
    case Literal(v) => TakesInstr(md, M.Const(v), h);
    case EnumReference(t, v) => TakesInstr(md, M.Const(EnumV(t, v)), h);
    case Identifier(x) =>
      TakesInstr(md, M.Get(x), h);
      InstrThen(md, M.Meta(M.GetMark(x)), [I(M.Get(x))], h, h.Plus(1));
      assert [I(M.Meta(M.GetMark(x)))] + [I(M.Get(x))] == ExprCode(md.g, e);
    case NamedStruct(name, fields) =>
      FieldsTake(md, at, StructMember, fields, h);
      InstrThen(md, M.StructNew(name), FieldsCode(md.g, StructMember, fields), h, h.Plus(1));
    case FactQuery(kind, fact) =>
      FactTakes(md, at, fact, h);
      QueryTakes(md, kind, h);
      TakesThen(md, FactCode(md.g, fact), Instrs(QueryInstrs(kind)), h, h.Plus(1), h.Plus(1));
    case Conditional(c, yes, no) =>
      ExprTakes(md, at, c, h);
      ExprTakes(md, at, yes, h);
      ExprTakes(md, at, no, h);
      ChoiceTakes(md, ExprCode(md.g, no), ExprCode(md.g, yes), h, h.Plus(1));
      var t, f := ExprCode(md.g, yes), ExprCode(md.g, no);
      TakesThen(md, ExprCode(md.g, c), [BranchBy(|f| + 2)] + (f + ([JumpBy(|t| + 1)] + t)), h, h.Plus(1), h.Plus(1));
    case FunctionCall(name, args) =>
      ArgsTake(md, at, args, h);
      var l := M.Label(name, M.FunctionLabel);
      CallTakes(md, l, h, |args|);
      TakesThen(md, ArgsCode(md.g, args), [CallTo(l)], h, h.Plus(|args|), h.Plus(1));
    case ForeignCall(m, name, args) => ForeignTakes(md, at, m, name, args, h);
    case Unary(op, a) =>
      ExprTakes(md, at, a, h);
      UnaryTakes(md, op, h);
      TakesThen(md, ExprCode(md.g, a), UnaryCode(op), h, h.Plus(1), h.Plus(1));
    case Binary(op, a, b) =>
      ExprTakes(md, at, a, h);
      ExprTakes(md, at, b, h.Plus(1));
      BinaryTakes(md, op, h);
      var ops := Instrs(BinaryInstrs(op));
      TakesThen(md, ExprCode(md.g, b), ops, h.Plus(1), h.Plus(2), h.Plus(1));
      TakesThen(md, ExprCode(md.g, a), ExprCode(md.g, b) + ops, h, h.Plus(1), h.Plus(1));
  }

  lemma {:induction false} ForeignTakes(md: Mode, at: Site, m: string, name: string, args: seq<Expr>, h: Height)
    requires ForeignOk(md.g.world, m, name, |args|) && ArgsOk(md.g, at, args) && 0 <= h.values
    ensures
      var (mi, pi) := ForeignIndex(md.g.world, m, name);
      Takes(md, [I(M.Meta(M.FfiMark(m, name)))] + (ArgsCode(md.g, args) + [I(M.ExtCall(mi, pi))]), h, h.Plus(1))
    decreases args, 2
  {
    hide Takes, ArgsOk, ArgsCode, FindModule, FindProcedure;
    var (mi, pi) := ForeignIndex(md.g.world, m, name);
    ArgsTake(md, at, args, h);
    ThenInstr(md, ArgsCode(md.g, args), M.ExtCall(mi, pi), h, h.Plus(|args|));
    InstrThen(md, M.Meta(M.FfiMark(m, name)), ArgsCode(md.g, args) + [I(M.ExtCall(mi, pi))], h, h.Plus(1));
  }

  lemma {:induction false} ArgsTake(md: Mode, at: Site, es: seq<Expr>, h: Height)
    requires ArgsOk(md.g, at, es) && 0 <= h.values
    ensures Takes(md, ArgsCode(md.g, es), h, h.Plus(|es|))
    decreases es, 0
  {
    hide Takes, ExprOk, ExprCode;
    if es == [] {
      TakesNone(md, h);
    } else {
      ExprTakes(md, at, es[0], h);
      ArgsTake(md, at, es[1..], h.Plus(1));
      TakesThen(md, ExprCode(md.g, es[0]), ArgsCode(md.g, es[1..]), h, h.Plus(1), h.Plus(|es|));
    }
  }

  lemma {:induction false} FieldsTake(md: Mode, at: Site, m: Member, fs: seq<Field>, h: Height)
    requires FieldsOk(md.g, at, fs) && 0 <= h.values
    ensures Takes(md, FieldsCode(md.g, m, fs), h.Plus(1), h.Plus(1))
    decreases fs, 0
  {
    hide Takes, ExprOk, ExprCode;
    if fs == [] {
      TakesNone(md, h.Plus(1));
    } else {
      FieldsTake(md, at, m, fs[1..], h);
      match fs[0].value {
        case Bind =>
        case Given(e) =>
          ExprTakes(md, at, e, h.Plus(1));
          var rest := FieldsCode(md.g, m, fs[1..]);
          InstrThen(md, SetterInstr(m, fs[0].name), rest, h.Plus(2), h.Plus(1));
          TakesThen(md, ExprCode(md.g, e), [I(SetterInstr(m, fs[0].name))] + rest, h.Plus(1), h.Plus(2), h.Plus(1));
      }
    }
  }

  lemma {:induction false} FactTakes(md: Mode, at: Site, f: FactLiteral, h: Height)
    requires FactOk(md.g, at, f) && 0 <= h.values
    ensures Takes(md, FactCode(md.g, f), h, h.Plus(1))
    decreases f, 0
  {
    hide Takes, FieldsOk, FieldsCode;
    var keys := FieldsCode(md.g, KeyMember, f.keys);
    FieldsTake(md, at, KeyMember, f.keys, h);
    match f.values {
      case NoValues =>
        assert keys + [] == keys;
        InstrThen(md, M.FactNew(f.name), keys, h, h.Plus(1));
      case GivenValues(fs) =>
        var values := FieldsCode(md.g, ValueMember, fs);
        FieldsTake(md, at, ValueMember, fs, h);
        TakesThen(md, keys, values, h.Plus(1), h.Plus(1), h.Plus(1));
        InstrThen(md, M.FactNew(f.name), keys + values, h, h.Plus(1));
    }
  }

  // ---- Statements ----

  /** Functions return with one value above an empty frame. */
  predicate Suits(md: Mode, at: Site, h: Height) {
    0 <= h.values && 0 <= h.blocks && (at.FunctionSite? ==> h == Height(0, 0) && md.ret == Height(1, 0))
  }

  // Only actions may hold map statements; code without them does not loop.

  predicate MapFree(ss: seq<Node>)
    decreases ss, 1
  {
    ss != [] ==> StmtMapFree(ss[0]) && MapFree(ss[1..])
  }

  predicate StmtMapFree(nd: Node)
    decreases nd, 0
  {
    match nd.stmt
    case Map(_, _, _) => false
    case Match(_, arms) => ArmsMapFree(arms)
    case If(bs, fallback) => BranchesMapFree(bs) && (match fallback case NoElse => true case Else(ss) => MapFree(ss))
    case _ => true
  }

  predicate BranchesMapFree(bs: seq<Branch>)
    decreases bs, 2
  {
    bs != [] ==> MapFree(bs[0].body) && BranchesMapFree(bs[1..])
  }

  predicate ArmsMapFree(arms: seq<Arm>)
    decreases arms, 2
  {
    arms != [] ==> MapFree(arms[0].body) && ArmsMapFree(arms[1..])
  }

  lemma {:induction false} StmtsTake(md: Mode, at: Site, ss: seq<Node>, h: Height)
    requires at.ActionSite? && !md.loops ==> MapFree(ss)
    requires StmtsOk(md.g, at, ss) && Suits(md, at, h)
    ensures Takes(md, StmtsCode(md.g, ss), h, h)
    decreases ss, 1
  {
    hide Takes, StmtOk, StmtCode, StmtMapFree;
    if ss == [] {
      TakesNone(md, h);
    } else {
      StmtTakes(md, at, ss[0], h);
      StmtsTake(md, at, ss[1..], h);
      TakesThen(md, StmtCode(md.g, ss[0]), StmtsCode(md.g, ss[1..]), h, h, h);
    }
  }

  lemma {:induction false} StmtTakes(md: Mode, at: Site, nd: Node, h: Height)
    requires at.ActionSite? && !md.loops ==> StmtMapFree(nd)
    requires StmtOk(md.g, at, nd) && Suits(md, at, h)
    ensures Takes(md, StmtCode(md.g, nd), h, h)
    decreases nd, 1
  {
    hide Takes, LoopCode, ExprOk, ExprCode, StmtsOk, StmtsCode, FactOk, FactCode, FieldsOk, FieldsCode, ArgsOk,
      ArgsCode, ArmsOk, BranchesOk, BranchesCode, TestsCode, BodiesCode, FactFitsSchema, NoRepeats, MatchValues,
      FindDefinition, MapFree, ArmsMapFree, BranchesMapFree;
    var g := md.g;
    match nd.stmt
    case Let(x, e) =>
      ExprTakes(md, at, e, h);
      BindTakes(md, x, h);
      TakesThen(md, ExprCode(g, e), [I(M.Meta(M.LetMark(x))), I(M.Def(x))], h, h.Plus(1), h);
    case CheckThat(e) =>
      ExprTakes(md, at, e, h);
      GuardTakes(md, Check, h);
      TakesThen(md, ExprCode(g, e), [BranchBy(2), I(M.Exit(Check))], h, h.Plus(1), h);
    case DebugAssert(e) =>
      if g.debug {
        ExprTakes(md, at, e, h);
        GuardTakes(md, Panic, h);
        TakesThen(md, ExprCode(g, e), [BranchBy(2), I(M.Exit(Panic))], h, h.Plus(1), h);
      } else {
        TakesNone(md, h);
      }
    case Match(e, arms) => MatchTakes(md, at, e, arms, h);
    case If(branches, fallback) =>
      match fallback {
        case NoElse =>
          TakesNone(md, h);
          BranchesTake(md, at, branches, [], h);
        case Else(ss) =>
          StmtsTake(md, at, ss, h);
          BranchesTake(md, at, branches, StmtsCode(g, ss), h);
      }
    case Finish(body) => FinishTakes(md, at.known, body, h);
    case Map(fact, x, body) =>
      FactTakes(md, at, fact, h);
      StmtsTake(md, at, body, Height(h.values, h.blocks + 1));
      MapTakes(md, FactCode(g, fact), x, StmtsCode(g, body), h);
    case Return(e) =>
      ExprTakes(md, at, e, h);
      ReturnTakes(md, h);
      TakesThen(md, ExprCode(g, e), [I(M.Return)], h, h.Plus(1), h);
    case ActionCall(name, args) => CallStmtTakes(md, at, M.Label(name, M.ActionLabel), args, h);
    case FinishCall(name, args) => CallStmtTakes(md, at, M.Label(name, M.Temporary), args, h);
    case Publish(e) =>
      ExprTakes(md, at, e, h);
      ThenInstr(md, ExprCode(g, e), M.Publish, h, h.Plus(1));
    case Emit(e) =>
      ExprTakes(md, at, e, h);
      ThenInstr(md, ExprCode(g, e), M.Emit, h, h.Plus(1));
    case Create(fact) =>
      FactTakes(md, at, fact, h);
      ThenInstr(md, FactCode(g, fact), M.Create, h, h.Plus(1));
    case Delete(fact) =>
      FactTakes(md, at, fact, h);
      ThenInstr(md, FactCode(g, fact), M.Delete, h, h.Plus(1));
    case Update(fact, to) =>
      FactTakes(md, at, fact, h);
      FieldsTake(md, at, ValueMember, to, h.Plus(1));
      UpdateTakes(md, FactCode(g, fact), FieldsCode(g, ValueMember, to), h);
  }

  lemma {:induction false} BindTakes(md: Mode, x: string, h: Height)
    requires 0 <= h.values
    ensures Takes(md, [I(M.Meta(M.LetMark(x))), I(M.Def(x))], h.Plus(1), h)
  {
    hide Takes;
    TakesInstr(md, M.Def(x), h.Plus(1));
    InstrThen(md, M.Meta(M.LetMark(x)), [I(M.Def(x))], h.Plus(1), h);
    assert [I(M.Meta(M.LetMark(x)))] + [I(M.Def(x))] == [I(M.Meta(M.LetMark(x))), I(M.Def(x))];
  }

  lemma {:induction false} UpdateTakes(md: Mode, target: Code, fields: Code, h: Height)
    requires 0 <= h.values && Takes(md, target, h, h.Plus(1)) && Takes(md, fields, h.Plus(2), h.Plus(2))
    ensures Takes(md, target + ([I(M.Dup(0))] + (fields + [I(M.Update)])), h, h)
  {
    hide Takes;
    ThenInstr(md, fields, M.Update, h.Plus(2), h.Plus(2));
    InstrThen(md, M.Dup(0), fields + [I(M.Update)], h.Plus(1), h);
    TakesThen(md, target, [I(M.Dup(0))] + (fields + [I(M.Update)]), h, h.Plus(1), h);
  }

  lemma {:induction false} MapTakes(md: Mode, query: Code, x: string, body: Code, h: Height)
    requires md.loops && 0 <= h.values && 0 <= h.blocks && Takes(md, query, h, h.Plus(1))
    requires Takes(md, body, Height(h.values, h.blocks + 1), Height(h.values, h.blocks + 1))
    ensures Takes(md, query + ([I(M.QueryStart)] + LoopCode(x, body)), h, h)
  {
    hide Takes, LoopCode;
    LoopTakes(md, x, body, h);
    InstrThen(md, M.QueryStart, LoopCode(x, body), h.Plus(1), h);
    TakesThen(md, query, [I(M.QueryStart)] + LoopCode(x, body), h, h.Plus(1), h);
  }

  lemma {:induction false} ReturnTakes(md: Mode, h: Height)
    requires md.ret == h.Plus(1)
    ensures Takes(md, [I(M.Return)], h.Plus(1), h)
  {
    assert Between(md, [I(M.Return)], [h.Plus(1), h], h.Plus(1), h);
  }

  lemma {:induction false} CallStmtTakes(md: Mode, at: Site, l: M.Label, args: seq<Expr>, h: Height)
    requires ArgsOk(md.g, at, args) && CallEffect(md.g, l) == Some((|args|, 0)) && 0 <= h.values
    ensures Takes(md, ArgsCode(md.g, args) + [CallTo(l)], h, h)
  {
    hide Takes, ArgsOk, ArgsCode, CallEffect;
    ArgsTake(md, at, args, h);
    CallTakes(md, l, h, |args|);
    TakesThen(md, ArgsCode(md.g, args), [CallTo(l)], h, h.Plus(|args|), h);
  }

  lemma {:induction false} FinishTakes(md: Mode, known: Known, body: seq<Node>, h: Height)
    requires StmtsOk(md.g, FinishSite(known), body) && 0 <= h.values && 0 <= h.blocks
    ensures Takes(md, [I(M.Meta(M.FinishMark(true))), I(M.Block)] +
      (StmtsCode(md.g, body) + [I(M.End), I(M.Exit(Normal))]), h, h)
    decreases body, 2
  {
    hide Takes, StmtsOk, StmtsCode;
    var inner := Height(h.values, h.blocks + 1);
    var code := StmtsCode(md.g, body);
    StmtsTake(md, FinishSite(known), body, inner);
    assert Takes(md, [I(M.End), I(M.Exit(Normal))], inner, h) by { ExitTakes(md, h); }
    TakesThen(md, code, [I(M.End), I(M.Exit(Normal))], inner, inner, h);
    InstrThen(md, M.Block, code + [I(M.End), I(M.Exit(Normal))], h, h);
    InstrThen(md, M.Meta(M.FinishMark(true)), [I(M.Block)] + (code + [I(M.End), I(M.Exit(Normal))]), h, h);
    assert [I(M.Meta(M.FinishMark(true)))] + ([I(M.Block)] + (code + [I(M.End), I(M.Exit(Normal))])) ==
      [I(M.Meta(M.FinishMark(true))), I(M.Block)] + (code + [I(M.End), I(M.Exit(Normal))]);
  }

  lemma {:induction false} ExitTakes(md: Mode, h: Height)
    requires 0 <= h.values && 0 <= h.blocks
    ensures Takes(md, [I(M.End), I(M.Exit(Normal))], Height(h.values, h.blocks + 1), h)
  {
    var inner := Height(h.values, h.blocks + 1);
    assert Between(md, [I(M.End), I(M.Exit(Normal))], [inner, h, h], inner, h);
  }

  lemma {:induction false} LoopTakes(md: Mode, x: string, body: Code, h: Height)
    requires md.loops && 0 <= h.values && 0 <= h.blocks
    requires Takes(md, body, Height(h.values, h.blocks + 1), Height(h.values, h.blocks + 1))
    ensures Takes(md, LoopCode(x, body), h, h)
  {
    var inner := Height(h.values, h.blocks + 1);
    var hb :| Between(md, body, hb, inner, inner);
    var code := LoopCode(x, body);
    var hs := [h, inner, inner.Plus(1)] + (hb + [h, inner, h]);
    forall k | 0 <= k < |code| ensures Flows(md, code[k], hs, k) {
      if 3 <= k < 3 + |body| {
        assert Flows(md, body[k - 3], hb, k - 3);
        FlowsWithin(md, body[k - 3], [h, inner, inner.Plus(1)], hb, [h, inner, h], k - 3);
      } else {
        assert hs[0] == h && hs[3] == inner && hs[3 + |body|] == inner && hs[4 + |body|] == h &&
          hs[5 + |body|] == inner;
      }
    }
    assert Between(md, code, hs, h, h);
  }

  lemma {:induction false} FlowsWithin(md: Mode, op: Op, pre: seq<Height>, hs: seq<Height>, post: seq<Height>, k: nat)
    requires Flows(md, op, hs, k)
    ensures Flows(md, op, pre + (hs + post), |pre| + k)
  {
  }

  /** Branches in front of what follows them. */
  lemma {:induction false} BranchesTake(md: Mode, at: Site, bs: seq<Branch>, tail: Code, h: Height)
    requires at.ActionSite? && !md.loops ==> BranchesMapFree(bs)
    requires BranchesOk(md.g, at, bs) && Suits(md, at, h) && Takes(md, tail, h, h)
    ensures Takes(md, BranchesCode(md.g, bs, |tail|) + tail, h, h)
    decreases bs, 2
  {
    hide Takes, ExprOk, ExprCode, StmtsOk, StmtsCode;
    if bs == [] {
      assert BranchesCode(md.g, bs, |tail|) + tail == tail;
    } else {
      var cond, body := ExprCode(md.g, bs[0].cond), StmtsCode(md.g, bs[0].body);
      var rest := BranchesCode(md.g, bs[1..], |tail|) + tail;
      BranchesTake(md, at, bs[1..], tail, h);
      ExprTakes(md, at, bs[0].cond, h);
      StmtsTake(md, at, bs[0].body, h);
      ChoiceTakes(md, body, rest, h, h);
      var choice := [BranchBy(|body| + 2)] + (body + ([JumpBy(|rest| + 1)] + rest));
      InstrThen(md, M.Not, choice, h.Plus(1), h);
      TakesThen(md, cond, [I(M.Not)] + choice, h, h.Plus(1), h);
      assert BranchesCode(md.g, bs, |tail|) + tail == cond + ([I(M.Not)] + choice);
    }
  }

  // ---- Match ----

  /** The bodies of the arms, the first at `at`, are entered with the matched value on top. */
  ghost predicate Entries(g: Program, arms: seq<Arm>, hs: seq<Height>, at: nat, h: Height) {
    arms != [] ==>
      at < |hs| && hs[at] == h.Plus(1) && Entries(g, arms[1..], hs, at + |StmtsCode(g, arms[0].body)| + 2, h)
  }

  lemma {:induction false} EntriesShift(g: Program, arms: seq<Arm>, pre: seq<Height>, hs: seq<Height>, at: nat,
      h: Height)
    requires Entries(g, arms, hs, at, h)
    ensures Entries(g, arms, pre + hs, |pre| + at, h)
    decreases arms
  {
    hide StmtsCode;
    if arms != [] { EntriesShift(g, arms[1..], pre, hs, at + |StmtsCode(g, arms[0].body)| + 2, h); }
  }

  lemma {:induction false} BodiesTyped(md: Mode, at: Site, arms: seq<Arm>, h: Height) returns (hs: seq<Height>)
    requires at.ActionSite? && !md.loops ==> ArmsMapFree(arms)
    requires ArmsOk(md.g, at, arms) && Suits(md, at, h)
    ensures Typed(md, BodiesCode(md.g, arms), hs) && hs[|BodiesCode(md.g, arms)|] == h && Entries(md.g, arms, hs, 0, h)
    decreases arms, 3
  {
    hide StmtsOk, StmtsCode, ArgsOk, Flows;
    if arms == [] {
      hs := [h];
    } else {
      var body, rest := StmtsCode(md.g, arms[0].body), BodiesCode(md.g, arms[1..]);
      var hr := BodiesTyped(md, at, arms[1..], h);
      StmtsTake(md, at, arms[0].body, h);
      var hb :| Between(md, body, hb, h, h);
      hs := BodyTyped(md, body, hb, rest, hr, h);
      EntriesShift(md.g, arms[1..], hs[..|body| + 2], hr, 0, h);
      assert hs == hs[..|body| + 2] + hr;
    }
  }

  lemma {:induction false} BodyTyped(md: Mode, body: Code, hb: seq<Height>, rest: Code, hr: seq<Height>, h: Height)
    returns (hs: seq<Height>)
    requires Between(md, body, hb, h, h) && Typed(md, rest, hr) && hr[|rest|] == h && 0 <= h.values
    ensures Typed(md, [I(M.Pop)] + (body + ([JumpBy(|rest| + 1)] + rest)), hs)
    ensures |hs| == |body| + 2 + |hr| && hs[0] == h.Plus(1) && hs[|body| + 2..] == hr
  {
    First(md, JumpBy(|rest| + 1), h, rest, hr);
    var tail := [JumpBy(|rest| + 1)] + rest;
    hide Typed;
    Then(md, body, hb, tail, [h] + hr);
    First(md, I(M.Pop), h.Plus(1), body + tail, hb[..|body|] + ([h] + hr));
    hs := [h.Plus(1)] + (hb[..|body|] + ([h] + hr));
  }

  /** The tests of one arm in front of code that its body, `gap` behind them, is part of. */
  lemma {:induction false} ValuesTyped(md: Mode, at: Site, es: seq<Expr>, gap: nat, rest: Code, hr: seq<Height>,
      h: Height)
    returns (hs: seq<Height>)
    requires ArgsOk(md.g, at, es) && 0 <= h.values && Typed(md, rest, hr)
    requires hr[0] == h.Plus(1) && gap < |hr| && hr[gap] == h.Plus(1)
    ensures Typed(md, ValueTests(md.g, es, gap) + rest, hs) && hs[0] == h.Plus(1)
    ensures |hs| == |ValueTests(md.g, es, gap)| + |hr| && hs[|ValueTests(md.g, es, gap)|..] == hr
    decreases es, 3
  {
    hide ExprOk, ExprCode, Typed;
    if es == [] {
      assert ValueTests(md.g, es, gap) + rest == rest;
      hs := hr;
    } else {
      var code, later := ExprCode(md.g, es[0]), ValueTests(md.g, es[1..], gap);
      var hl := ValuesTyped(md, at, es[1..], gap, rest, hr, h);
      ExprTakes(md, at, es[0], h.Plus(2));
      var hc :| Between(md, code, hc, h.Plus(2), h.Plus(3));
      hs := TestTyped(md, code, hc, |later| + gap, later + rest, hl, h);
      assert ValueTests(md.g, es, gap) + rest ==
        [I(M.Dup(0))] + (code + ([I(M.Eq)] + ([BranchBy(|later| + gap + 1)] + (later + rest))));
    }
  }

  lemma {:induction false} TestTyped(md: Mode, code: Code, hc: seq<Height>, far: nat, rest: Code, hr: seq<Height>,
      h: Height)
    returns (hs: seq<Height>)
    requires Between(md, code, hc, h.Plus(2), h.Plus(3)) && 0 <= h.values && Typed(md, rest, hr)
    requires hr[0] == h.Plus(1) && far < |hr| && hr[far] == h.Plus(1)
    ensures Typed(md, [I(M.Dup(0))] + (code + ([I(M.Eq)] + ([BranchBy(far + 1)] + rest))), hs)
    ensures |hs| == |code| + 3 + |hr| && hs[0] == h.Plus(1) && hs[|code| + 3..] == hr
  {
    First(md, BranchBy(far + 1), h.Plus(2), rest, hr);
    var c1, h1 := [BranchBy(far + 1)] + rest, [h.Plus(2)] + hr;
    hide Typed;
    First(md, I(M.Eq), h.Plus(3), c1, h1);
    Then(md, code, hc, [I(M.Eq)] + c1, [h.Plus(3)] + h1);
    First(md, I(M.Dup(0)), h.Plus(1), code + ([I(M.Eq)] + c1), hc[..|code|] + ([h.Plus(3)] + h1));
    hs := [h.Plus(1)] + (hc[..|code|] + ([h.Plus(3)] + h1));
  }

  lemma {:induction false} PatternTyped(md: Mode, at: Site, p: Pattern, gap: nat, rest: Code, hr: seq<Height>,
      h: Height)
    returns (hs: seq<Height>)
    requires p.Values? ==> ArgsOk(md.g, at, p.values)
    requires 0 <= h.values && Typed(md, rest, hr) && hr[0] == h.Plus(1) && gap < |hr| && hr[gap] == h.Plus(1)
    ensures Typed(md, PatternCode(md.g, p, gap) + rest, hs) && hs[0] == h.Plus(1)
    ensures |hs| == |PatternCode(md.g, p, gap)| + |hr| && hs[|PatternCode(md.g, p, gap)|..] == hr
    decreases p, 3
  {
    hide ArgsOk, ValueTests, Typed;
    match p
    case Default =>
      First(md, JumpBy(gap + 1), h.Plus(1), rest, hr);
      hs := [h.Plus(1)] + hr;
    case Values(es) => hs := ValuesTyped(md, at, es, gap, rest, hr, h);
  }

  lemma {:induction false} TestsTyped(md: Mode, at: Site, arms: seq<Arm>, gap: nat, rest: Code, hr: seq<Height>,
      h: Height)
    returns (hs: seq<Height>)
    requires ArmsOk(md.g, at, arms) && 0 <= h.values && Typed(md, rest, hr)
    requires hr[0] == h.Plus(1) && Entries(md.g, arms, hr, gap, h)
    ensures Typed(md, TestsCode(md.g, arms, gap) + rest, hs) && hs[0] == h.Plus(1)
    ensures |hs| == |TestsCode(md.g, arms, gap)| + |hr| && hs[|TestsCode(md.g, arms, gap)|..] == hr
    decreases arms, 3
  {
    hide ArgsOk, StmtsOk, StmtsCode, PatternCode, Typed;
    if arms == [] {
      assert TestsCode(md.g, arms, gap) + rest == rest;
      hs := hr;
    } else {
      var size := |StmtsCode(md.g, arms[0].body)| + 2;
      var later := TestsCode(md.g, arms[1..], gap + size);
      var first := PatternCode(md.g, arms[0].pattern, |later| + gap);
      var hl := TestsTyped(md, at, arms[1..], gap + size, rest, hr, h);
      assert hl[|later| + gap] == hr[gap];
      hs := PatternTyped(md, at, arms[0].pattern, |later| + gap, later + rest, hl, h);
      assert TestsCode(md.g, arms, gap) + rest == first + (later + rest);
    }
  }

  lemma {:induction false} MatchTakes(md: Mode, at: Site, e: Expr, arms: seq<Arm>, h: Height)
    requires at.ActionSite? && !md.loops ==> ArmsMapFree(arms)
    requires ExprOk(md.g, at, e) && ArmsOk(md.g, at, arms) && Suits(md, at, h)
    ensures
      var miss := if HasDefault(arms) then [] else [I(M.Exit(Panic))];
      Takes(md, ExprCode(md.g, e) + (TestsCode(md.g, arms, |miss|) + (miss + BodiesCode(md.g, arms))), h, h)
    decreases arms, 4
  {
    hide ExprOk, ExprCode, ArmsOk, TestsCode, BodiesCode, Takes;
    var bodies := BodiesCode(md.g, arms);
    var miss: Code := if HasDefault(arms) then [] else [I(M.Exit(Panic))];
    var hb := BodiesTyped(md, at, arms, h);
    var hr := hb;
    if HasDefault(arms) {
      assert miss + bodies == bodies;
    } else {
      First(md, I(M.Exit(Panic)), h.Plus(1), bodies, hb);
      EntriesShift(md.g, arms, [h.Plus(1)], hb, 0, h);
      hr := [h.Plus(1)] + hb;
    }
    hide Typed, Flows;
    var hs := TestsTyped(md, at, arms, |miss|, miss + bodies, hr, h);
    var rest := TestsCode(md.g, arms, |miss|) + (miss + bodies);
    TypedTakes(md, rest, hs, h.Plus(1), h);
    ExprTakes(md, at, e, h);
    TakesThen(md, ExprCode(md.g, e), rest, h, h.Plus(1), h);
  }

  lemma {:induction false} TypedTakes(md: Mode, code: Code, hs: seq<Height>, h: Height, h': Height)
    requires Typed(md, code, hs) && hs[0] == h && hs[|code|] == h'
    ensures Takes(md, code, h, h')
  {
    assert Between(md, code, hs, h, h');
  }
}
