/** Ways through the code of one definition: which positions control can get to, calls taken as
    coming back. */
module Trails {
  import opened Values
  import opened Ast
  import opened Static
  import opened Layout
  import opened Flow
  import M = Machine

  /** Control can go from position `k` to position `k'`, at most just behind the code. */
  predicate Step(code: Code, k: int, k': int) {
    0 <= k < |code| && 0 <= k' <= |code| &&
    match code[k]
    case I(i) => !M.IsControl(i) && k' == k + 1
    case JumpBy(d) => k' == k + d
    case BranchBy(d) => k' == k + 1 || k' == k + d
    case CallTo(_) => k' == k + 1
    case _ => false
  }

  ghost predicate Trail(code: Code, a: int, b: int, m: nat)
    decreases m
  {
    if m == 0 then a == b else exists x :: Step(code, a, x) && Trail(code, x, b, m - 1)
  }

  ghost predicate Leads(code: Code, a: int, b: int) {
    exists m: nat :: Trail(code, a, b, m)
  }

  lemma {:induction false} TrailOn(code: Code, a: int, b: int, d: int, m: nat, m': nat)
    requires Trail(code, a, b, m) && Trail(code, b, d, m')
    ensures Trail(code, a, d, m + m')
    decreases m
  {
    if m > 0 {
      var x :| Step(code, a, x) && Trail(code, x, b, m - 1);
      TrailOn(code, x, b, d, m - 1, m');
    }
  }

  lemma {:induction false} LeadsOn(code: Code, a: int, b: int, d: int)
    requires Leads(code, a, b) && Leads(code, b, d)
    ensures Leads(code, a, d)
  {
    hide Trail;
    var m: nat :| Trail(code, a, b, m);
    var m': nat :| Trail(code, b, d, m');
    TrailOn(code, a, b, d, m, m');
  }

  lemma {:induction false} LeadsStep(code: Code, a: int, b: int)
    requires Step(code, a, b)
    ensures Leads(code, a, b)
  {
    assert Trail(code, b, b, 0) && Trail(code, a, b, 1);
  }

  lemma {:induction false} LeadsHome(code: Code, a: int)
    ensures Leads(code, a, a)
  {
    assert Trail(code, a, a, 0);
  }

  // ---- A piece inside larger code ----

  ghost predicate Within(whole: Code, off: int, code: Code) {
    0 <= off && off + |code| <= |whole| && forall k :: 0 <= k < |code| ==> whole[off + k] == code[k]
  }

  lemma {:induction false} TrailWithin(whole: Code, off: int, code: Code, a: int, b: int, m: nat)
    requires Within(whole, off, code) && Trail(code, a, b, m)
    ensures Trail(whole, off + a, off + b, m)
    decreases m
  {
    if m > 0 {
      var x :| Step(code, a, x) && Trail(code, x, b, m - 1);
      TrailWithin(whole, off, code, x, b, m - 1);
      assert Step(whole, off + a, off + x);
    }
  }

  lemma {:induction false} LeadsWithin(whole: Code, off: int, code: Code, a: int, b: int)
    requires Within(whole, off, code) && Leads(code, a, b)
    ensures Leads(whole, off + a, off + b)
  {
    hide Trail, Within;
    var m: nat :| Trail(code, a, b, m);
    TrailWithin(whole, off, code, a, b, m);
  }

  // ---- Code without dead positions ----

  /** Control gets to every operation of the code, and none of them returns. */
  ghost predicate Ajar(code: Code) {
    I(M.Return) !in code && forall k :: 0 <= k < |code| ==> Leads(code, 0, k)
  }

  /** And control gets through. */
  ghost predicate Open(code: Code) {
    Ajar(code) && Leads(code, 0, |code|)
  }

  lemma {:induction false} OpenNone()
    ensures Open([])
  {
    LeadsHome([], 0);
  }

  lemma {:induction false} AjarOne(op: Op)
    requires op != I(M.Return)
    ensures Ajar([op])
  {
    LeadsHome([op], 0);
  }

  lemma {:induction false} OpenOne(op: Op)
    requires op.BranchBy? || op.CallTo? || (op.I? && !M.IsControl(op.instr))
    ensures Open([op])
  {
    AjarOne(op);
    LeadsStep([op], 0, 1);
  }

  lemma {:induction false} AjarThen(a: Code, b: Code)
    requires Open(a) && Ajar(b)
    ensures Ajar(a + b)
  {
    hide Leads;
    assert Within(a + b, 0, a) && Within(a + b, |a|, b);
    LeadsWithin(a + b, 0, a, 0, |a|);
    forall k | 0 <= k < |a + b| ensures Leads(a + b, 0, k) {
      if k < |a| {
        LeadsWithin(a + b, 0, a, 0, k);
      } else {
        LeadsWithin(a + b, |a|, b, 0, k - |a|);
        LeadsOn(a + b, 0, |a|, k);
      }
    }
  }

  lemma {:induction false} OpenThen(a: Code, b: Code)
    requires Open(a) && Open(b)
    ensures Open(a + b)
  {
    hide Leads, Ajar;
    AjarThen(a, b);
    assert Within(a + b, 0, a) && Within(a + b, |a|, b);
    LeadsWithin(a + b, 0, a, 0, |a|);
    LeadsWithin(a + b, |a|, b, 0, |b|);
    LeadsOn(a + b, 0, |a|, |a + b|);
  }

  /** A branch over `x`. */
  lemma {:induction false} Fork(x: Code, y: Code)
    requires Ajar(x) && Open(y)
    ensures Open([BranchBy(|x| + 1)] + (x + y))
  {
    hide Leads;
    var whole := [BranchBy(|x| + 1)] + (x + y);
    assert Within(whole, 1, x) && Within(whole, 1 + |x|, y);
    LeadsHome(whole, 0);
    LeadsStep(whole, 0, 1);
    LeadsStep(whole, 0, 1 + |x|);
    forall k | 0 <= k <= |whole| ensures Leads(whole, 0, k) {
      if 1 <= k < 1 + |x| {
        LeadsWithin(whole, 1, x, 0, k - 1);
        LeadsOn(whole, 0, 1, k);
      } else if 1 + |x| <= k {
        LeadsWithin(whole, 1 + |x|, y, 0, k - 1 - |x|);
        LeadsOn(whole, 0, 1 + |x|, k);
      }
    }
  }

  lemma {:induction false} InstrsOpen(xs: seq<M.Instr>)
    requires forall k :: 0 <= k < |xs| ==> !M.IsControl(xs[k])
    ensures Open(Instrs(xs))
    decreases |xs|
  {
    hide Open;
    if xs == [] {
      OpenNone();
    } else {
      InstrsOpen(xs[1..]);
      OpenOne(I(xs[0]));
      OpenThen([I(xs[0])], Instrs(xs[1..]));
      assert [I(xs[0])] + Instrs(xs[1..]) == Instrs(xs);
    }
  }

  /** A guard: go on, or leave for good. */
  lemma {:induction false} GuardOpen(a: Code, reason: ExitReason)
    requires Open(a)
    ensures Open(a + [BranchBy(2), I(M.Exit(reason))])
  {
    hide Open, Ajar;
    AjarOne(I(M.Exit(reason)));
    OpenNone();
    Fork([I(M.Exit(reason))], []);
    assert [BranchBy(2)] + ([I(M.Exit(reason))] + []) == [BranchBy(2), I(M.Exit(reason))];
    OpenThen(a, [BranchBy(2), I(M.Exit(reason))]);
  }

  // ---- Expressions ----

  lemma {:induction false} UnaryOpen(op: UnaryOp)
    ensures Open(UnaryCode(op))
  {
    hide Open;
    if op.Unwrap? || op.CheckUnwrap? {
      InstrsOpen([M.Dup(0), M.Const(NoneV), M.Eq, M.Not]);
      GuardOpen(Instrs([M.Dup(0), M.Const(NoneV), M.Eq, M.Not]), if op.Unwrap? then Panic else Check);
    } else {
      InstrsOpen(UnaryInstrs(op));
    }
  }

  lemma {:induction false} ConditionalOpen(c: Code, t: Code, f: Code)
    requires Open(c) && Open(t) && Open(f)
    ensures Open(c + ([BranchBy(|f| + 2)] + (f + ([JumpBy(|t| + 1)] + t))))
  {
    hide Leads, Ajar;
    AjarOne(JumpBy(|t| + 1));
    AjarThen(f, [JumpBy(|t| + 1)]);
    Fork(f + [JumpBy(|t| + 1)], t);
    assert (f + [JumpBy(|t| + 1)]) + t == f + ([JumpBy(|t| + 1)] + t);
    OpenThen(c, [BranchBy(|f| + 2)] + (f + ([JumpBy(|t| + 1)] + t)));
  }

  /** Control gets through every expression. */
  lemma {:induction false} ExprOpen(g: Program, e: Expr)
    ensures Open(ExprCode(g, e))
    decreases e, 0
  {
    hide Open, ArgsCode, FieldsCode, FactCode, Instrs, UnaryCode;
    match e
    case Literal(v) => OpenOne(I(M.Const(v)));
    case EnumReference(t, v) => OpenOne(I(M.Const(EnumV(t, v))));
    case Identifier(x) =>
      InstrsOpen([M.Meta(M.GetMark(x)), M.Get(x)]);
      assert ExprCode(g, e) == Instrs([M.Meta(M.GetMark(x)), M.Get(x)]) by { IdentifierCode(g, e); }
    case NamedStruct(name, fields) =>
      OpenOne(I(M.StructNew(name)));
      FieldsOpen(g, StructMember, fields);
      OpenThen([I(M.StructNew(name))], FieldsCode(g, StructMember, fields));
    case FactQuery(kind, fact) =>
      FactOpen(g, fact);
      InstrsOpen(QueryInstrs(kind));
      OpenThen(FactCode(g, fact), Instrs(QueryInstrs(kind)));
    case Conditional(c, yes, no) =>
      ExprOpen(g, c);
      ExprOpen(g, yes);
      ExprOpen(g, no);
      ConditionalOpen(ExprCode(g, c), ExprCode(g, yes), ExprCode(g, no));
    case FunctionCall(name, args) =>
      ArgsOpen(g, args);
      OpenOne(CallTo(M.Label(name, M.FunctionLabel)));
      OpenThen(ArgsCode(g, args), [CallTo(M.Label(name, M.FunctionLabel))]);
    case ForeignCall(m, name, args) =>
      var (mi, pi) := ForeignIndex(g.world, m, name);
      ArgsOpen(g, args);
      OpenOne(I(M.ExtCall(mi, pi)));
      OpenThen(ArgsCode(g, args), [I(M.ExtCall(mi, pi))]);
      OpenOne(I(M.Meta(M.FfiMark(m, name))));
      OpenThen([I(M.Meta(M.FfiMark(m, name)))], ArgsCode(g, args) + [I(M.ExtCall(mi, pi))]);
    case Unary(op, a) =>
      ExprOpen(g, a);
      UnaryOpen(op);
      OpenThen(ExprCode(g, a), UnaryCode(op));
    case Binary(op, a, b) =>
      ExprOpen(g, a);
      ExprOpen(g, b);
      InstrsOpen(BinaryInstrs(op));
      OpenThen(ExprCode(g, b), Instrs(BinaryInstrs(op)));
      OpenThen(ExprCode(g, a), ExprCode(g, b) + Instrs(BinaryInstrs(op)));
  }

  lemma IdentifierCode(g: Program, e: Expr)
    requires e.Identifier?
    ensures ExprCode(g, e) == Instrs([M.Meta(M.GetMark(e.name)), M.Get(e.name)])
  {
  }

  lemma {:induction false} ArgsOpen(g: Program, es: seq<Expr>)
    ensures Open(ArgsCode(g, es))
    decreases es, 0
  {
    hide Open, ExprCode;
    if es == [] {
      OpenNone();
    } else {
      ExprOpen(g, es[0]);
      ArgsOpen(g, es[1..]);
      OpenThen(ExprCode(g, es[0]), ArgsCode(g, es[1..]));
    }
  }

  lemma {:induction false} FieldsOpen(g: Program, m: Member, fs: seq<Field>)
    ensures Open(FieldsCode(g, m, fs))
    decreases fs, 0
  {
    hide Open, ExprCode;
    if fs == [] {
      OpenNone();
    } else {
      FieldsOpen(g, m, fs[1..]);
      if fs[0].value.Given? {
        ExprOpen(g, fs[0].value.expr);
        OpenOne(I(SetterInstr(m, fs[0].name)));
        OpenThen([I(SetterInstr(m, fs[0].name))], FieldsCode(g, m, fs[1..]));
        OpenThen(ExprCode(g, fs[0].value.expr), [I(SetterInstr(m, fs[0].name))] + FieldsCode(g, m, fs[1..]));
      }
    }
  }

  lemma {:induction false} FactOpen(g: Program, f: FactLiteral)
    ensures Open(FactCode(g, f))
    decreases f, 0
  {
    hide Open, FieldsCode;
    FieldsOpen(g, KeyMember, f.keys);
    OpenOne(I(M.FactNew(f.name)));
    OpenNone();
    var values := match f.values case NoValues => [] case GivenValues(fs) => FieldsCode(g, ValueMember, fs);
    if f.values.GivenValues? { FieldsOpen(g, ValueMember, f.values.fields); }
    OpenThen(FieldsCode(g, KeyMember, f.keys), values);
    OpenThen([I(M.FactNew(f.name))], FieldsCode(g, KeyMember, f.keys) + values);
  }

  // ---- Statements ----

  /** Every match has an arm and every arm can be chosen: it names a value, or it is the default
      and comes last. Unless `leaves`, nothing in the list returns or finishes. */
  predicate Orderly(ss: seq<Node>, leaves: bool)
    decreases ss, 1
  {
    ss != [] ==> StmtOrderly(ss[0], leaves) && Orderly(ss[1..], leaves)
  }

  predicate StmtOrderly(nd: Node, leaves: bool)
    decreases nd, 0
  {
    match nd.stmt
    case Match(_, arms) => arms != [] && ArmsOrderly(arms, leaves)
    case If(bs, fallback) =>
      BranchesOrderly(bs, leaves) && (match fallback case NoElse => true case Else(ss) => Orderly(ss, leaves))
    case Map(_, _, body) => Orderly(body, leaves)
    case Finish(_) => leaves
    case Return(_) => leaves
    case _ => true
  }

  predicate BranchesOrderly(bs: seq<Branch>, leaves: bool)
    decreases bs, 2
  {
    bs != [] ==> Orderly(bs[0].body, leaves) && BranchesOrderly(bs[1..], leaves)
  }

  predicate ArmOrderly(arms: seq<Arm>)
    requires arms != []
  {
    match arms[0].pattern case Default => |arms| == 1 case Values(es) => es != []
  }

  predicate ArmsOrderly(arms: seq<Arm>, leaves: bool)
    decreases arms, 2
  {
    arms != [] ==> ArmOrderly(arms) && Orderly(arms[0].body, leaves) && ArmsOrderly(arms[1..], leaves)
  }

  /** Control gets to every operation of an orderly list that nothing leaves, and through it. */
  lemma {:induction false} StmtsOpen(g: Program, ss: seq<Node>)
    requires Orderly(ss, false)
    ensures Open(StmtsCode(g, ss))
    decreases ss, 1
  {
    hide Open, StmtCode, StmtOrderly;
    if ss == [] {
      OpenNone();
    } else {
      StmtOpen(g, ss[0]);
      StmtsOpen(g, ss[1..]);
      OpenThen(StmtCode(g, ss[0]), StmtsCode(g, ss[1..]));
    }
  }

  lemma {:induction false} StmtOpen(g: Program, nd: Node)
    requires StmtOrderly(nd, false)
    ensures Open(StmtCode(g, nd))
    decreases nd, 1
  {
    hide Open, ExprCode, ArgsCode, FactCode, FieldsCode, StmtsCode, BranchesCode, TestsCode, BodiesCode, LoopCode,
      Orderly,
      BranchesOrderly, ArmsOrderly;
    match nd.stmt
    case Let(x, e) =>
      ExprOpen(g, e);
      InstrsOpen([M.Meta(M.LetMark(x)), M.Def(x)]);
      assert Instrs([M.Meta(M.LetMark(x)), M.Def(x)]) == [I(M.Meta(M.LetMark(x))), I(M.Def(x))];
      OpenThen(ExprCode(g, e), [I(M.Meta(M.LetMark(x))), I(M.Def(x))]);
    case CheckThat(e) =>
      ExprOpen(g, e);
      GuardOpen(ExprCode(g, e), Check);
    case DebugAssert(e) =>
      OpenNone();
      ExprOpen(g, e);
      GuardOpen(ExprCode(g, e), Panic);
    case Match(e, arms) => MatchOpen(g, nd);
    case If(bs, fallback) =>
      OpenNone();
      var otherwise := match fallback case NoElse => [] case Else(ss) => StmtsCode(g, ss);
      if fallback.Else? { StmtsOpen(g, fallback.body); }
      BranchesOpen(g, bs, |otherwise|);
      OpenThen(BranchesCode(g, bs, |otherwise|), otherwise);
    case Map(fact, x, body) =>
      FactOpen(g, fact);
      StmtsOpen(g, body);
      LoopOpen(x, StmtsCode(g, body));
      OpenOne(I(M.QueryStart));
      OpenThen([I(M.QueryStart)], LoopCode(x, StmtsCode(g, body)));
      OpenThen(FactCode(g, fact), [I(M.QueryStart)] + LoopCode(x, StmtsCode(g, body)));
    case ActionCall(name, args) => CallOpen(g, args, M.Label(name, M.ActionLabel));
    case FinishCall(name, args) => CallOpen(g, args, M.Label(name, M.Temporary));
    case Publish(e) =>
      ExprOpen(g, e);
      OpenOne(I(M.Publish));
      OpenThen(ExprCode(g, e), [I(M.Publish)]);
    case Emit(e) =>
      ExprOpen(g, e);
      OpenOne(I(M.Emit));
      OpenThen(ExprCode(g, e), [I(M.Emit)]);
    case Create(fact) =>
      FactOpen(g, fact);
      OpenOne(I(M.Create));
      OpenThen(FactCode(g, fact), [I(M.Create)]);
    case Delete(fact) =>
      FactOpen(g, fact);
      OpenOne(I(M.Delete));
      OpenThen(FactCode(g, fact), [I(M.Delete)]);
    case Update(fact, to) =>
      FactOpen(g, fact);
      FieldsOpen(g, ValueMember, to);
      OpenOne(I(M.Update));
      OpenOne(I(M.Dup(0)));
      OpenThen(FieldsCode(g, ValueMember, to), [I(M.Update)]);
      OpenThen([I(M.Dup(0))], FieldsCode(g, ValueMember, to) + [I(M.Update)]);
      OpenThen(FactCode(g, fact), [I(M.Dup(0))] + (FieldsCode(g, ValueMember, to) + [I(M.Update)]));
  }

  lemma {:induction false} CallOpen(g: Program, args: seq<Expr>, l: M.Label)
    ensures Open(ArgsCode(g, args) + [CallTo(l)])
  {
    hide Open, ArgsCode;
    ArgsOpen(g, args);
    OpenOne(CallTo(l));
    OpenThen(ArgsCode(g, args), [CallTo(l)]);
  }

  lemma {:induction false} BranchesOpen(g: Program, bs: seq<Branch>, after: nat)
    requires BranchesOrderly(bs, false)
    ensures Open(BranchesCode(g, bs, after))
    decreases bs, 2
  {
    hide Open, Ajar, ExprCode, StmtsCode, Orderly;
    if bs == [] {
      OpenNone();
    } else {
      var body, rest := StmtsCode(g, bs[0].body), BranchesCode(g, bs[1..], after);
      ExprOpen(g, bs[0].cond);
      StmtsOpen(g, bs[0].body);
      BranchesOpen(g, bs[1..], after);
      BranchOpen(ExprCode(g, bs[0].cond), body, JumpBy(|rest| + after + 1), rest);
    }
  }

  lemma {:induction false} BranchOpen(c: Code, body: Code, leave: Op, rest: Code)
    requires Open(c) && Open(body) && Open(rest) && leave.JumpBy?
    ensures Open(c + ([I(M.Not), BranchBy(|body| + 2)] + (body + ([leave] + rest))))
  {
    hide Open, Ajar;
    AjarOne(leave);
    AjarThen(body, [leave]);
    Fork(body + [leave], rest);
    OpenOne(I(M.Not));
    OpenThen([I(M.Not)], [BranchBy(|body| + 2)] + ((body + [leave]) + rest));
    OpenThen(c, [I(M.Not)] + ([BranchBy(|body| + 2)] + ((body + [leave]) + rest)));
    assert [I(M.Not)] + ([BranchBy(|body| + 2)] + ((body + [leave]) + rest)) ==
      [I(M.Not), BranchBy(|body| + 2)] + (body + ([leave] + rest));
  }

  lemma {:induction false} LoopOpen(x: string, body: Code)
    requires Open(body)
    ensures Open(LoopCode(x, body))
  {
    hide Open, Ajar;
    var back := JumpBy(-(|body| + 4));
    OpenOne(I(M.Block));
    OpenOne(I(M.QueryNext(x)));
    OpenOne(I(M.End));
    AjarOne(back);
    OpenThen(body, [I(M.End)]);
    AjarThen(body + [I(M.End)], [back]);
    var round := (body + [I(M.End)]) + [back];
    Fork(round, [I(M.End)]);
    OpenThen([I(M.QueryNext(x))], [BranchBy(|round| + 1)] + (round + [I(M.End)]));
    OpenThen([I(M.Block)], [I(M.QueryNext(x))] + ([BranchBy(|round| + 1)] + (round + [I(M.End)])));
    assert LoopCode(x, body) == [I(M.Block)] + ([I(M.QueryNext(x))] + ([BranchBy(|round| + 1)] + (round + [I(M.End)])));
  }

  // ---- Matches ----

  lemma {:induction false} ValueTestsOpen(g: Program, es: seq<Expr>, gap: nat)
    ensures Open(ValueTests(g, es, gap))
    decreases |es|
  {
    hide Open, ExprCode;
    if es == [] {
      OpenNone();
    } else {
      var rest := ValueTests(g, es[1..], gap);
      var b := BranchBy(|rest| + gap + 1);
      ValueTestsOpen(g, es[1..], gap);
      ExprOpen(g, es[0]);
      OpenOne(I(M.Dup(0)));
      OpenOne(I(M.Eq));
      OpenOne(b);
      OpenThen([b], rest);
      OpenThen([I(M.Eq)], [b] + rest);
      assert [I(M.Eq)] + ([b] + rest) == [I(M.Eq), b] + rest;
      OpenThen(ExprCode(g, es[0]), [I(M.Eq), b] + rest);
      OpenThen([I(M.Dup(0))], ExprCode(g, es[0]) + ([I(M.Eq), b] + rest));
    }
  }

  /** A pattern that can be chosen leads to its arm. */
  lemma {:induction false} PatternLeads(g: Program, p: Pattern, gap: nat, whole: Code)
    requires p.Values? ==> p.values != []
    requires Within(whole, 0, PatternCode(g, p, gap)) && |PatternCode(g, p, gap)| + gap <= |whole|
    ensures Leads(whole, 0, |PatternCode(g, p, gap)| + gap)
  {
    hide Leads, ExprCode;
    var n := |PatternCode(g, p, gap)|;
    if p.Default? {
      assert PatternCode(g, p, gap)[0] == JumpBy(gap + 1) && whole[0 + 0] == PatternCode(g, p, gap)[0];
      LeadsStep(whole, 0, n + gap);
    } else {
      var rest := ValueTests(g, p.values[1..], gap);
      var k := n - |rest| - 1;
      assert PatternCode(g, p, gap)[k] == BranchBy(|rest| + gap + 1);
      ValueTestsOpen(g, p.values, gap);
      LeadsWithin(whole, 0, PatternCode(g, p, gap), 0, k);
      assert whole[0 + k] == BranchBy(|rest| + gap + 1);
      LeadsStep(whole, k, n + gap);
      LeadsOn(whole, 0, k, n + gap);
    }
  }

  function ArmCode(body: Code, after: nat): Code {
    [I(M.Pop)] + (body + [JumpBy(after + 1)])
  }

  /** Tests, something in between and the bodies; also seen as the first pattern in front of the
      same for the other arms, whose in-between then holds the first arm. */
  function MatchCode(g: Program, arms: seq<Arm>, mid: Code): Code {
    TestsCode(g, arms, |mid|) + (mid + BodiesCode(g, arms))
  }

  function FirstArm(g: Program, arms: seq<Arm>): Code
    requires arms != []
  {
    ArmCode(StmtsCode(g, arms[0].body), |BodiesCode(g, arms[1..])|)
  }

  function FirstPattern(g: Program, arms: seq<Arm>, mid: Code): Code
    requires arms != []
  {
    var gap := |mid| + |FirstArm(g, arms)|;
    PatternCode(g, arms[0].pattern, |TestsCode(g, arms[1..], gap)| + |mid|)
  }

  lemma {:induction false} MatchSplit(g: Program, arms: seq<Arm>, mid: Code)
    requires arms != []
    ensures MatchCode(g, arms, mid) == FirstPattern(g, arms, mid) + MatchCode(g, arms[1..], mid + FirstArm(g, arms))
    ensures Within(MatchCode(g, arms, mid), |FirstPattern(g, arms, mid)|,
      MatchCode(g, arms[1..], mid + FirstArm(g, arms)))
    ensures |TestsCode(g, arms, |mid|)| ==
      |FirstPattern(g, arms, mid)| + |TestsCode(g, arms[1..], |mid| + |FirstArm(g, arms)|)|
    ensures Within(MatchCode(g, arms, mid), |TestsCode(g, arms, |mid|)| + |mid|, FirstArm(g, arms))
  {
    hide TestsCode, BodiesCode, FirstArm, FirstPattern, Within;
    FirstSplit(g, arms, mid);
    var first, arm, bodies := FirstPattern(g, arms, mid), FirstArm(g, arms), BodiesCode(g, arms[1..]);
    var rest := TestsCode(g, arms[1..], |mid + arm|);
    assert |mid + arm| == |mid| + |arm|;
    Regrouped(first, rest, mid, arm, bodies);
    assert MatchCode(g, arms, mid) == (first + rest) + (mid + (arm + bodies));
    assert MatchCode(g, arms[1..], mid + arm) == rest + ((mid + arm) + bodies);
  }

  lemma {:induction false} FirstSplit(g: Program, arms: seq<Arm>, mid: Code)
    requires arms != []
    ensures TestsCode(g, arms, |mid|) ==
      FirstPattern(g, arms, mid) + TestsCode(g, arms[1..], |mid| + |FirstArm(g, arms)|)
    ensures BodiesCode(g, arms) == FirstArm(g, arms) + BodiesCode(g, arms[1..])
  {
    hide StmtsCode, PatternCode;
  }

  lemma {:induction false} Regrouped(first: Code, rest: Code, mid: Code, arm: Code, bodies: Code)
    ensures
      var whole, others := (first + rest) + (mid + (arm + bodies)), rest + ((mid + arm) + bodies);
      whole == first + others && Within(whole, |first|, others) && Within(whole, |first + rest| + |mid|, arm)
  {
  }

  lemma {:induction false} ArmOpen(body: Code, after: nat)
    requires Open(body)
    ensures Ajar(ArmCode(body, after))
  {
    hide Open, Ajar;
    OpenOne(I(M.Pop));
    AjarOne(JumpBy(after + 1));
    AjarThen(body, [JumpBy(after + 1)]);
    AjarThen([I(M.Pop)], body + [JumpBy(after + 1)]);
  }

  /** The tests, the bodies, and what follows a failing match. */
  ghost predicate Reached(g: Program, arms: seq<Arm>, mid: Code) {
    var code, t := MatchCode(g, arms, mid), |TestsCode(g, arms, |mid|)|;
    (forall k :: 0 <= k < t || t + |mid| <= k < |code| ==> Leads(code, 0, k)) &&
    (!HasDefault(arms) ==> Leads(code, 0, t)) &&
    (arms != [] ==> Leads(code, 0, |code|)) &&
    I(M.Return) !in TestsCode(g, arms, |mid|) && I(M.Return) !in BodiesCode(g, arms)
  }

  /** Control gets from the tests to the first arm. */
  lemma {:induction false} ArmReached(g: Program, arms: seq<Arm>, mid: Code)
    requires arms != [] && ArmOrderly(arms)
    ensures Leads(MatchCode(g, arms, mid), 0, |TestsCode(g, arms, |mid|)| + |mid|)
  {
    hide Leads, TestsCode, BodiesCode, StmtsCode, PatternCode, FirstArm;
    MatchSplit(g, arms, mid);
    PatternLeads(g, arms[0].pattern, |TestsCode(g, arms[1..], |mid| + |FirstArm(g, arms)|)| + |mid|,
      MatchCode(g, arms, mid));
  }

  /** And past the first test to the others. */
  lemma {:induction false} TestPassed(g: Program, arms: seq<Arm>, mid: Code, k: int)
    requires arms != [] && arms[0].pattern.Values?
    requires Leads(MatchCode(g, arms[1..], mid + FirstArm(g, arms)), 0, k)
    ensures Leads(MatchCode(g, arms, mid), 0, |FirstPattern(g, arms, mid)| + k)
  {
    hide Leads, MatchCode, FirstArm, ValueTests;
    var first := FirstPattern(g, arms, mid);
    MatchSplit(g, arms, mid);
    ValueTestsOpen(g, arms[0].pattern.values, |TestsCode(g, arms[1..], |mid| + |FirstArm(g, arms)|)| + |mid|);
    hide FirstPattern, TestsCode;
    LeadsWithin(MatchCode(g, arms, mid), 0, first, 0, |first|);
    LeadsWithin(MatchCode(g, arms, mid), |first|, MatchCode(g, arms[1..], mid + FirstArm(g, arms)), 0, k);
    LeadsOn(MatchCode(g, arms, mid), 0, |first|, |first| + k);
  }

  lemma {:induction false} FirstTests(g: Program, arms: seq<Arm>, mid: Code)
    requires arms != []
    ensures Ajar(FirstPattern(g, arms, mid))
  {
    hide Ajar, TestsCode, FirstArm, ValueTests;
    var gap := |TestsCode(g, arms[1..], |mid| + |FirstArm(g, arms)|)| + |mid|;
    if arms[0].pattern.Values? { ValueTestsOpen(g, arms[0].pattern.values, gap); } else { AjarOne(JumpBy(gap + 1)); }
  }

  lemma {:induction false} MatchReached(g: Program, arms: seq<Arm>, mid: Code)
    requires ArmsOrderly(arms, false)
    ensures Reached(g, arms, mid)
    decreases arms, 2
  {
    if arms == [] {
      LeadsHome(MatchCode(g, arms, mid), 0);
    } else {
      hide Leads, Open, StmtsCode, PatternCode, Orderly, MatchCode, Reached;
      StmtsOpen(g, arms[0].body);
      MatchReached(g, arms[1..], mid + FirstArm(g, arms));
      FirstReached(g, arms, mid);
    }
  }

  /** From the other arms to all of them. */
  lemma {:induction false} FirstReached(g: Program, arms: seq<Arm>, mid: Code)
    requires arms != [] && ArmOrderly(arms) && Open(StmtsCode(g, arms[0].body))
    requires Reached(g, arms[1..], mid + FirstArm(g, arms))
    ensures Reached(g, arms, mid)
  {
    hide Leads, Open, StmtsCode, PatternCode, MatchCode, Ajar;
    var code, t, first, arm := MatchCode(g, arms, mid), |TestsCode(g, arms, |mid|)|, FirstPattern(g, arms, mid),
      FirstArm(g, arms);
    MatchSplit(g, arms, mid);
    MatchSize(g, arms, mid);
    FirstThere(g, arms, mid);
    FirstTests(g, arms, mid);
    NoReturns(g, arms, mid);
    ArmReached(g, arms, mid);
    ArmOpen(StmtsCode(g, arms[0].body), |BodiesCode(g, arms[1..])|);
    ArmLeaves(code, t + |mid|, StmtsCode(g, arms[0].body), |BodiesCode(g, arms[1..])|);
    hide TestsCode, BodiesCode, FirstPattern, FirstArm;
    forall k | 0 <= k < t || t + |mid| <= k < |code| ensures Leads(code, 0, k) {
      if k < |first| {
        InFirst(code, first, k);
      } else if t + |mid| <= k < t + |mid| + |arm| {
        InArm(code, t + |mid|, arm, k - t - |mid|);
      } else {
        TestPassed(g, arms, mid, k - |first|);
      }
    }
    if !HasDefault(arms) { TestPassed(g, arms, mid, t - |first|); }
    InArm(code, t + |mid|, arm, |arm| - 1);
    LeadsOn(code, 0, t + |mid| + |arm| - 1, |code|);
  }

  lemma {:induction false} InFirst(code: Code, first: Code, k: nat)
    requires Ajar(first) && k < |first| && first <= code
    ensures Leads(code, 0, k)
  {
    hide Leads;
    LeadsWithin(code, 0, first, 0, k);
  }

  lemma {:induction false} InArm(code: Code, at: int, arm: Code, k: nat)
    requires Within(code, at, arm) && Leads(code, 0, at) && Ajar(arm) && k < |arm|
    ensures Leads(code, 0, at + k)
  {
    hide Leads;
    LeadsWithin(code, at, arm, 0, k);
    LeadsOn(code, 0, at, at + k);
  }

  lemma {:induction false} MatchSize(g: Program, arms: seq<Arm>, mid: Code)
    requires arms != []
    ensures |MatchCode(g, arms, mid)| == |TestsCode(g, arms, |mid|)| + |mid| + |FirstArm(g, arms)| + |BodiesCode(g,
      arms[1..])|
    ensures |arms| == 1 ==>
      |BodiesCode(g, arms[1..])| == 0 && |TestsCode(g, arms[1..], |mid| + |FirstArm(g, arms)|)| == 0
  {
    hide StmtsCode, PatternCode;
    assert BodiesCode(g, arms) == FirstArm(g, arms) + BodiesCode(g, arms[1..]);
  }

  /** The last operation of an arm leads behind the match. */
  lemma {:induction false} ArmLeaves(code: Code, at: int, body: Code, after: nat)
    requires Within(code, at, ArmCode(body, after)) && |code| == at + |ArmCode(body, after)| + after
    ensures |ArmCode(body, after)| > 0 && Leads(code, at + |ArmCode(body, after)| - 1, |code|)
  {
    hide Leads;
    var arm := ArmCode(body, after);
    assert arm[|body| + 1] == JumpBy(after + 1) && code[at + (|body| + 1)] == arm[|body| + 1];
    LeadsStep(code, at + |arm| - 1, |code|);
  }

  lemma {:induction false} FirstThere(g: Program, arms: seq<Arm>, mid: Code)
    requires arms != [] && ArmOrderly(arms)
    ensures 0 < |FirstPattern(g, arms, mid)|
  {
    hide ValueTests, TestsCode, FirstArm;
    if arms[0].pattern.Values? { TestsThere(g, arms[0].pattern.values,
      |TestsCode(g, arms[1..], |mid| + |FirstArm(g, arms)|)| + |mid|); }
  }

  lemma TestsThere(g: Program, es: seq<Expr>, gap: nat)
    requires es != []
    ensures |ValueTests(g, es, gap)| > 0
  {
  }

  lemma {:induction false} NoReturns(g: Program, arms: seq<Arm>, mid: Code)
    requires arms != [] && Open(StmtsCode(g, arms[0].body))
    requires I(M.Return) !in TestsCode(g, arms[1..], |mid| + |FirstArm(g, arms)|) &&
      I(M.Return) !in BodiesCode(g, arms[1..])
    ensures I(M.Return) !in TestsCode(g, arms, |mid|) && I(M.Return) !in BodiesCode(g, arms)
  {
    hide StmtsCode, Leads, PatternCode;
    FirstTests(g, arms, mid);
    assert TestsCode(g, arms, |mid|) ==
      FirstPattern(g, arms, mid) + TestsCode(g, arms[1..], |mid| + |FirstArm(g, arms)|);
  }

  lemma {:induction false} MatchOpen(g: Program, nd: Node)
    requires nd.stmt.Match? && StmtOrderly(nd, false)
    ensures Open(StmtCode(g, nd))
    decreases nd, 0
  {
    hide Leads, TestsCode, BodiesCode, ExprCode, ArmsOrderly;
    var e, arms := nd.stmt.expr, nd.stmt.arms;
    var miss: Code := if HasDefault(arms) then [] else [I(M.Exit(Panic))];
    MatchReached(g, arms, miss);
    ExprOpen(g, e);
    OpenThen(ExprCode(g, e), MatchCode(g, arms, miss));
  }

  // ---- Going round ----

  ghost predicate Turns(code: Code, k: int) {
    exists m: nat :: m > 0 && Trail(code, k, k, m)
  }

  ghost predicate Spins(code: Code) {
    exists k :: 0 <= k < |code| && Turns(code, k)
  }

  lemma {:induction false} SpinWithin(whole: Code, off: int, code: Code)
    requires Within(whole, off, code) && Spins(code)
    ensures Spins(whole)
  {
    hide Trail;
    var k :| 0 <= k < |code| && Turns(code, k);
    var m: nat :| m > 0 && Trail(code, k, k, m);
    TrailWithin(whole, off, code, k, k, m);
    assert Turns(whole, off + k);
  }

  lemma {:induction false} TurnsBy(code: Code, a: int, b: int)
    requires Step(code, a, b) && Leads(code, b, a)
    ensures Turns(code, a)
  {
    var m: nat :| Trail(code, b, a, m);
    assert Trail(code, a, a, m + 1);
  }

  lemma {:induction false} LoopSpins(x: string, body: Code)
    requires Open(body)
    ensures Spins(LoopCode(x, body))
  {
    hide Leads, Ajar, Turns;
    var code, b := LoopCode(x, body), |body|;
    assert Within(code, 3, body);
    LeadsStep(code, 1, 2);
    LeadsStep(code, 2, 3);
    LeadsWithin(code, 3, body, 0, b);
    LeadsStep(code, 3 + b, 4 + b);
    LeadsStep(code, 4 + b, 0);
    LeadsOn(code, 1, 2, 3);
    LeadsOn(code, 1, 3, 3 + b);
    LeadsOn(code, 1, 3 + b, 4 + b);
    LeadsOn(code, 1, 4 + b, 0);
    TurnsBy(code, 0, 1);
  }

  /** An orderly list with a map statement goes round. */
  lemma {:induction false} StmtsSpin(g: Program, ss: seq<Node>)
    requires Orderly(ss, false) && !MapFree(ss)
    ensures Spins(StmtsCode(g, ss))
    decreases ss, 1
  {
    hide Spins, StmtCode, StmtOrderly, StmtMapFree;
    if !StmtMapFree(ss[0]) {
      StmtSpins(g, ss[0]);
      SpinWithin(StmtsCode(g, ss), 0, StmtCode(g, ss[0]));
    } else {
      StmtsSpin(g, ss[1..]);
      SpinWithin(StmtsCode(g, ss), |StmtCode(g, ss[0])|, StmtsCode(g, ss[1..]));
    }
  }

  lemma {:induction false} StmtSpins(g: Program, nd: Node)
    requires StmtOrderly(nd, false) && !StmtMapFree(nd)
    ensures Spins(StmtCode(g, nd))
    decreases nd, 0
  {
    hide Spins, StmtsCode, ExprCode, FactCode, BranchesCode, TestsCode, BodiesCode, LoopCode, Orderly, MapFree,
      ArmsMapFree,
      BranchesMapFree, ArmsOrderly, BranchesOrderly;
    match nd.stmt
    case Map(fact, x, body) =>
      StmtsOpen(g, body);
      LoopSpins(x, StmtsCode(g, body));
      SpinWithin(StmtCode(g, nd), |FactCode(g, fact)| + 1, LoopCode(x, StmtsCode(g, body)));
    case Match(e, arms) =>
      BodiesSpin(g, arms);
      SpinWithin(StmtCode(g, nd), |StmtCode(g, nd)| - |BodiesCode(g, arms)|, BodiesCode(g, arms));
    case If(bs, fallback) =>
      var otherwise := match fallback case NoElse => [] case Else(ss) => StmtsCode(g, ss);
      if !BranchesMapFree(bs) {
        BranchesSpin(g, bs, |otherwise|);
        SpinWithin(StmtCode(g, nd), 0, BranchesCode(g, bs, |otherwise|));
      } else {
        StmtsSpin(g, fallback.body);
        SpinWithin(StmtCode(g, nd), |BranchesCode(g, bs, |otherwise|)|, otherwise);
      }
  }

  lemma {:induction false} BranchesSpin(g: Program, bs: seq<Branch>, after: nat)
    requires BranchesOrderly(bs, false) && !BranchesMapFree(bs)
    ensures Spins(BranchesCode(g, bs, after))
    decreases bs, 2
  {
    hide Spins, StmtsCode, ExprCode, Orderly, MapFree;
    var body, rest, code := StmtsCode(g, bs[0].body), BranchesCode(g, bs[1..], after), BranchesCode(g, bs, after);
    var k := |ExprCode(g, bs[0].cond)| + 2;
    assert Within(code, k, body) && Within(code, k + |body| + 1, rest);
    if !MapFree(bs[0].body) {
      StmtsSpin(g, bs[0].body);
      SpinWithin(code, k, body);
    } else {
      BranchesSpin(g, bs[1..], after);
      SpinWithin(code, k + |body| + 1, rest);
    }
  }

  lemma {:induction false} BodiesSpin(g: Program, arms: seq<Arm>)
    requires ArmsOrderly(arms, false) && !ArmsMapFree(arms)
    ensures Spins(BodiesCode(g, arms))
    decreases arms, 2
  {
    hide Spins, StmtsCode, Orderly, MapFree;
    var body, rest, code := StmtsCode(g, arms[0].body), BodiesCode(g, arms[1..]), BodiesCode(g, arms);
    assert Within(code, 1, body) && Within(code, 2 + |body|, rest);
    if !MapFree(arms[0].body) {
      StmtsSpin(g, arms[0].body);
      SpinWithin(code, 1, body);
    } else {
      BodiesSpin(g, arms[1..]);
      SpinWithin(code, 2 + |body|, rest);
    }
  }

  // ---- Getting to a return ----

  ghost predicate Gets(code: Code) {
    exists k :: 0 <= k < |code| && code[k] == I(M.Return) && Leads(code, 0, k)
  }

  lemma {:induction false} GetWithin(whole: Code, off: int, code: Code)
    requires Within(whole, off, code) && Leads(whole, 0, off) && Gets(code)
    ensures Gets(whole)
  {
    hide Leads;
    var k :| 0 <= k < |code| && code[k] == I(M.Return) && Leads(code, 0, k);
    LeadsWithin(whole, off, code, 0, k);
    LeadsOn(whole, 0, off, off + k);
    assert whole[off + k] == code[k];
  }

  /** Control gets to a return in every orderly list of a function body that holds one. */
  lemma {:induction false} StmtsGet(g: Program, at: Site, ss: seq<Node>)
    requires at.FunctionSite? && StmtsOk(g, at, ss) && Orderly(ss, true) && !Orderly(ss, false)
    ensures Gets(StmtsCode(g, ss))
    decreases ss, 1
  {
    hide Gets, Leads, StmtCode, StmtOrderly, StmtOk;
    var a, code := StmtCode(g, ss[0]), StmtsCode(g, ss);
    if !StmtOrderly(ss[0], false) {
      StmtGets(g, at, ss[0]);
      LeadsHome(code, 0);
      GetWithin(code, 0, a);
    } else {
      StmtOpen(g, ss[0]);
      LeadsWithin(code, 0, a, 0, |a|);
      StmtsGet(g, at, ss[1..]);
      GetWithin(code, |a|, StmtsCode(g, ss[1..]));
    }
  }

  lemma {:induction false} StmtGets(g: Program, at: Site, nd: Node)
    requires at.FunctionSite? && StmtOk(g, at, nd) && StmtOrderly(nd, true) && !StmtOrderly(nd, false)
    ensures Gets(StmtCode(g, nd))
    decreases nd, 0
  {
    hide Gets, Leads, StmtsCode, ExprCode, BranchesCode, TestsCode, BodiesCode, Orderly, ArmsOrderly, BranchesOrderly,
      ExprOk,
      StmtsOk, BranchesOk, ArmsOk;
    var code := StmtCode(g, nd);
    match nd.stmt
    case Return(e) => ReturnGets(g, e);
    case Match(e, arms) =>
      var miss: Code := if HasDefault(arms) then [] else [I(M.Exit(Panic))];
      ExprOpen(g, e);
      LeadsWithin(code, 0, ExprCode(g, e), 0, |ExprCode(g, e)|);
      MatchGets(g, at, arms, miss);
      GetWithin(code, |ExprCode(g, e)|, MatchCode(g, arms, miss));
    case If(bs, fallback) =>
      var otherwise := match fallback case NoElse => [] case Else(ss) => StmtsCode(g, ss);
      var branches := BranchesCode(g, bs, |otherwise|);
      LeadsHome(code, 0);
      if !BranchesOrderly(bs, false) {
        BranchesGet(g, at, bs, |otherwise|);
        GetWithin(code, 0, branches);
      } else {
        BranchesOpen(g, bs, |otherwise|);
        LeadsWithin(code, 0, branches, 0, |branches|);
        StmtsGet(g, at, fallback.body);
        GetWithin(code, |branches|, otherwise);
      }
  }

  lemma {:induction false} ReturnGets(g: Program, e: Expr)
    ensures Gets(ExprCode(g, e) + [I(M.Return)])
  {
    hide Leads, ExprCode;
    var a, code := ExprCode(g, e), ExprCode(g, e) + [I(M.Return)];
    ExprOpen(g, e);
    LeadsWithin(code, 0, a, 0, |a|);
    assert code[|a|] == I(M.Return);
  }

  lemma {:induction false} BranchesGet(g: Program, at: Site, bs: seq<Branch>, after: nat)
    requires at.FunctionSite? && BranchesOk(g, at, bs) && BranchesOrderly(bs, true) && !BranchesOrderly(bs, false)
    ensures Gets(BranchesCode(g, bs, after))
    decreases bs, 2
  {
    hide Gets, Leads, StmtsCode, ExprCode, Orderly, StmtsOk, ExprOk;
    var body, rest, code := StmtsCode(g, bs[0].body), BranchesCode(g, bs[1..], after), BranchesCode(g, bs, after);
    var k := |ExprCode(g, bs[0].cond)|;
    assert Within(code, k + 2, body) && Within(code, k + |body| + 3, rest);
    ExprOpen(g, bs[0].cond);
    LeadsWithin(code, 0, ExprCode(g, bs[0].cond), 0, k);
    LeadsStep(code, k, k + 1);
    LeadsOn(code, 0, k, k + 1);
    LeadsStep(code, k + 1, k + 2);
    LeadsOn(code, 0, k + 1, k + 2);
    LeadsStep(code, k + 1, k + |body| + 3);
    LeadsOn(code, 0, k + 1, k + |body| + 3);
    if !Orderly(bs[0].body, false) {
      StmtsGet(g, at, bs[0].body);
      GetWithin(code, k + 2, body);
    } else {
      BranchesGet(g, at, bs[1..], after);
      GetWithin(code, k + |body| + 3, rest);
    }
  }

  lemma {:induction false} MatchGets(g: Program, at: Site, arms: seq<Arm>, mid: Code)
    requires at.FunctionSite? && ArmsOk(g, at, arms) && ArmsOrderly(arms, true) && !ArmsOrderly(arms, false)
    ensures Gets(MatchCode(g, arms, mid))
    decreases arms, 2
  {
    hide Leads, StmtsCode, Orderly, StmtsOk, MatchCode, ArgsOk, TestsCode, FirstPattern;
    var body, code, k := StmtsCode(g, arms[0].body), MatchCode(g, arms, mid), |TestsCode(g, arms, |mid|)| + |mid|;
    MatchSplit(g, arms, mid);
    if !Orderly(arms[0].body, false) {
      ArmReached(g, arms, mid);
      StmtsGet(g, at, arms[0].body);
      ArmGets(code, k, body, |BodiesCode(g, arms[1..])|);
    } else {
      hide BodiesCode, FirstArm, ArmCode;
      var code' := MatchCode(g, arms[1..], mid + FirstArm(g, arms));
      MatchGets(g, at, arms[1..], mid + FirstArm(g, arms));
      LeadsHome(code', 0);
      TestPassed(g, arms, mid, 0);
      GetWithin(code, |FirstPattern(g, arms, mid)|, code');
    }
  }

  lemma {:induction false} ArmGets(code: Code, at: int, body: Code, after: nat)
    requires Within(code, at, ArmCode(body, after)) && Leads(code, 0, at) && Gets(body)
    ensures Gets(code)
  {
    hide Gets, Leads;
    var arm := ArmCode(body, after);
    assert Within(arm, 1, body);
    LeadsStep(arm, 0, 1);
    GetWithin(arm, 1, body);
    GetWithin(code, at, arm);
  }

  // ---- What the checks keep in order ----

  /** Actions and finish functions hold nothing that leaves. */
  lemma {:induction false} StmtsStay(g: Program, at: Site, ss: seq<Node>)
    requires (at.ActionSite? || at.FinishSite?) && StmtsOk(g, at, ss) && Orderly(ss, true)
    ensures Orderly(ss, false)
    decreases ss, 1
  {
    hide StmtOk, StmtOrderly;
    if ss != [] {
      StmtStays(g, at, ss[0]);
      StmtsStay(g, at, ss[1..]);
    }
  }

  lemma {:induction false} StmtStays(g: Program, at: Site, nd: Node)
    requires (at.ActionSite? || at.FinishSite?) && StmtOk(g, at, nd) && StmtOrderly(nd, true)
    ensures StmtOrderly(nd, false)
    decreases nd, 0
  {
    hide ExprOk, ArgsOk, FactOk, FactFitsSchema, StmtsOk, Orderly;
    match nd.stmt
    case Match(_, arms) => ArmsStay(g, at, arms);
    case Map(_, _, body) => StmtsStay(g, at, body);
    case If(bs, fallback) =>
      BranchesStay(g, at, bs);
      if fallback.Else? { StmtsStay(g, at, fallback.body); }
    case _ =>
  }

  lemma {:induction false} BranchesStay(g: Program, at: Site, bs: seq<Branch>)
    requires (at.ActionSite? || at.FinishSite?) && BranchesOk(g, at, bs) && BranchesOrderly(bs, true)
    ensures BranchesOrderly(bs, false)
    decreases bs, 2
  {
    if bs != [] {
      StmtsStay(g, at, bs[0].body);
      BranchesStay(g, at, bs[1..]);
    }
  }

  lemma {:induction false} ArmsStay(g: Program, at: Site, arms: seq<Arm>)
    requires (at.ActionSite? || at.FinishSite?) && ArmsOk(g, at, arms) && ArmsOrderly(arms, true)
    ensures ArmsOrderly(arms, false)
    decreases arms, 2
  {
    if arms != [] {
      StmtsStay(g, at, arms[0].body);
      ArmsStay(g, at, arms[1..]);
    }
  }
}
