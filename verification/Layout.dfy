/** Position-independent code for each piece of syntax: branches carry distances instead of
    labels, so a fragment means the same wherever it is placed. The compiler proper, with its
    labels and back-patching, is proved to produce exactly this code (module Compiler). */
module Layout {
  import opened Values
  import opened Ast
  import M = Machine

  datatype Op =
    | I(instr: M.Instr)
    | JumpBy(distance: int)
    | BranchBy(distance: int)
    | CallBy(distance: int)
    | JumpTo(target: M.Label)
    | BranchTo(target: M.Label)
    | CallTo(target: M.Label)

  type Code = seq<Op>
  type Labels = map<M.Label, int>

  function TargetOf(labels: Labels, l: M.Label): M.Target {
    if l in labels then M.Resolved(labels[l]) else M.Unresolved(l)
  }

  /** The instruction `op` stands for at address `a`. */
  function Place(labels: Labels, op: Op, a: int): M.Instr {
    match op
    case I(i) => i
    case JumpBy(d) => M.Jump(M.Resolved(a + d))
    case BranchBy(d) => M.Branch(M.Resolved(a + d))
    case CallBy(d) => M.Call(M.Resolved(a + d))
    case JumpTo(l) => M.Jump(TargetOf(labels, l))
    case BranchTo(l) => M.Branch(TargetOf(labels, l))
    case CallTo(l) => M.Call(TargetOf(labels, l))
  }

  /** `prog` holds `code` from address `base` on. */
  ghost predicate CodeAt(prog: seq<M.Instr>, labels: Labels, base: int, code: Code) {
    0 <= base <= base + |code| <= |prog| &&
    forall i :: 0 <= i < |code| ==> prog[base + i] == Place(labels, code[i], base + i)
  }

  lemma CodeSplit(prog: seq<M.Instr>, labels: Labels, base: int, a: Code, b: Code)
    requires CodeAt(prog, labels, base, a + b)
    ensures CodeAt(prog, labels, base, a)
    ensures CodeAt(prog, labels, base + |a|, b)
  {
    forall i | 0 <= i < |a| ensures prog[base + i] == Place(labels, a[i], base + i) {
      assert (a + b)[i] == a[i];
    }
    forall i | 0 <= i < |b| ensures prog[base + |a| + i] == Place(labels, b[i], base + |a| + i) {
      assert (a + b)[|a| + i] == b[i];
      assert prog[base + (|a| + i)] == Place(labels, (a + b)[|a| + i], base + (|a| + i));
    }
  }

  function Instrs(xs: seq<M.Instr>): Code {
    seq(|xs|, i requires 0 <= i < |xs| => I(xs[i]))
  }

  // ---- Operators ----

  /** What follows the operand of a unary operator that does not branch. */
  function UnaryInstrs(op: UnaryOp): seq<M.Instr> {
    match op
    case SomeOf => []
    case Negative => [M.Const(IntV(0)), M.Swap(1), M.Sub]
    case Not => [M.Not]
    case IsSome => [M.Const(NoneV), M.Eq, M.Not]
    case IsNone => [M.Const(NoneV), M.Eq]
    case Dot(k) => [M.StructGet(k)]
    case Serialize => [M.Serialize]
    case Deserialize => [M.Deserialize]
    case Unwrap => []
    case CheckUnwrap => []
  }

  /** Leaves the program unless the value on top is present. */
  function UnwrapCode(reason: ExitReason): Code {
    Instrs([M.Dup(0), M.Const(NoneV), M.Eq, M.Not]) + [BranchBy(2), I(M.Exit(reason))]
  }

  function UnaryCode(op: UnaryOp): Code {
    match op
    case Unwrap => UnwrapCode(Panic)
    case CheckUnwrap => UnwrapCode(Check)
    case _ => Instrs(UnaryInstrs(op))
  }

  function BinaryInstrs(op: BinaryOp): seq<M.Instr> {
    match op
    case Add => [M.Add]
    case Subtract => [M.Sub]
    case And => [M.And]
    case Or => [M.Or]
    case Equal => [M.Eq]
    case GreaterThan => [M.Gt]
    case LessThan => [M.Lt]
    case NotEqual => [M.Eq, M.Not]
    case GreaterOrEqual => [M.Dup(1), M.Dup(1), M.Eq, M.Swap(2), M.Swap(1), M.Gt, M.Or]
    case LessOrEqual => [M.Dup(1), M.Dup(1), M.Eq, M.Swap(2), M.Swap(1), M.Lt, M.Or]
  }

  function QueryInstrs(kind: QueryKind): seq<M.Instr> {
    match kind
    case Query => [M.Query]
    case Exists => [M.Query, M.Const(NoneV), M.Eq, M.Not]
    case UpTo(k) => [M.FactCount(k)]
    case AtLeast(k) => [M.FactCount(k), M.Const(IntV(k)), M.Lt, M.Not]
    case AtMost(k) => [M.FactCount(k + 1), M.Const(IntV(k)), M.Gt, M.Not]
    case Exactly(k) => [M.FactCount(k + 1), M.Const(IntV(k)), M.Eq]
  }

  function SetterInstr(m: Member, k: string): M.Instr {
    match m
    case StructMember => M.StructSet(k)
    case KeyMember => M.FactKeySet(k)
    case ValueMember => M.FactValueSet(k)
  }

  // ---- Expressions ----

  function ForeignIndex(w: World, m: string, name: string): (nat, nat) {
    match FindModule(w.ffi, m)
    case None => (0, 0)
    case Some(mi) =>
      if mi >= |w.ffi| then (0, 0)
      else match FindProcedure(w.ffi[mi].procedures, name)
        case None => (0, 0)
        case Some(pi) => (mi, pi)
  }

  function ExprCode(g: Program, e: Expr): Code
    decreases e, 0
  {
    match e
    case Literal(v) => [I(M.Const(v))]
    case EnumReference(t, v) => [I(M.Const(EnumV(t, v)))]
    case Identifier(x) => [I(M.Meta(M.GetMark(x))), I(M.Get(x))]
    case NamedStruct(name, fields) => [I(M.StructNew(name))] + FieldsCode(g, StructMember, fields)
    case FactQuery(kind, fact) => FactCode(g, fact) + Instrs(QueryInstrs(kind))
    case Conditional(c, yes, no) =>
      // The false branch comes first.
      var t, f := ExprCode(g, yes), ExprCode(g, no);
      ExprCode(g, c) + ([BranchBy(|f| + 2)] + (f + ([JumpBy(|t| + 1)] + t)))
    case FunctionCall(name, args) =>
      ArgsCode(g, args) + [CallTo(M.Label(name, M.FunctionLabel))]
    case ForeignCall(m, name, args) =>
      var (mi, pi) := ForeignIndex(g.world, m, name);
      [I(M.Meta(M.FfiMark(m, name)))] + (ArgsCode(g, args) + [I(M.ExtCall(mi, pi))])
    case Unary(op, a) => ExprCode(g, a) + UnaryCode(op)
    case Binary(op, a, b) => ExprCode(g, a) + (ExprCode(g, b) + Instrs(BinaryInstrs(op)))
  }

  function ArgsCode(g: Program, es: seq<Expr>): Code
    decreases es, 0
  {
    if es == [] then [] else ExprCode(g, es[0]) + ArgsCode(g, es[1..])
  }

  function FieldsCode(g: Program, m: Member, fs: seq<Field>): Code
    decreases fs, 0
  {
    if fs == [] then []
    else match fs[0].value
      case Bind => FieldsCode(g, m, fs[1..])
      case Given(e) => ExprCode(g, e) + ([I(SetterInstr(m, fs[0].name))] + FieldsCode(g, m, fs[1..]))
  }

  function FactCode(g: Program, f: FactLiteral): Code
    decreases f, 0
  {
    [I(M.FactNew(f.name))] + (FieldsCode(g, KeyMember, f.keys) +
      match f.values
      case NoValues => []
      case GivenValues(fs) => FieldsCode(g, ValueMember, fs))
  }

  // ---- Statements ----

  function StmtsCode(g: Program, ss: seq<Node>): Code
    decreases ss, 1
  {
    if ss == [] then [] else StmtCode(g, ss[0]) + StmtsCode(g, ss[1..])
  }

  function StmtCode(g: Program, nd: Node): Code
    decreases nd, 0
  {
    match nd.stmt
    case Let(x, e) => ExprCode(g, e) + [I(M.Meta(M.LetMark(x))), I(M.Def(x))]
    case CheckThat(e) => ExprCode(g, e) + [BranchBy(2), I(M.Exit(Check))]
    case DebugAssert(e) => if g.debug then ExprCode(g, e) + [BranchBy(2), I(M.Exit(Panic))] else []
    case Match(e, arms) =>
      var miss := if HasDefault(arms) then [] else [I(M.Exit(Panic))];
      ExprCode(g, e) + (TestsCode(g, arms, |miss|) + (miss + BodiesCode(g, arms)))
    case If(branches, fallback) =>
      var otherwise := match fallback case NoElse => [] case Else(ss) => StmtsCode(g, ss);
      BranchesCode(g, branches, |otherwise|) + otherwise
    case Finish(body) =>
      [I(M.Meta(M.FinishMark(true))), I(M.Block)] + (StmtsCode(g, body) + [I(M.End), I(M.Exit(Normal))])
    case Map(fact, x, body) =>
      var b := StmtsCode(g, body);
      FactCode(g, fact) + ([I(M.QueryStart)] + LoopCode(x, b))
    case Return(e) => ExprCode(g, e) + [I(M.Return)]
    case ActionCall(name, args) => ArgsCode(g, args) + [CallTo(M.Label(name, M.ActionLabel))]
    case FinishCall(name, args) => ArgsCode(g, args) + [CallTo(M.Label(name, M.Temporary))]
    case Publish(e) => ExprCode(g, e) + [I(M.Publish)]
    case Emit(e) => ExprCode(g, e) + [I(M.Emit)]
    case Create(fact) => FactCode(g, fact) + [I(M.Create)]
    case Delete(fact) => FactCode(g, fact) + [I(M.Delete)]
    case Update(fact, to) =>
      FactCode(g, fact) + ([I(M.Dup(0))] + (FieldsCode(g, ValueMember, to) + [I(M.Update)]))
  }

  /** The loop of a map statement: every round opens a block, the exit closes the last one. */
  function LoopCode(x: string, body: Code): Code {
    [I(M.Block), I(M.QueryNext(x)), BranchBy(|body| + 3)] + (body + [I(M.End), JumpBy(-(|body| + 4)), I(M.End)])
  }

  /** Each branch skips itself when its condition is false and otherwise leaves for the end,
      which lies `after` instructions behind the last branch. */
  function BranchesCode(g: Program, bs: seq<Branch>, after: nat): Code
    decreases bs, 2
  {
    if bs == [] then []
    else
      var body, rest := StmtsCode(g, bs[0].body), BranchesCode(g, bs[1..], after);
      ExprCode(g, bs[0].cond) +
      ([I(M.Not), BranchBy(|body| + 2)] + (body + ([JumpBy(|rest| + after + 1)] + rest)))
  }

  /** Tests of a match statement; the first arm's body starts `gap` instructions after the last
      test. */
  function TestsCode(g: Program, arms: seq<Arm>, gap: nat): Code
    decreases arms, 2
  {
    if arms == [] then []
    else
      var rest := TestsCode(g, arms[1..], gap + |StmtsCode(g, arms[0].body)| + 2);
      PatternCode(g, arms[0].pattern, |rest| + gap) + rest
  }

  /** Goes to the arm's body, `gap` instructions behind these tests, when the pattern applies. */
  function PatternCode(g: Program, p: Pattern, gap: nat): Code
    decreases p, 1
  {
    match p
    case Default => [JumpBy(gap + 1)]
    case Values(es) => ValueTests(g, es, gap)
  }

  function ValueTests(g: Program, es: seq<Expr>, gap: nat): Code
    decreases es, 0
  {
    if es == [] then []
    else
      var rest := ValueTests(g, es[1..], gap);
      [I(M.Dup(0))] + (ExprCode(g, es[0]) + ([I(M.Eq), BranchBy(|rest| + gap + 1)] + rest))
  }

  /** Arm bodies: drop the matched value, run, leave for the end. */
  function BodiesCode(g: Program, arms: seq<Arm>): Code
    decreases arms, 2
  {
    if arms == [] then []
    else
      var rest := BodiesCode(g, arms[1..]);
      [I(M.Pop)] + (StmtsCode(g, arms[0].body) + ([JumpBy(|rest| + 1)] + rest))
  }

  // ---- Definitions ----

  /** Parameters are taken off the stack last to first. */
  function ParamsCode(ps: seq<string>): Code {
    if ps == [] then [] else ParamsCode(ps[1..]) + [I(M.Meta(M.LetMark(ps[0]))), I(M.Def(ps[0]))]
  }

  function FunctionCode(g: Program, d: Definition): Code {
    ParamsCode(d.params) + (StmtsCode(g, d.body) + [I(M.Exit(Panic))])
  }

  /** Finish functions and actions. */
  function ProcedureCode(g: Program, d: Definition): Code {
    ParamsCode(d.params) + (StmtsCode(g, d.body) + [I(M.Return)])
  }

  /** Policy and recall blocks. */
  function BlockCode(g: Program, ss: seq<Node>): Code {
    [I(M.Def("envelope"))] + (StmtsCode(g, ss) + [I(M.Exit(Normal))])
  }

  /** Seal and open blocks: a call stub, then the function-like body binding `x`. */
  function StubCode(g: Program, x: string, ss: seq<Node>): Code {
    [CallBy(2), I(M.Exit(Normal)), I(M.Def(x))] + (StmtsCode(g, ss) + [I(M.Exit(Panic))])
  }
}
