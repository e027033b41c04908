/** What the compiler asks of the type checker and of the declared names, and in which order. */
module Asking {
  import opened Values
  import opened Ast

  datatype Question =
    | HasType(e: Expr)
    | IsBool(e: Expr)
    | IsReturnable(e: Expr)
    | IsStruct(e: Expr)
    | IsArgument(i: nat, e: Expr)
    | MayDeclare(x: string)
    | IsImported(m: string)
    | IsVariant(enum: string, variant: string)

  type Talk = seq<Question>

  // ---- The questions a construct calls for ----

  function ExprAsks(e: Expr): Talk
    decreases e, 1
  {
    [HasType(e)] + InnerAsks(e)
  }

  /** The questions inside an expression. */
  function InnerAsks(e: Expr): Talk
    decreases e, 0
  {
    match e
    case Literal(_) | Identifier(_) => []
    case EnumReference(t, v) => [IsVariant(t, v)]
    case NamedStruct(_, fields) => FieldsAsks(fields)
    case FactQuery(_, fact) => FactAsks(fact)
    case Conditional(cond, yes, no) => ExprAsks(cond) + (ExprAsks(no) + ExprAsks(yes))
    case FunctionCall(_, args) => ArgsAsks(args, 0, false)
    case ForeignCall(m, _, args) => [IsImported(m)] + ArgsAsks(args, 0, false)
    case Unary(_, a) => ExprAsks(a)
    case Binary(_, a, b) => ExprAsks(a) + ExprAsks(b)
  }

  /** Arguments from number `i` on; those of an action call are also compared with its
      parameters. */
  function ArgsAsks(es: seq<Expr>, i: nat, checked: bool): Talk
    decreases es, 0
  {
    if es == [] then []
    else (ExprAsks(es[0]) + (if checked then [IsArgument(i, es[0])] else [])) + ArgsAsks(es[1..], i + 1, checked)
  }

  function FieldsAsks(fs: seq<Field>): Talk
    decreases fs, 0
  {
    if fs == [] then []
    else (match fs[0].value case Bind => [] case Given(e) => ExprAsks(e)) + FieldsAsks(fs[1..])
  }

  function FactAsks(f: FactLiteral): Talk
    decreases f, 0
  {
    FieldsAsks(f.keys) + match f.values case NoValues => [] case GivenValues(fs) => FieldsAsks(fs)
  }

  function StmtsAsks(g: Program, ss: seq<Node>): Talk
    decreases ss, 1
  {
    if ss == [] then [] else StmtAsks(g, ss[0]) + StmtsAsks(g, ss[1..])
  }

  function StmtAsks(g: Program, nd: Node): Talk
    decreases nd, 0
  {
    match nd.stmt
    case Let(x, e) => ExprAsks(e) + [MayDeclare(x)]
    case CheckThat(e) => ExprAsks(e) + [IsBool(e)]
    case DebugAssert(e) => if g.debug then ExprAsks(e) else []
    case Match(e, arms) => ExprAsks(e) + (TestsAsks(arms) + BodiesAsks(g, arms))
    case If(branches, fallback) =>
      BranchesAsks(g, branches) + (match fallback case NoElse => [] case Else(ss) => StmtsAsks(g, ss))
    case Finish(body) => StmtsAsks(g, body)
    case Map(fact, x, body) => FactAsks(fact) + ([MayDeclare(x)] + StmtsAsks(g, body))
    case Return(e) => ExprAsks(e) + [IsReturnable(e)]
    case ActionCall(_, args) => ArgsAsks(args, 0, true)
    case FinishCall(_, args) => ArgsAsks(args, 0, false)
    case Publish(e) => ExprAsks(e)
    case Emit(e) => ExprAsks(e) + [IsStruct(e)]
    case Create(fact) => FactAsks(fact)
    case Delete(fact) => FactAsks(fact)
    case Update(fact, to) => FactAsks(fact) + FieldsAsks(to)
  }

  function BranchesAsks(g: Program, bs: seq<Branch>): Talk
    decreases bs, 2
  {
    if bs == [] then [] else (ExprAsks(bs[0].cond) + StmtsAsks(g, bs[0].body)) + BranchesAsks(g, bs[1..])
  }

  function TestsAsks(arms: seq<Arm>): Talk {
    if arms == [] then []
    else (match arms[0].pattern case Default => [] case Values(es) => ArgsAsks(es, 0, false)) + TestsAsks(arms[1..])
  }

  function BodiesAsks(g: Program, arms: seq<Arm>): Talk
    decreases arms, 2
  {
    if arms == [] then [] else StmtsAsks(g, arms[0].body) + BodiesAsks(g, arms[1..])
  }

  /** Parameters are declared last to first. */
  function ParamsAsks(ps: seq<string>): Talk {
    if ps == [] then [] else ParamsAsks(ps[1..]) + [MayDeclare(ps[0])]
  }

  function DefinitionAsks(g: Program, d: Definition): Talk {
    ParamsAsks(d.params) + StmtsAsks(g, d.body)
  }

  function DefinitionsAsks(g: Program, ds: seq<Definition>): Talk {
    if ds == [] then [] else DefinitionAsks(g, ds[0]) + DefinitionsAsks(g, ds[1..])
  }

  function BlockAsks(g: Program, ss: seq<Node>): Talk {
    [MayDeclare("this"), MayDeclare("envelope")] + StmtsAsks(g, ss)
  }

  function StubAsks(g: Program, x: string, ss: seq<Node>): Talk {
    [MayDeclare(x)] + StmtsAsks(g, ss)
  }

  function StubsAsks(g: Program, c: Command): Talk {
    StubAsks(g, "this", c.seal) + StubAsks(g, "envelope", c.open)
  }

  function CommandAsks(g: Program, c: Command): Talk {
    BlockAsks(g, c.policy) + (BlockAsks(g, c.recall) + StubsAsks(g, c))
  }

  function CommandsAsks(g: Program, cs: seq<Command>): Talk {
    if cs == [] then [] else CommandAsks(g, cs[0]) + CommandsAsks(g, cs[1..])
  }

  /** Everything that is asked while compiling a policy, in order. */
  function Asks(g: Program): Talk {
    DefinitionsAsks(g, g.policy.functions) + (DefinitionsAsks(g, g.policy.finishFunctions) +
      (CommandsAsks(g, g.policy.commands) + DefinitionsAsks(g, g.policy.actions)))
  }

  // ---- A conversation and its plan ----

  function Flat(todo: List<Talk>): Talk {
    match todo case Nil => [] case Cons(part, rest) => part + Flat(rest)
  }

  /** After what was asked so far, the plan goes on with these parts. */
  predicate Todo(asked: Talk, plan: Talk, todo: List<Talk>) {
    plan == asked + Flat(todo)
  }

  /** What was asked so far is how the plan begins. */
  predicate Heard(asked: Talk, plan: Talk) {
    asked <= plan
  }

  /** All questions were answered with yes. */
  ghost predicate Agreed(types: (nat, Question) -> bool, asked: Talk) {
    forall i :: 0 <= i < |asked| ==> types(i, asked[i])
  }

  /** The last question was answered with no. */
  ghost predicate Denied(types: (nat, Question) -> bool, asked: Talk) {
    asked != [] && !types(|asked| - 1, asked[|asked| - 1])
  }

  lemma {:induction false} TodoHeard()
    ensures forall asked, plan, todo :: Todo(asked, plan, todo) ==> Heard(asked, plan)
  {
    hide Flat;
  }

  lemma {:induction false} TodoJoin(a: Talk, b: Talk)
    ensures forall asked, plan, rest :: Todo(asked, plan, Cons(a + b, rest)) <==>
      Todo(asked, plan, Cons(a, Cons(b, rest)))
  {
    forall asked, plan, rest
      ensures Todo(asked, plan, Cons(a + b, rest)) <==> Todo(asked, plan, Cons(a, Cons(b, rest)))
    {
      assert (a + b) + Flat(rest) == a + (b + Flat(rest));
      assert Flat(Cons(a, Cons(b, rest))) == a + Flat(Cons(b, rest));
    }
  }

  lemma {:induction false} TodoJoinThree(a: Talk, b: Talk, c: Talk)
    ensures forall asked, plan, rest ::
      Todo(asked, plan, Cons(a + (b + c), rest)) <==> Todo(asked, plan, Cons(a, Cons(b, Cons(c, rest))))
  {
    forall asked, plan, rest
      ensures Todo(asked, plan, Cons(a + (b + c), rest)) <==> Todo(asked, plan, Cons(a, Cons(b, Cons(c, rest))))
    {
      var after := Cons(c, rest);
      assert Flat(after) == c + Flat(rest) && Flat(Cons(b, after)) == b + Flat(after);
      assert Flat(Cons(a, Cons(b, after))) == a + Flat(Cons(b, after));
      assert (a + (b + c)) + Flat(rest) == a + (b + (c + Flat(rest)));
    }
  }

  lemma {:induction false} TodoNone()
    ensures forall asked, plan, rest :: Todo(asked, plan, Cons([], rest)) ==> Todo(asked, plan, rest)
  {
    forall asked, plan, rest | Todo(asked, plan, Cons([], rest)) ensures Todo(asked, plan, rest) {
      assert [] + Flat(rest) == Flat(rest);
    }
  }

  lemma {:induction false} TodoAsked(asked: Talk, q: Question)
    ensures forall plan, rest :: Todo(asked, plan, Cons([q], rest)) ==> Todo(asked + [q], plan, rest)
  {
    forall plan, rest | Todo(asked, plan, Cons([q], rest)) ensures Todo(asked + [q], plan, rest) {
      assert asked + ([q] + Flat(rest)) == (asked + [q]) + Flat(rest);
    }
  }

  // ---- Unfolding ----

  lemma {:induction false} ExprAsksUnfold(e: Expr)
    ensures forall asked, plan, rest :: Todo(asked, plan, Cons(ExprAsks(e), rest)) ==>
      Todo(asked, plan, Cons([HasType(e)], Cons(InnerAsks(e), rest)))
  {
    hide InnerAsks, Todo;
    TodoJoin([HasType(e)], InnerAsks(e));
  }

  lemma {:induction false} ConditionalAsksUnfold(e: Expr)
    requires e.Conditional?
    ensures forall asked, plan, rest :: Todo(asked, plan, Cons(InnerAsks(e), rest)) ==>
      Todo(asked, plan, Cons(ExprAsks(e.cond), Cons(ExprAsks(e.no), Cons(ExprAsks(e.yes), rest))))
  {
    hide ExprAsks, Todo;
    TodoJoinThree(ExprAsks(e.cond), ExprAsks(e.no), ExprAsks(e.yes));
  }

  lemma {:induction false} ForeignAsksUnfold(e: Expr)
    requires e.ForeignCall?
    ensures forall asked, plan, rest :: Todo(asked, plan, Cons(InnerAsks(e), rest)) ==>
      Todo(asked, plan, Cons([IsImported(e.mod)], Cons(ArgsAsks(e.args, 0, false), rest)))
  {
    hide ArgsAsks, Todo;
    TodoJoin([IsImported(e.mod)], ArgsAsks(e.args, 0, false));
  }

  lemma {:induction false} BinaryAsksUnfold(e: Expr)
    requires e.Binary?
    ensures forall asked, plan, rest :: Todo(asked, plan, Cons(InnerAsks(e), rest)) ==>
      Todo(asked, plan, Cons(ExprAsks(e.left), Cons(ExprAsks(e.right), rest)))
  {
    hide ExprAsks, Todo;
    TodoJoin(ExprAsks(e.left), ExprAsks(e.right));
  }

  /** The other expressions ask what their one part asks. */
  lemma {:induction false} InnerAsksUnfold(e: Expr)
    requires !e.Conditional? && !e.ForeignCall? && !e.Binary?
    ensures InnerAsks(e) ==
      match e
      case EnumReference(t, v) => [IsVariant(t, v)]
      case NamedStruct(_, fields) => FieldsAsks(fields)
      case FactQuery(_, fact) => FactAsks(fact)
      case FunctionCall(_, args) => ArgsAsks(args, 0, false)
      case Unary(_, a) => ExprAsks(a)
      case _ => []
  {
    hide ExprAsks, FieldsAsks, FactAsks, ArgsAsks;
  }

  lemma {:induction false} ArgsAsksUnfold(es: seq<Expr>, i: nat, checked: bool)
    requires es != []
    ensures
      var first, others := ExprAsks(es[0]), ArgsAsks(es[1..], i + 1, checked);
      forall asked, plan, rest :: Todo(asked, plan, Cons(ArgsAsks(es, i, checked), rest)) ==>
        if checked then Todo(asked, plan, Cons(first, Cons([IsArgument(i, es[0])], Cons(others, rest))))
        else Todo(asked, plan, Cons(first, Cons(others, rest)))
  {
    hide ExprAsks, Todo;
    var first, others := ExprAsks(es[0]), ArgsAsks(es[1..], i + 1, checked);
    if checked {
      assert (first + [IsArgument(i, es[0])]) + others == first + ([IsArgument(i, es[0])] + others);
      TodoJoinThree(first, [IsArgument(i, es[0])], others);
    } else {
      assert first + [] == first;
      TodoJoin(first, others);
    }
  }

  lemma {:induction false} FieldsAsksUnfold(fs: seq<Field>)
    requires fs != []
    ensures forall asked, plan, rest :: Todo(asked, plan, Cons(FieldsAsks(fs), rest)) ==>
      match fs[0].value
      case Bind => Todo(asked, plan, Cons(FieldsAsks(fs[1..]), rest))
      case Given(e) => Todo(asked, plan, Cons(ExprAsks(e), Cons(FieldsAsks(fs[1..]), rest)))
  {
    hide ExprAsks, Todo;
    match fs[0].value
    case Bind => assert [] + FieldsAsks(fs[1..]) == FieldsAsks(fs[1..]);
    case Given(e) => TodoJoin(ExprAsks(e), FieldsAsks(fs[1..]));
  }

  lemma {:induction false} FactAsksUnfold(f: FactLiteral)
    ensures forall asked, plan, rest :: Todo(asked, plan, Cons(FactAsks(f), rest)) ==>
      match f.values
      case NoValues => Todo(asked, plan, Cons(FieldsAsks(f.keys), rest))
      case GivenValues(fs) => Todo(asked, plan, Cons(FieldsAsks(f.keys), Cons(FieldsAsks(fs), rest)))
  {
    hide FieldsAsks, Todo;
    match f.values
    case NoValues => assert FieldsAsks(f.keys) + [] == FieldsAsks(f.keys);
    case GivenValues(fs) => TodoJoin(FieldsAsks(f.keys), FieldsAsks(fs));
  }

  lemma {:induction false} StmtsAsksUnfold(g: Program, ss: seq<Node>)
    requires ss != []
    ensures forall asked, plan, rest :: Todo(asked, plan, Cons(StmtsAsks(g, ss), rest)) ==>
      Todo(asked, plan, Cons(StmtAsks(g, ss[0]), Cons(StmtsAsks(g, ss[1..]), rest)))
  {
    hide StmtAsks, Todo;
    TodoJoin(StmtAsks(g, ss[0]), StmtsAsks(g, ss[1..]));
  }

  /** Statements that ask one thing after their expression. */
  lemma {:induction false} AskedAfterUnfold(g: Program, nd: Node, q: Question)
    requires
      match nd.stmt
      case Let(x, _) => q == MayDeclare(x)
      case CheckThat(e) => q == IsBool(e)
      case Return(e) => q == IsReturnable(e)
      case Emit(e) => q == IsStruct(e)
      case _ => false
    ensures forall asked, plan, rest :: Todo(asked, plan, Cons(StmtAsks(g, nd), rest)) ==>
      Todo(asked, plan, Cons(ExprAsks(nd.stmt.expr), Cons([q], rest)))
  {
    hide ExprAsks, Todo;
    TodoJoin(ExprAsks(nd.stmt.expr), [q]);
  }

  lemma {:induction false} MatchAsksUnfold(g: Program, nd: Node)
    requires nd.stmt.Match?
    ensures forall asked, plan, rest :: Todo(asked, plan, Cons(StmtAsks(g, nd), rest)) ==>
      Todo(asked, plan, Cons(ExprAsks(nd.stmt.expr),
        Cons(TestsAsks(nd.stmt.arms), Cons(BodiesAsks(g, nd.stmt.arms), rest))))
  {
    hide ExprAsks, TestsAsks, BodiesAsks, Todo;
    TodoJoinThree(ExprAsks(nd.stmt.expr), TestsAsks(nd.stmt.arms), BodiesAsks(g, nd.stmt.arms));
  }

  lemma {:induction false} IfAsksUnfold(g: Program, nd: Node)
    requires nd.stmt.If?
    ensures forall asked, plan, rest :: Todo(asked, plan, Cons(StmtAsks(g, nd), rest)) ==>
      match nd.stmt.fallback
      case NoElse => Todo(asked, plan, Cons(BranchesAsks(g, nd.stmt.branches), rest))
      case Else(ss) => Todo(asked, plan, Cons(BranchesAsks(g, nd.stmt.branches), Cons(StmtsAsks(g, ss), rest)))
  {
    hide BranchesAsks, StmtsAsks, Todo;
    match nd.stmt.fallback
    case NoElse => assert BranchesAsks(g, nd.stmt.branches) + [] == BranchesAsks(g, nd.stmt.branches);
    case Else(ss) => TodoJoin(BranchesAsks(g, nd.stmt.branches), StmtsAsks(g, ss));
  }

  lemma {:induction false} MapAsksUnfold(g: Program, nd: Node)
    requires nd.stmt.Map?
    ensures forall asked, plan, rest :: Todo(asked, plan, Cons(StmtAsks(g, nd), rest)) ==>
      Todo(asked, plan, Cons(FactAsks(nd.stmt.fact),
        Cons([MayDeclare(nd.stmt.name)], Cons(StmtsAsks(g, nd.stmt.body), rest))))
  {
    hide FactAsks, StmtsAsks, Todo;
    TodoJoinThree(FactAsks(nd.stmt.fact), [MayDeclare(nd.stmt.name)], StmtsAsks(g, nd.stmt.body));
  }

  lemma {:induction false} UpdateAsksUnfold(g: Program, nd: Node)
    requires nd.stmt.Update?
    ensures forall asked, plan, rest :: Todo(asked, plan, Cons(StmtAsks(g, nd), rest)) ==>
      Todo(asked, plan, Cons(FactAsks(nd.stmt.fact), Cons(FieldsAsks(nd.stmt.to), rest)))
  {
    hide FactAsks, FieldsAsks, Todo;
    TodoJoin(FactAsks(nd.stmt.fact), FieldsAsks(nd.stmt.to));
  }

  /** The other statements ask what their one part asks. */
  lemma {:induction false} StmtAsksUnfold(g: Program, nd: Node)
    requires
      nd.stmt.DebugAssert? || nd.stmt.Finish? || nd.stmt.ActionCall? || nd.stmt.FinishCall? || nd.stmt.Publish? ||
      nd.stmt.Create? || nd.stmt.Delete?
    ensures StmtAsks(g, nd) ==
      match nd.stmt
      case DebugAssert(e) => if g.debug then ExprAsks(e) else []
      case Finish(body) => StmtsAsks(g, body)
      case ActionCall(_, args) => ArgsAsks(args, 0, true)
      case FinishCall(_, args) => ArgsAsks(args, 0, false)
      case Publish(e) => ExprAsks(e)
      case Create(fact) => FactAsks(fact)
      case Delete(fact) => FactAsks(fact)
      case _ => []
  {
    hide ExprAsks, StmtsAsks, ArgsAsks, FactAsks;
  }

  lemma {:induction false} BranchesAsksUnfold(g: Program, bs: seq<Branch>)
    requires bs != []
    ensures forall asked, plan, rest :: Todo(asked, plan, Cons(BranchesAsks(g, bs), rest)) ==>
      Todo(asked, plan, Cons(ExprAsks(bs[0].cond) + StmtsAsks(g, bs[0].body), Cons(BranchesAsks(g, bs[1..]), rest)))
  {
    hide ExprAsks, StmtsAsks, Todo;
    TodoJoin(ExprAsks(bs[0].cond) + StmtsAsks(g, bs[0].body), BranchesAsks(g, bs[1..]));
  }

  lemma {:induction false} TestsAsksUnfold(arms: seq<Arm>)
    requires arms != []
    ensures forall asked, plan, rest :: Todo(asked, plan, Cons(TestsAsks(arms), rest)) ==>
      match arms[0].pattern
      case Default => Todo(asked, plan, Cons(TestsAsks(arms[1..]), rest))
      case Values(es) => Todo(asked, plan, Cons(ArgsAsks(es, 0, false), Cons(TestsAsks(arms[1..]), rest)))
  {
    hide ArgsAsks, Todo;
    match arms[0].pattern
    case Default => assert [] + TestsAsks(arms[1..]) == TestsAsks(arms[1..]);
    case Values(es) => TodoJoin(ArgsAsks(es, 0, false), TestsAsks(arms[1..]));
  }

  lemma {:induction false} BodiesAsksUnfold(g: Program, arms: seq<Arm>)
    requires arms != []
    ensures forall asked, plan, rest :: Todo(asked, plan, Cons(BodiesAsks(g, arms), rest)) ==>
      Todo(asked, plan, Cons(StmtsAsks(g, arms[0].body), Cons(BodiesAsks(g, arms[1..]), rest)))
  {
    hide StmtsAsks, Todo;
    TodoJoin(StmtsAsks(g, arms[0].body), BodiesAsks(g, arms[1..]));
  }

  lemma {:induction false} NoneAsked(g: Program)
    ensures FieldsAsks([]) == StmtsAsks(g, []) == BranchesAsks(g, []) == TestsAsks([]) == BodiesAsks(g, []) == []
    ensures ParamsAsks([]) == DefinitionsAsks(g, []) == CommandsAsks(g, []) == []
    ensures forall i, checked :: ArgsAsks([], i, checked) == []
  {
  }

  /** The question for the last parameter comes first. */
  lemma {:induction false} ParamsAsksLast(ps: seq<string>, i: nat)
    requires i < |ps|
    ensures ParamsAsks(ps[..i + 1]) == [MayDeclare(ps[i])] + ParamsAsks(ps[..i])
    decreases i
  {
    var qs := ps[..i + 1];
    if i == 0 {
      assert qs[1..] == [] && ps[..0] == [];
    } else {
      ParamsAsksLast(ps[1..], i - 1);
      assert qs[1..] == ps[1..][..i] && ps[..i][1..] == ps[1..][..i - 1];
    }
  }

  lemma {:induction false} DefinitionsAsksUnfold(g: Program, ds: seq<Definition>)
    requires ds != []
    ensures forall asked, plan, rest :: Todo(asked, plan, Cons(DefinitionsAsks(g, ds), rest)) ==>
      Todo(asked, plan, Cons(DefinitionAsks(g, ds[0]), Cons(DefinitionsAsks(g, ds[1..]), rest)))
  {
    hide DefinitionAsks, Todo;
    TodoJoin(DefinitionAsks(g, ds[0]), DefinitionsAsks(g, ds[1..]));
  }

  lemma {:induction false} CommandAsksUnfold(g: Program, c: Command)
    ensures forall asked, plan, rest :: Todo(asked, plan, Cons(CommandAsks(g, c), rest)) ==>
      Todo(asked, plan, Cons(BlockAsks(g, c.policy), Cons(BlockAsks(g, c.recall), Cons(StubsAsks(g, c), rest))))
    ensures forall asked, plan, rest :: Todo(asked, plan, Cons(StubsAsks(g, c), rest)) ==>
      Todo(asked, plan, Cons(StubAsks(g, "this", c.seal), Cons(StubAsks(g, "envelope", c.open), rest)))
  {
    hide BlockAsks, StubAsks, Todo;
    TodoJoinThree(BlockAsks(g, c.policy), BlockAsks(g, c.recall), StubsAsks(g, c));
    TodoJoin(StubAsks(g, "this", c.seal), StubAsks(g, "envelope", c.open));
  }

  lemma {:induction false} CommandsAsksUnfold(g: Program, cs: seq<Command>)
    requires cs != []
    ensures forall asked, plan, rest :: Todo(asked, plan, Cons(CommandsAsks(g, cs), rest)) ==>
      Todo(asked, plan, Cons(CommandAsks(g, cs[0]), Cons(CommandsAsks(g, cs[1..]), rest)))
  {
    hide CommandAsks, Todo;
    TodoJoin(CommandAsks(g, cs[0]), CommandsAsks(g, cs[1..]));
  }

  /** At the start, everything is to be asked. */
  lemma {:induction false} AsksUnfold(g: Program)
    ensures
      Todo([], Asks(g), Cons(DefinitionsAsks(g, g.policy.functions) + DefinitionsAsks(g, g.policy.finishFunctions),
        Cons(CommandsAsks(g, g.policy.commands), Cons(DefinitionsAsks(g, g.policy.actions), Nil))))
  {
    hide DefinitionsAsks, CommandsAsks;
    var a, b := DefinitionsAsks(g, g.policy.functions), DefinitionsAsks(g, g.policy.finishFunctions);
    var c, d := CommandsAsks(g, g.policy.commands), DefinitionsAsks(g, g.policy.actions);
    assert Flat(Cons(d, Nil)) == d;
    assert Flat(Cons(c, Cons(d, Nil))) == c + d;
    assert [] + ((a + b) + (c + d)) == Asks(g);
  }

  // ---- Whole conversations ----

  /** The type checker agrees to everything that compiling the policy asks. */
  ghost predicate WellTyped(g: Program, types: (nat, Question) -> bool) {
    Agreed(types, Asks(g))
  }

  lemma {:induction false} AllSaid(g: Program, types: (nat, Question) -> bool, asked: Talk)
    ensures Heard(asked, Asks(g)) && Denied(types, asked) ==> !WellTyped(g, types)
    ensures Todo(asked, Asks(g), Nil) && Agreed(types, asked) ==> WellTyped(g, types)
  {
    hide Asks;
    assert asked + [] == asked;
  }
}
