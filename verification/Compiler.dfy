/** The policy compiler: one pass that appends symbolic instructions, then links them. */
module Compiler {
  import opened Values
  import opened Ast
  import opened Static
  import opened Layout
  import opened Linking
  import opened CodeMaps
  import opened Branching
  import opened Programs
  import opened Assembly
  import opened Naming
  import opened Asking
  import M = Machine

  datatype CompileError =
    | LabelTaken(target: M.Label)
    | UnknownName(name: string)
    | WrongColor(name: string, finish: bool)
    | SignatureTaken(name: string)
    | BadTarget(target: M.Label)
    | BadType
    | Invalid
    | Unmapped

  datatype Verdict = Fine | Error(error: CompileError) {
    predicate IsFailure() { Error? }
    function PropagateFailure(): Verdict { this }
  }

  ghost predicate Signed(policy: Policy, sigs: map<string, Signature>) {
    forall name :: name in sigs ==>
      CallOk(if sigs[name].finish then policy.finishFunctions else policy.functions, name, sigs[name].arity)
  }

  /** Whether two entries are equal, found by comparing each with all before it. */
  method FindDuplicate<T(==)>(xs: seq<T>) returns (found: bool)
    ensures found <==> !NoRepeats(xs)
  {
    for i := 0 to |xs|
      invariant forall a, b :: 0 <= a < b < i ==> xs[a] != xs[b]
    {
      for j := 0 to i
        invariant forall a :: 0 <= a < j ==> xs[a] != xs[i]
      {
        if xs[i] == xs[j] { return true; }
      }
    }
    return false;
  }

  class CompileState {
    const g: Program
    /** The answers of the type checker, by how many questions came before. */
    const types: (nat, Question) -> bool
    const codemap: CodeMap
    /** Program memory and labels so far. */
    var m: Moment
    var wp: nat
    var c: nat
    /** What was asked so far. */
    var asked: Talk
    var signatures: map<string, Signature>
    var lastLocator: nat
    var context: seq<Site>

    /** The write pointer is the end of memory, every known signature is that of the
        definition a call by this name finds, the labels still to be made up are not in use, and
        nothing asked so far was refused. */
    ghost predicate Ready()
      reads this`m, this`wp, this`c, this`asked, this`signatures
    {
      wp == |m.prog| && Signed(g.policy, signatures) && Clean(g.policy, m.labels, c) && Agreed(types, asked)
    }

    /** Inside a definition, whose place knows the current signatures. */
    ghost predicate Inside()
      reads this`context, this`signatures
    {
      context != [] && At().known == signatures
    }

    /** Besides, the code map accepts the write pointer. */
    ghost predicate Valid()
      reads this, codemap
    {
      Ready() && codemap.Valid() && codemap.Limit() <= wp
    }

    function At(): Site
      requires context != []
      reads this`context
    {
      context[|context| - 1]
    }

    /** Memory ends with `code`, starting at `from`. */
    ghost predicate Has(from: nat, code: Code)
      reads this`m
    {
      from + |code| == |m.prog| && Written(m, from, code)
    }

    /** Why compiling failed: the type checker refused, a finish function is named like a label
        that was made up, or the input breaks a static rule. */
    ghost predicate Justified(error: CompileError, ok: bool)
      reads this`c, this`asked
    {
      match error
      case BadType => Denied(types, asked)
      case LabelTaken(l) => Clash(g.policy, c, l) || !ok
      case BadTarget(_) | Unmapped => false
      case _ => !ok
    }

    /** Success means the checks hold and the code is written; failure has its reason. */
    ghost predicate Did(r: Verdict, ok: bool, from: nat, code: Code)
      reads this`m, this`c, this`asked
    {
      match r
      case Fine => ok && Has(from, code)
      case Error(e) => Justified(e, ok)
    }

    constructor (g: Program, types: (nat, Question) -> bool)
      ensures Valid() && this.g == g && this.types == types && fresh(codemap)
      ensures m == Moment([], map[]) && signatures == map[] && context == [] && c == 0 && asked == []
    {
      this.g := g;
      this.types := types;
      var table := new CodeMap();
      codemap := table;
      m := Moment([], map[]);
      wp := 0;
      c := 0;
      asked := [];
      signatures := map[];
      lastLocator := 0;
      context := [];
    }

    // ---- Primitives ----

    method AppendInstruction(i: M.Instr)
      requires Ready()
      modifies this`m, this`wp
      ensures Ready()
      ensures m == old(m).(prog := old(m).prog + [i])
      ensures forall m0 :: Before(m0, old(m)) ==> Before(m0, m)
    {
      m := m.(prog := m.prog + [i]);
      wp := wp + 1;
    }

    method DefineLabel(l: M.Label, addr: nat) returns (r: Verdict)
      requires Ready() && (Issued(c, l) || Named(g.policy, l))
      modifies this`m
      ensures r == if l in old(m).labels then Error(LabelTaken(l)) else Fine
      ensures m == if l in old(m).labels then old(m) else old(m).(labels := old(m).labels[l := addr])
      ensures Ready() && forall m0 :: Before(m0, old(m)) ==> Before(m0, m)
      ensures Issued(c, l) ==> (r.Fine? <==> Free(old(m).labels, c, l))
      ensures r.Fine? ==> !Free(m.labels, c, l) && forall l' :: l' != l ==>
        (Free(old(m).labels, c, l') <==> Free(m.labels, c, l'))
      ensures r.Fine? && Issued(c, l) ==> forall k: nat :: Ahead(old(m).labels, c, k) <==> Ahead(m.labels, c, k)
      ensures r.Fine? ==>
        forall k: nat :: Ahead(m.labels, c, k) <==> Ahead(old(m).labels, c, k) || (c <= k && Anonymous(k) == l)
    {
      if l in m.labels { return Error(LabelTaken(l)); }
      PutToUse(g.policy, m.labels, c, l, addr);
      m := m.(labels := m.labels[l := addr]);
      return Fine;
    }

    method AnonymousLabel() returns (l: M.Label)
      requires Ready()
      modifies this`c
      ensures Ready() && c == old(c) + 1
      ensures l == Anonymous(old(c)) && forall k: nat :: l == Anonymous(k) ==> k == old(c)
      ensures forall c': nat :: c <= c' ==> Issued(c', l)
      ensures Free(m.labels, c, l) || forall c': nat :: c <= c' ==> Clash(g.policy, c', l)
      ensures Free(m.labels, c, l) <==> !Ahead(m.labels, old(c), old(c))
      ensures !Free(m.labels, old(c), l) && !Ahead(m.labels, c, old(c))
      ensures forall l' :: l' != l ==> (Free(m.labels, old(c), l') <==> Free(m.labels, c, l'))
      ensures forall k: nat :: k != old(c) ==> (Ahead(m.labels, old(c), k) <==> Ahead(m.labels, c, k))
    {
      MadeUp(g.policy, m.labels, c);
      l := Anonymous(c);
      c := c + 1;
    }

    /** Mapping the write pointer never fails: it never moves back. */
    method MapRange(locator: nat) returns (r: Verdict)
      requires Valid()
      modifies this`lastLocator, codemap
      ensures Valid() && r.Fine?
      ensures lastLocator == locator && codemap.log == old(codemap.log) + [Mapped(wp, locator)]
    {
      hide Ready, Replay;
      lastLocator := locator;
      var ok := codemap.MapInstructionRange(wp, locator);
      if !ok { return Error(Unmapped); }
      return Fine;
    }

    method Ask(q: Question) returns (r: Verdict)
      requires Ready()
      modifies this`asked
      ensures asked == old(asked) + [q]
      ensures r == if types(|old(asked)|, q) then Fine else Error(BadType)
      ensures if r.Fine? then Ready() else Denied(types, asked)
      ensures forall plan, rest :: Todo(old(asked), plan, Cons([q], rest)) ==>
        Todo(asked, plan, rest) && Heard(asked, plan)
    {
      hide Signed, Clean;
      TodoAsked(asked, q);
      TodoHeard();
      r := if types(|asked|, q) then Fine else Error(BadType);
      asked := asked + [q];
    }

    // ---- Schema checks ----

    method VerifyFactValues(values: seq<Field>, d: FactDef) returns (r: Verdict)
      ensures r == if ValuesFit(values, d.value) then Fine else Error(Invalid)
    {
      if |values| != |d.value| { return Error(Invalid); }
      for i := 0 to |values|
        invariant forall k :: 0 <= k < i ==> ValueFits(values[k], d.value[k])
      {
        if !ValueFits(values[i], d.value[i]) { return Error(Invalid); }
      }
      return Fine;
    }

    method VerifyFactAgainstSchema(f: FactLiteral, requireValue: bool) returns (r: Verdict)
      ensures r == if FactFitsSchema(g.world, f, requireValue) then Fine else Error(Invalid)
    {
      if f.name !in g.world.facts { return Error(Invalid); }
      var d := g.world.facts[f.name];
      if |f.keys| != |d.key| { return Error(Invalid); }
      for i := 0 to |f.keys|
        invariant forall k :: 0 <= k < i ==> KeyFits(f.keys[k], d.key[k])
      {
        if !KeyFits(f.keys[i], d.key[i]) { return Error(Invalid); }
      }
      match f.values
      case NoValues => r := if requireValue then Error(Invalid) else Fine;
      case GivenValues(values) => r := VerifyFactValues(values, d);
    }

    // ---- Expressions ----

    method CompileExpression(e: Expr) returns (r: Verdict)
      requires Ready() && Inside()
      modifies this`m, this`wp, this`c, this`asked
      ensures forall plan, rest :: Todo(old(asked), plan, Cons(ExprAsks(e), rest)) ==>
        if r.Fine? then Todo(asked, plan, rest) else Heard(asked, plan)
      ensures c <= old(c) + ExprMade(e) && (r.Fine? ==> c == old(c) + ExprMade(e))
      ensures r.Fine? ==> Ready() && forall m0 :: Before(m0, old(m)) ==> Before(m0, m)
      ensures r.Fine? ==> forall l :: Free(old(m).labels, old(c), l) <==> Free(m.labels, c, l)
      ensures r.Fine? ==> forall k: nat :: Ahead(old(m).labels, old(c), k) <==> Ahead(m.labels, c, k)
      ensures Did(r, ExprOk(g, At(), e), old(wp), ExprCode(g, e))
      decreases e, 1
    {
      hide ExprOk, ExprCode, Written, Before, Clean, Free, Ahead, Clash, Issued, Signed, CallOk, FindDefinition,
        Accepted, Replay,
        Anonymous, FactFitsSchema, FinishExpr, ForeignOk, ExprMade, ArgsMade, FieldsMade, FactMade, StmtsMade,
        StmtMade, BranchesMade, TestsMade, BodiesMade, Heard, Todo, Agreed, ExprAsks, InnerAsks, ArgsAsks,
        FieldsAsks, FactAsks, StmtsAsks, StmtAsks, BranchesAsks, TestsAsks, BodiesAsks, ParamsAsks;
      TodoHeard();
      ExprAsksUnfold(e);
      FinishRule(g, At(), e);
      if At().FinishSite? && !FinishExpr(e) { return Error(Invalid); }
      :- Ask(HasType(e));
      match e
      case Literal(_) | EnumReference(_, _) | Identifier(_) => r := CompileLeaf(e);
      case NamedStruct(_, _) => r := CompileStructLiteral(e);
      case FactQuery(_, _) => r := CompileQuery(e);
      case Conditional(_, _, _) => r := CompileConditional(e);
      case FunctionCall(_, _) => r := CompileFunctionCall(e);
      case ForeignCall(_, _, _) => r := CompileForeignCall(e);
      case Unary(_, _) => r := CompileUnary(e);
      case Binary(_, _, _) => r := CompileBinary(e);
    }

    /** Constants and names. */
    method CompileLeaf(e: Expr) returns (r: Verdict)
      requires Ready() && Inside() && (e.Literal? || e.EnumReference? || e.Identifier?) &&
        (At().FinishSite? ==> FinishExpr(e))
      modifies this`m, this`wp, this`c, this`asked
      ensures forall plan, rest :: Todo(old(asked), plan, Cons(InnerAsks(e), rest)) ==>
        if r.Fine? then Todo(asked, plan, rest) else Heard(asked, plan)
      ensures c <= old(c) + ExprMade(e) && (r.Fine? ==> c == old(c) + ExprMade(e))
      ensures r.Fine? ==> Ready() && forall m0 :: Before(m0, old(m)) ==> Before(m0, m)
      ensures r.Fine? ==> forall l :: Free(old(m).labels, old(c), l) <==> Free(m.labels, c, l)
      ensures r.Fine? ==> forall k: nat :: Ahead(old(m).labels, old(c), k) <==> Ahead(m.labels, c, k)
      ensures Did(r, ExprOk(g, At(), e), old(wp), ExprCode(g, e))
    {
      hide Written, Before, Clean, Free, Ahead, Clash, Issued, Signed, ExprMade, ArgsMade, FieldsMade, FactMade,
        StmtsMade, StmtMade, BranchesMade, TestsMade, BodiesMade, Heard, Todo, Agreed, ExprAsks, InnerAsks, ArgsAsks,
        FieldsAsks, FactAsks, StmtsAsks, StmtAsks, BranchesAsks, TestsAsks, BodiesAsks, ParamsAsks;
      TodoHeard();
      TodoNone();
      InnerAsksUnfold(e);
      ExprMadeUnfold(e);
      match e
      case Literal(v) =>
        AppendInstruction(M.Const(v));
        Single(m, old(wp), I(M.Const(v)));
        return Fine;
      case EnumReference(t, v) =>
        :- Ask(IsVariant(t, v));
        AppendInstruction(M.Const(EnumV(t, v)));
        Single(m, old(wp), I(M.Const(EnumV(t, v))));
        return Fine;
      case Identifier(x) =>
        AppendInstruction(M.Meta(M.GetMark(x)));
        ghost var m1 := m;
        Reflexive(m1);
        Single(m1, old(wp), I(M.Meta(M.GetMark(x))));
        AppendInstruction(M.Get(x));
        AppendOne(m1, m, old(wp), [I(M.Meta(M.GetMark(x)))], I(M.Get(x)));
        assert [I(M.Meta(M.GetMark(x)))] + [I(M.Get(x))] == ExprCode(g, e);
        return Fine;
    }

    /** What runs when the condition is false, between the branch to the rest and the jump to the
        end. */
    method CompileOtherwise(e: Expr, elseName: M.Label, endName: M.Label) returns (r: Verdict)
      requires Ready() && Inside() && (forall c': nat :: c <= c' ==> Issued(c', elseName))
      requires Free(m.labels, c, elseName) || forall c': nat :: c <= c' ==> Clash(g.policy, c', elseName)
      modifies this`m, this`wp, this`c, this`asked
      ensures forall plan, rest :: Todo(old(asked), plan, Cons(ExprAsks(e), rest)) ==>
        if r.Fine? then Todo(asked, plan, rest) else Heard(asked, plan)
      ensures c <= old(c) + ExprMade(e) && (r.Fine? ==> c == old(c) + ExprMade(e))
      ensures r.Fine? ==> Ready() && forall m0 :: Before(m0, old(m)) ==> Before(m0, m)
      ensures r.Fine? ==> Free(old(m).labels, old(c), elseName)
      ensures r.Fine? ==> forall l :: Free(m.labels, c, l) <==> Free(old(m).labels, old(c), l) && l != elseName
      ensures r.Fine? ==> forall k: nat :: Ahead(old(m).labels, old(c), k) <==> Ahead(m.labels, c, k)
      ensures Did(r, ExprOk(g, At(), e), old(wp), SymOtherwise(g, e, elseName, endName))
      ensures r.Fine? ==> elseName in m.labels && m.labels[elseName] == wp
      decreases e, 2
    {
      hide Written, Before, Clean, Free, Ahead, Clash, Issued, Signed, Denied, ExprOk, ExprCode, ExprMade, Heard, Todo,
        Agreed, ExprAsks;
      TodoHeard();
      AppendInstruction(M.Branch(M.Unresolved(elseName)));
      ghost var m1 := m;
      Reflexive(m1);
      Single(m1, old(wp), BranchTo(elseName));
      :- CompileExpression(e);
      ghost var m2 := m;
      Reflexive(m2);
      AppendInstruction(M.Jump(M.Unresolved(endName)));
      :- DefineLabel(elseName, wp);
      Between(m1, m2, m, old(wp), [BranchTo(elseName)], ExprCode(g, e), JumpTo(endName));
      return Fine;
    }

    method CompileConditional(e: Expr) returns (r: Verdict)
      requires Ready() && Inside() && e.Conditional? && (At().FinishSite? ==> FinishExpr(e))
      modifies this`m, this`wp, this`c, this`asked
      ensures forall plan, rest :: Todo(old(asked), plan, Cons(InnerAsks(e), rest)) ==>
        if r.Fine? then Todo(asked, plan, rest) else Heard(asked, plan)
      ensures c <= old(c) + ExprMade(e) && (r.Fine? ==> c == old(c) + ExprMade(e))
      ensures r.Fine? ==> Ready() && forall m0 :: Before(m0, old(m)) ==> Before(m0, m)
      ensures r.Fine? ==> forall l :: Free(old(m).labels, old(c), l) <==> Free(m.labels, c, l)
      ensures r.Fine? ==> forall k: nat :: Ahead(old(m).labels, old(c), k) <==> Ahead(m.labels, c, k)
      ensures Did(r, ExprOk(g, At(), e), old(wp), ExprCode(g, e))
      decreases e, 0
    {
      hide Written, Before, Clean, Free, Ahead, Clash, Issued, Signed, Denied, Anonymous, FinishExpr, ExprOk, ExprCode,
        ExprMade, Heard, Todo, Agreed, ExprAsks, InnerAsks, SymOtherwise;
      TodoHeard();
      ConditionalAsksUnfold(e);
      ExprMadeUnfold(e);
      ConditionalUnfold(g, At(), e);
      var elseName := AnonymousLabel();
      var endName := AnonymousLabel();
      :- CompileExpression(e.cond);
      ghost var m1 := m;
      Reflexive(m1);
      :- CompileOtherwise(e.no, elseName, endName);
      ghost var m2 := m;
      Reflexive(m2);
      :- CompileExpression(e.yes);
      ghost var m3 := m;
      Reflexive(m3);
      :- DefineLabel(endName, wp);
      ConditionalWritten(g, e, old(wp), m1, m2, m3, m, elseName, endName);
      return Fine;
    }

    /** Arguments in order; those of an action call are also checked against its parameters. */
    method CompileArguments(es: seq<Expr>, checked: bool) returns (r: Verdict)
      requires Ready() && Inside()
      modifies this`m, this`wp, this`c, this`asked
      ensures forall plan, rest :: Todo(old(asked), plan, Cons(ArgsAsks(es, 0, checked), rest)) ==>
        if r.Fine? then Todo(asked, plan, rest) else Heard(asked, plan)
      ensures c <= old(c) + ArgsMade(es) && (r.Fine? ==> c == old(c) + ArgsMade(es))
      ensures r.Fine? ==> Ready() && forall m0 :: Before(m0, old(m)) ==> Before(m0, m)
      ensures r.Fine? ==> forall l :: Free(old(m).labels, old(c), l) <==> Free(m.labels, c, l)
      ensures r.Fine? ==> forall k: nat :: Ahead(old(m).labels, old(c), k) <==> Ahead(m.labels, c, k)
      ensures Did(r, ArgsOk(g, At(), es), old(wp), ArgsCode(g, es))
      decreases es, 0
    {
      hide Written, Before, Clean, Free, Ahead, Clash, Issued, Signed, ExprOk, ExprCode, ExprMade, ArgsMade,
        FieldsMade, FactMade, StmtsMade, StmtMade, BranchesMade, TestsMade, BodiesMade, Heard, Todo, Agreed,
        ExprAsks, InnerAsks, ArgsAsks, FieldsAsks, FactAsks, StmtsAsks, StmtAsks, BranchesAsks, TestsAsks,
        BodiesAsks, ParamsAsks;
      TodoHeard();
      NoneAsked(g);
      TodoNone();
      ghost var done: Code := [];
      assert es[0..] == es;
      assert Written(m, wp, []) by { Straight(m, wp, []); }
      for i := 0 to |es|
        invariant forall plan, rest :: Todo(old(asked), plan, Cons(ArgsAsks(es, 0, checked), rest)) ==>
          Todo(asked, plan, Cons(ArgsAsks(es[i..], i, checked), rest))
        invariant Ready() && forall m0 :: Before(m0, old(m)) ==> Before(m0, m)
        invariant forall l :: Free(old(m).labels, old(c), l) <==> Free(m.labels, c, l)
        invariant forall k: nat :: Ahead(old(m).labels, old(c), k) <==> Ahead(m.labels, c, k)
        invariant c + ArgsMade(es[i..]) == old(c) + ArgsMade(es)
        invariant Has(old(wp), done) && ArgsCode(g, es) == done + ArgsCode(g, es[i..])
        invariant ArgsOk(g, At(), es) <==> ArgsOk(g, At(), es[i..])
      {
        ghost var m1, code := m, ExprCode(g, es[i]);
        ArgsMadeUnfold(es[i..]);
        assert es[i..][0] == es[i] && es[i..][1..] == es[i + 1..];
        ArgsAsksUnfold(es[i..], i, checked);
        :- CompileExpression(es[i]);
        if checked { :- Ask(IsArgument(i, es[i])); }
        Reflexive(m1);
        Append(m1, m, old(wp), done, code);
        assert (done + code) + ArgsCode(g, es[i + 1..]) == done + (code + ArgsCode(g, es[i + 1..]));
        done := done + code;
      }
      ArgsMadeUnfold([]);
      assert es[|es|..] == [] && done + [] == done;
      return Fine;
    }

    method CompileField(kind: Member, name: string, e: Expr) returns (r: Verdict)
      requires Ready() && Inside()
      modifies this`m, this`wp, this`c, this`asked
      ensures forall plan, rest :: Todo(old(asked), plan, Cons(ExprAsks(e), rest)) ==>
        if r.Fine? then Todo(asked, plan, rest) else Heard(asked, plan)
      ensures c <= old(c) + ExprMade(e) && (r.Fine? ==> c == old(c) + ExprMade(e))
      ensures r.Fine? ==> Ready() && forall m0 :: Before(m0, old(m)) ==> Before(m0, m)
      ensures r.Fine? ==> forall l :: Free(old(m).labels, old(c), l) <==> Free(m.labels, c, l)
      ensures r.Fine? ==> forall k: nat :: Ahead(old(m).labels, old(c), k) <==> Ahead(m.labels, c, k)
      ensures Did(r, ExprOk(g, At(), e), old(wp), ExprCode(g, e) + [I(SetterInstr(kind, name))])
      decreases e, 2
    {
      hide Written, Before, Clean, Free, Ahead, Clash, Issued, Signed, ExprOk, ExprCode, ExprMade, ArgsMade,
        FieldsMade, FactMade, StmtsMade, StmtMade, BranchesMade, TestsMade, BodiesMade, Heard, Todo, Agreed,
        ExprAsks, InnerAsks, ArgsAsks, FieldsAsks, FactAsks, StmtsAsks, StmtAsks, BranchesAsks, TestsAsks,
        BodiesAsks, ParamsAsks;
      TodoHeard();
      :- CompileExpression(e);
      ghost var m1 := m;
      Reflexive(m1);
      AppendInstruction(SetterInstr(kind, name));
      AppendOne(m1, m, old(wp), ExprCode(g, e), I(SetterInstr(kind, name)));
      return Fine;
    }

    /** Members of a struct or fact, each value followed by its setter. Bind markers are skipped
        unless the construct has no use for them. */
    method CompileFields(kind: Member, fs: seq<Field>, strict: bool) returns (r: Verdict)
      requires Ready() && Inside()
      modifies this`m, this`wp, this`c, this`asked
      ensures forall plan, rest :: Todo(old(asked), plan, Cons(FieldsAsks(fs), rest)) ==>
        if r.Fine? then Todo(asked, plan, rest) else Heard(asked, plan)
      ensures c <= old(c) + FieldsMade(fs) && (r.Fine? ==> c == old(c) + FieldsMade(fs))
      ensures r.Fine? ==> Ready() && forall m0 :: Before(m0, old(m)) ==> Before(m0, m)
      ensures r.Fine? ==> forall l :: Free(old(m).labels, old(c), l) <==> Free(m.labels, c, l)
      ensures r.Fine? ==> forall k: nat :: Ahead(old(m).labels, old(c), k) <==> Ahead(m.labels, c, k)
      ensures Did(r, FieldsOk(g, At(), fs) && (strict ==> NoBinds(fs)), old(wp), FieldsCode(g, kind, fs))
      decreases fs, 0
    {
      hide Written, Before, Clean, Free, Ahead, Clash, Issued, Signed, ExprOk, ExprCode, FieldsOk, FieldsCode,
        ExprMade, ArgsMade, FieldsMade, FactMade, StmtsMade, StmtMade, BranchesMade, TestsMade, BodiesMade, Heard,
        Todo, Agreed, ExprAsks, InnerAsks, ArgsAsks, FieldsAsks, FactAsks, StmtsAsks, StmtAsks, BranchesAsks,
        TestsAsks, BodiesAsks, ParamsAsks;
      TodoHeard();
      NoneAsked(g);
      TodoNone();
      ghost var done: Code := [];
      assert Written(m, wp, []) by { Straight(m, wp, []); }
      assert fs[0..] == fs;
      for i := 0 to |fs|
        invariant forall plan, rest :: Todo(old(asked), plan, Cons(FieldsAsks(fs), rest)) ==>
          Todo(asked, plan, Cons(FieldsAsks(fs[i..]), rest))
        invariant Ready() && forall m0 :: Before(m0, old(m)) ==> Before(m0, m)
        invariant forall l :: Free(old(m).labels, old(c), l) <==> Free(m.labels, c, l)
        invariant forall k: nat :: Ahead(old(m).labels, old(c), k) <==> Ahead(m.labels, c, k)
        invariant c + FieldsMade(fs[i..]) == old(c) + FieldsMade(fs)
        invariant Has(old(wp), done) && FieldsCode(g, kind, fs) == done + FieldsCode(g, kind, fs[i..])
        invariant FieldsOk(g, At(), fs) <==> FieldsOk(g, At(), fs[i..])
        invariant strict ==> forall k :: 0 <= k < i ==> fs[k].value.Given?
      {
        ghost var m1, rest := m, FieldsCode(g, kind, fs[i + 1..]);
        assert fs[i..][0] == fs[i] && fs[i..][1..] == fs[i + 1..];
        FieldsUnfold(g, At(), kind, fs[i..]);
        FieldsMadeUnfold(fs[i..]);
        FieldsAsksUnfold(fs[i..]);
        match fs[i].value
        case Bind =>
          assert done + ([] + rest) == done + rest;
          if strict { return Error(Invalid); }
        case Given(e) =>
          ghost var code := ExprCode(g, e) + [I(SetterInstr(kind, fs[i].name))];
          :- CompileField(kind, fs[i].name, e);
          Reflexive(m1);
          Append(m1, m, old(wp), done, code);
          assert (done + code) + rest == done + (code + rest);
          done := done + code;
      }
      FieldsUnfold(g, At(), kind, []);
      FieldsMadeUnfold([]);
      assert fs[|fs|..] == [] && done + [] == done;
      return Fine;
    }

    method CompileStructLiteral(e: Expr) returns (r: Verdict)
      requires Ready() && Inside() && e.NamedStruct? && (At().FinishSite? ==> FinishExpr(e))
      modifies this`m, this`wp, this`c, this`asked
      ensures forall plan, rest :: Todo(old(asked), plan, Cons(InnerAsks(e), rest)) ==>
        if r.Fine? then Todo(asked, plan, rest) else Heard(asked, plan)
      ensures c <= old(c) + ExprMade(e) && (r.Fine? ==> c == old(c) + ExprMade(e))
      ensures r.Fine? ==> Ready() && forall m0 :: Before(m0, old(m)) ==> Before(m0, m)
      ensures r.Fine? ==> forall l :: Free(old(m).labels, old(c), l) <==> Free(m.labels, c, l)
      ensures r.Fine? ==> forall k: nat :: Ahead(old(m).labels, old(c), k) <==> Ahead(m.labels, c, k)
      ensures Did(r, ExprOk(g, At(), e), old(wp), ExprCode(g, e))
      decreases e, 0
    {
      hide Written, Before, Clean, Free, Ahead, Clash, Issued, Signed, FieldsOk, FieldsCode, ExprOk, ExprCode,
        FinishExpr, ExprMade, ArgsMade, FieldsMade, FactMade, StmtsMade, StmtMade, BranchesMade, TestsMade,
        BodiesMade, Heard, Todo, Agreed, ExprAsks, InnerAsks, ArgsAsks, FieldsAsks, FactAsks, StmtsAsks, StmtAsks,
        BranchesAsks, TestsAsks, BodiesAsks, ParamsAsks;
      TodoHeard();
      InnerAsksUnfold(e);
      ExprMadeUnfold(e);
      StructLiteralUnfold(g, At(), e);
      if e.name !in g.world.structs { return Error(Invalid); }
      AppendInstruction(M.StructNew(e.name));
      ghost var m1 := m;
      Reflexive(m1);
      Single(m, old(wp), I(M.StructNew(e.name)));
      :- CompileFields(StructMember, e.fields, true);
      Append(m1, m, old(wp), [I(M.StructNew(e.name))], FieldsCode(g, StructMember, e.fields));
      return Fine;
    }

    method CompileFactLiteral(f: FactLiteral) returns (r: Verdict)
      requires Ready() && Inside()
      modifies this`m, this`wp, this`c, this`asked
      ensures forall plan, rest :: Todo(old(asked), plan, Cons(FactAsks(f), rest)) ==>
        if r.Fine? then Todo(asked, plan, rest) else Heard(asked, plan)
      ensures c <= old(c) + FactMade(f) && (r.Fine? ==> c == old(c) + FactMade(f))
      ensures r.Fine? ==> Ready() && forall m0 :: Before(m0, old(m)) ==> Before(m0, m)
      ensures r.Fine? ==> forall l :: Free(old(m).labels, old(c), l) <==> Free(m.labels, c, l)
      ensures r.Fine? ==> forall k: nat :: Ahead(old(m).labels, old(c), k) <==> Ahead(m.labels, c, k)
      ensures Did(r, FactOk(g, At(), f), old(wp), FactCode(g, f))
      decreases f, 0
    {
      hide Written, Before, Clean, Free, Ahead, Clash, Issued, Signed, FieldsOk, FieldsCode, ExprMade, ArgsMade,
        FieldsMade, FactMade, StmtsMade, StmtMade, BranchesMade, TestsMade, BodiesMade, Heard, Todo, Agreed,
        ExprAsks, InnerAsks, ArgsAsks, FieldsAsks, FactAsks, StmtsAsks, StmtAsks, BranchesAsks, TestsAsks,
        BodiesAsks, ParamsAsks;
      TodoHeard();
      TodoNone();
      FactAsksUnfold(f);
      FactMadeUnfold(f);
      AppendInstruction(M.FactNew(f.name));
      ghost var m1 := m;
      Reflexive(m1);
      Single(m, old(wp), I(M.FactNew(f.name)));
      :- CompileFields(KeyMember, f.keys, false);
      ghost var m2, keys := m, FieldsCode(g, KeyMember, f.keys);
      Reflexive(m2);
      Append(m1, m2, old(wp), [I(M.FactNew(f.name))], keys);
      match f.values {
      case NoValues =>
        assert keys + [] == keys;
      case GivenValues(fs) =>
        :- CompileFields(ValueMember, fs, false);
        ghost var values := FieldsCode(g, ValueMember, fs);
        Append(m2, m, old(wp), [I(M.FactNew(f.name))] + keys, values);
        assert ([I(M.FactNew(f.name))] + keys) + values == [I(M.FactNew(f.name))] + (keys + values);
      }
      return Fine;
    }

    /** The instructions that turn a fact on the stack into the answer to a query. */
    method AppendQuery(kind: QueryKind) returns (r: Verdict)
      requires Ready()
      modifies this`m, this`wp
      ensures r.Fine? ==> Ready() && forall m0 :: Before(m0, old(m)) ==> Before(m0, m)
      ensures r.Fine? ==> m == old(m).(prog := old(m).prog + QueryInstrs(kind))
      ensures r == if (kind.AtMost? || kind.Exactly?) && kind.limit >= MAX_INT then Error(Invalid) else Fine
    {
      match kind {
      case Query =>
        AppendInstruction(M.Query);
      case Exists =>
        AppendInstruction(M.Query);
        AppendInstruction(M.Const(NoneV));
        AppendInstruction(M.Eq);
        AppendInstruction(M.Not);
      case UpTo(limit) =>
        AppendInstruction(M.FactCount(limit));
      case AtLeast(limit) =>
        AppendInstruction(M.FactCount(limit));
        AppendInstruction(M.Const(IntV(limit)));
        AppendInstruction(M.Lt);
        AppendInstruction(M.Not);
      case AtMost(limit) =>
        if limit >= MAX_INT { return Error(Invalid); }
        AppendInstruction(M.FactCount(limit + 1));
        AppendInstruction(M.Const(IntV(limit)));
        AppendInstruction(M.Gt);
        AppendInstruction(M.Not);
      case Exactly(limit) =>
        if limit >= MAX_INT { return Error(Invalid); }
        AppendInstruction(M.FactCount(limit + 1));
        AppendInstruction(M.Const(IntV(limit)));
        AppendInstruction(M.Eq);
      }
      return Fine;
    }

    method CompileQuery(e: Expr) returns (r: Verdict)
      requires Ready() && Inside() && e.FactQuery? && (At().FinishSite? ==> FinishExpr(e))
      modifies this`m, this`wp, this`c, this`asked
      ensures forall plan, rest :: Todo(old(asked), plan, Cons(InnerAsks(e), rest)) ==>
        if r.Fine? then Todo(asked, plan, rest) else Heard(asked, plan)
      ensures c <= old(c) + ExprMade(e) && (r.Fine? ==> c == old(c) + ExprMade(e))
      ensures r.Fine? ==> Ready() && forall m0 :: Before(m0, old(m)) ==> Before(m0, m)
      ensures r.Fine? ==> forall l :: Free(old(m).labels, old(c), l) <==> Free(m.labels, c, l)
      ensures r.Fine? ==> forall k: nat :: Ahead(old(m).labels, old(c), k) <==> Ahead(m.labels, c, k)
      ensures Did(r, ExprOk(g, At(), e), old(wp), ExprCode(g, e))
      decreases e, 0
    {
      hide Written, Before, Clean, Free, Ahead, Clash, Issued, Signed, FactOk, FactCode, FactFitsSchema, ExprOk,
        ExprCode, FinishExpr, ExprMade, ArgsMade, FieldsMade, FactMade, StmtsMade, StmtMade, BranchesMade, TestsMade,
        BodiesMade, Heard, Todo, Agreed, ExprAsks, InnerAsks, ArgsAsks, FieldsAsks, FactAsks, StmtsAsks, StmtAsks,
        BranchesAsks, TestsAsks, BodiesAsks, ParamsAsks;
      TodoHeard();
      InnerAsksUnfold(e);
      ExprMadeUnfold(e);
      QueryUnfold(g, At(), e);
      if !e.kind.Query? && !e.kind.Exists? && e.kind.limit <= 0 { return Error(Invalid); }
      :- VerifyFactAgainstSchema(e.fact, false);
      :- CompileFactLiteral(e.fact);
      ghost var m1 := m;
      Reflexive(m1);
      :- AppendQuery(e.kind);
      AppendPlain(m1, m, old(wp), FactCode(g, e.fact), QueryInstrs(e.kind));
      return Fine;
    }

    method CompileFunctionCall(e: Expr) returns (r: Verdict)
      requires Ready() && Inside() && e.FunctionCall? && (At().FinishSite? ==> FinishExpr(e))
      modifies this`m, this`wp, this`c, this`asked
      ensures forall plan, rest :: Todo(old(asked), plan, Cons(InnerAsks(e), rest)) ==>
        if r.Fine? then Todo(asked, plan, rest) else Heard(asked, plan)
      ensures c <= old(c) + ExprMade(e) && (r.Fine? ==> c == old(c) + ExprMade(e))
      ensures r.Fine? ==> Ready() && forall m0 :: Before(m0, old(m)) ==> Before(m0, m)
      ensures r.Fine? ==> forall l :: Free(old(m).labels, old(c), l) <==> Free(m.labels, c, l)
      ensures r.Fine? ==> forall k: nat :: Ahead(old(m).labels, old(c), k) <==> Ahead(m.labels, c, k)
      ensures Did(r, ExprOk(g, At(), e), old(wp), ExprCode(g, e))
      decreases e, 0
    {
      hide Written, Before, Clean, Free, Ahead, Clash, Issued, ArgsOk, ArgsCode, FindDefinition, ExprOk, ExprCode,
        FinishExpr, ExprMade, ArgsMade, FieldsMade, FactMade, StmtsMade, StmtMade, BranchesMade, TestsMade,
        BodiesMade, Heard, Todo, Agreed, ExprAsks, InnerAsks, ArgsAsks, FieldsAsks, FactAsks, StmtsAsks, StmtAsks,
        BranchesAsks, TestsAsks, BodiesAsks, ParamsAsks;
      TodoHeard();
      InnerAsksUnfold(e);
      ExprMadeUnfold(e);
      FunctionCallUnfold(g, At(), e);
      if e.name !in signatures { return Error(UnknownName(e.name)); }
      if signatures[e.name].finish { return Error(WrongColor(e.name, true)); }
      if signatures[e.name].arity != |e.args| { return Error(Invalid); }
      :- CompileArguments(e.args, false);
      ghost var m1 := m;
      Reflexive(m1);
      AppendInstruction(M.Call(M.Unresolved(M.Label(e.name, M.FunctionLabel))));
      AppendOne(m1, m, old(wp), ArgsCode(g, e.args), CallTo(M.Label(e.name, M.FunctionLabel)));
      return Fine;
    }

    /** The module and procedure a foreign call names, if it fits its signature. */
    method FindForeign(mod: string, name: string, arity: nat) returns (r: Verdict, mi: nat, pi: nat)
      ensures r == if ForeignOk(g.world, mod, name, arity) then Fine else Error(Invalid)
      ensures r.Fine? ==> (mi, pi) == ForeignIndex(g.world, mod, name)
    {
      hide FindModule, FindProcedure, Heard, Todo, Agreed, ExprAsks, InnerAsks, ArgsAsks, FieldsAsks, FactAsks,
        StmtsAsks, StmtAsks, BranchesAsks, TestsAsks, BodiesAsks, ParamsAsks;
      var m := FindModule(g.world.ffi, mod);
      if m.None? || m.value >= |g.world.ffi| { return Error(Invalid), 0, 0; }
      var p := FindProcedure(g.world.ffi[m.value].procedures, name);
      if p.None? || p.value >= |g.world.ffi[m.value].procedures| { return Error(Invalid), 0, 0; }
      if g.world.ffi[m.value].procedures[p.value].arity != arity { return Error(Invalid), 0, 0; }
      return Fine, m.value, p.value;
    }

    method CompileForeignBody(args: seq<Expr>, mi: nat, pi: nat) returns (r: Verdict)
      requires Ready() && Inside()
      modifies this`m, this`wp, this`c, this`asked
      ensures forall plan, rest :: Todo(old(asked), plan, Cons(ArgsAsks(args, 0, false), rest)) ==>
        if r.Fine? then Todo(asked, plan, rest) else Heard(asked, plan)
      ensures c <= old(c) + ArgsMade(args) && (r.Fine? ==> c == old(c) + ArgsMade(args))
      ensures r.Fine? ==> Ready() && forall m0 :: Before(m0, old(m)) ==> Before(m0, m)
      ensures r.Fine? ==> forall l :: Free(old(m).labels, old(c), l) <==> Free(m.labels, c, l)
      ensures r.Fine? ==> forall k: nat :: Ahead(old(m).labels, old(c), k) <==> Ahead(m.labels, c, k)
      ensures Did(r, ArgsOk(g, At(), args), old(wp), ArgsCode(g, args) + [I(M.ExtCall(mi, pi))])
      decreases args, 1
    {
      hide Written, Before, Clean, Free, Ahead, Clash, Issued, Signed, ArgsOk, ArgsCode, ExprMade, ArgsMade,
        FieldsMade, FactMade, StmtsMade, StmtMade, BranchesMade, TestsMade, BodiesMade, Heard, Todo, Agreed,
        ExprAsks, InnerAsks, ArgsAsks, FieldsAsks, FactAsks, StmtsAsks, StmtAsks, BranchesAsks, TestsAsks,
        BodiesAsks, ParamsAsks;
      TodoHeard();
      :- CompileArguments(args, false);
      ghost var m1 := m;
      Reflexive(m1);
      AppendInstruction(M.ExtCall(mi, pi));
      AppendOne(m1, m, old(wp), ArgsCode(g, args), I(M.ExtCall(mi, pi)));
      return Fine;
    }

    method CompileForeignCall(e: Expr) returns (r: Verdict)
      requires Ready() && Inside() && e.ForeignCall? && (At().FinishSite? ==> FinishExpr(e))
      modifies this`m, this`wp, this`c, this`asked
      ensures forall plan, rest :: Todo(old(asked), plan, Cons(InnerAsks(e), rest)) ==>
        if r.Fine? then Todo(asked, plan, rest) else Heard(asked, plan)
      ensures c <= old(c) + ExprMade(e) && (r.Fine? ==> c == old(c) + ExprMade(e))
      ensures r.Fine? ==> Ready() && forall m0 :: Before(m0, old(m)) ==> Before(m0, m)
      ensures r.Fine? ==> forall l :: Free(old(m).labels, old(c), l) <==> Free(m.labels, c, l)
      ensures r.Fine? ==> forall k: nat :: Ahead(old(m).labels, old(c), k) <==> Ahead(m.labels, c, k)
      ensures Did(r, ExprOk(g, At(), e), old(wp), ExprCode(g, e))
      decreases e, 0
    {
      hide Written, Before, Clean, Free, Ahead, Clash, Issued, Signed, ArgsOk, ArgsCode, FindModule, FindProcedure,
        ForeignOk, ForeignIndex, ExprOk, ExprCode, FinishExpr, ExprMade, ArgsMade, FieldsMade, FactMade, StmtsMade,
        StmtMade, BranchesMade, TestsMade, BodiesMade, Heard, Todo, Agreed, ExprAsks, InnerAsks, ArgsAsks,
        FieldsAsks, FactAsks, StmtsAsks, StmtAsks, BranchesAsks, TestsAsks, BodiesAsks, ParamsAsks;
      TodoHeard();
      ForeignAsksUnfold(e);
      ExprMadeUnfold(e);
      ForeignCallUnfold(g, At(), e);
      :- Ask(IsImported(e.mod));
      AppendInstruction(M.Meta(M.FfiMark(e.mod, e.name)));
      ghost var m1, mark := m, [I(M.Meta(M.FfiMark(e.mod, e.name)))];
      Reflexive(m1);
      Single(m1, old(wp), mark[0]);
      var q, mi, pi := FindForeign(e.mod, e.name, |e.args|);
      if q.Error? { return q; }
      :- CompileForeignBody(e.args, mi, pi);
      Append(m1, m, old(wp), mark, ArgsCode(g, e.args) + [I(M.ExtCall(mi, pi))]);
      return Fine;
    }

    /** What follows the operand of a unary operator without a branch. */
    method AppendUnary(op: UnaryOp)
      requires Ready() && !op.Unwrap? && !op.CheckUnwrap?
      modifies this`m, this`wp
      ensures Ready() && forall m0 :: Before(m0, old(m)) ==> Before(m0, m)
      ensures m == old(m).(prog := old(m).prog + UnaryInstrs(op))
    {
      match op
      case Negative =>
        AppendInstruction(M.Const(IntV(0)));
        AppendInstruction(M.Swap(1));
        AppendInstruction(M.Sub);
      case Not =>
        AppendInstruction(M.Not);
      case IsSome =>
        AppendInstruction(M.Const(NoneV));
        AppendInstruction(M.Eq);
        AppendInstruction(M.Not);
      case IsNone =>
        AppendInstruction(M.Const(NoneV));
        AppendInstruction(M.Eq);
      case Dot(field) =>
        AppendInstruction(M.StructGet(field));
      case Serialize =>
        AppendInstruction(M.Serialize);
      case Deserialize =>
        AppendInstruction(M.Deserialize);
      case _ =>
    }

    method CompileUnary(e: Expr) returns (r: Verdict)
      requires Ready() && Inside() && e.Unary? && (At().FinishSite? ==> FinishExpr(e))
      modifies this`m, this`wp, this`c, this`asked
      ensures forall plan, rest :: Todo(old(asked), plan, Cons(InnerAsks(e), rest)) ==>
        if r.Fine? then Todo(asked, plan, rest) else Heard(asked, plan)
      ensures c <= old(c) + ExprMade(e) && (r.Fine? ==> c == old(c) + ExprMade(e))
      ensures r.Fine? ==> Ready() && forall m0 :: Before(m0, old(m)) ==> Before(m0, m)
      ensures r.Fine? ==> forall l :: Free(old(m).labels, old(c), l) <==> Free(m.labels, c, l)
      ensures r.Fine? ==> forall k: nat :: Ahead(old(m).labels, old(c), k) <==> Ahead(m.labels, c, k)
      ensures Did(r, ExprOk(g, At(), e), old(wp), ExprCode(g, e))
      decreases e, 0
    {
      hide Written, Before, Clean, Free, Ahead, Clash, Issued, Signed, ExprOk, ExprCode, FinishExpr, ExprMade,
        ArgsMade, FieldsMade, FactMade, StmtsMade, StmtMade, BranchesMade, TestsMade, BodiesMade, Heard, Todo,
        Agreed, ExprAsks, InnerAsks, ArgsAsks, FieldsAsks, FactAsks, StmtsAsks, StmtAsks, BranchesAsks, TestsAsks,
        BodiesAsks, ParamsAsks;
      TodoHeard();
      InnerAsksUnfold(e);
      ExprMadeUnfold(e);
      UnaryUnfold(g, At(), e);
      if (e.uop.Serialize? || e.uop.Deserialize?) && !At().FunctionSite? { return Error(Invalid); }
      if e.uop.Unwrap? {
        r := CompileUnwrap(e.arg, Panic);
      } else if e.uop.CheckUnwrap? {
        r := CompileUnwrap(e.arg, Check);
      } else {
        :- CompileExpression(e.arg);
        ghost var m1 := m;
        Reflexive(m1);
        AppendUnary(e.uop);
        AppendPlain(m1, m, old(wp), ExprCode(g, e.arg), UnaryInstrs(e.uop));
        return Fine;
      }
    }

    /** Pushes whether the value on top is present. */
    method AppendPresenceTest()
      requires Ready()
      modifies this`m, this`wp
      ensures Ready() && forall m0 :: Before(m0, old(m)) ==> Before(m0, m)
      ensures m == old(m).(prog := old(m).prog + [M.Dup(0), M.Const(NoneV), M.Eq, M.Not])
    {
      AppendInstruction(M.Dup(0));
      AppendInstruction(M.Const(NoneV));
      AppendInstruction(M.Eq);
      AppendInstruction(M.Not);
    }

    method CompileUnwrap(e: Expr, reason: ExitReason) returns (r: Verdict)
      requires Ready() && Inside()
      modifies this`m, this`wp, this`c, this`asked
      ensures forall plan, rest :: Todo(old(asked), plan, Cons(ExprAsks(e), rest)) ==>
        if r.Fine? then Todo(asked, plan, rest) else Heard(asked, plan)
      ensures c <= old(c) + ExprMade(e) + 1 && (r.Fine? ==> c == old(c) + ExprMade(e) + 1)
      ensures r.Fine? ==> Ready() && forall m0 :: Before(m0, old(m)) ==> Before(m0, m)
      ensures r.Fine? ==> forall l :: Free(old(m).labels, old(c), l) <==> Free(m.labels, c, l)
      ensures r.Fine? ==> forall k: nat :: Ahead(old(m).labels, old(c), k) <==> Ahead(m.labels, c, k)
      ensures Did(r, ExprOk(g, At(), e), old(wp), ExprCode(g, e) + UnwrapCode(reason))
      decreases e, 2
    {
      hide Written, Before, Clean, Free, Ahead, Clash, Issued, Signed, Anonymous, ExprOk, ExprCode, UnwrapCode,
        ExprMade, ArgsMade, FieldsMade, FactMade, StmtsMade, StmtMade, BranchesMade, TestsMade, BodiesMade, Heard,
        Todo, Agreed, ExprAsks, InnerAsks, ArgsAsks, FieldsAsks, FactAsks, StmtsAsks, StmtAsks, BranchesAsks,
        TestsAsks, BodiesAsks, ParamsAsks;
      TodoHeard();
      var notNone := AnonymousLabel();
      :- CompileExpression(e);
      ghost var m1, code := m, ExprCode(g, e);
      Reflexive(m1);
      AppendPresenceTest();
      ghost var m2 := m;
      Reflexive(m2);
      AppendInstruction(M.Branch(M.Unresolved(notNone)));
      AppendInstruction(M.Exit(reason));
      :- DefineLabel(notNone, wp);
      UnwrapWritten(old(wp), m1, m2, m, code, reason, notNone);
      return Fine;
    }

    method AppendBinary(op: BinaryOp)
      requires Ready()
      modifies this`m, this`wp
      ensures Ready() && forall m0 :: Before(m0, old(m)) ==> Before(m0, m)
      ensures m == old(m).(prog := old(m).prog + BinaryInstrs(op))
    {
      match op
      case Add => AppendInstruction(M.Add);
      case Subtract => AppendInstruction(M.Sub);
      case And => AppendInstruction(M.And);
      case Or => AppendInstruction(M.Or);
      case Equal => AppendInstruction(M.Eq);
      case GreaterThan => AppendInstruction(M.Gt);
      case LessThan => AppendInstruction(M.Lt);
      case NotEqual =>
        AppendInstruction(M.Eq);
        AppendInstruction(M.Not);
      case GreaterOrEqual => AppendComparison(M.Gt);
      case LessOrEqual => AppendComparison(M.Lt);
    }

    /** Equal, or else the strict comparison. */
    method AppendComparison(strict: M.Instr)
      requires Ready()
      modifies this`m, this`wp
      ensures Ready() && forall m0 :: Before(m0, old(m)) ==> Before(m0, m)
      ensures m == old(m).(prog := old(m).prog + [M.Dup(1), M.Dup(1), M.Eq, M.Swap(2), M.Swap(1), strict, M.Or])
    {
      AppendInstruction(M.Dup(1));
      AppendInstruction(M.Dup(1));
      AppendInstruction(M.Eq);
      AppendInstruction(M.Swap(2));
      AppendInstruction(M.Swap(1));
      AppendInstruction(strict);
      AppendInstruction(M.Or);
    }

    method CompileBinary(e: Expr) returns (r: Verdict)
      requires Ready() && Inside() && e.Binary? && (At().FinishSite? ==> FinishExpr(e))
      modifies this`m, this`wp, this`c, this`asked
      ensures forall plan, rest :: Todo(old(asked), plan, Cons(InnerAsks(e), rest)) ==>
        if r.Fine? then Todo(asked, plan, rest) else Heard(asked, plan)
      ensures c <= old(c) + ExprMade(e) && (r.Fine? ==> c == old(c) + ExprMade(e))
      ensures r.Fine? ==> Ready() && forall m0 :: Before(m0, old(m)) ==> Before(m0, m)
      ensures r.Fine? ==> forall l :: Free(old(m).labels, old(c), l) <==> Free(m.labels, c, l)
      ensures r.Fine? ==> forall k: nat :: Ahead(old(m).labels, old(c), k) <==> Ahead(m.labels, c, k)
      ensures Did(r, ExprOk(g, At(), e), old(wp), ExprCode(g, e))
      decreases e, 0
    {
      hide Written, Before, Clean, Free, Ahead, Clash, Issued, Signed, ExprOk, ExprCode, FinishExpr, ExprMade,
        ArgsMade, FieldsMade, FactMade, StmtsMade, StmtMade, BranchesMade, TestsMade, BodiesMade, Heard, Todo,
        Agreed, ExprAsks, InnerAsks, ArgsAsks, FieldsAsks, FactAsks, StmtsAsks, StmtAsks, BranchesAsks, TestsAsks,
        BodiesAsks, ParamsAsks;
      TodoHeard();
      BinaryAsksUnfold(e);
      ExprMadeUnfold(e);
      BinaryUnfold(g, At(), e);
      ghost var c1, c2, ops := ExprCode(g, e.left), ExprCode(g, e.right), BinaryInstrs(e.bop);
      :- CompileExpression(e.left);
      ghost var m1 := m;
      Reflexive(m1);
      :- CompileExpression(e.right);
      ghost var m2 := m;
      Reflexive(m2);
      Append(m1, m2, old(wp), c1, c2);
      AppendBinary(e.bop);
      AppendPlain(m2, m, old(wp), c1 + c2, ops);
      assert (c1 + c2) + Instrs(ops) == c1 + (c2 + Instrs(ops));
      return Fine;
    }

    // ---- Statements that hold no other statements ----

    method CompileLet(nd: Node) returns (r: Verdict)
      requires Ready() && Inside() && nd.stmt.Let? && Allowed(nd.stmt, At())
      modifies this`m, this`wp, this`c, this`asked
      ensures forall plan, rest :: Todo(old(asked), plan, Cons(StmtAsks(g, nd), rest)) ==>
        if r.Fine? then Todo(asked, plan, rest) else Heard(asked, plan)
      ensures c <= old(c) + StmtMade(g, nd) && (r.Fine? ==> c == old(c) + StmtMade(g, nd))
      ensures r.Fine? ==> Ready() && forall m0 :: Before(m0, old(m)) ==> Before(m0, m)
      ensures r.Fine? ==> forall l :: Free(old(m).labels, old(c), l) <==> Free(m.labels, c, l)
      ensures r.Fine? ==> forall k: nat :: Ahead(old(m).labels, old(c), k) <==> Ahead(m.labels, c, k)
      ensures Did(r, StmtOk(g, At(), nd), old(wp), StmtCode(g, nd))
    {
      hide Written, Before, Clean, Free, Ahead, Clash, Issued, Signed, ExprOk, ExprCode, StmtOk, StmtCode, ExprMade,
        ArgsMade, FieldsMade, FactMade, StmtsMade, StmtMade, BranchesMade, TestsMade, BodiesMade, Heard, Todo,
        Agreed, ExprAsks, InnerAsks, ArgsAsks, FieldsAsks, FactAsks, StmtsAsks, StmtAsks, BranchesAsks, TestsAsks,
        BodiesAsks, ParamsAsks;
      TodoHeard();
      AskedAfterUnfold(g, nd, MayDeclare(nd.stmt.name));
      StmtMadeUnfold(g, nd);
      LetUnfold(g, At(), nd);
      :- CompileExpression(nd.stmt.expr);
      :- Ask(MayDeclare(nd.stmt.name));
      ghost var m1, code := m, ExprCode(g, nd.stmt.expr);
      Reflexive(m1);
      AppendInstruction(M.Meta(M.LetMark(nd.stmt.name)));
      AppendInstruction(M.Def(nd.stmt.name));
      AppendPlain(m1, m, old(wp), code, [M.Meta(M.LetMark(nd.stmt.name)), M.Def(nd.stmt.name)]);
      assert Instrs([M.Meta(M.LetMark(nd.stmt.name)), M.Def(nd.stmt.name)]) ==
        [I(M.Meta(M.LetMark(nd.stmt.name))), I(M.Def(nd.stmt.name))];
      return Fine;
    }

    method CompileReturn(nd: Node) returns (r: Verdict)
      requires Ready() && Inside() && nd.stmt.Return? && Allowed(nd.stmt, At())
      modifies this`m, this`wp, this`c, this`asked
      ensures forall plan, rest :: Todo(old(asked), plan, Cons(StmtAsks(g, nd), rest)) ==>
        if r.Fine? then Todo(asked, plan, rest) else Heard(asked, plan)
      ensures c <= old(c) + StmtMade(g, nd) && (r.Fine? ==> c == old(c) + StmtMade(g, nd))
      ensures r.Fine? ==> Ready() && forall m0 :: Before(m0, old(m)) ==> Before(m0, m)
      ensures r.Fine? ==> forall l :: Free(old(m).labels, old(c), l) <==> Free(m.labels, c, l)
      ensures r.Fine? ==> forall k: nat :: Ahead(old(m).labels, old(c), k) <==> Ahead(m.labels, c, k)
      ensures Did(r, StmtOk(g, At(), nd), old(wp), StmtCode(g, nd))
    {
      hide Written, Before, Clean, Free, Ahead, Clash, Issued, Signed, ExprOk, ExprCode, StmtOk, StmtCode, ExprMade,
        ArgsMade, FieldsMade, FactMade, StmtsMade, StmtMade, BranchesMade, TestsMade, BodiesMade, Heard, Todo,
        Agreed, ExprAsks, InnerAsks, ArgsAsks, FieldsAsks, FactAsks, StmtsAsks, StmtAsks, BranchesAsks, TestsAsks,
        BodiesAsks, ParamsAsks;
      TodoHeard();
      AskedAfterUnfold(g, nd, IsReturnable(nd.stmt.expr));
      StmtMadeUnfold(g, nd);
      ReturnUnfold(g, At(), nd);
      :- CompileExpression(nd.stmt.expr);
      :- Ask(IsReturnable(nd.stmt.expr));
      ghost var m1, code := m, ExprCode(g, nd.stmt.expr);
      Reflexive(m1);
      AppendInstruction(M.Return);
      AppendPlain(m1, m, old(wp), code, [M.Return]);
      assert Instrs([M.Return]) == [I(M.Return)];
      return Fine;
    }

    method CompilePublish(nd: Node) returns (r: Verdict)
      requires Ready() && Inside() && nd.stmt.Publish? && Allowed(nd.stmt, At())
      modifies this`m, this`wp, this`c, this`asked
      ensures forall plan, rest :: Todo(old(asked), plan, Cons(StmtAsks(g, nd), rest)) ==>
        if r.Fine? then Todo(asked, plan, rest) else Heard(asked, plan)
      ensures c <= old(c) + StmtMade(g, nd) && (r.Fine? ==> c == old(c) + StmtMade(g, nd))
      ensures r.Fine? ==> Ready() && forall m0 :: Before(m0, old(m)) ==> Before(m0, m)
      ensures r.Fine? ==> forall l :: Free(old(m).labels, old(c), l) <==> Free(m.labels, c, l)
      ensures r.Fine? ==> forall k: nat :: Ahead(old(m).labels, old(c), k) <==> Ahead(m.labels, c, k)
      ensures Did(r, StmtOk(g, At(), nd), old(wp), StmtCode(g, nd))
    {
      hide Written, Before, Clean, Free, Ahead, Clash, Issued, Signed, ExprOk, ExprCode, StmtOk, StmtCode, ExprMade,
        ArgsMade, FieldsMade, FactMade, StmtsMade, StmtMade, BranchesMade, TestsMade, BodiesMade, Heard, Todo,
        Agreed, ExprAsks, InnerAsks, ArgsAsks, FieldsAsks, FactAsks, StmtsAsks, StmtAsks, BranchesAsks, TestsAsks,
        BodiesAsks, ParamsAsks;
      TodoHeard();
      StmtAsksUnfold(g, nd);
      StmtMadeUnfold(g, nd);
      PublishUnfold(g, At(), nd);
      :- CompileExpression(nd.stmt.expr);
      ghost var m1, code := m, ExprCode(g, nd.stmt.expr);
      Reflexive(m1);
      AppendInstruction(M.Publish);
      AppendPlain(m1, m, old(wp), code, [M.Publish]);
      assert Instrs([M.Publish]) == [I(M.Publish)];
      return Fine;
    }

    method CompileEmit(nd: Node) returns (r: Verdict)
      requires Ready() && Inside() && nd.stmt.Emit? && Allowed(nd.stmt, At())
      modifies this`m, this`wp, this`c, this`asked
      ensures forall plan, rest :: Todo(old(asked), plan, Cons(StmtAsks(g, nd), rest)) ==>
        if r.Fine? then Todo(asked, plan, rest) else Heard(asked, plan)
      ensures c <= old(c) + StmtMade(g, nd) && (r.Fine? ==> c == old(c) + StmtMade(g, nd))
      ensures r.Fine? ==> Ready() && forall m0 :: Before(m0, old(m)) ==> Before(m0, m)
      ensures r.Fine? ==> forall l :: Free(old(m).labels, old(c), l) <==> Free(m.labels, c, l)
      ensures r.Fine? ==> forall k: nat :: Ahead(old(m).labels, old(c), k) <==> Ahead(m.labels, c, k)
      ensures Did(r, StmtOk(g, At(), nd), old(wp), StmtCode(g, nd))
    {
      hide Written, Before, Clean, Free, Ahead, Clash, Issued, Signed, ExprOk, ExprCode, StmtOk, StmtCode, ExprMade,
        ArgsMade, FieldsMade, FactMade, StmtsMade, StmtMade, BranchesMade, TestsMade, BodiesMade, Heard, Todo,
        Agreed, ExprAsks, InnerAsks, ArgsAsks, FieldsAsks, FactAsks, StmtsAsks, StmtAsks, BranchesAsks, TestsAsks,
        BodiesAsks, ParamsAsks;
      TodoHeard();
      AskedAfterUnfold(g, nd, IsStruct(nd.stmt.expr));
      StmtMadeUnfold(g, nd);
      EmitUnfold(g, At(), nd);
      :- CompileExpression(nd.stmt.expr);
      :- Ask(IsStruct(nd.stmt.expr));
      ghost var m1, code := m, ExprCode(g, nd.stmt.expr);
      Reflexive(m1);
      AppendInstruction(M.Emit);
      AppendPlain(m1, m, old(wp), code, [M.Emit]);
      assert Instrs([M.Emit]) == [I(M.Emit)];
      return Fine;
    }

    /** Exits unless the value on top is true. */
    method AppendGuard(reason: ExitReason)
      requires Ready()
      modifies this`m, this`wp
      ensures Ready() && forall m0 :: Before(m0, old(m)) ==> Before(m0, m)
      ensures m == old(m).(prog := old(m).prog + [M.Branch(M.Resolved(|old(m).prog| + 2)), M.Exit(reason)])
    {
      var next := wp + 2;
      AppendInstruction(M.Branch(M.Resolved(next)));
      AppendInstruction(M.Exit(reason));
    }

    method CompileCheck(nd: Node) returns (r: Verdict)
      requires Ready() && Inside() && nd.stmt.CheckThat? && Allowed(nd.stmt, At())
      modifies this`m, this`wp, this`c, this`asked
      ensures forall plan, rest :: Todo(old(asked), plan, Cons(StmtAsks(g, nd), rest)) ==>
        if r.Fine? then Todo(asked, plan, rest) else Heard(asked, plan)
      ensures c <= old(c) + StmtMade(g, nd) && (r.Fine? ==> c == old(c) + StmtMade(g, nd))
      ensures r.Fine? ==> Ready() && forall m0 :: Before(m0, old(m)) ==> Before(m0, m)
      ensures r.Fine? ==> forall l :: Free(old(m).labels, old(c), l) <==> Free(m.labels, c, l)
      ensures r.Fine? ==> forall k: nat :: Ahead(old(m).labels, old(c), k) <==> Ahead(m.labels, c, k)
      ensures Did(r, StmtOk(g, At(), nd), old(wp), StmtCode(g, nd))
    {
      hide Written, Before, Clean, Free, Ahead, Clash, Issued, Signed, ExprOk, ExprCode, StmtOk, StmtCode, ExprMade,
        ArgsMade, FieldsMade, FactMade, StmtsMade, StmtMade, BranchesMade, TestsMade, BodiesMade, Heard, Todo,
        Agreed, ExprAsks, InnerAsks, ArgsAsks, FieldsAsks, FactAsks, StmtsAsks, StmtAsks, BranchesAsks, TestsAsks,
        BodiesAsks, ParamsAsks;
      TodoHeard();
      AskedAfterUnfold(g, nd, IsBool(nd.stmt.expr));
      StmtMadeUnfold(g, nd);
      CheckUnfold(g, At(), nd);
      :- CompileExpression(nd.stmt.expr);
      :- Ask(IsBool(nd.stmt.expr));
      ghost var m1, code := m, ExprCode(g, nd.stmt.expr);
      Reflexive(m1);
      AppendGuard(Check);
      GuardWritten(m1, m, old(wp), code, Check);
      return Fine;
    }

    method CompileDebugAssert(nd: Node) returns (r: Verdict)
      requires Ready() && Inside() && nd.stmt.DebugAssert? && Allowed(nd.stmt, At())
      modifies this`m, this`wp, this`c, this`asked
      ensures forall plan, rest :: Todo(old(asked), plan, Cons(StmtAsks(g, nd), rest)) ==>
        if r.Fine? then Todo(asked, plan, rest) else Heard(asked, plan)
      ensures c <= old(c) + StmtMade(g, nd) && (r.Fine? ==> c == old(c) + StmtMade(g, nd))
      ensures r.Fine? ==> Ready() && forall m0 :: Before(m0, old(m)) ==> Before(m0, m)
      ensures r.Fine? ==> forall l :: Free(old(m).labels, old(c), l) <==> Free(m.labels, c, l)
      ensures r.Fine? ==> forall k: nat :: Ahead(old(m).labels, old(c), k) <==> Ahead(m.labels, c, k)
      ensures Did(r, StmtOk(g, At(), nd), old(wp), StmtCode(g, nd))
    {
      hide Written, Before, Clean, Free, Ahead, Clash, Issued, Signed, ExprOk, ExprCode, StmtOk, StmtCode, ExprMade,
        ArgsMade, FieldsMade, FactMade, StmtsMade, StmtMade, BranchesMade, TestsMade, BodiesMade, Heard, Todo,
        Agreed, ExprAsks, InnerAsks, ArgsAsks, FieldsAsks, FactAsks, StmtsAsks, StmtAsks, BranchesAsks, TestsAsks,
        BodiesAsks, ParamsAsks;
      TodoHeard();
      NoneAsked(g);
      TodoNone();
      StmtAsksUnfold(g, nd);
      StmtMadeUnfold(g, nd);
      DebugAssertUnfold(g, At(), nd);
      if !g.debug {
        Straight(m, wp, []);
        assert Instrs([]) == [];
        return Fine;
      }
      :- CompileExpression(nd.stmt.expr);
      ghost var m1, code := m, ExprCode(g, nd.stmt.expr);
      Reflexive(m1);
      AppendGuard(Panic);
      GuardWritten(m1, m, old(wp), code, Panic);
      return Fine;
    }

    method BindsIn(fs: seq<Field>) returns (found: bool)
      ensures found <==> !NoBinds(fs)
    {
      for i := 0 to |fs|
        invariant forall k :: 0 <= k < i ==> fs[k].value.Given?
      {
        if fs[i].value.Bind? { return true; }
      }
      return false;
    }

    method CompileCreate(nd: Node) returns (r: Verdict)
      requires Ready() && Inside() && nd.stmt.Create? && Allowed(nd.stmt, At())
      modifies this`m, this`wp, this`c, this`asked
      ensures forall plan, rest :: Todo(old(asked), plan, Cons(StmtAsks(g, nd), rest)) ==>
        if r.Fine? then Todo(asked, plan, rest) else Heard(asked, plan)
      ensures c <= old(c) + StmtMade(g, nd) && (r.Fine? ==> c == old(c) + StmtMade(g, nd))
      ensures r.Fine? ==> Ready() && forall m0 :: Before(m0, old(m)) ==> Before(m0, m)
      ensures r.Fine? ==> forall l :: Free(old(m).labels, old(c), l) <==> Free(m.labels, c, l)
      ensures r.Fine? ==> forall k: nat :: Ahead(old(m).labels, old(c), k) <==> Ahead(m.labels, c, k)
      ensures Did(r, StmtOk(g, At(), nd), old(wp), StmtCode(g, nd))
    {
      hide Written, Before, Clean, Free, Ahead, Clash, Issued, Signed, FactOk, FactCode, FactFitsSchema, StmtOk,
        StmtCode, ExprMade, ArgsMade, FieldsMade, FactMade, StmtsMade, StmtMade, BranchesMade, TestsMade, BodiesMade,
        Heard, Todo, Agreed, ExprAsks, InnerAsks, ArgsAsks, FieldsAsks, FactAsks, StmtsAsks, StmtAsks, BranchesAsks,
        TestsAsks, BodiesAsks, ParamsAsks;
      TodoHeard();
      StmtAsksUnfold(g, nd);
      StmtMadeUnfold(g, nd);
      CreateUnfold(g, At(), nd);
      var fact := nd.stmt.fact;
      var keyBinds := BindsIn(fact.keys);
      var valueBinds := BindsIn(ValueFields(fact));
      if keyBinds || valueBinds { return Error(Invalid); }
      :- VerifyFactAgainstSchema(fact, true);
      :- CompileFactLiteral(fact);
      ghost var m1 := m;
      Reflexive(m1);
      AppendInstruction(M.Create);
      AppendOne(m1, m, old(wp), FactCode(g, fact), I(M.Create));
      return Fine;
    }

    method CompileDelete(nd: Node) returns (r: Verdict)
      requires Ready() && Inside() && nd.stmt.Delete? && Allowed(nd.stmt, At())
      modifies this`m, this`wp, this`c, this`asked
      ensures forall plan, rest :: Todo(old(asked), plan, Cons(StmtAsks(g, nd), rest)) ==>
        if r.Fine? then Todo(asked, plan, rest) else Heard(asked, plan)
      ensures c <= old(c) + StmtMade(g, nd) && (r.Fine? ==> c == old(c) + StmtMade(g, nd))
      ensures r.Fine? ==> Ready() && forall m0 :: Before(m0, old(m)) ==> Before(m0, m)
      ensures r.Fine? ==> forall l :: Free(old(m).labels, old(c), l) <==> Free(m.labels, c, l)
      ensures r.Fine? ==> forall k: nat :: Ahead(old(m).labels, old(c), k) <==> Ahead(m.labels, c, k)
      ensures Did(r, StmtOk(g, At(), nd), old(wp), StmtCode(g, nd))
    {
      hide Written, Before, Clean, Free, Ahead, Clash, Issued, Signed, FactOk, FactCode, FactFitsSchema, StmtOk,
        StmtCode, ExprMade, ArgsMade, FieldsMade, FactMade, StmtsMade, StmtMade, BranchesMade, TestsMade, BodiesMade,
        Heard, Todo, Agreed, ExprAsks, InnerAsks, ArgsAsks, FieldsAsks, FactAsks, StmtsAsks, StmtAsks, BranchesAsks,
        TestsAsks, BodiesAsks, ParamsAsks;
      TodoHeard();
      StmtAsksUnfold(g, nd);
      StmtMadeUnfold(g, nd);
      DeleteUnfold(g, At(), nd);
      :- VerifyFactAgainstSchema(nd.stmt.fact, false);
      :- CompileFactLiteral(nd.stmt.fact);
      ghost var m1 := m;
      Reflexive(m1);
      AppendInstruction(M.Delete);
      AppendOne(m1, m, old(wp), FactCode(g, nd.stmt.fact), I(M.Delete));
      return Fine;
    }

    /** The fact to update, twice. */
    method CompileUpdated(fact: FactLiteral) returns (r: Verdict)
      requires Ready() && Inside()
      modifies this`m, this`wp, this`c, this`asked
      ensures forall plan, rest :: Todo(old(asked), plan, Cons(FactAsks(fact), rest)) ==>
        if r.Fine? then Todo(asked, plan, rest) else Heard(asked, plan)
      ensures c <= old(c) + FactMade(fact) && (r.Fine? ==> c == old(c) + FactMade(fact))
      ensures r.Fine? ==> Ready() && forall m0 :: Before(m0, old(m)) ==> Before(m0, m)
      ensures r.Fine? ==> forall l :: Free(old(m).labels, old(c), l) <==> Free(m.labels, c, l)
      ensures r.Fine? ==> forall k: nat :: Ahead(old(m).labels, old(c), k) <==> Ahead(m.labels, c, k)
      ensures Did(r, FactOk(g, At(), fact), old(wp), FactCode(g, fact) + [I(M.Dup(0))])
    {
      hide Written, Before, Clean, Free, Ahead, Clash, Issued, Signed, FactOk, FactCode, FactMade, Heard, Todo,
        Agreed, ExprAsks, InnerAsks, ArgsAsks, FieldsAsks, FactAsks, StmtsAsks, StmtAsks, BranchesAsks, TestsAsks,
        BodiesAsks, ParamsAsks;
      TodoHeard();
      :- CompileFactLiteral(fact);
      ghost var m1 := m;
      Reflexive(m1);
      AppendInstruction(M.Dup(0));
      AppendOne(m1, m, old(wp), FactCode(g, fact), I(M.Dup(0)));
      return Fine;
    }

    /** The new values, and the update itself. */
    method CompileNewValues(to: seq<Field>) returns (r: Verdict)
      requires Ready() && Inside()
      modifies this`m, this`wp, this`c, this`asked
      ensures forall plan, rest :: Todo(old(asked), plan, Cons(FieldsAsks(to), rest)) ==>
        if r.Fine? then Todo(asked, plan, rest) else Heard(asked, plan)
      ensures c <= old(c) + FieldsMade(to) && (r.Fine? ==> c == old(c) + FieldsMade(to))
      ensures r.Fine? ==> Ready() && forall m0 :: Before(m0, old(m)) ==> Before(m0, m)
      ensures r.Fine? ==> forall l :: Free(old(m).labels, old(c), l) <==> Free(m.labels, c, l)
      ensures r.Fine? ==> forall k: nat :: Ahead(old(m).labels, old(c), k) <==> Ahead(m.labels, c, k)
      ensures Did(r, FieldsOk(g, At(), to) && NoBinds(to), old(wp), FieldsCode(g, ValueMember, to) + [I(M.Update)])
    {
      hide Written, Before, Clean, Free, Ahead, Clash, Issued, Signed, FieldsOk, FieldsCode, FieldsMade, NoBinds,
        Heard, Todo, Agreed, ExprAsks, InnerAsks, ArgsAsks, FieldsAsks, FactAsks, StmtsAsks, StmtAsks, BranchesAsks,
        TestsAsks, BodiesAsks, ParamsAsks;
      TodoHeard();
      :- CompileFields(ValueMember, to, true);
      ghost var m1 := m;
      Reflexive(m1);
      AppendInstruction(M.Update);
      AppendOne(m1, m, old(wp), FieldsCode(g, ValueMember, to), I(M.Update));
      return Fine;
    }

    method CompileUpdate(nd: Node) returns (r: Verdict)
      requires Ready() && Inside() && nd.stmt.Update? && Allowed(nd.stmt, At())
      modifies this`m, this`wp, this`c, this`asked
      ensures forall plan, rest :: Todo(old(asked), plan, Cons(StmtAsks(g, nd), rest)) ==>
        if r.Fine? then Todo(asked, plan, rest) else Heard(asked, plan)
      ensures c <= old(c) + StmtMade(g, nd) && (r.Fine? ==> c == old(c) + StmtMade(g, nd))
      ensures r.Fine? ==> Ready() && forall m0 :: Before(m0, old(m)) ==> Before(m0, m)
      ensures r.Fine? ==> forall l :: Free(old(m).labels, old(c), l) <==> Free(m.labels, c, l)
      ensures r.Fine? ==> forall k: nat :: Ahead(old(m).labels, old(c), k) <==> Ahead(m.labels, c, k)
      ensures Did(r, StmtOk(g, At(), nd), old(wp), StmtCode(g, nd))
    {
      hide Written, Before, Clean, Free, Ahead, Clash, Issued, Signed, FactOk, FactCode, FieldsOk, FieldsCode,
        FactFitsSchema, ValuesFit, NoBinds, StmtOk, StmtCode, FieldsMade, FactMade, StmtMade, Heard, Todo, Agreed,
        ExprAsks, InnerAsks, ArgsAsks, FieldsAsks, FactAsks, StmtsAsks, StmtAsks, BranchesAsks, TestsAsks,
        BodiesAsks, ParamsAsks;
      TodoHeard();
      UpdateAsksUnfold(g, nd);
      StmtMadeUnfold(g, nd);
      UpdateUnfold(g, At(), nd);
      var fact, to := nd.stmt.fact, nd.stmt.to;
      if fact.name !in g.world.facts { return Error(Invalid); }
      if g.world.facts[fact.name].immutable { return Error(Invalid); }
      :- VerifyFactAgainstSchema(fact, true);
      :- CompileUpdated(fact);
      ghost var m1, target, fields := m, FactCode(g, fact), FieldsCode(g, ValueMember, to);
      Reflexive(m1);
      :- VerifyFactValues(to, g.world.facts[fact.name]);
      :- CompileNewValues(to);
      Append(m1, m, old(wp), target + [I(M.Dup(0))], fields + [I(M.Update)]);
      assert (target + [I(M.Dup(0))]) + (fields + [I(M.Update)]) == target + ([I(M.Dup(0))] + (fields + [I(M.Update)]));
      return Fine;
    }

    method CompileFinishCall(nd: Node) returns (r: Verdict)
      requires Ready() && Inside() && nd.stmt.FinishCall? && Allowed(nd.stmt, At())
      modifies this`m, this`wp, this`c, this`asked
      ensures forall plan, rest :: Todo(old(asked), plan, Cons(StmtAsks(g, nd), rest)) ==>
        if r.Fine? then Todo(asked, plan, rest) else Heard(asked, plan)
      ensures c <= old(c) + StmtMade(g, nd) && (r.Fine? ==> c == old(c) + StmtMade(g, nd))
      ensures r.Fine? ==> Ready() && forall m0 :: Before(m0, old(m)) ==> Before(m0, m)
      ensures r.Fine? ==> forall l :: Free(old(m).labels, old(c), l) <==> Free(m.labels, c, l)
      ensures r.Fine? ==> forall k: nat :: Ahead(old(m).labels, old(c), k) <==> Ahead(m.labels, c, k)
      ensures Did(r, StmtOk(g, At(), nd), old(wp), StmtCode(g, nd))
    {
      hide Written, Before, Clean, Free, Ahead, Clash, Issued, ArgsOk, ArgsCode, FindDefinition, StmtOk, StmtCode,
        ExprMade, ArgsMade, FieldsMade, FactMade, StmtsMade, StmtMade, BranchesMade, TestsMade, BodiesMade, Heard,
        Todo, Agreed, ExprAsks, InnerAsks, ArgsAsks, FieldsAsks, FactAsks, StmtsAsks, StmtAsks, BranchesAsks,
        TestsAsks, BodiesAsks, ParamsAsks;
      TodoHeard();
      StmtAsksUnfold(g, nd);
      StmtMadeUnfold(g, nd);
      FinishCallUnfold(g, At(), nd);
      var name, args := nd.stmt.name, nd.stmt.args;
      if name !in signatures { return Error(UnknownName(name)); }
      if !signatures[name].finish { return Error(WrongColor(name, false)); }
      if signatures[name].arity != |args| { return Error(Invalid); }
      :- CompileArguments(args, false);
      ghost var m1 := m;
      Reflexive(m1);
      AppendInstruction(M.Call(M.Unresolved(M.Label(name, M.Temporary))));
      AppendOne(m1, m, old(wp), ArgsCode(g, args), CallTo(M.Label(name, M.Temporary)));
      return Fine;
    }

    method CompileActionCall(nd: Node) returns (r: Verdict)
      requires Ready() && Inside() && nd.stmt.ActionCall? && Allowed(nd.stmt, At())
      modifies this`m, this`wp, this`c, this`asked
      ensures forall plan, rest :: Todo(old(asked), plan, Cons(StmtAsks(g, nd), rest)) ==>
        if r.Fine? then Todo(asked, plan, rest) else Heard(asked, plan)
      ensures c <= old(c) + StmtMade(g, nd) && (r.Fine? ==> c == old(c) + StmtMade(g, nd))
      ensures r.Fine? ==> Ready() && forall m0 :: Before(m0, old(m)) ==> Before(m0, m)
      ensures r.Fine? ==> forall l :: Free(old(m).labels, old(c), l) <==> Free(m.labels, c, l)
      ensures r.Fine? ==> forall k: nat :: Ahead(old(m).labels, old(c), k) <==> Ahead(m.labels, c, k)
      ensures Did(r, StmtOk(g, At(), nd), old(wp), StmtCode(g, nd))
    {
      hide Written, Before, Clean, Free, Ahead, Clash, Issued, Signed, ArgsOk, ArgsCode, FindDefinition, StmtOk,
        StmtCode, ExprMade, ArgsMade, FieldsMade, FactMade, StmtsMade, StmtMade, BranchesMade, TestsMade, BodiesMade,
        Heard, Todo, Agreed, ExprAsks, InnerAsks, ArgsAsks, FieldsAsks, FactAsks, StmtsAsks, StmtAsks, BranchesAsks,
        TestsAsks, BodiesAsks, ParamsAsks;
      TodoHeard();
      StmtAsksUnfold(g, nd);
      StmtMadeUnfold(g, nd);
      ActionCallUnfold(g, At(), nd);
      var name, args := nd.stmt.name, nd.stmt.args;
      var d := FindDefinition(g.policy.actions, name);
      if d.None? { return Error(Invalid); }
      if |d.value.params| != |args| { return Error(Invalid); }
      :- CompileArguments(args, true);
      ghost var m1 := m;
      Reflexive(m1);
      AppendInstruction(M.Call(M.Unresolved(M.Label(name, M.ActionLabel))));
      AppendOne(m1, m, old(wp), ArgsCode(g, args), CallTo(M.Label(name, M.ActionLabel)));
      return Fine;
    }

    // ---- Statement lists and branching statements ----

    method CompileStatements(ss: seq<Node>, layered: bool) returns (r: Verdict)
      requires Valid() && Inside()
      modifies this, codemap
      ensures forall plan, rest :: Todo(old(asked), plan, Cons(StmtsAsks(g, ss), rest)) ==>
        if r.Fine? then Todo(asked, plan, rest) else Heard(asked, plan)
      ensures c <= old(c) + StmtsMade(g, ss) && (r.Fine? ==> c == old(c) + StmtsMade(g, ss))
      ensures signatures == old(signatures)
      ensures r.Fine? ==> Valid() && context == old(context) && forall m0 :: Before(m0, old(m)) ==> Before(m0, m)
      ensures r.Fine? ==> forall l :: Free(old(m).labels, old(c), l) <==> Free(m.labels, c, l)
      ensures r.Fine? ==> forall k: nat :: Ahead(old(m).labels, old(c), k) <==> Ahead(m.labels, c, k)
      ensures Did(r, StmtsOk(g, old(At()), ss), old(wp),
                  if layered then ([I(M.Block)] + StmtsCode(g, ss)) + [I(M.End)] else StmtsCode(g, ss))
      decreases ss, 3
    {
      hide Written, Before, Clean, Free, Ahead, Clash, Issued, Signed, Accepted, Replay, StmtsOk, StmtsCode,
        ExprMade, ArgsMade, FieldsMade, FactMade, StmtsMade, StmtMade, BranchesMade, TestsMade, BodiesMade, Heard,
        Todo, Agreed, ExprAsks, InnerAsks, ArgsAsks, FieldsAsks, FactAsks, StmtsAsks, StmtAsks, BranchesAsks,
        TestsAsks, BodiesAsks, ParamsAsks;
      TodoHeard();
      if !layered {
        r := CompileEach(ss);
      } else {
        AppendInstruction(M.Block);
        ghost var m1, code := m, StmtsCode(g, ss);
        Reflexive(m1);
        Single(m1, old(wp), I(M.Block));
        :- CompileEach(ss);
        ghost var m2 := m;
        Reflexive(m2);
        Append(m1, m2, old(wp), [I(M.Block)], code);
        AppendInstruction(M.End);
        AppendOne(m2, m, old(wp), [I(M.Block)] + code, I(M.End));
        return Fine;
      }
    }

    method CompileEach(ss: seq<Node>) returns (r: Verdict)
      requires Valid() && Inside()
      modifies this, codemap
      ensures forall plan, rest :: Todo(old(asked), plan, Cons(StmtsAsks(g, ss), rest)) ==>
        if r.Fine? then Todo(asked, plan, rest) else Heard(asked, plan)
      ensures c <= old(c) + StmtsMade(g, ss) && (r.Fine? ==> c == old(c) + StmtsMade(g, ss))
      ensures signatures == old(signatures)
      ensures r.Fine? ==> Valid() && context == old(context) && forall m0 :: Before(m0, old(m)) ==> Before(m0, m)
      ensures r.Fine? ==> forall l :: Free(old(m).labels, old(c), l) <==> Free(m.labels, c, l)
      ensures r.Fine? ==> forall k: nat :: Ahead(old(m).labels, old(c), k) <==> Ahead(m.labels, c, k)
      ensures Did(r, StmtsOk(g, old(At()), ss), old(wp), StmtsCode(g, ss))
      decreases ss, 2
    {
      hide Written, Before, Clean, Free, Ahead, Clash, Issued, Signed, Accepted, Replay, StmtOk, StmtCode, StmtsOk,
        StmtsCode, ExprMade, ArgsMade, FieldsMade, FactMade, StmtsMade, StmtMade, BranchesMade, TestsMade,
        BodiesMade, Heard, Todo, Agreed, ExprAsks, InnerAsks, ArgsAsks, FieldsAsks, FactAsks, StmtsAsks, StmtAsks,
        BranchesAsks, TestsAsks, BodiesAsks, ParamsAsks;
      TodoHeard();
      NoneAsked(g);
      TodoNone();
      ghost var done: Code := [];
      assert Written(m, wp, []) by { Straight(m, wp, []); }
      assert ss[0..] == ss;
      for i := 0 to |ss|
        invariant forall plan, rest :: Todo(old(asked), plan, Cons(StmtsAsks(g, ss), rest)) ==>
          Todo(asked, plan, Cons(StmtsAsks(g, ss[i..]), rest))
        invariant Valid() && context == old(context) && signatures == old(signatures)
        invariant forall m0 :: Before(m0, old(m)) ==> Before(m0, m)
        invariant forall l :: Free(old(m).labels, old(c), l) <==> Free(m.labels, c, l)
        invariant forall k: nat :: Ahead(old(m).labels, old(c), k) <==> Ahead(m.labels, c, k)
        invariant c + StmtsMade(g, ss[i..]) == old(c) + StmtsMade(g, ss)
        invariant Has(old(wp), done) && StmtsCode(g, ss) == done + StmtsCode(g, ss[i..])
        invariant StmtsOk(g, At(), ss) <==> StmtsOk(g, At(), ss[i..])
      {
        ghost var m1, code := m, StmtCode(g, ss[i]);
        StmtsUnfold(g, At(), ss, i);
        StmtsMadeUnfold(g, ss[i..]);
        StmtsAsksUnfold(g, ss[i..]);
        assert ss[i..][0] == ss[i] && ss[i..][1..] == ss[i + 1..];
        :- MapRange(ss[i].locator);
        :- CompileStatement(ss[i], ss[|ss| - 1]);
        Reflexive(m1);
        Append(m1, m, old(wp), done, code);
        assert (done + code) + StmtsCode(g, ss[i + 1..]) == done + (code + StmtsCode(g, ss[i + 1..]));
        done := done + code;
      }
      assert ss[|ss|..] == [] && done + [] == done;
      StmtsNone(g, At());
      StmtsMadeUnfold(g, []);
      return Fine;
    }

    method CompileStatement(nd: Node, last: Node) returns (r: Verdict)
      requires Valid() && Inside()
      modifies this, codemap
      ensures forall plan, rest :: Todo(old(asked), plan, Cons(StmtAsks(g, nd), rest)) ==>
        if r.Fine? then Todo(asked, plan, rest) else Heard(asked, plan)
      ensures c <= old(c) + StmtMade(g, nd) && (r.Fine? ==> c == old(c) + StmtMade(g, nd))
      ensures signatures == old(signatures)
      ensures r.Fine? ==> Valid() && context == old(context) && forall m0 :: Before(m0, old(m)) ==> Before(m0, m)
      ensures r.Fine? ==> forall l :: Free(old(m).labels, old(c), l) <==> Free(m.labels, c, l)
      ensures r.Fine? ==> forall k: nat :: Ahead(old(m).labels, old(c), k) <==> Ahead(m.labels, c, k)
      ensures Did(r, StmtOk(g, old(At()), nd) && (nd.stmt.Finish? ==> nd == last), old(wp), StmtCode(g, nd))
      decreases nd, 1
    {
      hide Written, Before, Clean, Free, Ahead, Clash, Issued, Signed, Accepted, Replay, StmtOk, StmtCode, ExprMade,
        ArgsMade, FieldsMade, FactMade, StmtsMade, StmtMade, BranchesMade, TestsMade, BodiesMade, Heard, Todo,
        Agreed, ExprAsks, InnerAsks, ArgsAsks, FieldsAsks, FactAsks, StmtsAsks, StmtAsks, BranchesAsks, TestsAsks,
        BodiesAsks, ParamsAsks;
      TodoHeard();
      if !Allowed(nd.stmt, At()) {
        NotAllowed(g, At(), nd);
        return Error(Invalid);
      }
      match nd.stmt
      case Let(_, _) => r := CompileLet(nd);
      case CheckThat(_) => r := CompileCheck(nd);
      case Match(_, _) => r := CompileMatch(nd);
      case If(_, _) => r := CompileIf(nd);
      case Finish(_) =>
        r := CompileFinish(nd, last);
      case Map(_, _, _) => r := CompileMap(nd);
      case Return(_) => r := CompileReturn(nd);
      case ActionCall(_, _) => r := CompileActionCall(nd);
      case Publish(_) => r := CompilePublish(nd);
      case Create(_) => r := CompileCreate(nd);
      case Update(_, _) => r := CompileUpdate(nd);
      case Delete(_) => r := CompileDelete(nd);
      case Emit(_) => r := CompileEmit(nd);
      case FinishCall(_, _) => r := CompileFinishCall(nd);
      case DebugAssert(_) => r := CompileDebugAssert(nd);
    }

    /** A finish block: it must stand last, and nothing runs after it. */
    method CompileFinish(nd: Node, last: Node) returns (r: Verdict)
      requires Valid() && Inside() && nd.stmt.Finish? && Allowed(nd.stmt, At())
      modifies this, codemap
      ensures forall plan, rest :: Todo(old(asked), plan, Cons(StmtAsks(g, nd), rest)) ==>
        if r.Fine? then Todo(asked, plan, rest) else Heard(asked, plan)
      ensures c <= old(c) + StmtMade(g, nd) && (r.Fine? ==> c == old(c) + StmtMade(g, nd))
      ensures signatures == old(signatures)
      ensures r.Fine? ==> Valid() && context == old(context) && forall m0 :: Before(m0, old(m)) ==> Before(m0, m)
      ensures r.Fine? ==> forall l :: Free(old(m).labels, old(c), l) <==> Free(m.labels, c, l)
      ensures r.Fine? ==> forall k: nat :: Ahead(old(m).labels, old(c), k) <==> Ahead(m.labels, c, k)
      ensures Did(r, StmtOk(g, old(At()), nd) && nd == last, old(wp), StmtCode(g, nd))
      decreases nd, 0
    {
      hide Written, Before, Clean, Free, Ahead, Clash, Issued, Signed, Accepted, Replay, StmtsOk, StmtsCode, StmtOk,
        StmtCode, ExprMade, ArgsMade, FieldsMade, FactMade, StmtsMade, StmtMade, BranchesMade, TestsMade, BodiesMade,
        Heard, Todo, Agreed, ExprAsks, InnerAsks, ArgsAsks, FieldsAsks, FactAsks, StmtsAsks, StmtAsks, BranchesAsks,
        TestsAsks, BodiesAsks, ParamsAsks;
      TodoHeard();
      StmtAsksUnfold(g, nd);
      StmtMadeUnfold(g, nd);
      FinishUnfold(g, At(), nd);
      context := context + [FinishSite(At().known)];
      AppendInstruction(M.Meta(M.FinishMark(true)));
      ghost var m1, body := m, StmtsCode(g, nd.stmt.body);
      Reflexive(m1);
      Single(m1, old(wp), I(M.Meta(M.FinishMark(true))));
      :- CompileStatements(nd.stmt.body, true);
      context := context[..|context| - 1];
      if nd != last { return Error(Invalid); }
      ghost var m2 := m;
      Reflexive(m2);
      AppendInstruction(M.Exit(Normal));
      Between(m1, m2, m, old(wp), [I(M.Meta(M.FinishMark(true)))], ([I(M.Block)] + body) + [I(M.End)],
        I(M.Exit(Normal)));
      return Fine;
    }

    /** The query a map statement loops over. */
    method CompileMapQuery(fact: FactLiteral) returns (r: Verdict)
      requires Ready() && Inside()
      modifies this`m, this`wp, this`c, this`asked
      ensures forall plan, rest :: Todo(old(asked), plan, Cons(FactAsks(fact), rest)) ==>
        if r.Fine? then Todo(asked, plan, rest) else Heard(asked, plan)
      ensures c <= old(c) + FactMade(fact) && (r.Fine? ==> c == old(c) + FactMade(fact))
      ensures r.Fine? ==> Ready() && forall m0 :: Before(m0, old(m)) ==> Before(m0, m)
      ensures r.Fine? ==> forall l :: Free(old(m).labels, old(c), l) <==> Free(m.labels, c, l)
      ensures r.Fine? ==> forall k: nat :: Ahead(old(m).labels, old(c), k) <==> Ahead(m.labels, c, k)
      ensures Did(r, FactFitsSchema(g.world, fact, false) && FactOk(g, At(), fact), old(wp),
        FactCode(g, fact) + [I(M.QueryStart)])
      decreases fact, 1
    {
      hide Written, Before, Clean, Free, Ahead, Clash, Issued, Signed, FactOk, FactCode, FactFitsSchema, ExprMade,
        ArgsMade, FieldsMade, FactMade, StmtsMade, StmtMade, BranchesMade, TestsMade, BodiesMade, Heard, Todo,
        Agreed, ExprAsks, InnerAsks, ArgsAsks, FieldsAsks, FactAsks, StmtsAsks, StmtAsks, BranchesAsks, TestsAsks,
        BodiesAsks, ParamsAsks;
      TodoHeard();
      :- VerifyFactAgainstSchema(fact, false);
      :- CompileFactLiteral(fact);
      ghost var m1 := m;
      Reflexive(m1);
      AppendInstruction(M.QueryStart);
      AppendOne(m1, m, old(wp), FactCode(g, fact), I(M.QueryStart));
      return Fine;
    }

    method CompileMap(nd: Node) returns (r: Verdict)
      requires Valid() && Inside() && nd.stmt.Map? && Allowed(nd.stmt, At())
      modifies this, codemap
      ensures forall plan, rest :: Todo(old(asked), plan, Cons(StmtAsks(g, nd), rest)) ==>
        if r.Fine? then Todo(asked, plan, rest) else Heard(asked, plan)
      ensures c <= old(c) + StmtMade(g, nd) && (r.Fine? ==> c == old(c) + StmtMade(g, nd))
      ensures signatures == old(signatures)
      ensures r.Fine? ==> Valid() && context == old(context) && forall m0 :: Before(m0, old(m)) ==> Before(m0, m)
      ensures r.Fine? ==> forall l :: Free(old(m).labels, old(c), l) <==> Free(m.labels, c, l)
      ensures r.Fine? ==> forall k: nat :: Ahead(old(m).labels, old(c), k) <==> Ahead(m.labels, c, k)
      ensures Did(r, StmtOk(g, old(At()), nd), old(wp), StmtCode(g, nd))
      decreases nd, 0
    {
      hide Written, Before, Clean, Free, Ahead, Clash, Issued, Signed, Accepted, Replay, StmtsOk, StmtsCode, FactOk,
        FactCode, FactFitsSchema, StmtOk, StmtCode, LoopCode, ExprMade, ArgsMade, FieldsMade, FactMade, StmtsMade,
        StmtMade, BranchesMade, TestsMade, BodiesMade, Heard, Todo, Agreed, ExprAsks, InnerAsks, ArgsAsks,
        FieldsAsks, FactAsks, StmtsAsks, StmtAsks, BranchesAsks, TestsAsks, BodiesAsks, ParamsAsks;
      TodoHeard();
      MapAsksUnfold(g, nd);
      StmtMadeUnfold(g, nd);
      MapUnfold(g, At(), nd);
      var fact, x := nd.stmt.fact, nd.stmt.name;
      :- CompileMapQuery(fact);
      ghost var m2, query, loop := m, FactCode(g, fact), LoopCode(x, StmtsCode(g, nd.stmt.body));
      Reflexive(m2);
      :- Ask(MayDeclare(x));
      :- CompileLoop(x, nd.stmt.body);
      Append(m2, m, old(wp), query + [I(M.QueryStart)], loop);
      assert (query + [I(M.QueryStart)]) + loop == query + ([I(M.QueryStart)] + loop);
      return Fine;
    }

    /** The head of the loop: opens a block and fetches the next result, or leaves. */
    method CompileLoopHead(x: string) returns (r: Verdict, top: M.Label, end: M.Label)
      requires Ready()
      modifies this`m, this`wp, this`c
      ensures c <= old(c) + 2 && (r.Fine? ==> c == old(c) + 2)
      ensures r.Fine? ==> Ready() && forall m0 :: Before(m0, old(m)) ==> Before(m0, m)
      ensures r.Fine? ==> forall l :: l != end ==> (Free(old(m).labels, old(c), l) <==> Free(m.labels, c, l))
      ensures r.Fine? && Free(m.labels, c, end) ==> forall k: nat :: Ahead(old(m).labels, old(c), k) <==>
        Ahead(m.labels, c, k)
      ensures r.Fine? ==>
        wp == old(wp) + 3 && m.prog[old(wp)..] == [M.Block, M.QueryNext(x), M.Branch(M.Unresolved(end))]
      ensures r.Fine? ==> top in m.labels && m.labels[top] == old(wp)
      ensures r.Fine? ==> (forall c': nat :: c <= c' ==> Issued(c', end)) && !Free(old(m).labels, old(c), end)
      ensures r.Fine? ==> Free(m.labels, c, end) || forall c': nat :: c <= c' ==> Clash(g.policy, c', end)
      ensures r.Error? ==> Justified(r.error, true)
    {
      hide Before, Clean, Free, Ahead, Clash, Issued, Signed, Anonymous, Heard, Todo, Agreed, ExprAsks, InnerAsks,
        ArgsAsks, FieldsAsks, FactAsks, StmtsAsks, StmtAsks, BranchesAsks, TestsAsks, BodiesAsks, ParamsAsks;
      top := AnonymousLabel();
      end := AnonymousLabel();
      r := DefineLabel(top, wp);
      if r.Error? { return; }
      AppendInstruction(M.Block);
      AppendInstruction(M.QueryNext(x));
      AppendInstruction(M.Branch(M.Unresolved(end)));
    }

    /** The loop over the results of a query. */
    method CompileLoop(x: string, ss: seq<Node>) returns (r: Verdict)
      requires Valid() && Inside()
      modifies this, codemap
      ensures forall plan, rest :: Todo(old(asked), plan, Cons(StmtsAsks(g, ss), rest)) ==>
        if r.Fine? then Todo(asked, plan, rest) else Heard(asked, plan)
      ensures c <= old(c) + 2 + StmtsMade(g, ss) && (r.Fine? ==> c == old(c) + 2 + StmtsMade(g, ss))
      ensures signatures == old(signatures)
      ensures r.Fine? ==> Valid() && context == old(context) && forall m0 :: Before(m0, old(m)) ==> Before(m0, m)
      ensures r.Fine? ==> forall l :: Free(old(m).labels, old(c), l) <==> Free(m.labels, c, l)
      ensures r.Fine? ==> forall k: nat :: Ahead(old(m).labels, old(c), k) <==> Ahead(m.labels, c, k)
      ensures Did(r, StmtsOk(g, old(At()), ss), old(wp), LoopCode(x, StmtsCode(g, ss)))
      decreases ss, 4
    {
      hide Written, Before, Clean, Free, Ahead, Clash, Issued, Signed, Accepted, Replay, StmtsOk, StmtsCode,
        Anonymous, ExprMade, ArgsMade, FieldsMade, FactMade, StmtsMade, StmtMade, BranchesMade, TestsMade,
        BodiesMade, Heard, Todo, Agreed, ExprAsks, InnerAsks, ArgsAsks, FieldsAsks, FactAsks, StmtsAsks, StmtAsks,
        BranchesAsks, TestsAsks, BodiesAsks, ParamsAsks;
      TodoHeard();
      var q, topLabel, endLabel := CompileLoopHead(x);
      if q.Error? { return q; }
      ghost var m3 := m;
      Reflexive(m3);
      :- CompileStatements(ss, false);
      ghost var m4 := m;
      Reflexive(m4);
      AppendInstruction(M.End);
      AppendInstruction(M.Jump(M.Unresolved(topLabel)));
      :- DefineLabel(endLabel, wp);
      AppendInstruction(M.End);
      LoopWritten(x, topLabel, endLabel, old(wp), m3, m4, m, StmtsCode(g, ss));
      return Fine;
    }

    /** One branch of an if statement. */
    method CompileBranch(b: Branch, end: M.Label) returns (r: Verdict)
      requires Valid() && Inside()
      modifies this, codemap
      ensures forall plan, rest :: Todo(old(asked), plan, Cons(ExprAsks(b.cond) + StmtsAsks(g, b.body), rest)) ==>
        if r.Fine? then Todo(asked, plan, rest) else Heard(asked, plan)
      ensures c <= old(c) + 1 + ExprMade(b.cond) + StmtsMade(g, b.body) &&
        (r.Fine? ==> c == old(c) + 1 + ExprMade(b.cond) + StmtsMade(g, b.body))
      ensures signatures == old(signatures)
      ensures r.Fine? ==> Valid() && context == old(context) && forall m0 :: Before(m0, old(m)) ==> Before(m0, m)
      ensures r.Fine? ==> forall l :: Free(old(m).labels, old(c), l) <==> Free(m.labels, c, l)
      ensures r.Fine? ==> forall k: nat :: Ahead(old(m).labels, old(c), k) <==> Ahead(m.labels, c, k)
      ensures Did(r, ExprOk(g, old(At()), b.cond) && StmtsOk(g, old(At()), b.body), old(wp), SymBranch(g, b, end))
      decreases b, 3
    {
      hide Written, Before, Clean, Free, Ahead, Clash, Issued, Signed, Accepted, Replay, StmtsOk, StmtsCode, ExprOk,
        ExprCode, Anonymous, ExprMade, ArgsMade, FieldsMade, FactMade, StmtsMade, StmtMade, BranchesMade, TestsMade,
        BodiesMade, Heard, Todo, Agreed, ExprAsks, InnerAsks, ArgsAsks, FieldsAsks, FactAsks, StmtsAsks, StmtAsks,
        BranchesAsks, TestsAsks, BodiesAsks, ParamsAsks;
      TodoHeard();
      TodoJoin(ExprAsks(b.cond), StmtsAsks(g, b.body));
      var nextLabel := AnonymousLabel();
      :- CompileExpression(b.cond);
      ghost var m1 := m;
      Reflexive(m1);
      AppendInstruction(M.Not);
      AppendInstruction(M.Branch(M.Unresolved(nextLabel)));
      ghost var m2 := m;
      Reflexive(m2);
      :- CompileStatements(b.body, false);
      ghost var m3 := m;
      Reflexive(m3);
      AppendInstruction(M.Jump(M.Unresolved(end)));
      :- DefineLabel(nextLabel, wp);
      BranchWritten(g, b, nextLabel, end, old(wp), m1, m2, m3, m);
      return Fine;
    }

    method CompileBranches(bs: seq<Branch>, end: M.Label) returns (r: Verdict)
      requires Valid() && Inside()
      modifies this, codemap
      ensures forall plan, rest :: Todo(old(asked), plan, Cons(BranchesAsks(g, bs), rest)) ==>
        if r.Fine? then Todo(asked, plan, rest) else Heard(asked, plan)
      ensures c <= old(c) + BranchesMade(g, bs) && (r.Fine? ==> c == old(c) + BranchesMade(g, bs))
      ensures signatures == old(signatures)
      ensures r.Fine? ==> Valid() && context == old(context) && forall m0 :: Before(m0, old(m)) ==> Before(m0, m)
      ensures r.Fine? ==> forall l :: Free(old(m).labels, old(c), l) <==> Free(m.labels, c, l)
      ensures r.Fine? ==> forall k: nat :: Ahead(old(m).labels, old(c), k) <==> Ahead(m.labels, c, k)
      ensures Did(r, BranchesOk(g, old(At()), bs), old(wp), SymBranches(g, bs, end))
      decreases bs, 3
    {
      hide Written, Before, Clean, Free, Ahead, Clash, Issued, Signed, Accepted, Replay, StmtsOk, ExprOk, SymBranch,
        SymBranches, ExprMade, ArgsMade, FieldsMade, FactMade, StmtsMade, StmtMade, BranchesMade, TestsMade,
        BodiesMade, Heard, Todo, Agreed, ExprAsks, InnerAsks, ArgsAsks, FieldsAsks, FactAsks, StmtsAsks, StmtAsks,
        BranchesAsks, TestsAsks, BodiesAsks, ParamsAsks;
      TodoHeard();
      NoneAsked(g);
      TodoNone();
      ghost var done: Code := [];
      assert bs[0..] == bs;
      assert Written(m, wp, []) by { Straight(m, wp, []); }
      for i := 0 to |bs|
        invariant forall plan, rest :: Todo(old(asked), plan, Cons(BranchesAsks(g, bs), rest)) ==>
          Todo(asked, plan, Cons(BranchesAsks(g, bs[i..]), rest))
        invariant Valid() && context == old(context) && signatures == old(signatures)
        invariant forall m0 :: Before(m0, old(m)) ==> Before(m0, m)
        invariant forall l :: Free(old(m).labels, old(c), l) <==> Free(m.labels, c, l)
        invariant forall k: nat :: Ahead(old(m).labels, old(c), k) <==> Ahead(m.labels, c, k)
        invariant c + BranchesMade(g, bs[i..]) == old(c) + BranchesMade(g, bs)
        invariant Has(old(wp), done) && SymBranches(g, bs, end) == done + SymBranches(g, bs[i..], end)
        invariant BranchesOk(g, At(), bs) <==> BranchesOk(g, At(), bs[i..])
      {
        ghost var m1, code := m, SymBranch(g, bs[i], end);
        assert bs[i..][0] == bs[i] && bs[i..][1..] == bs[i + 1..];
        SymBranchesUnfold(g, bs[i..], end);
        BranchesMadeUnfold(g, bs[i..]);
        BranchesAsksUnfold(g, bs[i..]);
        :- CompileBranch(bs[i], end);
        Reflexive(m1);
        Append(m1, m, old(wp), done, code);
        assert (done + code) + SymBranches(g, bs[i + 1..], end) == done + (code + SymBranches(g, bs[i + 1..], end));
        done := done + code;
      }
      assert bs[|bs|..] == [] && done + [] == done;
      SymBranchesUnfold(g, [], end);
      BranchesMadeUnfold(g, []);
      return Fine;
    }

    method CompileIf(nd: Node) returns (r: Verdict)
      requires Valid() && Inside() && nd.stmt.If? && Allowed(nd.stmt, At())
      modifies this, codemap
      ensures forall plan, rest :: Todo(old(asked), plan, Cons(StmtAsks(g, nd), rest)) ==>
        if r.Fine? then Todo(asked, plan, rest) else Heard(asked, plan)
      ensures c <= old(c) + StmtMade(g, nd) && (r.Fine? ==> c == old(c) + StmtMade(g, nd))
      ensures signatures == old(signatures)
      ensures r.Fine? ==> Valid() && context == old(context) && forall m0 :: Before(m0, old(m)) ==> Before(m0, m)
      ensures r.Fine? ==> forall l :: Free(old(m).labels, old(c), l) <==> Free(m.labels, c, l)
      ensures r.Fine? ==> forall k: nat :: Ahead(old(m).labels, old(c), k) <==> Ahead(m.labels, c, k)
      ensures Did(r, StmtOk(g, old(At()), nd), old(wp), StmtCode(g, nd))
      decreases nd, 0
    {
      hide Written, Before, Clean, Free, Ahead, Clash, Issued, Signed, Accepted, Replay, StmtsOk, StmtsCode,
        BranchesOk, BranchesCode, SymBranches, Anonymous, StmtOk, StmtCode, ExprMade, ArgsMade, FieldsMade, FactMade,
        StmtsMade, StmtMade, BranchesMade, TestsMade, BodiesMade, Heard, Todo, Agreed, ExprAsks, InnerAsks, ArgsAsks,
        FieldsAsks, FactAsks, StmtsAsks, StmtAsks, BranchesAsks, TestsAsks, BodiesAsks, ParamsAsks;
      TodoHeard();
      TodoNone();
      IfAsksUnfold(g, nd);
      StmtMadeUnfold(g, nd);
      IfUnfold(g, At(), nd);
      var endLabel := AnonymousLabel();
      :- CompileBranches(nd.stmt.branches, endLabel);
      ghost var m1 := m;
      Reflexive(m1);
      ghost var otherwise: Code := [];
      match nd.stmt.fallback {
        case NoElse =>
          Straight(m, wp, []);
          assert Instrs([]) == [];
        case Else(ss) =>
          :- CompileStatements(ss, false);
          otherwise := StmtsCode(g, ss);
      }
      ghost var m2 := m;
      Reflexive(m2);
      :- DefineLabel(endLabel, wp);
      Later(m2, m, |m1.prog|, otherwise);
      IfWritten(g, nd.stmt.branches, endLabel, otherwise, old(wp), m1, m);
      SymSizes(g, nd.stmt.branches, endLabel, |otherwise|);
      return Fine;
    }

    method CompileValueTest(e: Expr, arm: M.Label) returns (r: Verdict)
      requires Ready() && Inside()
      modifies this`m, this`wp, this`c, this`asked
      ensures forall plan, rest :: Todo(old(asked), plan, Cons(ExprAsks(e), rest)) ==>
        if r.Fine? then Todo(asked, plan, rest) else Heard(asked, plan)
      ensures c <= old(c) + ExprMade(e) && (r.Fine? ==> c == old(c) + ExprMade(e))
      ensures r.Fine? ==> Ready() && forall m0 :: Before(m0, old(m)) ==> Before(m0, m)
      ensures r.Fine? ==> forall l :: Free(old(m).labels, old(c), l) <==> Free(m.labels, c, l)
      ensures r.Fine? ==> forall k: nat :: Ahead(old(m).labels, old(c), k) <==> Ahead(m.labels, c, k)
      ensures Did(r, ExprOk(g, At(), e), old(wp), SymTest(g, e, arm))
      decreases e, 2
    {
      hide Written, Before, Clean, Free, Ahead, Clash, Issued, Signed, ExprOk, ExprCode, ExprMade, ArgsMade,
        FieldsMade, FactMade, StmtsMade, StmtMade, BranchesMade, TestsMade, BodiesMade, Heard, Todo, Agreed,
        ExprAsks, InnerAsks, ArgsAsks, FieldsAsks, FactAsks, StmtsAsks, StmtAsks, BranchesAsks, TestsAsks,
        BodiesAsks, ParamsAsks;
      TodoHeard();
      AppendInstruction(M.Dup(0));
      ghost var m1 := m;
      Reflexive(m1);
      :- CompileExpression(e);
      ghost var m2 := m;
      Reflexive(m2);
      AppendInstruction(M.Eq);
      AppendInstruction(M.Branch(M.Unresolved(arm)));
      TestWritten(g, e, arm, old(wp), m1, m2, m);
      return Fine;
    }

    method CompileValueTests(es: seq<Expr>, arm: M.Label) returns (r: Verdict)
      requires Ready() && Inside()
      modifies this`m, this`wp, this`c, this`asked
      ensures forall plan, rest :: Todo(old(asked), plan, Cons(ArgsAsks(es, 0, false), rest)) ==>
        if r.Fine? then Todo(asked, plan, rest) else Heard(asked, plan)
      ensures c <= old(c) + ArgsMade(es) && (r.Fine? ==> c == old(c) + ArgsMade(es))
      ensures r.Fine? ==> Ready() && forall m0 :: Before(m0, old(m)) ==> Before(m0, m)
      ensures r.Fine? ==> forall l :: Free(old(m).labels, old(c), l) <==> Free(m.labels, c, l)
      ensures r.Fine? ==> forall k: nat :: Ahead(old(m).labels, old(c), k) <==> Ahead(m.labels, c, k)
      ensures Did(r, ArgsOk(g, At(), es), old(wp), SymValues(g, es, arm))
      decreases es, 3
    {
      hide Written, Before, Clean, Free, Ahead, Clash, Issued, Signed, ExprOk, SymTest, SymValues, ExprMade,
        ArgsMade, FieldsMade, FactMade, StmtsMade, StmtMade, BranchesMade, TestsMade, BodiesMade, Heard, Todo,
        Agreed, ExprAsks, InnerAsks, ArgsAsks, FieldsAsks, FactAsks, StmtsAsks, StmtAsks, BranchesAsks, TestsAsks,
        BodiesAsks, ParamsAsks;
      TodoHeard();
      NoneAsked(g);
      TodoNone();
      ghost var done: Code := [];
      assert es[0..] == es;
      assert Written(m, wp, []) by { Straight(m, wp, []); }
      for i := 0 to |es|
        invariant forall plan, rest :: Todo(old(asked), plan, Cons(ArgsAsks(es, 0, false), rest)) ==>
          Todo(asked, plan, Cons(ArgsAsks(es[i..], i, false), rest))
        invariant Ready() && forall m0 :: Before(m0, old(m)) ==> Before(m0, m)
        invariant forall l :: Free(old(m).labels, old(c), l) <==> Free(m.labels, c, l)
        invariant forall k: nat :: Ahead(old(m).labels, old(c), k) <==> Ahead(m.labels, c, k)
        invariant c + ArgsMade(es[i..]) == old(c) + ArgsMade(es)
        invariant Has(old(wp), done) && SymValues(g, es, arm) == done + SymValues(g, es[i..], arm)
        invariant ArgsOk(g, At(), es) <==> ArgsOk(g, At(), es[i..])
      {
        ghost var m1, code := m, SymTest(g, es[i], arm);
        assert es[i..][0] == es[i] && es[i..][1..] == es[i + 1..];
        SymValuesUnfold(g, es[i..], arm);
        ArgsMadeUnfold(es[i..]);
        assert es[i..][0] == es[i] && es[i..][1..] == es[i + 1..];
        ArgsAsksUnfold(es[i..], i, false);
        :- CompileValueTest(es[i], arm);
        Reflexive(m1);
        Append(m1, m, old(wp), done, code);
        assert (done + code) + SymValues(g, es[i + 1..], arm) == done + (code + SymValues(g, es[i + 1..], arm));
        done := done + code;
      }
      assert es[|es|..] == [] && done + [] == done;
      SymValuesUnfold(g, [], arm);
      ArgsMadeUnfold([]);
      return Fine;
    }

    /** The tests of one arm, going to its label. */
    method CompilePattern(p: Pattern, arm: M.Label) returns (r: Verdict)
      requires Ready() && Inside()
      modifies this`m, this`wp, this`c, this`asked
      ensures p.Default? ==> r.Fine? && asked == old(asked)
      ensures p.Values? ==> forall plan, rest :: Todo(old(asked), plan, Cons(ArgsAsks(p.values, 0, false), rest)) ==>
        if r.Fine? then Todo(asked, plan, rest) else Heard(asked, plan)
      ensures
        var made := match p case Default => 0 case Values(es) => ArgsMade(es);
        c <= old(c) + made && (r.Fine? ==> c == old(c) + made)
      ensures r.Fine? ==> Ready() && forall m0 :: Before(m0, old(m)) ==> Before(m0, m)
      ensures r.Fine? ==> forall l :: Free(old(m).labels, old(c), l) <==> Free(m.labels, c, l)
      ensures r.Fine? ==> forall k: nat :: Ahead(old(m).labels, old(c), k) <==> Ahead(m.labels, c, k)
      ensures Did(r, p.Values? ==> ArgsOk(g, At(), p.values), old(wp), SymPattern(g, p, arm))
      decreases p, 4
    {
      hide Written, Before, Clean, Free, Ahead, Clash, Issued, Signed, ArgsOk, SymValues, ArgsMade, Heard, Todo,
        Agreed, ArgsAsks;
      TodoHeard();
      match p
      case Values(es) => r := CompileValueTests(es, arm);
      case Default =>
        AppendInstruction(M.Jump(M.Unresolved(arm)));
        Single(m, old(wp), JumpTo(arm));
        return Fine;
    }

    /** The tests of a match statement and the labels of its arms. */
    method CompileTests(arms: seq<Arm>) returns (r: Verdict, armLabels: seq<M.Label>)
      requires Ready() && Inside()
      modifies this`m, this`wp, this`c, this`asked
      ensures forall plan, rest :: Todo(old(asked), plan, Cons(TestsAsks(arms), rest)) ==>
        if r.Fine? then Todo(asked, plan, rest) else Heard(asked, plan)
      ensures c <= old(c) + TestsMade(arms) && (r.Fine? ==> c == old(c) + TestsMade(arms))
      ensures r.Fine? ==> Ready() && forall m0 :: Before(m0, old(m)) ==> Before(m0, m)
      ensures r.Fine? ==> Waiting(g.policy, m.labels, c, armLabels)
      ensures r.Fine? ==> forall l :: Free(old(m).labels, old(c), l) <==> Free(m.labels, c, l) && l !in armLabels
      ensures r.Fine? && AllFree(m.labels, c, armLabels) ==> forall k: nat :: Ahead(old(m).labels, old(c), k) <==>
        Ahead(m.labels, c, k)
      ensures r.Fine? ==>
        PatternsOk(g, At(), arms) && |armLabels| == |arms| && Has(old(wp), SymTests(g, arms, armLabels))
      ensures r.Error? ==> Justified(r.error, PatternsOk(g, At(), arms))
      decreases arms, 4
    {
      hide Written, Before, Clean, Free, Ahead, Clash, Issued, Waiting, Signed, ArgsOk, SymValues, Anonymous,
        ExprMade, ArgsMade, FieldsMade, FactMade, StmtsMade, StmtMade, BranchesMade, TestsMade, BodiesMade, Heard,
        Todo, Agreed, ExprAsks, InnerAsks, ArgsAsks, FieldsAsks, FactAsks, StmtsAsks, StmtAsks, BranchesAsks,
        TestsAsks, BodiesAsks, ParamsAsks, SymPattern;
      TodoHeard();
      NoneAsked(g);
      TodoNone();
      armLabels := [];
      assert arms[0..] == arms;
      assert Waiting(g.policy, m.labels, c, []) by { WaitingNone(g.policy, m.labels, c); }
      assert Written(m, wp, []) by { Straight(m, wp, []); }
      for i := 0 to |arms|
        invariant forall plan, rest :: Todo(old(asked), plan, Cons(TestsAsks(arms), rest)) ==>
          Todo(asked, plan, Cons(TestsAsks(arms[i..]), rest))
        invariant Ready() && forall m0 :: Before(m0, old(m)) ==> Before(m0, m)
        invariant Waiting(g.policy, m.labels, c, armLabels)
        invariant forall l :: Free(old(m).labels, old(c), l) <==> Free(m.labels, c, l) && l !in armLabels
        invariant AllFree(m.labels, c, armLabels) ==> forall k: nat :: Ahead(old(m).labels, old(c), k) <==>
          Ahead(m.labels, c, k)
        invariant c + TestsMade(arms[i..]) == old(c) + TestsMade(arms)
        invariant |armLabels| == i && Has(old(wp), SymTests(g, arms[..i], armLabels))
        invariant PatternsOk(g, At(), arms) <==> PatternsOk(g, At(), arms[i..])
      {
        ghost var m1, done := m, SymTests(g, arms[..i], armLabels);
        Reflexive(m1);
        assert arms[i..][0] == arms[i] && arms[i..][1..] == arms[i + 1..] && arms[i..][|arms[i..]| - 1] ==
          arms[|arms| - 1];
        TestsMadeUnfold(arms[i..]);
        TestsAsksUnfold(arms[i..]);
        WaitingMore(g.policy, m.labels, c, armLabels);
        var armLabel := AnonymousLabel();
        ghost var labels1, c1, waiting := m.labels, c, armLabels + [armLabel];
        var q := CompilePattern(arms[i].pattern, armLabel);
        if q.Error? { return q, armLabels; }
        if arms[i].pattern.Default? && arms[i] != arms[|arms| - 1] { return Error(Invalid), armLabels; }
        WaitingKept(g.policy, labels1, c1, m.labels, c, waiting);
        Append(m1, m, old(wp), done, SymPattern(g, arms[i].pattern, armLabel));
        TestsSnoc(g, arms[..i], armLabels, arms[i], armLabel);
        assert arms[..i] + [arms[i]] == arms[..i + 1];
        armLabels := armLabels + [armLabel];
      }
      TestsMadeUnfold([]);
      assert arms[..|arms|] == arms && arms[|arms|..] == [];
      return Fine, armLabels;
    }

    method CompileBodies(arms: seq<Arm>, armLabels: seq<M.Label>, end: M.Label) returns (r: Verdict)
      requires Valid() && Inside() && |armLabels| == |arms| && Waiting(g.policy, m.labels, c, armLabels)
      modifies this, codemap
      ensures forall plan, rest :: Todo(old(asked), plan, Cons(BodiesAsks(g, arms), rest)) ==>
        if r.Fine? then Todo(asked, plan, rest) else Heard(asked, plan)
      ensures c <= old(c) + BodiesMade(g, arms) && (r.Fine? ==> c == old(c) + BodiesMade(g, arms))
      ensures signatures == old(signatures)
      ensures r.Fine? ==> Valid() && context == old(context) && forall m0 :: Before(m0, old(m)) ==> Before(m0, m)
      ensures r.Fine? ==> AllFree(old(m).labels, old(c), armLabels)
      ensures r.Fine? ==> forall l :: Free(m.labels, c, l) <==> Free(old(m).labels, old(c), l) && l !in armLabels
      ensures r.Fine? ==> forall k: nat :: Ahead(old(m).labels, old(c), k) <==> Ahead(m.labels, c, k)
      ensures r.Fine? ==> BodiesOk(g, old(At()), arms) && Has(old(wp), SymBodies(g, arms, end))
      ensures r.Fine? ==> ArmsPlaced(g, arms, armLabels, m.labels, old(wp))
      ensures r.Error? ==> Justified(r.error, BodiesOk(g, old(At()), arms))
      decreases arms, 3
    {
      hide Written, Before, Clean, Free, Ahead, Clash, Issued, Waiting, Signed, Accepted, Replay, StmtsOk, StmtsCode,
        BodiesOk, SymBodies, SymBody, ArmsPlaced, BodiesSize, ExprMade, ArgsMade, FieldsMade, FactMade, StmtsMade,
        StmtMade, BranchesMade, TestsMade, BodiesMade, Heard, Todo, Agreed, ExprAsks, InnerAsks, ArgsAsks,
        FieldsAsks, FactAsks, StmtsAsks, StmtAsks, BranchesAsks, TestsAsks, BodiesAsks, ParamsAsks;
      TodoHeard();
      NoneAsked(g);
      TodoNone();
      BodiesNone(g, At(), end, m.labels, wp);
      WaitingDistinct(g.policy, m.labels, c, armLabels);
      assert arms[0..] == arms && arms[..0] == [] && armLabels[..0] == [] && armLabels[0..] == armLabels;
      ghost var done: Code := [];
      assert Written(m, wp, []) by { Straight(m, wp, []); }
      for i := 0 to |arms|
        invariant forall plan, rest :: Todo(old(asked), plan, Cons(BodiesAsks(g, arms), rest)) ==>
          Todo(asked, plan, Cons(BodiesAsks(g, arms[i..]), rest))
        invariant Valid() && context == old(context) && signatures == old(signatures)
        invariant forall m0 :: Before(m0, old(m)) ==> Before(m0, m)
        invariant AllFree(old(m).labels, old(c), armLabels[..i])
        invariant forall l :: Free(m.labels, c, l) <==> Free(old(m).labels, old(c), l) && l !in armLabels[..i]
        invariant forall k: nat :: Ahead(old(m).labels, old(c), k) <==> Ahead(m.labels, c, k)
        invariant c + BodiesMade(g, arms[i..]) == old(c) + BodiesMade(g, arms)
        invariant Has(old(wp), done) && SymBodies(g, arms, end) == done + SymBodies(g, arms[i..], end)
        invariant BodiesOk(g, At(), arms) <==> BodiesOk(g, At(), arms[i..])
        invariant Waiting(g.policy, m.labels, c, armLabels[i..])
        invariant ArmsPlaced(g, arms[..i], armLabels[..i], m.labels, old(wp)) && |done| == BodiesSize(g, arms[..i])
      {
        ghost var m1, c1, code := m, c, SymBody(g, arms[i], end);
        assert armLabels[i..][0] == armLabels[i] && armLabels[i..][1..] == armLabels[i + 1..];
        WaitingHead(g.policy, m.labels, c, armLabels[i..]);
        Reflexive(m1);
        BodiesUnfold(g, At(), arms, end, i);
        BodiesMadeUnfold(g, arms[i..]);
        BodiesAsksUnfold(g, arms[i..]);
        assert arms[i..][0] == arms[i] && arms[i..][1..] == arms[i + 1..];
        assert arms[..i] + [arms[i]] == arms[..i + 1] && armLabels[..i] + [armLabels[i]] == armLabels[..i + 1];
        :- CompileBody(arms[i], armLabels[i], end);
        WaitingNext(g.policy, m1.labels, c1, m.labels, c, armLabels[i..]);
        Append(m1, m, old(wp), done, code);
        StillPlaced(g, arms[..i], armLabels[..i], m1, m, old(wp));
        PlacedSnoc(g, arms[..i], armLabels[..i], arms[i], armLabels[i], m.labels, old(wp));
        assert (done + code) + SymBodies(g, arms[i + 1..], end) == done + (code + SymBodies(g, arms[i + 1..], end));
        done := done + code;
      }
      assert arms[..|arms|] == arms && arms[|arms|..] == [] && armLabels[..|arms|] == armLabels && done + [] == done;
      BodiesNone(g, At(), end, m.labels, old(wp));
      BodiesMadeUnfold(g, []);
      return Fine;
    }

    /** The label of an arm, and dropping the value that was matched. */
    method StartArm(armStart: M.Label) returns (r: Verdict)
      requires Ready() && Issued(c, armStart) && (Free(m.labels, c, armStart) || Clash(g.policy, c, armStart))
      modifies this`m, this`wp
      ensures r.Fine? ==> Ready() && forall m0 :: Before(m0, old(m)) ==> Before(m0, m)
      ensures r.Fine? ==> Free(old(m).labels, c, armStart)
      ensures r.Fine? ==> forall l :: Free(m.labels, c, l) <==> Free(old(m).labels, c, l) && l != armStart
      ensures r.Fine? ==> forall k: nat :: Ahead(old(m).labels, c, k) <==> Ahead(m.labels, c, k)
      ensures r.Fine? ==> Has(old(wp), [I(M.Pop)]) && armStart in m.labels && m.labels[armStart] == old(wp)
      ensures r.Error? ==> Justified(r.error, true)
    {
      hide Written, Before, Clean, Free, Ahead, Clash, Issued, Signed, Heard, Todo, Agreed, ExprAsks, InnerAsks,
        ArgsAsks, FieldsAsks, FactAsks, StmtsAsks, StmtAsks, BranchesAsks, TestsAsks, BodiesAsks, ParamsAsks;
      :- DefineLabel(armStart, wp);
      AppendInstruction(M.Pop);
      Single(m, old(wp), I(M.Pop));
      return Fine;
    }

    method CompileBody(arm: Arm, armStart: M.Label, end: M.Label) returns (r: Verdict)
      requires Valid() && Inside() && Issued(c, armStart) &&
        (Free(m.labels, c, armStart) || Clash(g.policy, c, armStart))
      modifies this, codemap
      ensures forall plan, rest :: Todo(old(asked), plan, Cons(StmtsAsks(g, arm.body), rest)) ==>
        if r.Fine? then Todo(asked, plan, rest) else Heard(asked, plan)
      ensures c <= old(c) + StmtsMade(g, arm.body) && (r.Fine? ==> c == old(c) + StmtsMade(g, arm.body))
      ensures signatures == old(signatures)
      ensures r.Fine? ==> Valid() && context == old(context) && forall m0 :: Before(m0, old(m)) ==> Before(m0, m)
      ensures r.Fine? ==> Free(old(m).labels, old(c), armStart)
      ensures r.Fine? ==> forall l :: Free(m.labels, c, l) <==> Free(old(m).labels, old(c), l) && l != armStart
      ensures r.Fine? ==> forall k: nat :: Ahead(old(m).labels, old(c), k) <==> Ahead(m.labels, c, k)
      ensures r.Fine? ==> StmtsOk(g, old(At()), arm.body) && Has(old(wp), SymBody(g, arm, end))
      ensures r.Fine? ==> armStart in m.labels && m.labels[armStart] == old(wp)
      ensures r.Error? ==> Justified(r.error, StmtsOk(g, old(At()), arm.body))
      decreases arm, 3
    {
      hide Written, Before, Clean, Free, Ahead, Clash, Issued, Signed, Accepted, Replay, StmtsOk, StmtsCode,
        ExprMade, ArgsMade, FieldsMade, FactMade, StmtsMade, StmtMade, BranchesMade, TestsMade, BodiesMade, Heard,
        Todo, Agreed, ExprAsks, InnerAsks, ArgsAsks, FieldsAsks, FactAsks, StmtsAsks, StmtAsks, BranchesAsks,
        TestsAsks, BodiesAsks, ParamsAsks;
      TodoHeard();
      :- StartArm(armStart);
      ghost var m1, body := m, StmtsCode(g, arm.body);
      Reflexive(m1);
      :- CompileStatements(arm.body, false);
      ghost var m2 := m;
      Reflexive(m2);
      LabelKept(m1, m2, armStart);
      AppendInstruction(M.Jump(M.Unresolved(end)));
      Between(m1, m2, m, old(wp), [I(M.Pop)], body, JumpTo(end));
      return Fine;
    }

    /** Without a default arm, a value that matches nothing panics. */
    method AppendMiss(arms: seq<Arm>)
      requires Ready()
      modifies this`m, this`wp
      ensures Ready() && forall m0 :: Before(m0, old(m)) ==> Before(m0, m)
      ensures m.labels == old(m).labels && Has(old(wp), if HasDefault(arms) then [] else [I(M.Exit(Panic))])
    {
      hide Written, Before, Clean, Free, Ahead, Clash, Issued, Signed, HasDefault, Heard, Todo, Agreed, ExprAsks,
        InnerAsks, ArgsAsks, FieldsAsks, FactAsks, StmtsAsks, StmtAsks, BranchesAsks, TestsAsks, BodiesAsks,
        ParamsAsks;
      if !HasDefault(arms) {
        AppendInstruction(M.Exit(Panic));
        Single(m, old(wp), I(M.Exit(Panic)));
      } else {
        Straight(m, wp, []);
        assert Instrs([]) == [];
      }
    }

    method CompileMatch(nd: Node) returns (r: Verdict)
      requires Valid() && Inside() && nd.stmt.Match? && Allowed(nd.stmt, At())
      modifies this, codemap
      ensures forall plan, rest :: Todo(old(asked), plan, Cons(StmtAsks(g, nd), rest)) ==>
        if r.Fine? then Todo(asked, plan, rest) else Heard(asked, plan)
      ensures c <= old(c) + StmtMade(g, nd) && (r.Fine? ==> c == old(c) + StmtMade(g, nd))
      ensures signatures == old(signatures)
      ensures r.Fine? ==> Valid() && context == old(context) && forall m0 :: Before(m0, old(m)) ==> Before(m0, m)
      ensures r.Fine? ==> forall l :: Free(old(m).labels, old(c), l) <==> Free(m.labels, c, l)
      ensures r.Fine? ==> forall k: nat :: Ahead(old(m).labels, old(c), k) <==> Ahead(m.labels, c, k)
      ensures Did(r, StmtOk(g, old(At()), nd), old(wp), StmtCode(g, nd))
      decreases nd, 0
    {
      hide Written, Before, Clean, Free, Ahead, Clash, Issued, Waiting, Signed, Accepted, Replay, ExprOk, ExprCode,
        TestsCode, BodiesCode, SymTests, SymBodies, PatternsOk, BodiesOk, ArmsPlaced, Anonymous, StmtOk, StmtCode,
        ExprMade, ArgsMade, FieldsMade, FactMade, StmtsMade, StmtMade, BranchesMade, TestsMade, BodiesMade, Heard,
        Todo, Agreed, ExprAsks, InnerAsks, ArgsAsks, FieldsAsks, FactAsks, StmtsAsks, StmtAsks, BranchesAsks,
        TestsAsks, BodiesAsks, ParamsAsks;
      TodoHeard();
      MatchAsksUnfold(g, nd);
      StmtMadeUnfold(g, nd);
      MatchUnfold(g, At(), nd);
      var arms := nd.stmt.arms;
      var repeated := FindDuplicate(MatchValues(arms));
      if repeated { return Error(Invalid); }
      :- CompileExpression(nd.stmt.expr);
      ghost var m1 := m;
      Reflexive(m1);
      var endLabel := AnonymousLabel();
      var q, armLabels := CompileTests(arms);
      if q.Error? { return q; }
      ghost var m2 := m;
      Reflexive(m2);
      ghost var miss: Code := if HasDefault(arms) then [] else [I(M.Exit(Panic))];
      AppendMiss(arms);
      ghost var m3 := m;
      Reflexive(m3);
      :- CompileBodies(arms, armLabels, endLabel);
      ghost var m4 := m;
      Reflexive(m4);
      :- DefineLabel(endLabel, wp);
      MatchWritten(g, arms, armLabels, endLabel, ExprCode(g, nd.stmt.expr), miss, old(wp), m1, m2, m3, m4, m);
      TestsLength(g, arms, armLabels, |miss|);
      BodiesLength(g, arms, endLabel);
      return Fine;
    }

    // ---- Definitions ----

    method AppendVar(x: string) returns (r: Verdict)
      requires Ready()
      modifies this`m, this`wp, this`asked
      ensures forall plan, rest :: Todo(old(asked), plan, Cons([MayDeclare(x)], rest)) ==>
        if r.Fine? then Todo(asked, plan, rest) else Heard(asked, plan)
      ensures r.Fine? ==> Ready() && forall m0 :: Before(m0, old(m)) ==> Before(m0, m)
      ensures m == old(m).(prog := old(m).prog + [M.Meta(M.LetMark(x)), M.Def(x)])
      ensures r.Error? ==> r.error == BadType && Denied(types, asked)
    {
      TodoHeard();
      AppendInstruction(M.Meta(M.LetMark(x)));
      AppendInstruction(M.Def(x));
      r := Ask(MayDeclare(x));
    }

    /** Parameters are bound last to first. */
    method AppendParams(ps: seq<string>) returns (r: Verdict)
      requires Ready()
      modifies this`m, this`wp, this`asked
      ensures forall plan, rest :: Todo(old(asked), plan, Cons(ParamsAsks(ps), rest)) ==>
        if r.Fine? then Todo(asked, plan, rest) else Heard(asked, plan)
      ensures r.Fine? ==> Ready() && forall m0 :: Before(m0, old(m)) ==> Before(m0, m)
      ensures r.Fine? ==> m.labels == old(m).labels && Has(old(wp), ParamsCode(ps))
      ensures r.Error? ==> r.error == BadType && Denied(types, asked)
    {
      hide Written, Before, Clean, Free, Ahead, Clash, Issued, Signed, Denied, Heard, Todo, Agreed, ExprAsks,
        InnerAsks, ArgsAsks, FieldsAsks, FactAsks, StmtsAsks, StmtAsks, BranchesAsks, TestsAsks, BodiesAsks,
        ParamsAsks;
      TodoHeard();
      NoneAsked(g);
      TodoNone();
      assert Written(m, wp, []) by { Straight(m, wp, []); }
      assert ps[|ps|..] == [] && ps[..|ps|] == ps && ps[..0] == [];
      for i := |ps| downto 0
        invariant forall plan, rest :: Todo(old(asked), plan, Cons(ParamsAsks(ps), rest)) ==>
          Todo(asked, plan, Cons(ParamsAsks(ps[..i]), rest))
        invariant Ready() && forall m0 :: Before(m0, old(m)) ==> Before(m0, m)
        invariant m.labels == old(m).labels && Has(old(wp), ParamsCode(ps[i..]))
      {
        ghost var m1, mark := m, [M.Meta(M.LetMark(ps[i])), M.Def(ps[i])];
        Reflexive(m1);
        assert ps[i..][0] == ps[i] && ps[i..][1..] == ps[i + 1..];
        ParamsAsksLast(ps, i);
        TodoJoin([MayDeclare(ps[i])], ParamsAsks(ps[..i]));
        :- AppendVar(ps[i]);
        AppendPlain(m1, m, old(wp), ParamsCode(ps[i + 1..]), mark);
        assert ps[i..][0] == ps[i] && ps[i..][1..] == ps[i + 1..];
        assert Instrs(mark) == [I(M.Meta(M.LetMark(ps[i]))), I(M.Def(ps[i]))];
      }
      assert ps[0..] == ps;
      return Fine;
    }

    method ContainsReturn(from: nat) returns (found: bool)
      requires from <= |m.prog|
      ensures found <==> M.Return in m.prog[from..]
    {
      for i := from to |m.prog|
        invariant forall k :: from <= k < i ==> m.prog[k] != M.Return
      {
        if m.prog[i] == M.Return {
          assert m.prog[from..][i - from] == M.Return;
          return true;
        }
      }
      return false;
    }

    /** A definition's signature is known from here on. */
    method DefineSignature(d: Definition, finish: bool) returns (r: Verdict)
      requires Valid()
      requires d.name !in signatures ==>
        CallOk(if finish then g.policy.finishFunctions else g.policy.functions, d.name, |d.params|)
      modifies this`signatures
      ensures r == if d.name in old(signatures) then Error(SignatureTaken(d.name)) else Fine
      ensures r.Fine? ==> signatures == old(signatures)[d.name := Signature(|d.params|, finish)]
      ensures r.Error? ==> signatures == old(signatures)
      ensures Valid()
    {
      if d.name in signatures { return Error(SignatureTaken(d.name)); }
      signatures := signatures[d.name := Signature(|d.params|, finish)];
      return Fine;
    }

    /** The part all definitions share: parameters, then the body. */
    method CompileParamsAndBody(ps: seq<string>, ss: seq<Node>) returns (r: Verdict)
      requires Valid() && Inside()
      modifies this, codemap
      ensures forall plan, rest :: Todo(old(asked), plan, Cons(ParamsAsks(ps) + StmtsAsks(g, ss), rest)) ==>
        if r.Fine? then Todo(asked, plan, rest) else Heard(asked, plan)
      ensures c <= old(c) + StmtsMade(g, ss) && (r.Fine? ==> c == old(c) + StmtsMade(g, ss))
      ensures signatures == old(signatures)
      ensures r.Fine? ==> Valid() && context == old(context) && forall m0 :: Before(m0, old(m)) ==> Before(m0, m)
      ensures r.Fine? ==> forall l :: Free(old(m).labels, old(c), l) <==> Free(m.labels, c, l)
      ensures r.Fine? ==> forall k: nat :: Ahead(old(m).labels, old(c), k) <==> Ahead(m.labels, c, k)
      ensures Did(r, StmtsOk(g, old(At()), ss), old(wp), ParamsCode(ps) + StmtsCode(g, ss))
    {
      hide Written, Before, Clean, Free, Ahead, Clash, Issued, Signed, Accepted, Replay, StmtsOk, StmtsCode,
        ParamsCode, Denied, ExprMade, ArgsMade, FieldsMade, FactMade, StmtsMade, StmtMade, BranchesMade, TestsMade,
        BodiesMade, Heard, Todo, Agreed, ExprAsks, InnerAsks, ArgsAsks, FieldsAsks, FactAsks, StmtsAsks, StmtAsks,
        BranchesAsks, TestsAsks, BodiesAsks, ParamsAsks;
      TodoHeard();
      TodoJoin(ParamsAsks(ps), StmtsAsks(g, ss));
      :- AppendParams(ps);
      ghost var m1 := m;
      Reflexive(m1);
      :- CompileStatements(ss, false);
      Append(m1, m, old(wp), ParamsCode(ps), StmtsCode(g, ss));
      return Fine;
    }

    /** A body that must contain a return; running past its end panics. */
    method CompileReturningBody(ss: seq<Node>) returns (r: Verdict)
      requires Valid() && Inside()
      modifies this, codemap
      ensures forall plan, rest :: Todo(old(asked), plan, Cons(StmtsAsks(g, ss), rest)) ==>
        if r.Fine? then Todo(asked, plan, rest) else Heard(asked, plan)
      ensures c <= old(c) + StmtsMade(g, ss) && (r.Fine? ==> c == old(c) + StmtsMade(g, ss))
      ensures signatures == old(signatures)
      ensures r.Fine? ==> Valid() && context == old(context) && forall m0 :: Before(m0, old(m)) ==> Before(m0, m)
      ensures r.Fine? ==> forall l :: Free(old(m).labels, old(c), l) <==> Free(m.labels, c, l)
      ensures r.Fine? ==> forall k: nat :: Ahead(old(m).labels, old(c), k) <==> Ahead(m.labels, c, k)
      ensures r.Fine? ==> StmtsOk(g, old(At()), ss) && I(M.Return) in StmtsCode(g, ss)
      ensures r.Fine? ==> Has(old(wp), StmtsCode(g, ss) + [I(M.Exit(Panic))])
      ensures r.Error? ==> Justified(r.error, StmtsOk(g, old(At()), ss) && I(M.Return) in StmtsCode(g, ss))
    {
      hide Written, Before, Clean, Free, Ahead, Clash, Issued, Signed, Accepted, Replay, StmtsOk, StmtsCode,
        ExprMade, ArgsMade, FieldsMade, FactMade, StmtsMade, StmtMade, BranchesMade, TestsMade, BodiesMade, Heard,
        Todo, Agreed, ExprAsks, InnerAsks, ArgsAsks, FieldsAsks, FactAsks, StmtsAsks, StmtAsks, BranchesAsks,
        TestsAsks, BodiesAsks, ParamsAsks;
      TodoHeard();
      var from := wp;
      :- CompileStatements(ss, false);
      ghost var m1 := m;
      Reflexive(m1);
      ReturnsWritten(m, from, StmtsCode(g, ss));
      var found := ContainsReturn(from);
      if !found { return Error(Invalid); }
      AppendInstruction(M.Exit(Panic));
      AppendOne(m1, m, from, StmtsCode(g, ss), I(M.Exit(Panic)));
      return Fine;
    }

    /** The label and the signature of a function. */
    method EnterFunction(d: Definition) returns (r: Verdict)
      requires Valid()
      requires d.name !in signatures ==> CallOk(g.policy.functions, d.name, |d.params|)
      modifies this`m, this`signatures, this`lastLocator, codemap
      ensures r.Fine? ==> Valid() && forall m0 :: Before(m0, old(m)) ==> Before(m0, m)
      ensures r.Fine? ==> m.prog == old(m).prog && M.Label(d.name, M.FunctionLabel) in m.labels
      ensures r.Fine? ==> m.labels[M.Label(d.name, M.FunctionLabel)] == wp
      ensures r.Fine? ==> signatures == old(signatures)[d.name := Signature(|d.params|, false)]
      ensures r.Fine? ==> forall l :: Free(m.labels, c, l) <==>
        Free(old(m).labels, c, l) && l != M.Label(d.name, M.FunctionLabel)
      ensures r.Fine? ==> forall k: nat :: Ahead(old(m).labels, c, k) <==> Ahead(m.labels, c, k)
      ensures
        var ok := Free(old(m).labels, c, M.Label(d.name, M.FunctionLabel)) && d.name !in old(signatures) &&
          NoRepeats(d.params);
        if r.Fine? then ok else Justified(r.error, ok)
    {
      hide Before, Clean, Free, Ahead, Clash, Issued, Signed, Accepted, Replay, NoRepeats, FindDefinition, Denied,
        Agreed;
      NamedIssued(c, M.Label(d.name, M.FunctionLabel));
      :- DefineLabel(M.Label(d.name, M.FunctionLabel), wp);
      :- MapRange(d.locator);
      :- DefineSignature(d, false);
      var repeated := FindDuplicate(d.params);
      if repeated { return Error(Invalid); }
      return Fine;
    }

    method CompileFunction(d: Definition) returns (r: Verdict)
      requires Valid() && context != [] && At() == FunctionSite(signatures[d.name := Signature(|d.params|, false)])
      requires d.name !in signatures ==> CallOk(g.policy.functions, d.name, |d.params|)
      requires Free(m.labels, c, M.Label(d.name, M.FunctionLabel)) ==> At().known == KnownIn(g.policy, d.name)
      modifies this, codemap
      ensures forall plan, rest :: Todo(old(asked), plan, Cons(DefinitionAsks(g, d), rest)) ==>
        if r.Fine? then Todo(asked, plan, rest) else Heard(asked, plan)
      ensures c <= old(c) + StmtsMade(g, d.body) && (r.Fine? ==> c == old(c) + StmtsMade(g, d.body))
      ensures r.Fine? ==> Valid() && context == old(context) && forall m0 :: Before(m0, old(m)) ==> Before(m0, m)
      ensures r.Fine? ==> signatures == old(signatures)[d.name := Signature(|d.params|, false)]
      ensures r.Fine? ==> forall l :: Free(m.labels, c, l) <==>
        Free(old(m).labels, old(c), l) && l != M.Label(d.name, M.FunctionLabel)
      ensures r.Fine? ==> forall k: nat :: Ahead(old(m).labels, old(c), k) <==> Ahead(m.labels, c, k)
      ensures Did(r, old(Free(m.labels, c, M.Label(d.name, M.FunctionLabel)) && d.name !in signatures) &&
        FunctionOk(g, d),
                  old(wp), FunctionCode(g, d))
      ensures r.Fine? ==> Standing(m, M.Label(d.name, M.FunctionLabel), FunctionCode(g, d))
    {
      hide Written, Before, Clean, Free, Ahead, Clash, Issued, Signed, Accepted, Replay, StmtsOk, StmtsCode,
        ParamsCode, NoRepeats, FindDefinition, Denied, KnownIn, ExprMade, ArgsMade, FieldsMade, FactMade, StmtsMade,
        StmtMade, BranchesMade, TestsMade, BodiesMade, Heard, Todo, Agreed, ExprAsks, InnerAsks, ArgsAsks,
        FieldsAsks, FactAsks, StmtsAsks, StmtAsks, BranchesAsks, TestsAsks, BodiesAsks, ParamsAsks;
      TodoHeard();
      TodoJoin(ParamsAsks(d.params), StmtsAsks(g, d.body));
      ghost var l := M.Label(d.name, M.FunctionLabel);
      :- EnterFunction(d);
      ghost var m0 := m;
      Reflexive(m0);
      :- AppendParams(d.params);
      ghost var m1, params, body := m, ParamsCode(d.params), StmtsCode(g, d.body);
      Reflexive(m1);
      :- CompileReturningBody(d.body);
      Append(m1, m, old(wp), params, body + [I(M.Exit(Panic))]);
      LabelKept(m0, m, l);
      return Fine;
    }

    /** The body of a finish function or action, returning at its end. */
    method CompileProcedure(ps: seq<string>, ss: seq<Node>) returns (r: Verdict)
      requires Valid() && Inside()
      modifies this, codemap
      ensures forall plan, rest :: Todo(old(asked), plan, Cons(ParamsAsks(ps) + StmtsAsks(g, ss), rest)) ==>
        if r.Fine? then Todo(asked, plan, rest) else Heard(asked, plan)
      ensures c <= old(c) + StmtsMade(g, ss) && (r.Fine? ==> c == old(c) + StmtsMade(g, ss))
      ensures signatures == old(signatures)
      ensures r.Fine? ==> Valid() && context == old(context) && forall m0 :: Before(m0, old(m)) ==> Before(m0, m)
      ensures r.Fine? ==> forall l :: Free(old(m).labels, old(c), l) <==> Free(m.labels, c, l)
      ensures r.Fine? ==> forall k: nat :: Ahead(old(m).labels, old(c), k) <==> Ahead(m.labels, c, k)
      ensures Did(r, StmtsOk(g, old(At()), ss), old(wp), ParamsCode(ps) + (StmtsCode(g, ss) + [I(M.Return)]))
    {
      hide Written, Before, Clean, Free, Ahead, Clash, Issued, Signed, Accepted, Replay, StmtsOk, StmtsCode,
        ParamsCode, Denied, ExprMade, ArgsMade, FieldsMade, FactMade, StmtsMade, StmtMade, BranchesMade, TestsMade,
        BodiesMade, Heard, Todo, Agreed, ExprAsks, InnerAsks, ArgsAsks, FieldsAsks, FactAsks, StmtsAsks, StmtAsks,
        BranchesAsks, TestsAsks, BodiesAsks, ParamsAsks;
      TodoHeard();
      :- CompileParamsAndBody(ps, ss);
      ghost var m1, params, body := m, ParamsCode(ps), StmtsCode(g, ss);
      Reflexive(m1);
      AppendInstruction(M.Return);
      AppendOne(m1, m, old(wp), params + body, I(M.Return));
      assert (params + body) + [I(M.Return)] == params + (body + [I(M.Return)]);
      return Fine;
    }

    method CompileFinishFunction(d: Definition) returns (r: Verdict)
      requires Valid() && Inside() && At() == FinishSite(AllKnown(g.policy))
      requires Named(g.policy, M.Label(d.name, M.Temporary))
      requires M.Label(d.name, M.Temporary) in m.labels ==> Clash(g.policy, c, M.Label(d.name, M.Temporary))
      modifies this, codemap
      ensures forall plan, rest :: Todo(old(asked), plan, Cons(DefinitionAsks(g, d), rest)) ==>
        if r.Fine? then Todo(asked, plan, rest) else Heard(asked, plan)
      ensures c <= old(c) + StmtsMade(g, d.body) && (r.Fine? ==> c == old(c) + StmtsMade(g, d.body))
      ensures r.Fine? ==> Valid() && context == old(context) && forall m0 :: Before(m0, old(m)) ==> Before(m0, m)
      ensures r.Fine? ==> signatures == old(signatures)
      ensures r.Fine? ==>
        M.Label(d.name, M.Temporary) !in old(m).labels && !Free(m.labels, c, M.Label(d.name, M.Temporary))
      ensures r.Fine? ==>
        forall l :: l != M.Label(d.name, M.Temporary) ==> (Free(old(m).labels, old(c), l) <==> Free(m.labels, c, l))
      ensures r.Fine? ==> forall k: nat ::
        Ahead(m.labels, c, k) <==>
          Ahead(old(m).labels, old(c), k) || (old(c) <= k && Anonymous(k) == M.Label(d.name, M.Temporary))
      ensures Did(r, FinishFunctionOk(g, d), old(wp), ProcedureCode(g, d))
      ensures r.Fine? ==> Standing(m, M.Label(d.name, M.Temporary), ProcedureCode(g, d))
    {
      hide Written, Before, Clean, Free, Ahead, Clash, Issued, Signed, Accepted, Replay, StmtsOk, StmtsCode,
        ParamsCode, Denied, AllKnown, ExprMade, ArgsMade, FieldsMade, FactMade, StmtsMade, StmtMade, BranchesMade,
        TestsMade, BodiesMade, Heard, Todo, Agreed, ExprAsks, InnerAsks, ArgsAsks, FieldsAsks, FactAsks, StmtsAsks,
        StmtAsks, BranchesAsks, TestsAsks, BodiesAsks, ParamsAsks;
      TodoHeard();
      :- DefineLabel(M.Label(d.name, M.Temporary), wp);
      ghost var m0 := m;
      Reflexive(m0);
      :- MapRange(d.locator);
      :- CompileProcedure(d.params, d.body);
      LabelKept(m0, m, M.Label(d.name, M.Temporary));
      return Fine;
    }

    method CompileAction(d: Definition) returns (r: Verdict)
      requires Valid() && Inside() && At() == ActionSite(AllKnown(g.policy))
      modifies this, codemap
      ensures forall plan, rest :: Todo(old(asked), plan, Cons(DefinitionAsks(g, d), rest)) ==>
        if r.Fine? then Todo(asked, plan, rest) else Heard(asked, plan)
      ensures c <= old(c) + StmtsMade(g, d.body) && (r.Fine? ==> c == old(c) + StmtsMade(g, d.body))
      ensures r.Fine? ==> Valid() && context == old(context) && forall m0 :: Before(m0, old(m)) ==> Before(m0, m)
      ensures r.Fine? ==> signatures == old(signatures)
      ensures r.Fine? ==> forall l :: Free(m.labels, c, l) <==>
        Free(old(m).labels, old(c), l) && l != M.Label(d.name, M.ActionLabel)
      ensures r.Fine? ==> forall k: nat :: Ahead(old(m).labels, old(c), k) <==> Ahead(m.labels, c, k)
      ensures Did(r, old(Free(m.labels, c, M.Label(d.name, M.ActionLabel))) && ActionOk(g, d), old(wp),
        ProcedureCode(g, d))
      ensures r.Fine? ==> Standing(m, M.Label(d.name, M.ActionLabel), ProcedureCode(g, d))
    {
      hide Written, Before, Clean, Free, Ahead, Clash, Issued, Signed, Accepted, Replay, StmtsOk, StmtsCode,
        ParamsCode, NoRepeats, Denied, AllKnown, ExprMade, ArgsMade, FieldsMade, FactMade, StmtsMade, StmtMade,
        BranchesMade, TestsMade, BodiesMade, Heard, Todo, Agreed, ExprAsks, InnerAsks, ArgsAsks, FieldsAsks,
        FactAsks, StmtsAsks, StmtAsks, BranchesAsks, TestsAsks, BodiesAsks, ParamsAsks;
      TodoHeard();
      NamedIssued(c, M.Label(d.name, M.ActionLabel));
      :- DefineLabel(M.Label(d.name, M.ActionLabel), wp);
      ghost var m0 := m;
      Reflexive(m0);
      :- MapRange(d.locator);
      var repeated := FindDuplicate(d.params);
      if repeated { return Error(Invalid); }
      :- CompileProcedure(d.params, d.body);
      LabelKept(m0, m, M.Label(d.name, M.ActionLabel));
      return Fine;
    }

    /** The label of a policy or recall block, and the binding of the envelope. */
    method CompileBlockHead(l: M.Label) returns (r: Verdict)
      requires Ready() && l.ltype != M.Temporary
      modifies this`m, this`wp, this`asked
      ensures forall plan, rest :: Todo(old(asked), plan, Cons([MayDeclare("this"), MayDeclare("envelope")], rest)) ==>
        if r.Fine? then Todo(asked, plan, rest) else Heard(asked, plan)
      ensures r.Fine? ==> Ready() && forall m0 :: Before(m0, old(m)) ==> Before(m0, m)
      ensures r.Fine? ==> forall l' :: Free(m.labels, c, l') <==> Free(old(m).labels, c, l') && l' != l
      ensures r.Fine? ==> forall k: nat :: Ahead(old(m).labels, c, k) <==> Ahead(m.labels, c, k)
      ensures r.Fine? ==> Has(old(wp), [I(M.Def("envelope"))]) && l in m.labels && m.labels[l] == old(wp)
      ensures r.Fine? ==> Free(old(m).labels, c, l)
      ensures r.Error? ==> Justified(r.error, Free(old(m).labels, c, l))
    {
      hide Written, Before, Clean, Free, Ahead, Clash, Issued, Signed, Denied, Heard, Todo, Agreed, ExprAsks,
        InnerAsks, ArgsAsks, FieldsAsks, FactAsks, StmtsAsks, StmtAsks, BranchesAsks, TestsAsks, BodiesAsks,
        ParamsAsks;
      TodoHeard();
      TodoJoin([MayDeclare("this")], [MayDeclare("envelope")]);
      assert [MayDeclare("this")] + [MayDeclare("envelope")] == [MayDeclare("this"), MayDeclare("envelope")];
      NamedIssued(c, l);
      :- DefineLabel(l, wp);
      :- Ask(MayDeclare("this"));
      :- Ask(MayDeclare("envelope"));
      AppendInstruction(M.Def("envelope"));
      Single(m, old(wp), I(M.Def("envelope")));
      return Fine;
    }

    /** Statements in a context of their own. */
    method CompileIn(at: Site, ss: seq<Node>) returns (r: Verdict)
      requires Valid() && at.known == signatures
      modifies this, codemap
      ensures forall plan, rest :: Todo(old(asked), plan, Cons(StmtsAsks(g, ss), rest)) ==>
        if r.Fine? then Todo(asked, plan, rest) else Heard(asked, plan)
      ensures c <= old(c) + StmtsMade(g, ss) && (r.Fine? ==> c == old(c) + StmtsMade(g, ss))
      ensures signatures == old(signatures)
      ensures r.Fine? ==> Valid() && context == old(context) && forall m0 :: Before(m0, old(m)) ==> Before(m0, m)
      ensures r.Fine? ==> forall l :: Free(old(m).labels, old(c), l) <==> Free(m.labels, c, l)
      ensures r.Fine? ==> forall k: nat :: Ahead(old(m).labels, old(c), k) <==> Ahead(m.labels, c, k)
      ensures Did(r, StmtsOk(g, at, ss), old(wp), StmtsCode(g, ss))
    {
      hide Written, Before, Clean, Free, Ahead, Clash, Issued, Signed, Accepted, Replay, StmtsOk, StmtsCode, Denied,
        StmtsMade, Heard, Todo, Agreed, StmtsAsks;
      context := context + [at];
      :- CompileStatements(ss, false);
      context := context[..|context| - 1];
      return Fine;
    }

    /** A policy or recall block. */
    method CompileBlock(ss: seq<Node>, l: M.Label, at: Site) returns (r: Verdict)
      requires Valid() && l.ltype != M.Temporary && at.known == signatures
      modifies this, codemap
      ensures forall plan, rest :: Todo(old(asked), plan, Cons(BlockAsks(g, ss), rest)) ==>
        if r.Fine? then Todo(asked, plan, rest) else Heard(asked, plan)
      ensures c <= old(c) + StmtsMade(g, ss) && (r.Fine? ==> c == old(c) + StmtsMade(g, ss))
      ensures r.Fine? ==> Valid() && context == old(context) && forall m0 :: Before(m0, old(m)) ==> Before(m0, m)
      ensures r.Fine? ==> signatures == old(signatures)
      ensures r.Fine? ==> forall l' :: Free(m.labels, c, l') <==> Free(old(m).labels, old(c), l') && l' != l
      ensures r.Fine? ==> forall k: nat :: Ahead(old(m).labels, old(c), k) <==> Ahead(m.labels, c, k)
      ensures Did(r, old(Free(m.labels, c, l)) && StmtsOk(g, at, ss), old(wp), BlockCode(g, ss))
      ensures r.Fine? ==> Standing(m, l, BlockCode(g, ss))
    {
      hide Written, Before, Clean, Free, Ahead, Clash, Issued, Signed, Accepted, Replay, StmtsOk, StmtsCode, Denied,
        ExprMade, ArgsMade, FieldsMade, FactMade, StmtsMade, StmtMade, BranchesMade, TestsMade, BodiesMade, Heard,
        Todo, Agreed, ExprAsks, InnerAsks, ArgsAsks, FieldsAsks, FactAsks, StmtsAsks, StmtAsks, BranchesAsks,
        TestsAsks, BodiesAsks, ParamsAsks;
      TodoHeard();
      TodoJoin([MayDeclare("this"), MayDeclare("envelope")], StmtsAsks(g, ss));
      :- CompileBlockHead(l);
      ghost var m1, body := m, StmtsCode(g, ss);
      Reflexive(m1);
      :- CompileIn(at, ss);
      ghost var m2 := m;
      Reflexive(m2);
      AppendInstruction(M.Exit(Normal));
      Between(m1, m2, m, old(wp), [I(M.Def("envelope"))], body, I(M.Exit(Normal)));
      LabelKept(m1, m, l);
      return Fine;
    }

    /** The call stub of a seal or open block, and the binding of its argument. */
    method CompileStubHead(l: M.Label, x: string) returns (r: Verdict)
      requires Ready() && l.ltype != M.Temporary
      modifies this`m, this`wp, this`c, this`asked
      ensures forall plan, rest :: Todo(old(asked), plan, Cons([MayDeclare(x)], rest)) ==>
        if r.Fine? then Todo(asked, plan, rest) else Heard(asked, plan)
      ensures c <= old(c) + 1 && (r.Fine? ==> c == old(c) + 1)
      ensures r.Fine? ==> Ready() && forall m0 :: Before(m0, old(m)) ==> Before(m0, m)
      ensures r.Fine? ==> forall l' :: Free(m.labels, c, l') <==> Free(old(m).labels, old(c), l') && l' != l
      ensures r.Fine? ==> forall k: nat :: Ahead(old(m).labels, old(c), k) <==> Ahead(m.labels, c, k)
      ensures r.Fine? ==> Has(old(wp), [CallBy(2), I(M.Exit(Normal)), I(M.Def(x))])
      ensures r.Fine? ==> l in m.labels && m.labels[l] == old(wp)
      ensures r.Fine? ==> Free(old(m).labels, old(c), l)
      ensures r.Error? ==> Justified(r.error, Free(old(m).labels, old(c), l))
    {
      hide Written, Before, Clean, Free, Ahead, Clash, Issued, Signed, Denied, Anonymous, Heard, Todo, Agreed,
        ExprAsks, InnerAsks, ArgsAsks, FieldsAsks, FactAsks, StmtsAsks, StmtAsks, BranchesAsks, TestsAsks,
        BodiesAsks, ParamsAsks;
      TodoHeard();
      NamedIssued(c, l);
      :- DefineLabel(l, wp);
      var actual := AnonymousLabel();
      AppendInstruction(M.Call(M.Unresolved(actual)));
      AppendInstruction(M.Exit(Normal));
      :- DefineLabel(actual, wp);
      :- Ask(MayDeclare(x));
      AppendInstruction(M.Def(x));
      AnonymousType(old(c));
      StubHeadWritten(old(wp), actual, x, m);
      return Fine;
    }

    /** A seal or open block: a call stub, because the block returns, and the block itself. */
    method CompileStub(ss: seq<Node>, l: M.Label, x: string) returns (r: Verdict)
      requires Valid() && l.ltype != M.Temporary && signatures == AllKnown(g.policy)
      modifies this, codemap
      ensures forall plan, rest :: Todo(old(asked), plan, Cons(StubAsks(g, x, ss), rest)) ==>
        if r.Fine? then Todo(asked, plan, rest) else Heard(asked, plan)
      ensures c <= old(c) + 1 + StmtsMade(g, ss) && (r.Fine? ==> c == old(c) + 1 + StmtsMade(g, ss))
      ensures r.Fine? ==> Valid() && context == old(context) && forall m0 :: Before(m0, old(m)) ==> Before(m0, m)
      ensures r.Fine? ==> signatures == old(signatures)
      ensures r.Fine? ==> forall l' :: Free(m.labels, c, l') <==> Free(old(m).labels, old(c), l') && l' != l
      ensures r.Fine? ==> forall k: nat :: Ahead(old(m).labels, old(c), k) <==> Ahead(m.labels, c, k)
      ensures Did(r, old(Free(m.labels, c, l)) && StubOk(g, ss), old(wp), StubCode(g, x, ss))
      ensures r.Fine? ==> Standing(m, l, StubCode(g, x, ss))
    {
      hide Written, Before, Clean, Free, Ahead, Clash, Issued, Signed, Accepted, Replay, StmtsOk, StmtsCode, Denied,
        Anonymous, AllKnown, ExprMade, ArgsMade, FieldsMade, FactMade, StmtsMade, StmtMade, BranchesMade, TestsMade,
        BodiesMade, Heard, Todo, Agreed, ExprAsks, InnerAsks, ArgsAsks, FieldsAsks, FactAsks, StmtsAsks, StmtAsks,
        BranchesAsks, TestsAsks, BodiesAsks, ParamsAsks;
      TodoHeard();
      TodoJoin([MayDeclare(x)], StmtsAsks(g, ss));
      if ss == [] { return Error(Invalid); }
      :- CompileStubHead(l, x);
      ghost var m1, head, body := m, [CallBy(2), I(M.Exit(Normal)), I(M.Def(x))], StmtsCode(g, ss);
      Reflexive(m1);
      context := context + [FunctionSite(signatures)];
      :- CompileReturningBody(ss);
      context := context[..|context| - 1];
      Append(m1, m, old(wp), head, body + [I(M.Exit(Panic))]);
      LabelKept(m1, m, l);
      return Fine;
    }

    /** The policy and the recall block of a command. */
    method CompileBlocks(cmd: Command) returns (r: Verdict)
      requires Valid() && signatures == AllKnown(g.policy)
      modifies this, codemap
      ensures forall plan, rest ::
        Todo(old(asked), plan, Cons(BlockAsks(g, cmd.policy), Cons(BlockAsks(g, cmd.recall), rest))) ==>
        if r.Fine? then Todo(asked, plan, rest) else Heard(asked, plan)
      ensures
        var made := StmtsMade(g, cmd.policy) + StmtsMade(g, cmd.recall);
        c <= old(c) + made && (r.Fine? ==> c == old(c) + made)
      ensures r.Fine? ==> Valid() && context == old(context) && forall m0 :: Before(m0, old(m)) ==> Before(m0, m)
      ensures r.Fine? ==> signatures == old(signatures)
      ensures r.Fine? ==> forall l: M.Label ::
        Free(m.labels, c, l) <==>
          Free(old(m).labels, old(c), l) && l != M.Label(cmd.name, M.PolicyLabel) &&
            l != M.Label(cmd.name, M.RecallLabel)
      ensures r.Fine? ==> forall k: nat :: Ahead(old(m).labels, old(c), k) <==> Ahead(m.labels, c, k)
      ensures Did(r, old(Free(m.labels, c, M.Label(cmd.name, M.PolicyLabel)) &&
        Free(m.labels, c, M.Label(cmd.name, M.RecallLabel))) &&
                     StmtsOk(g, PolicySite(AllKnown(g.policy)), cmd.policy) &&
                       StmtsOk(g, RecallSite(AllKnown(g.policy)), cmd.recall),
                  old(wp), BlockCode(g, cmd.policy) + BlockCode(g, cmd.recall))
      ensures r.Fine? ==> Standing(m, M.Label(cmd.name, M.PolicyLabel), BlockCode(g, cmd.policy))
      ensures r.Fine? ==> Standing(m, M.Label(cmd.name, M.RecallLabel), BlockCode(g, cmd.recall))
    {
      hide BlockAsks, Written, Before, Clean, Free, Ahead, Clash, Issued, Signed, Accepted, Replay, StmtsOk, BlockCode,
        Standing, Denied, AllKnown, StmtsMade, Heard, Todo, Agreed;
      TodoHeard();
      ghost var c1, c2 := BlockCode(g, cmd.policy), BlockCode(g, cmd.recall);
      :- CompileBlock(cmd.policy, M.Label(cmd.name, M.PolicyLabel), PolicySite(signatures));
      ghost var m1 := m;
      Reflexive(m1);
      :- CompileBlock(cmd.recall, M.Label(cmd.name, M.RecallLabel), RecallSite(signatures));
      Append(m1, m, old(wp), c1, c2);
      StandingLater(m1, m, M.Label(cmd.name, M.PolicyLabel), c1);
      return Fine;
    }

    /** The seal and the open block of a command. */
    method CompileStubs(cmd: Command) returns (r: Verdict)
      requires Valid() && signatures == AllKnown(g.policy)
      modifies this, codemap
      ensures forall plan, rest :: Todo(old(asked), plan, Cons(StubsAsks(g, cmd), rest)) ==>
        if r.Fine? then Todo(asked, plan, rest) else Heard(asked, plan)
      ensures
        var made := 1 + StmtsMade(g, cmd.seal) + 1 + StmtsMade(g, cmd.open);
        c <= old(c) + made && (r.Fine? ==> c == old(c) + made)
      ensures r.Fine? ==> Valid() && context == old(context) && forall m0 :: Before(m0, old(m)) ==> Before(m0, m)
      ensures r.Fine? ==> signatures == old(signatures)
      ensures r.Fine? ==> forall l: M.Label ::
        Free(m.labels, c, l) <==>
          Free(old(m).labels, old(c), l) && l != M.Label(cmd.name, M.SealLabel) && l != M.Label(cmd.name, M.OpenLabel)
      ensures r.Fine? ==> forall k: nat :: Ahead(old(m).labels, old(c), k) <==> Ahead(m.labels, c, k)
      ensures Did(r, old(Free(m.labels, c, M.Label(cmd.name, M.SealLabel)) &&
        Free(m.labels, c, M.Label(cmd.name, M.OpenLabel))) &&
                     StubOk(g, cmd.seal) && StubOk(g, cmd.open),
                  old(wp), StubCode(g, "this", cmd.seal) + StubCode(g, "envelope", cmd.open))
      ensures r.Fine? ==> Standing(m, M.Label(cmd.name, M.SealLabel), StubCode(g, "this", cmd.seal))
      ensures r.Fine? ==> Standing(m, M.Label(cmd.name, M.OpenLabel), StubCode(g, "envelope", cmd.open))
    {
      hide StubAsks, Written, Before, Clean, Free, Ahead, Clash, Issued, Signed, Accepted, Replay, StubOk, StubCode,
        Standing, Denied, AllKnown, StmtsMade, Heard, Todo, Agreed;
      TodoHeard();
      var this_, envelope := "this", "envelope";
      TodoJoin(StubAsks(g, this_, cmd.seal), StubAsks(g, envelope, cmd.open));
      ghost var c3, c4 := StubCode(g, this_, cmd.seal), StubCode(g, envelope, cmd.open);
      :- CompileStub(cmd.seal, M.Label(cmd.name, M.SealLabel), this_);
      ghost var m1 := m;
      Reflexive(m1);
      :- CompileStub(cmd.open, M.Label(cmd.name, M.OpenLabel), envelope);
      Append(m1, m, old(wp), c3, c4);
      StandingLater(m1, m, M.Label(cmd.name, M.SealLabel), c3);
      return Fine;
    }

    method CompileCommand(cmd: Command) returns (r: Verdict)
      requires Valid() && signatures == AllKnown(g.policy)
      modifies this, codemap
      ensures forall plan, rest :: Todo(old(asked), plan, Cons(CommandAsks(g, cmd), rest)) ==>
        if r.Fine? then Todo(asked, plan, rest) else Heard(asked, plan)
      ensures c <= old(c) + CommandMade(g, cmd) && (r.Fine? ==> c == old(c) + CommandMade(g, cmd))
      ensures r.Fine? ==> Valid() && context == old(context) && forall m0 :: Before(m0, old(m)) ==> Before(m0, m)
      ensures r.Fine? ==> signatures == old(signatures)
      ensures r.Fine? ==> forall l: M.Label ::
        Free(m.labels, c, l) <==> Free(old(m).labels, old(c), l) && !(l.name == cmd.name && CommandType(l.ltype))
      ensures r.Fine? ==> forall k: nat :: Ahead(old(m).labels, old(c), k) <==> Ahead(m.labels, c, k)
      ensures Did(r, old(CommandFree(m.labels, c, cmd.name)) && CommandOk(g, cmd), old(wp), CommandCode(g, cmd))
      ensures r.Fine? ==> CommandStanding(g, m, cmd)
    {
      hide CommandAsks, BlockAsks, StubsAsks, Written, Before, Clean, Free, Ahead, Clash, Issued, Signed, Accepted,
        Replay, StmtsOk, StubOk, BlockCode, StubCode, Standing, Denied, AllKnown, StmtsMade, Heard, Todo, Agreed;
      TodoHeard();
      CommandAsksUnfold(g, cmd);
      ghost var c1, c2 := BlockCode(g, cmd.policy) + BlockCode(g, cmd.recall),
          StubCode(g, "this", cmd.seal) + StubCode(g, "envelope", cmd.open);
      :- MapRange(cmd.locator);
      :- CompileBlocks(cmd);
      ghost var m1 := m;
      Reflexive(m1);
      :- CompileStubs(cmd);
      Append(m1, m, old(wp), c1, c2);
      assert c1 + c2 == CommandCode(g, cmd);
      StandingLater(m1, m, M.Label(cmd.name, M.PolicyLabel), BlockCode(g, cmd.policy));
      StandingLater(m1, m, M.Label(cmd.name, M.RecallLabel), BlockCode(g, cmd.recall));
      return Fine;
    }

    // ---- Whole programs ----

    method DefineFinishSignatures() returns (r: Verdict)
      requires Valid() && signatures == map[]
      modifies this`signatures
      ensures Valid()
      ensures r.Fine? ==> signatures == KnownAfter(g.policy, 0) && NoRepeats(Names(g.policy.finishFunctions))
      ensures r.Error? ==> Justified(r.error, NoRepeats(Names(g.policy.finishFunctions)))
    {
      hide Signed, Accepted, Replay, FindDefinition, Clean, Names, NoRepeats, Clash, Heard, Todo, Agreed, ExprAsks,
        InnerAsks, ArgsAsks, FieldsAsks, FactAsks, StmtsAsks, StmtAsks, BranchesAsks, TestsAsks, BodiesAsks,
        ParamsAsks;
      ghost var ds := g.policy.finishFunctions;
      assert NoRepeats(Names(ds[..0])) by { NoNames(ds); }
      for i := 0 to |g.policy.finishFunctions|
        invariant Valid() && signatures == AddAll(map[], ds[..i], true) && NoRepeats(Names(ds[..i]))
      {
        var d := g.policy.finishFunctions[i];
        KnownNames(map[], ds[..i], true, d.name);
        NamesSplit(ds, i, |ds|);
        assert ds[..|ds|] == ds && ds[..i + 1][..i] == ds[..i];
        if d.name !in signatures { FirstNamed(ds, i); }
        :- DefineSignature(d, true);
      }
      assert ds[..|ds|] == ds && g.policy.functions[..0] == [];
      return Fine;
    }

    method CompileFunctions() returns (r: Verdict)
      requires Valid() && signatures == KnownAfter(g.policy, 0) && NamesFree(m.labels, c, M.FunctionLabel, [])
      modifies this, codemap
      ensures forall plan, rest :: Todo(old(asked), plan, Cons(DefinitionsAsks(g, g.policy.functions), rest)) ==>
        if r.Fine? then Todo(asked, plan, rest) else Heard(asked, plan)
      ensures c <= old(c) + DefinitionsMade(g, g.policy.functions) &&
        (r.Fine? ==> c == old(c) + DefinitionsMade(g, g.policy.functions))
      ensures r.Fine? ==> Valid() && context == old(context) && forall m0 :: Before(m0, old(m)) ==> Before(m0, m)
      ensures r.Fine? ==> signatures == AllKnown(g.policy)
      ensures r.Fine? ==>
        forall l: M.Label :: !l.ltype.FunctionLabel? ==> (Free(old(m).labels, old(c), l) <==> Free(m.labels, c, l))
      ensures r.Fine? ==> forall k: nat :: Ahead(old(m).labels, old(c), k) <==> Ahead(m.labels, c, k)
      ensures r.Fine? ==> Has(old(wp), FunctionsCode(g, g.policy.functions)) && FunctionsOk(g, |g.policy.functions|)
      ensures r.Fine? ==> AllFunctions(g, m, g.policy.functions)
      ensures r.Error? ==> Justified(r.error, FunctionsOk(g, |g.policy.functions|))
    {
      hide DefinitionAsks, DefinitionsAsks, DefinitionsMade, Written, Before, Clean, Free, Ahead, Clash, Issued,
        Signed, Accepted, Replay, Standing, Denied, CallOk, FunctionCode, FunctionsCode, FunctionOk, FunctionsOk,
        AllFunctions, NamesFree, Names, KnownAfter, KnownIn, FindDefinition, ExprMade, ArgsMade, FieldsMade,
        FactMade, StmtsMade, StmtMade, BranchesMade, TestsMade, BodiesMade, Heard, Todo, Agreed, ExprAsks, InnerAsks,
        ArgsAsks, FieldsAsks, FactAsks, StmtsAsks, StmtAsks, BranchesAsks, TestsAsks, BodiesAsks, ParamsAsks;
      TodoHeard();
      NoneAsked(g);
      TodoNone();
      ghost var ds := g.policy.functions;
      FunctionsNone(g, m);
      assert Written(m, wp, []) by { Straight(m, wp, []); }
      assert ds[..0] == [] && ds[0..] == ds;
      for i := 0 to |g.policy.functions|
        invariant forall plan, rest :: Todo(old(asked), plan, Cons(DefinitionsAsks(g, ds), rest)) ==>
          Todo(asked, plan, Cons(DefinitionsAsks(g, ds[i..]), rest))
        invariant Valid() && context == old(context) && forall m0 :: Before(m0, old(m)) ==> Before(m0, m)
        invariant Has(old(wp), FunctionsCode(g, ds[..i])) && signatures == KnownAfter(g.policy, i)
        invariant AllFunctions(g, m, ds[..i]) && FunctionsOk(g, i)
        invariant NamesFree(m.labels, c, M.FunctionLabel, Names(ds[..i]))
        invariant forall l: M.Label :: !l.ltype.FunctionLabel? ==>
          (Free(old(m).labels, old(c), l) <==> Free(m.labels, c, l))
        invariant forall k: nat :: Ahead(old(m).labels, old(c), k) <==> Ahead(m.labels, c, k)
        invariant c + DefinitionsMade(g, ds[i..]) == old(c) + DefinitionsMade(g, ds)
      {
        ghost var m1, c1, d := m, c, g.policy.functions[i];
        assert ds[i..][0] == d && ds[i..][1..] == ds[i + 1..];
        DefinitionsMadeUnfold(g, ds[i..]);
        DefinitionsAsksUnfold(g, ds[i..]);
        Reflexive(m1);
        FunctionReady(g.policy, m.labels, c, i);
        FunctionsSplit(g, i);
        var name, arity := g.policy.functions[i].name, |g.policy.functions[i].params|;
        context := context + [FunctionSite(signatures[name := Signature(arity, false)])];
        :- CompileFunction(g.policy.functions[i]);
        context := context[..|context| - 1];
        Append(m1, m, old(wp), FunctionsCode(g, ds[..i]), FunctionCode(g, d));
        MoreFunctions(g, m1, m, ds, i);
        assert ds[..i] + [d] == ds[..i + 1];
        NamesMore(ds, i);
        NamesFreeStep(m1.labels, c1, m.labels, c, M.FunctionLabel, Names(ds[..i]), d.name);
      }
      assert ds[..|ds|] == ds && ds[|ds|..] == [];
      DefinitionsMadeUnfold(g, []);
      AllIsLast(g.policy);
      return Fine;
    }

    method CompileFinishFunctions() returns (r: Verdict)
      requires Valid() && signatures == AllKnown(g.policy) && NoRepeats(Names(g.policy.finishFunctions))
      requires FinishState(g.policy, m.labels, c, 0)
      modifies this, codemap
      ensures forall plan, rest :: Todo(old(asked), plan, Cons(DefinitionsAsks(g, g.policy.finishFunctions), rest)) ==>
        if r.Fine? then Todo(asked, plan, rest) else Heard(asked, plan)
      ensures c <= old(c) + DefinitionsMade(g, g.policy.finishFunctions) &&
        (r.Fine? ==> c == old(c) + DefinitionsMade(g, g.policy.finishFunctions))
      ensures r.Fine? ==> Valid() && context == old(context) && forall m0 :: Before(m0, old(m)) ==> Before(m0, m)
      ensures r.Fine? ==> signatures == AllKnown(g.policy)
      ensures r.Fine? ==>
        forall l: M.Label :: !l.ltype.Temporary? ==> (Free(old(m).labels, old(c), l) <==> Free(m.labels, c, l))
      ensures r.Fine? ==> FinishState(g.policy, m.labels, c, |g.policy.finishFunctions|)
      ensures r.Fine? ==> Has(old(wp), ProceduresCode(g, g.policy.finishFunctions))
      ensures r.Fine? ==>
        FinishFunctionsOk(g, |g.policy.finishFunctions|) && AllProcedures(g, m, M.Temporary, g.policy.finishFunctions)
      ensures r.Error? ==> Justified(r.error, FinishFunctionsOk(g, |g.policy.finishFunctions|))
    {
      hide DefinitionAsks, DefinitionsAsks, AllProcedures, FinishFunctionsOk, ProceduresCode, DefinitionsMade,
        Written, Before, Clean, Free, Ahead, Clash, Issued, Signed, Accepted, Replay, Standing, Denied, CallOk,
        ProcedureCode, FinishFunctionOk, AllKnown, FinishState, Named, NoRepeats, Names, Anonymous, ExprMade,
        ArgsMade, FieldsMade, FactMade, StmtsMade, StmtMade, BranchesMade, TestsMade, BodiesMade, Heard, Todo,
        Agreed, ExprAsks, InnerAsks, ArgsAsks, FieldsAsks, FactAsks, StmtsAsks, StmtAsks, BranchesAsks, TestsAsks,
        BodiesAsks, ParamsAsks;
      TodoHeard();
      NoneAsked(g);
      TodoNone();
      ghost var ds := g.policy.finishFunctions;
      assert ds[0..] == ds && ds[..0] == [];
      ProceduresNone(g, m, M.Temporary);
      assert Written(m, wp, []) by { Straight(m, wp, []); }
      for i := 0 to |g.policy.finishFunctions|
        invariant forall plan, rest :: Todo(old(asked), plan, Cons(DefinitionsAsks(g, ds), rest)) ==>
          Todo(asked, plan, Cons(DefinitionsAsks(g, ds[i..]), rest))
        invariant Valid() && context == old(context) && forall m0 :: Before(m0, old(m)) ==> Before(m0, m)
        invariant signatures == AllKnown(g.policy) && FinishState(g.policy, m.labels, c, i)
        invariant forall l: M.Label :: !l.ltype.Temporary? ==>
          (Free(old(m).labels, old(c), l) <==> Free(m.labels, c, l))
        invariant c + DefinitionsMade(g, ds[i..]) == old(c) + DefinitionsMade(g, ds)
        invariant Has(old(wp), ProceduresCode(g, ds[..i]))
        invariant FinishFunctionsOk(g, i) && AllProcedures(g, m, M.Temporary, ds[..i])
      {
        ghost var m1, c1, d := m, c, g.policy.finishFunctions[i];
        Reflexive(m1);
        assert ds[i..][0] == d && ds[i..][1..] == ds[i + 1..];
        DefinitionsMadeUnfold(g, ds[i..]);
        DefinitionsAsksUnfold(g, ds[i..]);
        FinishHead(g.policy, m.labels, c, i);
        FinishFunctionsSplit(g, i);
        context := context + [FinishSite(signatures)];
        :- CompileFinishFunction(g.policy.finishFunctions[i]);
        context := context[..|context| - 1];
        FinishStep(g.policy, m1.labels, c1, m.labels, c, i);
        Append(m1, m, old(wp), ProceduresCode(g, ds[..i]), ProcedureCode(g, d));
        MoreProcedures(g, m1, m, M.Temporary, ds, i);
        assert ds[..i] + [d] == ds[..i + 1];
      }
      assert ds[..|ds|] == ds && ds[|ds|..] == [];
      DefinitionsMadeUnfold(g, []);
      return Fine;
    }

    method CompileActions() returns (r: Verdict)
      requires Valid() && signatures == AllKnown(g.policy) && NamesFree(m.labels, c, M.ActionLabel, [])
      modifies this, codemap
      ensures forall plan, rest :: Todo(old(asked), plan, Cons(DefinitionsAsks(g, g.policy.actions), rest)) ==>
        if r.Fine? then Todo(asked, plan, rest) else Heard(asked, plan)
      ensures c <= old(c) + DefinitionsMade(g, g.policy.actions) &&
        (r.Fine? ==> c == old(c) + DefinitionsMade(g, g.policy.actions))
      ensures r.Fine? ==> Valid() && context == old(context) && forall m0 :: Before(m0, old(m)) ==> Before(m0, m)
      ensures r.Fine? ==> forall k: nat :: Ahead(old(m).labels, old(c), k) <==> Ahead(m.labels, c, k)
      ensures r.Fine? ==> Has(old(wp), ProceduresCode(g, g.policy.actions)) && ActionsOk(g, |g.policy.actions|)
      ensures r.Fine? ==> AllProcedures(g, m, M.ActionLabel, g.policy.actions)
      ensures r.Error? ==> Justified(r.error, ActionsOk(g, |g.policy.actions|))
    {
      hide DefinitionAsks, DefinitionsAsks, AllProcedures, ProceduresCode, DefinitionsMade, Written, Before, Clean,
        Free, Ahead, Clash, Issued, Signed, Accepted, Replay, Standing, Denied, CallOk, ProcedureCode, ActionOk,
        ActionsOk, NamesFree, Names, AllKnown, ExprMade, ArgsMade, FieldsMade, FactMade, StmtsMade, StmtMade,
        BranchesMade, TestsMade, BodiesMade, Heard, Todo, Agreed, ExprAsks, InnerAsks, ArgsAsks, FieldsAsks,
        FactAsks, StmtsAsks, StmtAsks, BranchesAsks, TestsAsks, BodiesAsks, ParamsAsks;
      TodoHeard();
      NoneAsked(g);
      TodoNone();
      assert Written(m, wp, []) by { Straight(m, wp, []); }
      ghost var ds := g.policy.actions;
      assert ds[0..] == ds && ds[..0] == [];
      ProceduresNone(g, m, M.ActionLabel);
      ActionsNone(g);
      for i := 0 to |g.policy.actions|
        invariant forall plan, rest :: Todo(old(asked), plan, Cons(DefinitionsAsks(g, ds), rest)) ==>
          Todo(asked, plan, Cons(DefinitionsAsks(g, ds[i..]), rest))
        invariant Valid() && context == old(context) && forall m0 :: Before(m0, old(m)) ==> Before(m0, m)
        invariant signatures == AllKnown(g.policy) && ActionsOk(g, i)
        invariant forall k: nat :: Ahead(old(m).labels, old(c), k) <==> Ahead(m.labels, c, k)
        invariant c + DefinitionsMade(g, ds[i..]) == old(c) + DefinitionsMade(g, ds)
        invariant NamesFree(m.labels, c, M.ActionLabel, Names(ds[..i]))
        invariant Has(old(wp), ProceduresCode(g, ds[..i]))
        invariant AllProcedures(g, m, M.ActionLabel, ds[..i])
      {
        ghost var m1, c1, d := m, c, g.policy.actions[i];
        Reflexive(m1);
        ActionsSplit(g, i);
        assert ds[i..][0] == d && ds[i..][1..] == ds[i + 1..];
        DefinitionsMadeUnfold(g, ds[i..]);
        DefinitionsAsksUnfold(g, ds[i..]);
        assert Free(m.labels, c, M.Label(d.name, M.ActionLabel)) <==>
          d.name !in Names(ds[..i]) by { NameFree(m.labels, c, M.Label(d.name, M.ActionLabel), Names(ds[..i])); }
        context := context + [ActionSite(signatures)];
        :- CompileAction(g.policy.actions[i]);
        context := context[..|context| - 1];
        NamesMore(g.policy.actions, i);
        NamesFreeStep(m1.labels, c1, m.labels, c, M.ActionLabel, Names(ds[..i]), d.name);
        Append(m1, m, old(wp), ProceduresCode(g, ds[..i]), ProcedureCode(g, d));
        MoreProcedures(g, m1, m, M.ActionLabel, ds, i);
        assert ds[..i] + [d] == ds[..i + 1];
      }
      assert ds[..|ds|] == ds && ds[|ds|..] == [];
      DefinitionsMadeUnfold(g, []);
      return Fine;
    }

    method CompileCommands() returns (r: Verdict)
      requires Valid() && signatures == AllKnown(g.policy) && CommandsFree(m.labels, c, [])
      modifies this, codemap
      ensures forall plan, rest :: Todo(old(asked), plan, Cons(CommandsAsks(g, g.policy.commands), rest)) ==>
        if r.Fine? then Todo(asked, plan, rest) else Heard(asked, plan)
      ensures c <= old(c) + CommandsMade(g, g.policy.commands) &&
        (r.Fine? ==> c == old(c) + CommandsMade(g, g.policy.commands))
      ensures r.Fine? ==> Valid() && context == old(context) && forall m0 :: Before(m0, old(m)) ==> Before(m0, m)
      ensures r.Fine? ==> signatures == AllKnown(g.policy)
      ensures r.Fine? ==>
        forall l: M.Label :: l.ltype.ActionLabel? ==> (Free(old(m).labels, old(c), l) <==> Free(m.labels, c, l))
      ensures r.Fine? ==> forall k: nat :: Ahead(old(m).labels, old(c), k) <==> Ahead(m.labels, c, k)
      ensures r.Fine? ==> Has(old(wp), CommandsCode(g, g.policy.commands)) && CommandsOk(g, |g.policy.commands|)
      ensures r.Fine? ==> AllCommands(g, m, g.policy.commands)
      ensures r.Error? ==> Justified(r.error, CommandsOk(g, |g.policy.commands|))
    {
      hide CommandAsks, CommandsAsks, AllCommands, CommandsCode, CommandsMade, CommandMade, Written, Before, Clean,
        Free, Ahead, Clash, Issued, Signed, Accepted, Replay, Denied, CommandCode, CommandOk, CommandStanding,
        CommandsOk, CommandsFree, CommandFree, CommandNames, AllKnown, ExprMade, ArgsMade, FieldsMade, FactMade,
        StmtsMade, StmtMade, BranchesMade, TestsMade, BodiesMade, Heard, Todo, Agreed, ExprAsks, InnerAsks, ArgsAsks,
        FieldsAsks, FactAsks, StmtsAsks, StmtAsks, BranchesAsks, TestsAsks, BodiesAsks, ParamsAsks;
      TodoHeard();
      NoneAsked(g);
      TodoNone();
      var cs := g.policy.commands;
      assert Written(m, wp, []) by { Straight(m, wp, []); }
      assert cs[0..] == cs && cs[..0] == [];
      CommandsAbsent(g, m);
      CommandsNone(g);
      for i := 0 to |cs|
        invariant forall plan, rest :: Todo(old(asked), plan, Cons(CommandsAsks(g, cs), rest)) ==>
          Todo(asked, plan, Cons(CommandsAsks(g, cs[i..]), rest))
        invariant Valid() && context == old(context) && forall m0 :: Before(m0, old(m)) ==> Before(m0, m)
        invariant signatures == AllKnown(g.policy) && CommandsOk(g, i) &&
          CommandsFree(m.labels, c, CommandNames(cs[..i]))
        invariant forall l: M.Label :: l.ltype.ActionLabel? ==>
          (Free(old(m).labels, old(c), l) <==> Free(m.labels, c, l))
        invariant forall k: nat :: Ahead(old(m).labels, old(c), k) <==> Ahead(m.labels, c, k)
        invariant c + CommandsMade(g, cs[i..]) == old(c) + CommandsMade(g, cs)
        invariant Has(old(wp), CommandsCode(g, cs[..i]))
        invariant AllCommands(g, m, cs[..i])
      {
        ghost var m1, c1 := m, c;
        Reflexive(m1);
        CommandsSplit(g, i);
        assert cs[i..][0] == cs[i] && cs[i..][1..] == cs[i + 1..];
        CommandsMadeUnfold(g, cs[i..]);
        CommandsAsksUnfold(g, cs[i..]);
        CommandsFreeHead(m.labels, c, CommandNames(cs[..i]), cs[i].name);
        :- CompileCommand(cs[i]);
        CommandNamesMore(cs, i);
        CommandsFreeStep(m1.labels, c1, m.labels, c, CommandNames(cs[..i]), cs[i].name);
        Append(m1, m, old(wp), CommandsCode(g, cs[..i]), CommandCode(g, cs[i]));
        MoreCommands(g, m1, m, cs, i);
      }
      assert cs[..|cs|] == cs && cs[|cs|..] == [];
      CommandsMadeUnfold(g, []);
      return Fine;
    }

    /** Replaces every symbolic target by its address, then forgets the temporary labels. */
    method ResolveTargets() returns (r: Verdict)
      modifies this`m
      ensures r.Fine? ==> m.prog == PatchAll(old(m).labels, old(m).prog)
      ensures r.Fine? ==> m.labels == map l | l in old(m).labels && l.ltype != M.Temporary :: old(m).labels[l]
      ensures r.Fine? <==> forall k :: 0 <= k < |old(m).prog| ==> Resolvable(old(m).labels, old(m).prog[k])
      ensures r.Error? ==> r.error.BadTarget?
    {
      ghost var before := m.prog;
      for i := 0 to |m.prog|
        invariant |m.prog| == |before| && m.labels == old(m).labels
        invariant forall k :: 0 <= k < i ==> m.prog[k] == Patch(m.labels, before[k]) && Resolvable(m.labels, before[k])
        invariant forall k :: i <= k < |before| ==> m.prog[k] == before[k]
      {
        var instr := m.prog[i];
        if instr.Branch? || instr.Jump? || instr.Call? {
          if instr.target.Unresolved? {
            if instr.target.sym !in m.labels { return Error(BadTarget(instr.target.sym)); }
            m := m.(prog := m.prog[i := instr.(target := M.Resolved(m.labels[instr.target.sym]))]);
          }
        }
      }
      m := m.(labels := map l | l in m.labels && l.ltype != M.Temporary :: m.labels[l]);
      return Fine;
    }

    /** Functions and finish functions, before anything else is labelled. */
    method CompileCallables() returns (r: Verdict)
      requires Valid() && m.labels == map[] && signatures == map[] && c == 0
      modifies this, codemap
      ensures forall plan, rest ::
        Todo(old(asked), plan,
        Cons(DefinitionsAsks(g, g.policy.functions) + DefinitionsAsks(g, g.policy.finishFunctions), rest)) ==>
        if r.Fine? then Todo(asked, plan, rest) else Heard(asked, plan)
      ensures c <= DefinitionsMade(g, g.policy.functions) + DefinitionsMade(g, g.policy.finishFunctions)
      ensures r.Fine? ==> c == DefinitionsMade(g, g.policy.functions) + DefinitionsMade(g, g.policy.finishFunctions)
      ensures r.Fine? ==> Valid() && context == old(context) && forall m0 :: Before(m0, old(m)) ==> Before(m0, m)
      ensures r.Fine? ==> signatures == AllKnown(g.policy) && CallablesOk(g)
      ensures r.Fine? ==> CommandsFree(m.labels, c, []) && NamesFree(m.labels, c, M.ActionLabel, [])
      ensures r.Fine? ==> FinishState(g.policy, m.labels, c, |g.policy.finishFunctions|)
      ensures r.Fine? ==>
        Has(old(wp), FunctionsCode(g, g.policy.functions) + ProceduresCode(g, g.policy.finishFunctions)) &&
        AllFunctions(g, m, g.policy.functions) && AllProcedures(g, m, M.Temporary, g.policy.finishFunctions)
      ensures r.Error? ==> Justified(r.error, CallablesOk(g))
    {
      hide DefinitionsAsks, AllFunctions, AllProcedures, FinishFunctionsOk, DefinitionsMade, Written, Before, Clean,
        Free, Ahead, Clash, Issued, Signed, Accepted, Replay, NamesFree, CommandsFree, FinishState, Anonymous, Named,
        NoRepeats, Names, AllKnown, KnownAfter, FunctionsOk, FunctionsCode, ProceduresCode, Denied, Heard, Todo,
        Agreed, ExprAsks, InnerAsks, ArgsAsks, FieldsAsks, FactAsks, StmtsAsks, StmtAsks, BranchesAsks, TestsAsks,
        BodiesAsks, ParamsAsks;
      TodoHeard();
      TodoJoin(DefinitionsAsks(g, g.policy.functions), DefinitionsAsks(g, g.policy.finishFunctions));
      NothingUsed(g.policy);
      :- DefineFinishSignatures();
      ghost var labels, k := m.labels, c;
      :- CompileFunctions();
      ghost var m1, c1, labels1, k1 := m, FunctionsCode(g, g.policy.functions), m.labels, c;
      Reflexive(m1);
      FinishKept(g.policy, labels, k, m.labels, c);
      :- CompileFinishFunctions();
      Append(m1, m, old(wp), c1, ProceduresCode(g, g.policy.finishFunctions));
      FunctionsLater(g, m1, m, g.policy.functions);
      CommandsKept(labels, k, m.labels, c);
      NamesKept(labels, k, m.labels, c, M.ActionLabel);
      return Fine;
    }

    /** Commands and actions, once everything they call is known. */
    method CompileEntries() returns (r: Verdict)
      requires Valid() && signatures == AllKnown(g.policy)
      requires CommandsFree(m.labels, c, []) && NamesFree(m.labels, c, M.ActionLabel, [])
      modifies this, codemap
      ensures forall plan, rest ::
        Todo(old(asked), plan,
          Cons(CommandsAsks(g, g.policy.commands), Cons(DefinitionsAsks(g, g.policy.actions), rest))) ==>
        if r.Fine? then Todo(asked, plan, rest) else Heard(asked, plan)
      ensures
        var made := CommandsMade(g, g.policy.commands) + DefinitionsMade(g, g.policy.actions);
        c <= old(c) + made && (r.Fine? ==> c == old(c) + made)
      ensures r.Fine? ==> Valid() && context == old(context) && forall m0 :: Before(m0, old(m)) ==> Before(m0, m)
      ensures r.Fine? ==> forall k: nat :: Ahead(old(m).labels, old(c), k) <==> Ahead(m.labels, c, k)
      ensures
        var ok := CommandsOk(g, |g.policy.commands|) && ActionsOk(g, |g.policy.actions|);
        Did(r, ok, old(wp), CommandsCode(g, g.policy.commands) + ProceduresCode(g, g.policy.actions))
      ensures r.Fine? ==>
        AllCommands(g, m, g.policy.commands) && AllProcedures(g, m, M.ActionLabel, g.policy.actions)
    {
      hide DefinitionsAsks, CommandsAsks, AllProcedures, AllCommands, DefinitionsMade, CommandsMade, Written, Before,
        Clean,
        Free, Ahead, Clash, Issued, Signed, Accepted, Replay, NamesFree, CommandsFree, AllKnown, CommandsOk, ActionsOk,
        ProceduresCode, CommandsCode, Denied, Heard, Todo, Agreed;
      TodoHeard();
      ghost var labels, k := m.labels, c;
      :- CompileCommands();
      ghost var m1 := m;
      Reflexive(m1);
      NamesKept(labels, k, m.labels, c, M.ActionLabel);
      :- CompileActions();
      Append(m1, m, old(wp), CommandsCode(g, g.policy.commands), ProceduresCode(g, g.policy.actions));
      CommandsLater(g, m1, m, g.policy.commands);
      return Fine;
    }

    /** Compiles the whole policy. `before` is memory and labels just before linking: on success
        everything is written there, and linking has only replaced the symbolic targets and
        dropped the temporary labels. On failure there is a reason; an unmappable address never
        is one, and a bad target only if it dangles in complete memory. */
    method Compile() returns (r: Verdict, ghost before: Moment)
      requires Valid() && m == Moment([], map[]) && signatures == map[] && c == 0 && asked == []
      modifies this, codemap
      ensures Heard(asked, Asks(g)) && (r.Fine? ==> Todo(asked, Asks(g), Nil) && Agreed(types, asked))
      ensures c <= Made(g) && (r.Fine? ==> !Collides(g))
      ensures r.Fine? || (r.Error? && r.error.BadTarget?) ==> Complete(g, before)
      ensures r.Fine? ==> m.prog == PatchAll(before.labels, before.prog)
      ensures r.Fine? ==> m.labels == map l | l in before.labels && l.ltype != M.Temporary :: before.labels[l]
      ensures r.Error? && r.error.BadTarget? ==>
        exists k :: 0 <= k < |before.prog| && !Resolvable(before.labels, before.prog[k])
      ensures r.Error? && !r.error.BadTarget? ==> Justified(r.error, PolicyOk(g))
    {
      hide DefinitionsAsks, CommandsAsks, Asks, AllFunctions, AllProcedures, AllCommands, FinishFunctionsOk,
        DefinitionsMade, CommandsMade, Collides, Complete, Written, Before, Clean, Free, Ahead, Clash, Issued,
        Signed, Accepted, Replay, NamesFree, CommandsFree, FinishState, Anonymous, Named, NoRepeats, Names, AllKnown,
        FunctionsOk, CommandsOk, ActionsOk, FunctionsCode, ProceduresCode, CommandsCode, Denied, PatchAll,
        Resolvable, Heard, Todo, Agreed, ExprAsks, InnerAsks, ArgsAsks, FieldsAsks, FactAsks, StmtsAsks, StmtAsks,
        BranchesAsks, TestsAsks, BodiesAsks, ParamsAsks;
      TodoHeard();
      AsksUnfold(g);
      before := m;
      AppendInstruction(M.Exit(Panic));
      ghost var m1, c1 := m, [I(M.Exit(Panic))];
      Reflexive(m1);
      Single(m1, 0, I(M.Exit(Panic)));
      var q := CompileCallables();
      if q.Error? { return q, before; }
      ghost var m2, k2, c2 := m, c, FunctionsCode(g, g.policy.functions) + ProceduresCode(g, g.policy.finishFunctions);
      Reflexive(m2);
      Append(m1, m2, 0, c1, c2);
      q := CompileEntries();
      if q.Error? { return q, before; }
      NoneCollides(g, m2.labels, k2, m.labels, c);
      before := m;
      ghost var c3 := CommandsCode(g, g.policy.commands) + ProceduresCode(g, g.policy.actions);
      Append(m2, m, 0, c1 + c2, c3);
      assert (c1 + c2) + c3 == ProgramCode(g);
      AllStanding(g, m2, m);
      q := ResolveTargets();
      return q, before;
    }
  }
}
