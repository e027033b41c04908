/** What the compiler accepts, said place by place: a policy meets the static rules if and only if
    every expression, statement and statement list that occurs in it is allowed where it stands.
    The rules are written out here in full, apart from the checks of the compiler. */
module Acceptance {
  import opened Values
  import opened Ast
  import opened Static
  import opened Layout
  import opened Programs
  import opened Effects
  import opened Operations
  import R = Trails
  import M = Machine

  // ---- What occurs where ----

  /** Something that occurs in a policy, and the place it stands in. */
  datatype Spot = ExprSpot(at: Site, e: Expr) | StmtSpot(at: Site, nd: Node) | ListSpot(at: Site, ss: seq<Node>)

  predicate InExpr(at: Site, e: Expr, sp: Spot)
    decreases e, 0
  {
    sp == ExprSpot(at, e) ||
    match e
    case Literal(_) | EnumReference(_, _) | Identifier(_) => false
    case NamedStruct(_, fields) => InFields(at, fields, sp)
    case FactQuery(_, fact) => InFact(at, fact, sp)
    case Conditional(c, yes, no) => InExpr(at, c, sp) || InExpr(at, yes, sp) || InExpr(at, no, sp)
    case FunctionCall(_, args) => InArgs(at, args, sp)
    case ForeignCall(_, _, args) => InArgs(at, args, sp)
    case Unary(_, a) => InExpr(at, a, sp)
    case Binary(_, a, b) => InExpr(at, a, sp) || InExpr(at, b, sp)
  }

  predicate InArgs(at: Site, es: seq<Expr>, sp: Spot)
    decreases es, 0
  {
    es != [] && (InExpr(at, es[0], sp) || InArgs(at, es[1..], sp))
  }

  predicate InFields(at: Site, fs: seq<Field>, sp: Spot)
    decreases fs, 0
  {
    fs != [] && ((fs[0].value.Given? && InExpr(at, fs[0].value.expr, sp)) || InFields(at, fs[1..], sp))
  }

  predicate InFact(at: Site, f: FactLiteral, sp: Spot)
    decreases f, 0
  {
    InFields(at, f.keys, sp) || (match f.values case NoValues => false case GivenValues(fs) => InFields(at, fs, sp))
  }

  predicate InList(g: Program, at: Site, ss: seq<Node>, sp: Spot)
    decreases ss, 2
  {
    sp == ListSpot(at, ss) || InEach(g, at, ss, sp)
  }

  predicate InEach(g: Program, at: Site, ss: seq<Node>, sp: Spot)
    decreases ss, 1
  {
    ss != [] && (InStmt(g, at, ss[0], sp) || InEach(g, at, ss[1..], sp))
  }

  predicate InStmt(g: Program, at: Site, nd: Node, sp: Spot)
    decreases nd, 0
  {
    sp == StmtSpot(at, nd) ||
    match nd.stmt
    case Let(_, e) => InExpr(at, e, sp)
    case CheckThat(e) => InExpr(at, e, sp)
    case DebugAssert(e) => g.debug && InExpr(at, e, sp)
    case Match(e, arms) => InExpr(at, e, sp) || InArms(g, at, arms, sp)
    case If(branches, fallback) =>
      InBranches(g, at, branches, sp) || (match fallback case NoElse => false case Else(ss) => InList(g, at, ss, sp))
    case Finish(body) => InList(g, FinishSite(at.known), body, sp)
    case Map(fact, _, body) => InFact(at, fact, sp) || InList(g, at, body, sp)
    case Return(e) => InExpr(at, e, sp)
    case ActionCall(_, args) => InArgs(at, args, sp)
    case FinishCall(_, args) => InArgs(at, args, sp)
    case Publish(e) => InExpr(at, e, sp)
    case Emit(e) => InExpr(at, e, sp)
    case Create(fact) => InFact(at, fact, sp)
    case Delete(fact) => InFact(at, fact, sp)
    case Update(fact, to) => InFact(at, fact, sp) || InFields(at, to, sp)
  }

  predicate InBranches(g: Program, at: Site, bs: seq<Branch>, sp: Spot)
    decreases bs, 3
  {
    bs != [] && (InExpr(at, bs[0].cond, sp) || InList(g, at, bs[0].body, sp) || InBranches(g, at, bs[1..], sp))
  }

  predicate InArms(g: Program, at: Site, arms: seq<Arm>, sp: Spot)
    decreases arms, 3
  {
    arms != [] &&
    ((match arms[0].pattern case Default => false case Values(es) => InArgs(at, es, sp)) ||
     InList(g, at, arms[0].body, sp) || InArms(g, at, arms[1..], sp))
  }

  // ---- What is allowed where ----

  /** The form of an expression alone fixes its type. */
  predicate Fixes(e: Expr, t: VType) {
    match e
    case Literal(v) => HasType(v, t)
    case NamedStruct(name, _) => t == StructT(name)
    case Unary(SomeOf, a) => t.OptionalT? && Fixes(a, t.inner)
    case _ => false
  }

  /** A key whose type is fixed has the type of the schema, and it is one that can be a key. */
  ghost predicate KeyAllowed(f: Field, d: FieldDef) {
    f.name == d.name &&
    (f.value.Given? ==>
      forall t :: Fixes(f.value.expr, t) ==> t == d.vtype && (t == IntT || t == BoolT || t == StringT || t == IdT))
  }

  ghost predicate ValueAllowed(f: Field, d: FieldDef) {
    f.name == d.name && (f.value.Given? ==> forall t :: Fixes(f.value.expr, t) ==> t == d.vtype)
  }

  ghost predicate ValuesAllowed(fs: seq<Field>, ds: seq<FieldDef>) {
    |fs| == |ds| && forall i :: 0 <= i < |fs| ==> ValueAllowed(fs[i], ds[i])
  }

  /** A fact literal gives the members of its schema, by name and in order. */
  ghost predicate FactAllowed(w: World, f: FactLiteral, needsValue: bool) {
    f.name in w.facts && |f.keys| == |w.facts[f.name].key| &&
    (forall i :: 0 <= i < |f.keys| ==> KeyAllowed(f.keys[i], w.facts[f.name].key[i])) &&
    match f.values
    case NoValues => !needsValue
    case GivenValues(fs) => ValuesAllowed(fs, w.facts[f.name].value)
  }

  ghost predicate AllGiven(fs: seq<Field>) {
    forall i :: 0 <= i < |fs| ==> fs[i].value != Bind
  }

  /** The first definition of this name takes this many arguments. */
  ghost predicate Defines(ds: seq<Definition>, name: string, arity: nat) {
    exists i :: 0 <= i < |ds| && ds[i].name == name && |ds[i].params| == arity &&
      forall j :: 0 <= j < i ==> ds[j].name != name
  }

  ghost predicate Provides(w: World, m: string, name: string, arity: nat) {
    exists i, j :: FirstModule(w.ffi, i, m) && FirstProcedure(w.ffi[i].procedures, j, name) &&
      w.ffi[i].procedures[j].arity == arity
  }

  ghost predicate ExprAllowed(g: Program, at: Site, e: Expr) {
    (at.FinishSite? ==>
      e.Literal? || e.EnumReference? || e.Identifier? || e.NamedStruct? ||
        (e.Unary? && (e.uop.SomeOf? || e.uop.Dot?))) &&
    match e
    case NamedStruct(name, fields) => name in g.world.structs && AllGiven(fields)
    case FactQuery(kind, fact) =>
      FactAllowed(g.world, fact, false) && (
      match kind
      case Query | Exists => true
      case UpTo(k) => 1 <= k
      case AtLeast(k) => 1 <= k
      case AtMost(k) => 1 <= k <= 9223372036854775806
      case Exactly(k) => 1 <= k <= 9223372036854775806)
    case FunctionCall(name, args) =>
      name in at.known && at.known[name] == Signature(|args|, false) && Defines(g.policy.functions, name, |args|)
    case ForeignCall(m, name, args) => Provides(g.world, m, name, |args|)
    case Unary(op, _) => op.Serialize? || op.Deserialize? ==> at.FunctionSite?
    case _ => true
  }

  /** No two values of a match are the same expression. */
  ghost predicate Differ(arms: seq<Arm>) {
    forall a, b, i, j ::
      0 <= a <= b < |arms| && arms[a].pattern.Values? && arms[b].pattern.Values? &&
      0 <= i < |arms[a].pattern.values| && 0 <= j < |arms[b].pattern.values| && (a < b || i < j) ==>
        arms[a].pattern.values[i] != arms[b].pattern.values[j]
  }

  ghost predicate StmtAllowed(g: Program, at: Site, nd: Node) {
    match nd.stmt
    case Let(_, _) | CheckThat(_) | If(_, _) => !at.FinishSite?
    case DebugAssert(_) => true
    case Match(_, arms) =>
      !at.FinishSite? && Differ(arms) &&
      forall i :: 0 <= i < |arms| && arms[i].pattern.Default? ==> arms[i] == arms[|arms| - 1]
    case Finish(_) => at.PolicySite? || at.RecallSite?
    case Map(fact, _, _) => at.ActionSite? && FactAllowed(g.world, fact, false)
    case Return(_) => at.FunctionSite?
    case ActionCall(name, args) => at.ActionSite? && Defines(g.policy.actions, name, |args|)
    case FinishCall(name, args) =>
      at.FinishSite? && name in at.known && at.known[name] == Signature(|args|, true) &&
      Defines(g.policy.finishFunctions, name, |args|)
    case Publish(_) => at.ActionSite?
    case Emit(_) => at.FinishSite?
    case Create(fact) =>
      at.FinishSite? && AllGiven(fact.keys) && (fact.values.GivenValues? ==> AllGiven(fact.values.fields)) &&
      FactAllowed(g.world, fact, true)
    case Delete(fact) => at.FinishSite? && FactAllowed(g.world, fact, false)
    case Update(fact, to) =>
      at.FinishSite? && FactAllowed(g.world, fact, true) && !g.world.facts[fact.name].immutable &&
      ValuesAllowed(to, g.world.facts[fact.name].value) && AllGiven(to)
  }

  ghost predicate Allowed(g: Program, sp: Spot) {
    match sp
    case ExprSpot(at, e) => ExprAllowed(g, at, e)
    case StmtSpot(at, nd) => StmtAllowed(g, at, nd)
    case ListSpot(_, ss) => forall i :: 0 <= i < |ss| && ss[i].stmt.Finish? ==> ss[i] == ss[|ss| - 1]
  }

  // ---- The rules are those of the checks ----

  lemma {:induction false} FixesType(e: Expr, t: VType)
    ensures LiteralType(e) == Some(t) <==> Fixes(e, t)
    decreases e
  {
    if e.Unary? && e.uop.SomeOf? && t.OptionalT? { FixesType(e.arg, t.inner); }
    if e.Unary? && e.uop.SomeOf? && LiteralType(e) == Some(t) { assert t.OptionalT?; }
  }

  lemma {:induction false} KeyRule(f: Field, d: FieldDef)
    ensures KeyFits(f, d) <==> KeyAllowed(f, d)
    ensures ValueFits(f, d) <==> ValueAllowed(f, d)
  {
    hide Fixes, LiteralType;
    if f.value.Given? {
      forall t ensures LiteralType(f.value.expr) == Some(t) <==> Fixes(f.value.expr, t) {
        FixesType(f.value.expr, t);
      }
      if LiteralType(f.value.expr).Some? { assert Fixes(f.value.expr, LiteralType(f.value.expr).value); }
    }
  }

  lemma {:induction false} ValuesRule(fs: seq<Field>, ds: seq<FieldDef>)
    ensures ValuesFit(fs, ds) <==> ValuesAllowed(fs, ds)
  {
    hide ValueFits, ValueAllowed;
    if |fs| == |ds| {
      forall i | 0 <= i < |fs| ensures ValueFits(fs[i], ds[i]) <==> ValueAllowed(fs[i], ds[i]) {
        KeyRule(fs[i], ds[i]);
      }
    }
  }

  lemma {:induction false} FactRule(w: World, f: FactLiteral, needsValue: bool)
    ensures FactFitsSchema(w, f, needsValue) <==> FactAllowed(w, f, needsValue)
  {
    hide KeyFits, KeyAllowed, ValuesFit, ValuesAllowed;
    if f.name in w.facts && |f.keys| == |w.facts[f.name].key| {
      var d := w.facts[f.name];
      forall i | 0 <= i < |f.keys| ensures KeyFits(f.keys[i], d.key[i]) <==> KeyAllowed(f.keys[i], d.key[i]) {
        KeyRule(f.keys[i], d.key[i]);
      }
      if f.values.GivenValues? { ValuesRule(f.values.fields, d.value); }
    }
  }

  lemma {:induction false} CallRule(ds: seq<Definition>, name: string, arity: nat)
    ensures CallOk(ds, name, arity) <==> Defines(ds, name, arity)
  {
    if ds != [] {
      if ds[0].name == name {
        if i :| 0 <= i < |ds| && ds[i].name == name && |ds[i].params| == arity && forall j :: 0 <= j < i ==>
          ds[j].name != name {
          assert i == 0;
        }
      } else {
        var rest := ds[1..];
        CallRule(rest, name, arity);
        assert forall i :: 0 < i < |ds| ==> ds[i] == rest[i - 1];
        if Defines(rest, name, arity) {
          var i :| 0 <= i < |rest| && rest[i].name == name && |rest[i].params| == arity &&
                   forall j :: 0 <= j < i ==> rest[j].name != name;
          assert ds[i + 1].name == name && forall j :: 0 <= j < i + 1 ==> ds[j].name != name;
        }
        if Defines(ds, name, arity) {
          var i :| 0 <= i < |ds| && ds[i].name == name && |ds[i].params| == arity && forall j :: 0 <= j < i ==>
            ds[j].name != name;
          assert rest[i - 1].name == name && forall j :: 0 <= j < i - 1 ==> rest[j] == ds[j + 1];
        }
      }
    }
  }

  lemma {:induction false} ModuleFirst(ms: seq<ForeignModule>, name: string)
    ensures FindModule(ms, name).Some? ==> FirstModule(ms, FindModule(ms, name).value, name)
  {
    if ms != [] && ms[0].name != name {
      ModuleFirst(ms[1..], name);
      assert forall j :: 0 < j < |ms| ==> ms[j] == ms[1..][j - 1];
    }
  }

  lemma {:induction false} ProcedureFirst(ps: seq<Procedure>, name: string)
    ensures FindProcedure(ps, name).Some? ==> FirstProcedure(ps, FindProcedure(ps, name).value, name)
  {
    if ps != [] && ps[0].name != name {
      ProcedureFirst(ps[1..], name);
      assert forall j :: 0 < j < |ps| ==> ps[j] == ps[1..][j - 1];
    }
  }

  lemma {:induction false} ForeignRule(w: World, m: string, name: string, arity: nat)
    ensures ForeignOk(w, m, name, arity) <==> Provides(w, m, name, arity)
  {
    hide FindModule, FindProcedure;
    ModuleFirst(w.ffi, m);
    if ForeignOk(w, m, name, arity) {
      var i := FindModule(w.ffi, m).value;
      ProcedureFirst(w.ffi[i].procedures, name);
      assert FirstProcedure(w.ffi[i].procedures, FindProcedure(w.ffi[i].procedures, name).value, name);
    }
    if Provides(w, m, name, arity) {
      var i, j :| FirstModule(w.ffi, i, m) && FirstProcedure(w.ffi[i].procedures, j, name) &&
                  w.ffi[i].procedures[j].arity == arity;
      ModuleFound(w.ffi, i, m);
      ProcedureFound(w.ffi[i].procedures, j, name);
    }
  }

  // ---- Matches ----

  ghost predicate Among(arms: seq<Arm>, e: Expr) {
    exists a, i :: 0 <= a < |arms| && arms[a].pattern.Values? && 0 <= i < |arms[a].pattern.values| &&
      arms[a].pattern.values[i] == e
  }

  lemma {:induction false} ValueAmong(arms: seq<Arm>, e: Expr)
    ensures e in MatchValues(arms) <==> Among(arms, e)
  {
    if arms != [] {
      var rest := arms[1..];
      ValueAmong(rest, e);
      assert forall a :: 0 < a < |arms| ==> arms[a] == rest[a - 1];
      if Among(rest, e) {
        var a, i :| 0 <= a < |rest| && rest[a].pattern.Values? && 0 <= i < |rest[a].pattern.values| &&
                    rest[a].pattern.values[i] == e;
        assert arms[a + 1].pattern.values[i] == e;
      }
      if Among(arms, e) {
        var a, i :| 0 <= a < |arms| && arms[a].pattern.Values? && 0 <= i < |arms[a].pattern.values| &&
                    arms[a].pattern.values[i] == e;
        if a > 0 { assert rest[a - 1].pattern.values[i] == e; }
      }
      if arms[0].pattern.Values? && e in arms[0].pattern.values {
        var i :| 0 <= i < |arms[0].pattern.values| && arms[0].pattern.values[i] == e;
        assert arms[0].pattern.values[i] == e;
      }
    }
  }

  lemma {:induction false} NoRepeatsJoin(xs: seq<Expr>, ys: seq<Expr>)
    ensures NoRepeats(xs + ys) <==> NoRepeats(xs) && NoRepeats(ys) && forall x :: x in xs ==> x !in ys
  {
    var all := xs + ys;
    assert forall i :: 0 <= i < |xs| ==> xs[i] == all[i];
    assert forall i :: 0 <= i < |ys| ==> ys[i] == all[|xs| + i];
    if NoRepeats(all) {
      forall x | x in xs ensures x !in ys {
        var i :| 0 <= i < |xs| && xs[i] == x;
        assert forall j :: |xs| <= j < |all| ==> all[i] != all[j];
        assert forall j :: 0 <= j < |ys| ==> ys[j] != x;
      }
    } else {
      var i, j :| 0 <= i < j < |all| && all[i] == all[j];
      if j < |xs| {
        assert xs[i] == xs[j];
      } else if |xs| <= i {
        assert ys[i - |xs|] == ys[j - |xs|];
      } else {
        assert xs[i] in xs && ys[j - |xs|] in ys;
      }
    }
  }

  /** The values of the first arm differ from each other and from those of the later arms. */
  lemma {:induction false} DifferSplit(arms: seq<Arm>)
    requires arms != []
    ensures
      var es := match arms[0].pattern case Default => [] case Values(es) => es;
      Differ(arms) <==> NoRepeats(es) && Differ(arms[1..]) && forall e :: e in es ==> !Among(arms[1..], e)
  {
    var es := match arms[0].pattern case Default => [] case Values(es) => es;
    var rest := arms[1..];
    assert forall a :: 0 <= a < |rest| ==> rest[a] == arms[a + 1];
    if Differ(arms) {
      assert NoRepeats(es);
      assert Differ(rest) by {
        forall a, b, i, j |
          0 <= a <= b < |rest| && rest[a].pattern.Values? && rest[b].pattern.Values? &&
          0 <= i < |rest[a].pattern.values| && 0 <= j < |rest[b].pattern.values| && (a < b || i < j)
          ensures rest[a].pattern.values[i] != rest[b].pattern.values[j]
        {
          assert arms[a + 1].pattern.values[i] != arms[b + 1].pattern.values[j];
        }
      }
      forall e | e in es ensures !Among(rest, e) {
        var i :| 0 <= i < |es| && es[i] == e;
        forall b, j | 0 <= b < |rest| && rest[b].pattern.Values? && 0 <= j < |rest[b].pattern.values|
          ensures rest[b].pattern.values[j] != e
        {
          assert arms[0].pattern.values[i] != arms[b + 1].pattern.values[j];
        }
      }
    }
    if NoRepeats(es) && Differ(rest) && forall e :: e in es ==> !Among(rest, e) {
      forall a, b, i, j |
        0 <= a <= b < |arms| && arms[a].pattern.Values? && arms[b].pattern.Values? &&
        0 <= i < |arms[a].pattern.values| && 0 <= j < |arms[b].pattern.values| && (a < b || i < j)
        ensures arms[a].pattern.values[i] != arms[b].pattern.values[j]
      {
        if a > 0 {
          assert rest[a - 1].pattern.values[i] != rest[b - 1].pattern.values[j];
        } else if b > 0 {
          assert es[i] in es && !Among(rest, es[i]);
          assert rest[b - 1].pattern.values[j] != es[i];
        }
      }
    }
  }

  lemma {:induction false} MatchRule(arms: seq<Arm>)
    ensures NoRepeats(MatchValues(arms)) <==> Differ(arms)
  {
    hide Differ, Among, NoRepeats;
    if arms != [] {
      var es := match arms[0].pattern case Default => [] case Values(es) => es;
      DifferSplit(arms);
      MatchRule(arms[1..]);
      NoRepeatsJoin(es, MatchValues(arms[1..]));
      forall e ensures e in MatchValues(arms[1..]) <==> Among(arms[1..], e) {
        ValueAmong(arms[1..], e);
      }
    } else {
      DifferNone();
    }
  }

  lemma DifferNone()
    ensures Differ([]) && NoRepeats<Expr>([])
  {
  }

  // ---- Everything that occurs is allowed ----

  ghost predicate ExprFine(g: Program, at: Site, e: Expr) {
    forall sp :: InExpr(at, e, sp) ==> Allowed(g, sp)
  }

  ghost predicate ArgsFine(g: Program, at: Site, es: seq<Expr>) {
    forall sp :: InArgs(at, es, sp) ==> Allowed(g, sp)
  }

  ghost predicate FieldsFine(g: Program, at: Site, fs: seq<Field>) {
    forall sp :: InFields(at, fs, sp) ==> Allowed(g, sp)
  }

  ghost predicate FactFine(g: Program, at: Site, f: FactLiteral) {
    forall sp :: InFact(at, f, sp) ==> Allowed(g, sp)
  }

  ghost predicate StmtFine(g: Program, at: Site, nd: Node) {
    forall sp :: InStmt(g, at, nd, sp) ==> Allowed(g, sp)
  }

  ghost predicate EachFine(g: Program, at: Site, ss: seq<Node>) {
    forall sp :: InEach(g, at, ss, sp) ==> Allowed(g, sp)
  }

  ghost predicate ListFine(g: Program, at: Site, ss: seq<Node>) {
    forall sp :: InList(g, at, ss, sp) ==> Allowed(g, sp)
  }

  ghost predicate BranchesFine(g: Program, at: Site, bs: seq<Branch>) {
    forall sp :: InBranches(g, at, bs, sp) ==> Allowed(g, sp)
  }

  ghost predicate ArmsFine(g: Program, at: Site, arms: seq<Arm>) {
    forall sp :: InArms(g, at, arms, sp) ==> Allowed(g, sp)
  }

  /** What the parts of an expression have to meet. */
  ghost predicate PartsOk(g: Program, at: Site, e: Expr) {
    match e
    case Literal(_) | EnumReference(_, _) | Identifier(_) => true
    case NamedStruct(_, fields) => FieldsOk(g, at, fields)
    case FactQuery(_, fact) => FactOk(g, at, fact)
    case Conditional(c, yes, no) => ExprOk(g, at, c) && ExprOk(g, at, yes) && ExprOk(g, at, no)
    case FunctionCall(_, args) => ArgsOk(g, at, args)
    case ForeignCall(_, _, args) => ArgsOk(g, at, args)
    case Unary(_, a) => ExprOk(g, at, a)
    case Binary(_, a, b) => ExprOk(g, at, a) && ExprOk(g, at, b)
  }

  ghost predicate PartsFine(g: Program, at: Site, e: Expr) {
    match e
    case Literal(_) | EnumReference(_, _) | Identifier(_) => true
    case NamedStruct(_, fields) => FieldsFine(g, at, fields)
    case FactQuery(_, fact) => FactFine(g, at, fact)
    case Conditional(c, yes, no) => ExprFine(g, at, c) && ExprFine(g, at, yes) && ExprFine(g, at, no)
    case FunctionCall(_, args) => ArgsFine(g, at, args)
    case ForeignCall(_, _, args) => ArgsFine(g, at, args)
    case Unary(_, a) => ExprFine(g, at, a)
    case Binary(_, a, b) => ExprFine(g, at, a) && ExprFine(g, at, b)
  }

  lemma {:induction false} ExprRule(g: Program, at: Site, e: Expr)
    ensures ExprOk(g, at, e) <==> ExprAllowed(g, at, e) && PartsOk(g, at, e)
  {
    hide FactFitsSchema, FactAllowed, CallOk, Defines, ForeignOk, Provides, FieldsOk, FactOk, ArgsOk;
    match e
    case FactQuery(_, fact) => FactRule(g.world, fact, false);
    case FunctionCall(name, args) => CallRule(g.policy.functions, name, |args|);
    case ForeignCall(m, name, args) => ForeignRule(g.world, m, name, |args|);
    case _ =>
  }

  lemma {:induction false} ExprSpots(g: Program, at: Site, e: Expr)
    ensures ExprFine(g, at, e) <==> ExprAllowed(g, at, e) && PartsFine(g, at, e)
  {
    hide ExprAllowed, StmtAllowed, InFields, InFact, InArgs;
    if ExprFine(g, at, e) {
      assert InExpr(at, e, ExprSpot(at, e));
      assert Allowed(g, ExprSpot(at, e));
    }
  }

  lemma {:induction false} ExprWhere(g: Program, at: Site, e: Expr)
    ensures ExprOk(g, at, e) <==> ExprFine(g, at, e)
    decreases e, 1
  {
    hide ExprOk, ExprFine, ExprAllowed, FieldsOk, FieldsFine, FactOk, FactFine, ArgsOk, ArgsFine;
    ExprRule(g, at, e);
    ExprSpots(g, at, e);
    match e
    case Literal(_) | EnumReference(_, _) | Identifier(_) =>
    case NamedStruct(_, fields) => FieldsWhere(g, at, fields);
    case FactQuery(_, fact) => FactWhere(g, at, fact);
    case Conditional(c, yes, no) =>
      ExprWhere(g, at, c);
      ExprWhere(g, at, yes);
      ExprWhere(g, at, no);
    case FunctionCall(_, args) => ArgsWhere(g, at, args);
    case ForeignCall(_, _, args) => ArgsWhere(g, at, args);
    case Unary(_, a) => ExprWhere(g, at, a);
    case Binary(_, a, b) =>
      ExprWhere(g, at, a);
      ExprWhere(g, at, b);
  }

  lemma {:induction false} ArgsWhere(g: Program, at: Site, es: seq<Expr>)
    ensures ArgsOk(g, at, es) <==> ArgsFine(g, at, es)
    decreases es, 0
  {
    hide ExprOk, InExpr, Allowed;
    if es != [] {
      ExprWhere(g, at, es[0]);
      ArgsWhere(g, at, es[1..]);
    }
  }

  lemma {:induction false} FieldsWhere(g: Program, at: Site, fs: seq<Field>)
    ensures FieldsOk(g, at, fs) <==> FieldsFine(g, at, fs)
    decreases fs, 0
  {
    hide ExprOk, InExpr, Allowed;
    if fs != [] {
      if fs[0].value.Given? { ExprWhere(g, at, fs[0].value.expr); }
      FieldsWhere(g, at, fs[1..]);
    }
  }

  lemma {:induction false} FactWhere(g: Program, at: Site, f: FactLiteral)
    ensures FactOk(g, at, f) <==> FactFine(g, at, f)
    decreases f, 0
  {
    hide FieldsOk, InFields, Allowed;
    FieldsWhere(g, at, f.keys);
    if f.values.GivenValues? { FieldsWhere(g, at, f.values.fields); }
  }

  // ---- Statements ----

  ghost predicate StmtPartsOk(g: Program, at: Site, nd: Node) {
    match nd.stmt
    case Let(_, e) => ExprOk(g, at, e)
    case CheckThat(e) => ExprOk(g, at, e)
    case DebugAssert(e) => g.debug ==> ExprOk(g, at, e)
    case Match(e, arms) => ExprOk(g, at, e) && ArmsIn(g, at, arms)
    case If(branches, fallback) =>
      BranchesOk(g, at, branches) && (match fallback case NoElse => true case Else(ss) => StmtsOk(g, at, ss))
    case Finish(body) => StmtsOk(g, FinishSite(at.known), body)
    case Map(fact, _, body) => FactOk(g, at, fact) && StmtsOk(g, at, body)
    case Return(e) => ExprOk(g, at, e)
    case ActionCall(_, args) => ArgsOk(g, at, args)
    case FinishCall(_, args) => ArgsOk(g, at, args)
    case Publish(e) => ExprOk(g, at, e)
    case Emit(e) => ExprOk(g, at, e)
    case Create(fact) => FactOk(g, at, fact)
    case Delete(fact) => FactOk(g, at, fact)
    case Update(fact, to) => FactOk(g, at, fact) && FieldsOk(g, at, to)
  }

  ghost predicate StmtPartsFine(g: Program, at: Site, nd: Node) {
    match nd.stmt
    case Let(_, e) => ExprFine(g, at, e)
    case CheckThat(e) => ExprFine(g, at, e)
    case DebugAssert(e) => g.debug ==> ExprFine(g, at, e)
    case Match(e, arms) => ExprFine(g, at, e) && ArmsFine(g, at, arms)
    case If(branches, fallback) =>
      BranchesFine(g, at, branches) && (match fallback case NoElse => true case Else(ss) => ListFine(g, at, ss))
    case Finish(body) => ListFine(g, FinishSite(at.known), body)
    case Map(fact, _, body) => FactFine(g, at, fact) && ListFine(g, at, body)
    case Return(e) => ExprFine(g, at, e)
    case ActionCall(_, args) => ArgsFine(g, at, args)
    case FinishCall(_, args) => ArgsFine(g, at, args)
    case Publish(e) => ExprFine(g, at, e)
    case Emit(e) => ExprFine(g, at, e)
    case Create(fact) => FactFine(g, at, fact)
    case Delete(fact) => FactFine(g, at, fact)
    case Update(fact, to) => FactFine(g, at, fact) && FieldsFine(g, at, to)
  }

  /** The arms apart from their order. */
  ghost predicate ArmsIn(g: Program, at: Site, arms: seq<Arm>) {
    arms != [] ==>
      (match arms[0].pattern case Default => true case Values(es) => ArgsOk(g, at, es)) &&
      StmtsOk(g, at, arms[0].body) && ArmsIn(g, at, arms[1..])
  }

  ghost predicate DefaultLast(arms: seq<Arm>) {
    forall i :: 0 <= i < |arms| && arms[i].pattern.Default? ==> arms[i] == arms[|arms| - 1]
  }

  lemma {:induction false} ArmsOrder(g: Program, at: Site, arms: seq<Arm>)
    ensures ArmsOk(g, at, arms) <==> ArmsIn(g, at, arms) && DefaultLast(arms)
  {
    hide StmtsOk, ArgsOk;
    if arms != [] {
      ArmsOrder(g, at, arms[1..]);
      assert forall i :: 0 < i < |arms| ==> arms[i] == arms[1..][i - 1];
    }
  }

  lemma {:induction false} StmtRule(g: Program, at: Site, nd: Node)
    ensures StmtOk(g, at, nd) <==> StmtAllowed(g, at, nd) && StmtPartsOk(g, at, nd)
  {
    hide FactFitsSchema, FactAllowed, CallOk, Defines, FieldsOk, FactOk, ArgsOk, ExprOk, ArmsOk, ArmsIn, StmtsOk,
      BranchesOk, NoRepeats, MatchValues, Differ, ValuesFit, ValuesAllowed;
    match nd.stmt
    case Match(_, arms) =>
      MatchRule(arms);
      ArmsOrder(g, at, arms);
    case Map(fact, _, _) => FactRule(g.world, fact, false);
    case ActionCall(name, args) => CallRule(g.policy.actions, name, |args|);
    case FinishCall(name, args) => CallRule(g.policy.finishFunctions, name, |args|);
    case Create(fact) => FactRule(g.world, fact, true);
    case Delete(fact) => FactRule(g.world, fact, false);
    case Update(fact, to) =>
      FactRule(g.world, fact, true);
      FactKnown(g.world, fact, true);
      if fact.name in g.world.facts { ValuesRule(to, g.world.facts[fact.name].value); }
    case _ =>
  }

  lemma FactKnown(w: World, f: FactLiteral, needsValue: bool)
    ensures FactFitsSchema(w, f, needsValue) ==> f.name in w.facts
  {
  }

  lemma {:induction false} StmtSpots(g: Program, at: Site, nd: Node)
    ensures StmtFine(g, at, nd) <==> StmtAllowed(g, at, nd) && StmtPartsFine(g, at, nd)
  {
    hide StmtAllowed, ExprAllowed, InFields, InFact, InArgs, InExpr, InArms, InBranches, InList;
    if StmtFine(g, at, nd) {
      assert InStmt(g, at, nd, StmtSpot(at, nd));
      assert Allowed(g, StmtSpot(at, nd));
    }
  }

  lemma {:induction false} StmtWhere(g: Program, at: Site, nd: Node)
    ensures StmtOk(g, at, nd) <==> StmtFine(g, at, nd)
    decreases nd, 0
  {
    hide StmtOk, StmtFine, StmtAllowed, ExprOk, ExprFine, FieldsOk, FieldsFine, FactOk, FactFine, ArgsOk, ArgsFine,
      ArmsIn, ArmsFine, BranchesOk, BranchesFine, StmtsOk, ListFine;
    StmtRule(g, at, nd);
    StmtSpots(g, at, nd);
    match nd.stmt
    case Let(_, e) => ExprWhere(g, at, e);
    case CheckThat(e) => ExprWhere(g, at, e);
    case DebugAssert(e) => ExprWhere(g, at, e);
    case Match(e, arms) =>
      ExprWhere(g, at, e);
      ArmsWhere(g, at, arms);
    case If(branches, fallback) =>
      BranchesWhere(g, at, branches);
      if fallback.Else? { ListWhere(g, at, fallback.body); }
    case Finish(body) => ListWhere(g, FinishSite(at.known), body);
    case Map(fact, _, body) =>
      FactWhere(g, at, fact);
      ListWhere(g, at, body);
    case Return(e) => ExprWhere(g, at, e);
    case ActionCall(_, args) => ArgsWhere(g, at, args);
    case FinishCall(_, args) => ArgsWhere(g, at, args);
    case Publish(e) => ExprWhere(g, at, e);
    case Emit(e) => ExprWhere(g, at, e);
    case Create(fact) => FactWhere(g, at, fact);
    case Delete(fact) => FactWhere(g, at, fact);
    case Update(fact, to) =>
      FactWhere(g, at, fact);
      FieldsWhere(g, at, to);
  }

  ghost predicate FinishLast(ss: seq<Node>) {
    forall i :: 0 <= i < |ss| && ss[i].stmt.Finish? ==> ss[i] == ss[|ss| - 1]
  }

  lemma {:induction false} EachWhere(g: Program, at: Site, ss: seq<Node>)
    ensures StmtsOk(g, at, ss) <==> EachFine(g, at, ss) && FinishLast(ss)
    decreases ss, 1
  {
    hide StmtOk, InStmt, Allowed;
    if ss != [] {
      StmtWhere(g, at, ss[0]);
      EachWhere(g, at, ss[1..]);
      assert forall i :: 0 < i < |ss| ==> ss[i] == ss[1..][i - 1];
      assert EachFine(g, at, ss) <==> StmtFine(g, at, ss[0]) && EachFine(g, at, ss[1..]);
      assert FinishLast(ss) <==> (ss[0].stmt.Finish? ==> ss[0] == ss[|ss| - 1]) && FinishLast(ss[1..]);
    }
  }

  /** The main step: a statement list meets the checks of the compiler if and only if everything
      that occurs in it is allowed where it stands. */
  lemma {:induction false} ListWhere(g: Program, at: Site, ss: seq<Node>)
    ensures StmtsOk(g, at, ss) <==> ListFine(g, at, ss)
    decreases ss, 2
  {
    hide StmtsOk, InEach, ExprAllowed, StmtAllowed;
    EachWhere(g, at, ss);
    if ListFine(g, at, ss) {
      assert InList(g, at, ss, ListSpot(at, ss));
      assert Allowed(g, ListSpot(at, ss));
    }
  }

  lemma {:induction false} BranchesWhere(g: Program, at: Site, bs: seq<Branch>)
    ensures BranchesOk(g, at, bs) <==> BranchesFine(g, at, bs)
    decreases bs, 3
  {
    hide ExprOk, StmtsOk, InExpr, InList, Allowed;
    if bs != [] {
      ExprWhere(g, at, bs[0].cond);
      ListWhere(g, at, bs[0].body);
      BranchesWhere(g, at, bs[1..]);
    }
  }

  lemma {:induction false} ArmsWhere(g: Program, at: Site, arms: seq<Arm>)
    ensures ArmsIn(g, at, arms) <==> ArmsFine(g, at, arms)
    decreases arms, 3
  {
    hide ArgsOk, StmtsOk, InArgs, InList, Allowed;
    if arms != [] {
      if arms[0].pattern.Values? { ArgsWhere(g, at, arms[0].pattern.values); }
      ListWhere(g, at, arms[0].body);
      ArmsWhere(g, at, arms[1..]);
    }
  }

  // ---- Return statements ----

  /** A return statement occurs, however deep. */
  predicate HasReturn(ss: seq<Node>)
    decreases ss, 1
  {
    ss != [] && (Returns(ss[0]) || HasReturn(ss[1..]))
  }

  predicate Returns(nd: Node)
    decreases nd, 0
  {
    match nd.stmt
    case Return(_) => true
    case Match(_, arms) => ArmReturns(arms)
    case If(branches, fallback) => BranchReturns(branches) || (fallback.Else? && HasReturn(fallback.body))
    case Finish(body) => HasReturn(body)
    case Map(_, _, body) => HasReturn(body)
    case _ => false
  }

  predicate BranchReturns(bs: seq<Branch>)
    decreases bs, 2
  {
    bs != [] && (HasReturn(bs[0].body) || BranchReturns(bs[1..]))
  }

  predicate ArmReturns(arms: seq<Arm>)
    decreases arms, 2
  {
    arms != [] && (HasReturn(arms[0].body) || ArmReturns(arms[1..]))
  }

  lemma {:induction false} QuietValues(g: Program, es: seq<Expr>, gap: nat)
    ensures I(M.Return) !in ValueTests(g, es, gap)
    decreases es
  {
    hide R.Leads, ExprCode;
    if es != [] {
      R.ExprOpen(g, es[0]);
      QuietValues(g, es[1..], gap);
    }
  }

  lemma {:induction false} QuietTests(g: Program, arms: seq<Arm>, gap: nat)
    ensures I(M.Return) !in TestsCode(g, arms, gap)
    decreases arms
  {
    hide ValueTests, StmtsCode;
    if arms != [] {
      var more := gap + |StmtsCode(g, arms[0].body)| + 2;
      QuietTests(g, arms[1..], more);
      if arms[0].pattern.Values? {
        QuietValues(g, arms[0].pattern.values, |TestsCode(g, arms[1..], more)| + gap);
      }
    }
  }

  /** The code of statements returns somewhere if and only if a return statement occurs. */
  lemma {:induction false} ReturnWhere(g: Program, ss: seq<Node>)
    ensures I(M.Return) in StmtsCode(g, ss) <==> HasReturn(ss)
    decreases ss, 1
  {
    hide StmtCode, Returns;
    if ss != [] {
      StmtReturnWhere(g, ss[0]);
      ReturnWhere(g, ss[1..]);
    }
  }

  lemma {:induction false} StmtReturnWhere(g: Program, nd: Node)
    ensures I(M.Return) in StmtCode(g, nd) <==> Returns(nd)
    decreases nd, 0
  {
    hide R.Leads, ExprCode, ArgsCode, FieldsCode, FactCode, TestsCode, BodiesCode, BranchesCode, StmtsCode, HasReturn,
      ArmReturns, BranchReturns;
    match nd.stmt
    case Let(_, e) => R.ExprOpen(g, e);
    case CheckThat(e) => R.ExprOpen(g, e);
    case DebugAssert(e) => R.ExprOpen(g, e);
    case Match(e, arms) =>
      R.ExprOpen(g, e);
      QuietTests(g, arms, if HasDefault(arms) then 0 else 1);
      ArmReturnWhere(g, arms);
    case If(branches, fallback) =>
      BranchReturnWhere(g, branches, match fallback case NoElse => 0 case Else(ss) => |StmtsCode(g, ss)|);
      if fallback.Else? { ReturnWhere(g, fallback.body); }
    case Finish(body) => ReturnWhere(g, body);
    case Map(fact, _, body) =>
      R.FactOpen(g, fact);
      ReturnWhere(g, body);
    case Return(e) =>
      assert StmtCode(g, nd)[|ExprCode(g, e)|] == I(M.Return);
    case ActionCall(_, args) => R.ArgsOpen(g, args);
    case FinishCall(_, args) => R.ArgsOpen(g, args);
    case Publish(e) => R.ExprOpen(g, e);
    case Emit(e) => R.ExprOpen(g, e);
    case Create(fact) => R.FactOpen(g, fact);
    case Delete(fact) => R.FactOpen(g, fact);
    case Update(fact, to) =>
      R.FactOpen(g, fact);
      R.FieldsOpen(g, ValueMember, to);
  }

  lemma {:induction false} BranchReturnWhere(g: Program, bs: seq<Branch>, after: nat)
    ensures I(M.Return) in BranchesCode(g, bs, after) <==> BranchReturns(bs)
    decreases bs, 2
  {
    hide R.Leads, ExprCode, StmtsCode, HasReturn;
    if bs != [] {
      R.ExprOpen(g, bs[0].cond);
      ReturnWhere(g, bs[0].body);
      BranchReturnWhere(g, bs[1..], after);
    }
  }

  lemma {:induction false} ArmReturnWhere(g: Program, arms: seq<Arm>)
    ensures I(M.Return) in BodiesCode(g, arms) <==> ArmReturns(arms)
    decreases arms, 2
  {
    hide StmtsCode, HasReturn;
    if arms != [] {
      ReturnWhere(g, arms[0].body);
      ArmReturnWhere(g, arms[1..]);
    }
  }

  // ---- Policies ----

  ghost predicate Defined(ds: seq<Definition>, n: nat, name: string, arity: nat) {
    exists i :: 0 <= i < n <= |ds| && ds[i].name == name && |ds[i].params| == arity
  }

  ghost predicate Callable(p: Policy, n: nat, name: string, sig: Signature) {
    if sig.finish then Defined(p.finishFunctions, |p.finishFunctions|, name, sig.arity)
    else Defined(p.functions, n, name, sig.arity)
  }

  /** The first `n` functions and all finish functions can be called, under their own names and
      with as many arguments as they have parameters; nothing else can. */
  ghost predicate Signs(p: Policy, n: nat, known: Known) {
    forall name, sig :: name in known && known[name] == sig <==> Callable(p, n, name, sig)
  }

  /** The list is a body of the policy, and this is the place it stands in. A function can call
      itself and the functions before it. */
  ghost predicate Stands(g: Program, at: Site, ss: seq<Node>) {
    var p := g.policy;
    (at.FunctionSite? &&
      exists i :: 0 <= i < |p.functions| && p.functions[i].body == ss && Signs(p, i + 1, at.known)) ||
    (Signs(p, |p.functions|, at.known) &&
      match at
      case FinishSite(_) => exists i :: 0 <= i < |p.finishFunctions| && p.finishFunctions[i].body == ss
      case ActionSite(_) => exists i :: 0 <= i < |p.actions| && p.actions[i].body == ss
      case PolicySite(_) => exists i :: 0 <= i < |p.commands| && p.commands[i].policy == ss
      case RecallSite(_) => exists i :: 0 <= i < |p.commands| && p.commands[i].recall == ss
      case FunctionSite(_) => exists i :: 0 <= i < |p.commands| && ss in {p.commands[i].seal, p.commands[i].open})
  }

  ghost predicate Apart(ds: seq<Definition>) {
    forall i, j :: 0 <= i < j < |ds| ==> ds[i].name != ds[j].name
  }

  ghost predicate OwnParams(ds: seq<Definition>) {
    forall i, j, k :: 0 <= i < |ds| && 0 <= j < k < |ds[i].params| ==> ds[i].params[j] != ds[i].params[k]
  }

  /** No name is given twice where names must differ. */
  ghost predicate NamedApart(p: Policy) {
    Apart(p.functions) && Apart(p.finishFunctions) && Apart(p.actions) &&
    (forall i, j :: 0 <= i < |p.functions| && 0 <= j < |p.finishFunctions| ==>
      p.functions[i].name != p.finishFunctions[j].name) &&
    (forall i, j :: 0 <= i < j < |p.commands| ==> p.commands[i].name != p.commands[j].name) &&
    OwnParams(p.functions) && OwnParams(p.actions)
  }

  /** Functions, seal blocks and open blocks hold a return statement. */
  ghost predicate Returning(p: Policy) {
    (forall i :: 0 <= i < |p.functions| ==> HasReturn(p.functions[i].body)) &&
    (forall i :: 0 <= i < |p.commands| ==> HasReturn(p.commands[i].seal) && HasReturn(p.commands[i].open))
  }

  /** What a policy may be. */
  ghost predicate Permitted(g: Program) {
    NamedApart(g.policy) && Returning(g.policy) &&
    forall at, ss, sp :: Stands(g, at, ss) && InList(g, at, ss, sp) ==> Allowed(g, sp)
  }

  lemma {:induction false} DefinedSplit(ds: seq<Definition>, name: string, arity: nat)
    requires ds != []
    ensures
      var d := ds[|ds| - 1];
      Defined(ds, |ds|, name, arity) <==>
        Defined(ds[..|ds| - 1], |ds| - 1, name, arity) || (d.name == name && |d.params| == arity)
  {
    var less := ds[..|ds| - 1];
    assert forall i :: 0 <= i < |less| ==> less[i] == ds[i];
    if i :| 0 <= i < |ds| && ds[i].name == name && |ds[i].params| == arity && i < |less| {
      assert less[i].name == name;
    }
    if i :| 0 <= i < |less| && less[i].name == name && |less[i].params| == arity {
      assert ds[i].name == name;
    }
  }

  lemma {:induction false} AddedMeans(known: Known, ds: seq<Definition>, finish: bool, name: string, sig: Signature)
    requires Apart(ds) && forall i :: 0 <= i < |ds| ==> ds[i].name !in known
    ensures
      var now := AddAll(known, ds, finish);
      (name in now && now[name] == sig) <==>
        (name in known && known[name] == sig) || (sig.finish == finish && Defined(ds, |ds|, name, sig.arity))
    decreases ds
  {
    if ds != [] {
      var less, d := ds[..|ds| - 1], ds[|ds| - 1];
      assert forall i :: 0 <= i < |less| ==> less[i] == ds[i];
      AddedMeans(known, less, finish, name, sig);
      DefinedSplit(ds, name, sig.arity);
      if name == d.name { assert !Defined(less, |less|, name, sig.arity); }
    }
  }

  ghost predicate CallsApart(p: Policy) {
    Apart(p.functions) && Apart(p.finishFunctions) &&
    forall i, j :: 0 <= i < |p.functions| && 0 <= j < |p.finishFunctions| ==>
      p.functions[i].name != p.finishFunctions[j].name
  }

  lemma {:induction false} KnownSigns(p: Policy, n: nat)
    requires n <= |p.functions| && CallsApart(p)
    ensures Signs(p, n, KnownAfter(p, n))
  {
    hide AddAll;
    var first, rest := AddAll(map[], p.finishFunctions, true), p.functions[..n];
    assert forall i :: 0 <= i < n ==> rest[i] == p.functions[i];
    forall i | 0 <= i < n ensures rest[i].name !in first {
      KnownNames(map[], p.finishFunctions, true, rest[i].name);
    }
    forall name, sig
      ensures name in KnownAfter(p, n) && KnownAfter(p, n)[name] == sig <==> Callable(p, n, name, sig)
    {
      AddedMeans(map[], p.finishFunctions, true, name, sig);
      AddedMeans(first, rest, false, name, sig);
      DefinedIn(p.functions, n, name, sig.arity);
    }
  }

  lemma {:induction false} DefinedIn(ds: seq<Definition>, n: nat, name: string, arity: nat)
    requires n <= |ds|
    ensures Defined(ds[..n], n, name, arity) <==> Defined(ds, n, name, arity)
  {
    assert forall i :: 0 <= i < n ==> ds[..n][i] == ds[i];
    if i :| 0 <= i < n && ds[i].name == name && |ds[i].params| == arity {
      assert ds[..n][i].name == name;
    }
  }

  lemma {:induction false} SignsOnce(p: Policy, n: nat, known: Known, known': Known)
    requires Signs(p, n, known) && Signs(p, n, known')
    ensures known == known'
  {
    hide Callable;
    forall name ensures name in known <==> name in known' {
      if name in known { assert Callable(p, n, name, known[name]); }
      if name in known' { assert Callable(p, n, name, known'[name]); }
    }
    forall name | name in known ensures known[name] == known'[name] {
      assert Callable(p, n, name, known[name]);
    }
  }

  // ---- The theorem ----

  ghost predicate BodiesOk(g: Program) {
    var p := g.policy;
    (forall i :: 0 <= i < |p.functions| ==> StmtsOk(g, FunctionSite(KnownAfter(p, i + 1)), p.functions[i].body)) &&
    (forall i :: 0 <= i < |p.finishFunctions| ==> StmtsOk(g, FinishSite(AllKnown(p)), p.finishFunctions[i].body)) &&
    (forall i :: 0 <= i < |p.actions| ==> StmtsOk(g, ActionSite(AllKnown(p)), p.actions[i].body)) &&
    (forall i :: 0 <= i < |p.commands| ==>
      StmtsOk(g, PolicySite(AllKnown(p)), p.commands[i].policy) &&
      StmtsOk(g, RecallSite(AllKnown(p)), p.commands[i].recall) &&
      StmtsOk(g, FunctionSite(AllKnown(p)), p.commands[i].seal) &&
      StmtsOk(g, FunctionSite(AllKnown(p)), p.commands[i].open))
  }

  lemma NamesApart(ds: seq<Definition>)
    ensures NoRepeats(Programs.Names(ds)) <==> Apart(ds)
  {
    var names := Programs.Names(ds);
    assert forall i :: 0 <= i < |ds| ==> names[i] == ds[i].name;
    if NoRepeats(names) {
      assert forall i, j :: 0 <= i < j < |ds| ==> names[i] != names[j];
    }
  }

  lemma CommandsApart(cs: seq<Command>)
    ensures NoRepeats(CommandNames(cs)) <==> forall i, j :: 0 <= i < j < |cs| ==> cs[i].name != cs[j].name
  {
    var names := CommandNames(cs);
    assert forall i :: 0 <= i < |cs| ==> names[i] == cs[i].name;
  }

  lemma {:induction false} FunctionKnown(p: Policy, i: nat)
    requires i < |p.functions| && Apart(p.functions)
    ensures KnownIn(p, p.functions[i].name) == KnownAfter(p, i + 1)
  {
    hide AddAll;
    var names := Programs.Names(p.functions[..i]);
    assert forall j :: 0 <= j < i ==> names[j] == p.functions[j].name;
    KnownStep(p, i);
  }

  /** Every body meets the checks if and only if what occurs in it is allowed. */
  lemma {:induction false} BodiesMean(g: Program)
    requires CallsApart(g.policy)
    ensures BodiesOk(g) <==> forall at, ss :: Stands(g, at, ss) ==> ListFine(g, at, ss)
  {
    hide StmtsOk, ListFine, Signs, KnownAfter, CallsApart;
    var p := g.policy;
    forall i | 0 <= i <= |p.functions| ensures Signs(p, i, KnownAfter(p, i)) { KnownSigns(p, i); }
    forall at, ss ensures StmtsOk(g, at, ss) <==> ListFine(g, at, ss) { ListWhere(g, at, ss); }
    if BodiesOk(g) {
      forall at, ss | Stands(g, at, ss) ensures ListFine(g, at, ss) {
        forall n | 0 <= n <= |p.functions| && Signs(p, n, at.known) ensures at.known == KnownAfter(p, n) {
          SignsOnce(p, n, at.known, KnownAfter(p, n));
        }
      }
    }
    if forall at, ss :: Stands(g, at, ss) ==> ListFine(g, at, ss) {
      forall i | 0 <= i < |p.functions|
        ensures StmtsOk(g, FunctionSite(KnownAfter(p, i + 1)), p.functions[i].body)
      {
        assert Stands(g, FunctionSite(KnownAfter(p, i + 1)), p.functions[i].body);
      }
      BodiesBack(g);
    }
  }

  lemma {:induction false} BodiesBack(g: Program)
    requires CallsApart(g.policy) && forall at, ss :: Stands(g, at, ss) ==> ListFine(g, at, ss)
    ensures BodiesOk(g)
  {
    hide StmtsOk, ListFine, Signs, KnownAfter, CallsApart;
    var p := g.policy;
    forall i | 0 <= i <= |p.functions| ensures Signs(p, i, KnownAfter(p, i)) { KnownSigns(p, i); }
    forall at, ss | Stands(g, at, ss) ensures StmtsOk(g, at, ss) { ListWhere(g, at, ss); }
    forall i | 0 <= i < |p.functions| ensures StmtsOk(g, FunctionSite(KnownAfter(p, i + 1)), p.functions[i].body) {
      assert Stands(g, FunctionSite(KnownAfter(p, i + 1)), p.functions[i].body);
    }
    forall i | 0 <= i < |p.finishFunctions| ensures StmtsOk(g, FinishSite(AllKnown(p)), p.finishFunctions[i].body) {
      assert Stands(g, FinishSite(AllKnown(p)), p.finishFunctions[i].body);
    }
    forall i | 0 <= i < |p.actions| ensures StmtsOk(g, ActionSite(AllKnown(p)), p.actions[i].body) {
      assert Stands(g, ActionSite(AllKnown(p)), p.actions[i].body);
    }
    forall i | 0 <= i < |p.commands|
      ensures StmtsOk(g, PolicySite(AllKnown(p)), p.commands[i].policy)
      ensures StmtsOk(g, RecallSite(AllKnown(p)), p.commands[i].recall)
      ensures StmtsOk(g, FunctionSite(AllKnown(p)), p.commands[i].seal)
      ensures StmtsOk(g, FunctionSite(AllKnown(p)), p.commands[i].open)
    {
      assert Stands(g, PolicySite(AllKnown(p)), p.commands[i].policy);
      assert Stands(g, RecallSite(AllKnown(p)), p.commands[i].recall);
      assert Stands(g, FunctionSite(AllKnown(p)), p.commands[i].seal);
      assert Stands(g, FunctionSite(AllKnown(p)), p.commands[i].open);
    }
  }

  lemma NameIn(ds: seq<Definition>, name: string)
    ensures name !in Programs.Names(ds) <==> forall j :: 0 <= j < |ds| ==> name != ds[j].name
  {
    var names := Programs.Names(ds);
    assert forall j :: 0 <= j < |ds| ==> names[j] == ds[j].name;
  }

  lemma {:induction false} FunctionsMean(g: Program)
    ensures
      var p := g.policy;
      FunctionsOk(g, |p.functions|) <==>
        Apart(p.functions) && OwnParams(p.functions) &&
        forall i :: 0 <= i < |p.functions| ==>
          (forall j :: 0 <= j < |p.finishFunctions| ==> p.functions[i].name != p.finishFunctions[j].name) &&
          HasReturn(p.functions[i].body) && StmtsOk(g, FunctionSite(KnownAfter(p, i + 1)), p.functions[i].body)
  {
    hide StmtsOk, StmtsCode, HasReturn, KnownAfter, KnownIn, Programs.Names, Apart;
    var p := g.policy;
    assert p.functions[..|p.functions|] == p.functions;
    NamesApart(p.functions);
    if Apart(p.functions) {
      forall i | 0 <= i < |p.functions|
        ensures KnownIn(p, p.functions[i].name) == KnownAfter(p, i + 1)
        ensures I(M.Return) in StmtsCode(g, p.functions[i].body) <==> HasReturn(p.functions[i].body)
        ensures p.functions[i].name !in Programs.Names(p.finishFunctions) <==>
          forall j :: 0 <= j < |p.finishFunctions| ==> p.functions[i].name != p.finishFunctions[j].name
      {
        FunctionKnown(p, i);
        ReturnWhere(g, p.functions[i].body);
        NameIn(p.finishFunctions, p.functions[i].name);
      }
    }
  }

  lemma {:induction false} ActionsMean(g: Program)
    ensures
      var p := g.policy;
      ActionsOk(g, |p.actions|) <==>
        Apart(p.actions) && OwnParams(p.actions) &&
        forall i :: 0 <= i < |p.actions| ==> StmtsOk(g, ActionSite(AllKnown(p)), p.actions[i].body)
  {
    hide StmtsOk, AllKnown, Programs.Names, Apart;
    assert g.policy.actions[..|g.policy.actions|] == g.policy.actions;
    NamesApart(g.policy.actions);
  }

  lemma {:induction false} CommandMeans(g: Program, c: Command)
    ensures
      var k := AllKnown(g.policy);
      CommandOk(g, c) <==>
        StmtsOk(g, PolicySite(k), c.policy) && StmtsOk(g, RecallSite(k), c.recall) &&
        StmtsOk(g, FunctionSite(k), c.seal) && StmtsOk(g, FunctionSite(k), c.open) && HasReturn(c.seal) &&
          HasReturn(c.open)
  {
    hide StmtsOk, StmtsCode, AllKnown, Returns;
    ReturnWhere(g, c.seal);
    ReturnWhere(g, c.open);
  }

  lemma {:induction false} CommandsMean(g: Program)
    ensures
      var p, k := g.policy, AllKnown(g.policy);
      CommandsOk(g, |p.commands|) <==>
        (forall i, j :: 0 <= i < j < |p.commands| ==> p.commands[i].name != p.commands[j].name) &&
        forall i :: 0 <= i < |p.commands| ==>
          StmtsOk(g, PolicySite(k), p.commands[i].policy) && StmtsOk(g, RecallSite(k), p.commands[i].recall) &&
          StmtsOk(g, FunctionSite(k), p.commands[i].seal) && StmtsOk(g, FunctionSite(k), p.commands[i].open) &&
          HasReturn(p.commands[i].seal) && HasReturn(p.commands[i].open)
  {
    hide StmtsOk, AllKnown, HasReturn, CommandOk, CommandNames, NoRepeats;
    var cs := g.policy.commands;
    assert cs[..|cs|] == cs;
    CommandsApart(cs);
    forall i | 0 <= i < |cs|
      ensures CommandOk(g, cs[i]) <==>
        StmtsOk(g, PolicySite(AllKnown(g.policy)), cs[i].policy) &&
        StmtsOk(g, RecallSite(AllKnown(g.policy)), cs[i].recall) &&
        StmtsOk(g, FunctionSite(AllKnown(g.policy)), cs[i].seal) &&
        StmtsOk(g, FunctionSite(AllKnown(g.policy)), cs[i].open) && HasReturn(cs[i].seal) && HasReturn(cs[i].open)
    {
      CommandMeans(g, cs[i]);
    }
  }

  lemma {:induction false} PolicyParts(g: Program)
    ensures PolicyOk(g) <==> NamedApart(g.policy) && Returning(g.policy) && BodiesOk(g)
  {
    hide StmtsOk, HasReturn, KnownAfter, AllKnown, Programs.Names, Apart, OwnParams, FunctionsOk, CommandsOk, ActionsOk;
    FunctionsMean(g);
    ActionsMean(g);
    CommandsMean(g);
    NamesApart(g.policy.finishFunctions);
  }

  /** A policy is accepted if and only if it is permitted. */
  lemma {:induction false} PolicyMeans(g: Program)
    ensures PolicyOk(g) <==> Permitted(g)
  {
    hide PolicyOk, BodiesOk, Returning, Stands, InList, Allowed;
    PolicyParts(g);
    if NamedApart(g.policy) { BodiesMean(g); }
  }

  /** The six forms a finish block or a finish function may hold. */
  predicate Simple(e: Expr) {
    match e
    case Literal(_) => true
    case EnumReference(_, _) => true
    case Identifier(_) => true
    case NamedStruct(_, _) => true
    case Unary(SomeOf, _) => true
    case Unary(Dot(_), _) => true
    case _ => false
  }

  /** An expression of any other form, however deep inside a finish block or a finish function,
      makes the policy one that is not accepted. */
  lemma {:induction false} FinishIsSimple(g: Program, at: Site, ss: seq<Node>, known: Known, e: Expr)
    requires Stands(g, at, ss) && InList(g, at, ss, ExprSpot(FinishSite(known), e))
    ensures PolicyOk(g) ==> Simple(e)
    ensures !Simple(e) ==> !PolicyOk(g)
  {
    hide PolicyOk, Stands, InList;
    PolicyMeans(g);
    if PolicyOk(g) { assert Allowed(g, ExprSpot(FinishSite(known), e)); }
  }
}
