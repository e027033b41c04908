/** The checks the compiler makes on the syntax, apart from type calculation. */
module Static {
  import opened Values
  import opened Ast

  /** What a call must agree with: the number of arguments and the kind of function. */
  datatype Signature = Signature(arity: nat, finish: bool)

  type Known = map<string, Signature>

  /** Where a statement list stands and which signatures are known there; some statements are
      only allowed in some places. */
  datatype Site =
    | ActionSite(known: Known)
    | PolicySite(known: Known)
    | RecallSite(known: Known)
    | FunctionSite(known: Known)
    | FinishSite(known: Known)

  function AddAll(known: Known, ds: seq<Definition>, finish: bool): Known {
    if ds == [] then known
    else AddAll(known, ds[..|ds| - 1], finish)[ds[|ds| - 1].name := Signature(|ds[|ds| - 1].params|, finish)]
  }

  /** Finish functions are known from the start, functions from their definition on. */
  function KnownAfter(p: Policy, n: nat): Known
    requires n <= |p.functions|
  {
    AddAll(AddAll(map[], p.finishFunctions, true), p.functions[..n], false)
  }

  function AllKnown(p: Policy): Known {
    KnownAfter(p, |p.functions|)
  }

  /** How many definitions there are up to the first of this name. */
  function Upto(ds: seq<Definition>, name: string): (n: nat)
    ensures n <= |ds|
  {
    if ds == [] then 0 else if ds[0].name == name then 1 else 1 + Upto(ds[1..], name)
  }

  /** What is known in the body of the function of this name. */
  function KnownIn(p: Policy, name: string): Known {
    KnownAfter(p, Upto(p.functions, name))
  }

  /** Finish blocks admit only simple expressions. */
  predicate FinishExpr(e: Expr) {
    match e
    case Literal(_) | EnumReference(_, _) | Identifier(_) | NamedStruct(_, _) => true
    case Unary(op, _) => op.SomeOf? || op.Dot?
    case _ => false
  }

  /** The type of a field value, where its form alone decides it. */
  function LiteralType(e: Expr): Option<VType> {
    match e
    case Literal(v) => TypeOf(v)
    case NamedStruct(name, _) => Some(StructT(name))
    case Unary(SomeOf, a) => (
      match LiteralType(a)
      case Some(t) => Some(OptionalT(t))
      case None => None)
    case _ => None
  }

  predicate KeyFits(f: Field, d: FieldDef) {
    f.name == d.name &&
    match f.value
    case Bind => true
    case Given(e) =>
      match LiteralType(e)
      case None => true
      case Some(t) => (t == IntT || t == BoolT || t == StringT || t == IdT) && d.vtype == t
  }

  predicate ValueFits(f: Field, d: FieldDef) {
    f.name == d.name &&
    match f.value
    case Bind => true
    case Given(e) => LiteralType(e).None? || LiteralType(e).value == d.vtype
  }

  predicate ValuesFit(fs: seq<Field>, ds: seq<FieldDef>) {
    |fs| == |ds| && forall i :: 0 <= i < |fs| ==> ValueFits(fs[i], ds[i])
  }

  /** A fact literal agrees with its schema, member by member and in order. */
  predicate FactFitsSchema(w: World, f: FactLiteral, needsValue: bool) {
    f.name in w.facts &&
    var d := w.facts[f.name];
    |f.keys| == |d.key| &&
    (forall i :: 0 <= i < |f.keys| ==> KeyFits(f.keys[i], d.key[i])) &&
    match f.values
    case NoValues => !needsValue
    case GivenValues(fs) => ValuesFit(fs, d.value)
  }

  predicate NoBinds(fs: seq<Field>) {
    forall i :: 0 <= i < |fs| ==> fs[i].value.Given?
  }

  predicate LimitOk(kind: QueryKind) {
    match kind
    case Query | Exists => true
    case UpTo(k) => 0 < k
    case AtLeast(k) => 0 < k
    case AtMost(k) => 0 < k < MAX_INT
    case Exactly(k) => 0 < k < MAX_INT
  }

  predicate CallOk(ds: seq<Definition>, name: string, arity: nat) {
    FindDefinition(ds, name).Some? && |FindDefinition(ds, name).value.params| == arity
  }

  predicate ForeignOk(w: World, m: string, name: string, arity: nat) {
    match FindModule(w.ffi, m)
    case None => false
    case Some(mi) =>
      mi < |w.ffi| &&
      match FindProcedure(w.ffi[mi].procedures, name)
      case None => false
      case Some(pi) => pi < |w.ffi[mi].procedures| && w.ffi[mi].procedures[pi].arity == arity
  }

  predicate NoRepeats<T(==)>(xs: seq<T>) {
    forall i, j :: 0 <= i < j < |xs| ==> xs[i] != xs[j]
  }

  function MatchValues(arms: seq<Arm>): seq<Expr> {
    if arms == [] then []
    else (match arms[0].pattern case Default => [] case Values(es) => es) + MatchValues(arms[1..])
  }

  predicate ExprOk(g: Program, at: Site, e: Expr)
    decreases e, 0
  {
    (at.FinishSite? ==> FinishExpr(e)) &&
    match e
    case Literal(_) | EnumReference(_, _) | Identifier(_) => true
    case NamedStruct(name, fields) => name in g.world.structs && NoBinds(fields) && FieldsOk(g, at, fields)
    case FactQuery(kind, fact) => LimitOk(kind) && FactFitsSchema(g.world, fact, false) && FactOk(g, at, fact)
    case Conditional(c, yes, no) => ExprOk(g, at, c) && ExprOk(g, at, yes) && ExprOk(g, at, no)
    case FunctionCall(name, args) =>
      name in at.known && at.known[name] == Signature(|args|, false) &&
      CallOk(g.policy.functions, name, |args|) && ArgsOk(g, at, args)
    case ForeignCall(m, name, args) => ForeignOk(g.world, m, name, |args|) && ArgsOk(g, at, args)
    case Unary(op, a) => ((op.Serialize? || op.Deserialize?) ==> at.FunctionSite?) && ExprOk(g, at, a)
    case Binary(_, a, b) => ExprOk(g, at, a) && ExprOk(g, at, b)
  }

  predicate ArgsOk(g: Program, at: Site, es: seq<Expr>)
    decreases es, 0
  {
    es != [] ==> ExprOk(g, at, es[0]) && ArgsOk(g, at, es[1..])
  }

  predicate FieldsOk(g: Program, at: Site, fs: seq<Field>)
    decreases fs, 0
  {
    if fs == [] then true
    else match fs[0].value
      case Bind => FieldsOk(g, at, fs[1..])
      case Given(e) => ExprOk(g, at, e) && FieldsOk(g, at, fs[1..])
  }

  predicate FactOk(g: Program, at: Site, f: FactLiteral)
    decreases f, 0
  {
    FieldsOk(g, at, f.keys) &&
    match f.values
    case NoValues => true
    case GivenValues(fs) => FieldsOk(g, at, fs)
  }

  predicate StmtsOk(g: Program, at: Site, ss: seq<Node>)
    decreases ss, 1
  {
    ss != [] ==>
      StmtOk(g, at, ss[0]) && (ss[0].stmt.Finish? ==> ss[0] == ss[|ss| - 1]) && StmtsOk(g, at, ss[1..])
  }

  predicate StmtOk(g: Program, at: Site, nd: Node)
    decreases nd, 0
  {
    match nd.stmt
    case Let(_, e) => !at.FinishSite? && ExprOk(g, at, e)
    case CheckThat(e) => !at.FinishSite? && ExprOk(g, at, e)
    case DebugAssert(e) => g.debug ==> ExprOk(g, at, e)
    case Match(e, arms) =>
      !at.FinishSite? && NoRepeats(MatchValues(arms)) && ExprOk(g, at, e) && ArmsOk(g, at, arms)
    case If(branches, fallback) =>
      !at.FinishSite? && BranchesOk(g, at, branches) &&
      (match fallback case NoElse => true case Else(ss) => StmtsOk(g, at, ss))
    case Finish(body) => (at.PolicySite? || at.RecallSite?) && StmtsOk(g, FinishSite(at.known), body)
    case Map(fact, _, body) =>
      at.ActionSite? && FactFitsSchema(g.world, fact, false) && FactOk(g, at, fact) && StmtsOk(g, at, body)
    case Return(e) => at.FunctionSite? && ExprOk(g, at, e)
    case ActionCall(name, args) => at.ActionSite? && CallOk(g.policy.actions, name, |args|) && ArgsOk(g, at, args)
    case FinishCall(name, args) =>
      at.FinishSite? && name in at.known && at.known[name] == Signature(|args|, true) &&
      CallOk(g.policy.finishFunctions, name, |args|) && ArgsOk(g, at, args)
    case Publish(e) => at.ActionSite? && ExprOk(g, at, e)
    case Emit(e) => at.FinishSite? && ExprOk(g, at, e)
    case Create(fact) =>
      at.FinishSite? && NoBinds(fact.keys) && NoBinds(ValueFields(fact)) &&
      FactFitsSchema(g.world, fact, true) && FactOk(g, at, fact)
    case Delete(fact) => at.FinishSite? && FactFitsSchema(g.world, fact, false) && FactOk(g, at, fact)
    case Update(fact, to) =>
      at.FinishSite? && FactFitsSchema(g.world, fact, true) && FactOk(g, at, fact) &&
      !g.world.facts[fact.name].immutable && ValuesFit(to, g.world.facts[fact.name].value) &&
      NoBinds(to) && FieldsOk(g, at, to)
  }

  predicate BranchesOk(g: Program, at: Site, bs: seq<Branch>)
    decreases bs, 2
  {
    bs != [] ==> ExprOk(g, at, bs[0].cond) && StmtsOk(g, at, bs[0].body) && BranchesOk(g, at, bs[1..])
  }

  predicate ArmsOk(g: Program, at: Site, arms: seq<Arm>)
    decreases arms, 2
  {
    arms != [] ==>
      (match arms[0].pattern case Default => true case Values(es) => ArgsOk(g, at, es)) &&
      (arms[0].pattern.Default? ==> arms[0] == arms[|arms| - 1]) &&
      StmtsOk(g, at, arms[0].body) && ArmsOk(g, at, arms[1..])
  }
}
