/** Labels the compiler makes up, and how they stay apart from each other and from definitions. */
module Naming {
  import opened Values
  import opened Ast
  import opened Static
  import opened Layout
  import opened Linking
  import opened Programs
  import M = Machine

  function Digit(d: nat): char
    requires d < 10
  {
    ['0', '1', '2', '3', '4', '5', '6', '7', '8', '9'][d]
  }

  function Decimal(n: nat): (s: string)
    ensures s != []
  {
    if n < 10 then [Digit(n)] else Decimal(n / 10) + [Digit(n % 10)]
  }

  /** The number a numeral stands for. */
  function Numeral(s: string): int {
    if s == [] then 0 else 10 * Numeral(s[..|s| - 1]) + (s[|s| - 1] as int - '0' as int)
  }

  /** Decimal digits, no leading zero, and the number they stand for. */
  lemma {:induction false} DecimalMeans(n: nat)
    ensures
      var s := Decimal(n);
      Numeral(s) == n && (forall i :: 0 <= i < |s| ==> '0' <= s[i] <= '9') && (n > 0 ==> s[0] != '0')
  {
    var s := Decimal(n);
    if n < 10 {
      assert s[..0] == [];
    } else {
      DecimalMeans(n / 10);
      assert s[..|s| - 1] == Decimal(n / 10);
    }
  }

  function Anonymous(k: nat): M.Label {
    M.Label("anonymous" + Decimal(k), M.Temporary)
  }

  lemma {:induction false} AnonymousMeans(k: nat)
    ensures
      var l := Anonymous(k);
      l.ltype == M.Temporary && |l.name| >= 9 && l.name[..9] == "anonymous" && Numeral(l.name[9..]) == k
  {
    hide Decimal, Numeral;
    DecimalMeans(k);
    assert ("anonymous" + Decimal(k))[9..] == Decimal(k);
  }

  lemma {:induction false} AnonymousInjective(a: nat, b: nat)
    requires Anonymous(a) == Anonymous(b)
    ensures a == b
  {
    hide Decimal, Numeral;
    AnonymousMeans(a);
    AnonymousMeans(b);
  }

  /** The label of a finish function. */
  function Own(p: Policy, j: nat): M.Label
    requires j < |p.finishFunctions|
  {
    M.Label(p.finishFunctions[j].name, M.Temporary)
  }

  ghost predicate Named(p: Policy, l: M.Label) {
    exists j :: 0 <= j < |p.finishFunctions| && Own(p, j) == l
  }

  /** A finish function is named like one of the first `c` labels the compiler makes up. */
  ghost predicate Clash(p: Policy, c: nat, l: M.Label) {
    Named(p, l) && exists k: nat :: k < c && l == Anonymous(k)
  }

  /** Not a label that is still to be made up, when `c` have been. */
  ghost predicate Issued(c: nat, l: M.Label) {
    forall k: nat :: l == Anonymous(k) ==> k < c
  }

  /** The label is not in use, nor will it be made up again. */
  ghost predicate Free(labels: Labels, c: nat, l: M.Label) {
    l !in labels && Issued(c, l)
  }

  /** The label is still to be made up but already in use. */
  ghost predicate Ahead(labels: Labels, c: nat, k: nat) {
    c <= k && Anonymous(k) in labels
  }

  /** Only finish functions are in the way of labels still to be made up. */
  ghost predicate Clean(p: Policy, labels: Labels, c: nat) {
    forall k: nat :: Ahead(labels, c, k) ==> Named(p, Anonymous(k))
  }

  /** Making up a label: it is in use only by a clash, and nothing else changes. */
  lemma {:induction false} MadeUp(p: Policy, labels: Labels, c: nat)
    requires Clean(p, labels, c)
    ensures Clean(p, labels, c + 1)
    ensures forall k: nat :: Anonymous(k) == Anonymous(c) ==> k == c
    ensures forall c': nat :: c < c' ==> Issued(c', Anonymous(c))
    ensures Free(labels, c + 1, Anonymous(c)) || forall c': nat :: c < c' ==> Clash(p, c', Anonymous(c))
    ensures Free(labels, c + 1, Anonymous(c)) <==> !Ahead(labels, c, c)
    ensures !Free(labels, c, Anonymous(c)) && !Ahead(labels, c + 1, c)
    ensures forall l :: l != Anonymous(c) ==> (Free(labels, c, l) <==> Free(labels, c + 1, l))
    ensures forall k: nat :: k != c ==> (Ahead(labels, c, k) <==> Ahead(labels, c + 1, k))
  {
    hide Named, Anonymous;
    forall k: nat | Anonymous(k) == Anonymous(c) ensures k == c {
      AnonymousInjective(k, c);
    }
    assert Issued(c + 1, Anonymous(c));
    assert Ahead(labels, c, c) ==> Named(p, Anonymous(c));
  }

  /** Putting a label to use: it is no longer free, and nothing else changes. */
  lemma {:induction false} PutToUse(p: Policy, labels: Labels, c: nat, l: M.Label, addr: int)
    requires Clean(p, labels, c) && (Issued(c, l) || Named(p, l)) && l !in labels
    ensures Clean(p, labels[l := addr], c)
    ensures !Free(labels[l := addr], c, l)
    ensures forall l' :: l' != l ==> (Free(labels, c, l') <==> Free(labels[l := addr], c, l'))
    ensures Issued(c, l) ==> forall k: nat :: Ahead(labels, c, k) <==> Ahead(labels[l := addr], c, k)
    ensures forall k: nat :: Ahead(labels[l := addr], c, k) <==> Ahead(labels, c, k) || (c <= k && Anonymous(k) == l)
  {
    hide Named, Anonymous;
  }

  /** Labels made up and not yet in use. */
  ghost predicate Waiting(p: Policy, labels: Labels, c: nat, ls: seq<M.Label>) {
    NoRepeats(ls) && forall i :: 0 <= i < |ls| ==> Issued(c, ls[i]) && (Free(labels, c, ls[i]) || Clash(p, c, ls[i]))
  }

  ghost predicate AllFree(labels: Labels, c: nat, ls: seq<M.Label>) {
    forall l :: l in ls ==> Free(labels, c, l)
  }

  lemma WaitingNone(p: Policy, labels: Labels, c: nat)
    ensures Waiting(p, labels, c, [])
  {
  }

  lemma {:induction false} WaitingMore(p: Policy, labels: Labels, c: nat, ls: seq<M.Label>)
    requires Waiting(p, labels, c, ls) && Clean(p, labels, c)
    ensures Waiting(p, labels, c + 1, ls + [Anonymous(c)]) && Anonymous(c) !in ls
  {
    hide Named, Anonymous;
    MadeUp(p, labels, c);
    assert Anonymous(c) !in ls;
  }

  lemma {:induction false} WaitingKept(p: Policy, labels: Labels, c: nat, labels': Labels, c': nat, ls: seq<M.Label>)
    requires Waiting(p, labels, c, ls) && c <= c' && forall l :: Free(labels, c, l) <==> Free(labels', c', l)
    ensures Waiting(p, labels', c', ls)
  {
    hide Named, Free;
  }

  /** The first of them is put to use. */
  lemma {:induction false} WaitingNext(p: Policy, labels: Labels, c: nat, labels': Labels, c': nat, ls: seq<M.Label>)
    requires ls != [] && Waiting(p, labels, c, ls) && c <= c'
    requires forall l :: l != ls[0] ==> (Free(labels, c, l) <==> Free(labels', c', l))
    ensures Waiting(p, labels', c', ls[1..])
  {
    hide Named, Free;
    forall i | 0 <= i < |ls[1..]|
      ensures Issued(c', ls[1..][i]) && (Free(labels', c', ls[1..][i]) || Clash(p, c', ls[1..][i]))
    {
      assert ls[1..][i] == ls[i + 1] && ls[0] != ls[i + 1];
    }
  }

  lemma WaitingHead(p: Policy, labels: Labels, c: nat, ls: seq<M.Label>)
    requires ls != [] && Waiting(p, labels, c, ls)
    ensures Issued(c, ls[0]) && (Free(labels, c, ls[0]) || Clash(p, c, ls[0]))
  {
  }

  lemma WaitingDistinct(p: Policy, labels: Labels, c: nat, ls: seq<M.Label>)
    requires Waiting(p, labels, c, ls)
    ensures forall i, j :: 0 <= i < j < |ls| ==> ls[i] != ls[j]
  {
  }

  lemma {:induction false} NamedIssued(c: nat, l: M.Label)
    requires l.ltype != M.Temporary
    ensures Issued(c, l)
  {
  }

  lemma AnonymousType(k: nat)
    ensures Anonymous(k).ltype == M.Temporary
  {
  }

  // ---- Labels of definitions ----

  /** Of the labels of this type exactly those with these names are in use. */
  ghost predicate NamesFree(labels: Labels, c: nat, t: M.LabelType, names: seq<string>) {
    forall l: M.Label :: l.ltype == t ==> (Free(labels, c, l) <==> l.name !in names)
  }

  lemma NameFree(labels: Labels, c: nat, l: M.Label, names: seq<string>)
    requires NamesFree(labels, c, l.ltype, names)
    ensures Free(labels, c, l) <==> l.name !in names
  {
  }

  lemma {:induction false} NamesFreeStep(
    labels: Labels, c: nat, labels': Labels, c': nat, t: M.LabelType, names: seq<string>, name: string)
    requires NamesFree(labels, c, t, names) && !Free(labels', c', M.Label(name, t))
    requires forall l: M.Label :: l.name != name ==> (Free(labels, c, l) <==> Free(labels', c', l))
    ensures NamesFree(labels', c', t, names + [name])
  {
    hide Free;
    forall l: M.Label | l.ltype == t ensures Free(labels', c', l) <==> l.name !in names + [name] {
      if l.name == name { assert l == M.Label(name, t); }
    }
  }

  lemma {:induction false} NamesKept(labels: Labels, c: nat, labels': Labels, c': nat, t: M.LabelType)
    requires NamesFree(labels, c, t, [])
    requires forall l: M.Label :: l.ltype == t ==> (Free(labels, c, l) <==> Free(labels', c', l))
    ensures NamesFree(labels', c', t, [])
  {
    hide Free;
  }

  /** Before a function: its label is free exactly if no function before has its name, and what
      will be known in its body. */
  lemma {:induction false} FunctionReady(p: Policy, labels: Labels, c: nat, i: nat)
    requires i < |p.functions| && NamesFree(labels, c, M.FunctionLabel, Names(p.functions[..i]))
    ensures
      var d := p.functions[i];
      var l, sigs := M.Label(d.name, M.FunctionLabel), KnownAfter(p, i)[d.name := Signature(|d.params|, false)];
      (d.name !in KnownAfter(p, i) ==> CallOk(p.functions, d.name, |d.params|)) &&
      (Free(labels, c, l) ==> sigs == KnownIn(p, d.name) == KnownAfter(p, i + 1)) &&
      (Free(labels, c, l) && d.name !in KnownAfter(p, i) <==>
        d.name !in Names(p.functions[..i]) && d.name !in Names(p.finishFunctions))
  {
    hide Free, KnownAfter, KnownIn, FindDefinition;
    var d := p.functions[i];
    KnownOf(p, i, d.name);
    if d.name !in Names(p.functions[..i]) {
      KnownStep(p, i);
      FirstNamed(p.functions, i);
    }
  }

  lemma {:induction false} FirstNamed(ds: seq<Definition>, i: nat)
    requires i < |ds| && ds[i].name !in Names(ds[..i])
    ensures CallOk(ds, ds[i].name, |ds[i].params|)
  {
    forall j | 0 <= j < i ensures ds[j].name != ds[i].name {
      assert Names(ds[..i])[j] == ds[j].name;
    }
    FindFirst(ds, i);
  }

  lemma {:induction false} NoNames(ds: seq<Definition>)
    ensures ds[..0] == [] && Names(ds[..0]) == [] && NoRepeats(Names(ds[..0]))
  {
  }

  lemma {:induction false} NamesMore(ds: seq<Definition>, i: nat)
    requires i < |ds|
    ensures Names(ds[..i + 1]) == Names(ds[..i]) + [ds[i].name]
  {
  }

  lemma {:induction false} CommandNamesMore(cs: seq<Command>, i: nat)
    requires i < |cs|
    ensures CommandNames(cs[..i + 1]) == CommandNames(cs[..i]) + [cs[i].name]
  {
  }

  lemma {:induction false} AllIsLast(p: Policy)
    ensures AllKnown(p) == KnownAfter(p, |p.functions|)
  {
  }

  lemma {:induction false} ActionsNone(g: Program)
    ensures ActionsOk(g, 0) && Names(g.policy.actions[..0]) == []
  {
  }

  lemma {:induction false} CommandsNone(g: Program)
    ensures CommandsOk(g, 0) && CommandNames(g.policy.commands[..0]) == []
  {
  }

  predicate CommandType(t: M.LabelType) {
    t.PolicyLabel? || t.RecallLabel? || t.SealLabel? || t.OpenLabel?
  }

  ghost predicate CommandFree(labels: Labels, c: nat, name: string) {
    Free(labels, c, M.Label(name, M.PolicyLabel)) && Free(labels, c, M.Label(name, M.RecallLabel)) &&
    Free(labels, c, M.Label(name, M.SealLabel)) && Free(labels, c, M.Label(name, M.OpenLabel))
  }

  ghost predicate CommandsFree(labels: Labels, c: nat, names: seq<string>) {
    NamesFree(labels, c, M.PolicyLabel, names) && NamesFree(labels, c, M.RecallLabel, names) &&
    NamesFree(labels, c, M.SealLabel, names) && NamesFree(labels, c, M.OpenLabel, names)
  }

  lemma {:induction false} CommandsFreeHead(labels: Labels, c: nat, names: seq<string>, name: string)
    requires CommandsFree(labels, c, names)
    ensures CommandFree(labels, c, name) <==> name !in names
  {
    hide Free;
  }

  lemma {:induction false} CommandsKept(labels: Labels, c: nat, labels': Labels, c': nat)
    requires forall t: M.LabelType :: t != M.Temporary ==> NamesFree(labels, c, t, [])
    requires forall l: M.Label :: !l.ltype.FunctionLabel? && !l.ltype.Temporary? ==>
      (Free(labels, c, l) <==> Free(labels', c', l))
    ensures CommandsFree(labels', c', [])
  {
    hide Free, NamesFree;
    NamesKept(labels, c, labels', c', M.PolicyLabel);
    NamesKept(labels, c, labels', c', M.RecallLabel);
    NamesKept(labels, c, labels', c', M.SealLabel);
    NamesKept(labels, c, labels', c', M.OpenLabel);
  }

  lemma {:induction false} CommandsFreeStep(labels: Labels, c: nat, labels': Labels, c': nat, names: seq<string>,
      name: string)
    requires CommandsFree(labels, c, names)
    requires !Free(labels', c', M.Label(name, M.PolicyLabel)) && !Free(labels', c', M.Label(name, M.RecallLabel))
    requires !Free(labels', c', M.Label(name, M.SealLabel)) && !Free(labels', c', M.Label(name, M.OpenLabel))
    requires forall l: M.Label :: l.name != name ==> (Free(labels, c, l) <==> Free(labels', c', l))
    ensures CommandsFree(labels', c', names + [name])
  {
    hide Free, NamesFree;
    NamesFreeStep(labels, c, labels', c', M.PolicyLabel, names, name);
    NamesFreeStep(labels, c, labels', c', M.RecallLabel, names, name);
    NamesFreeStep(labels, c, labels', c', M.SealLabel, names, name);
    NamesFreeStep(labels, c, labels', c', M.OpenLabel, names, name);
  }

  // ---- Finish functions ----

  /** With the first `i` finish functions compiled: exactly their labels are in the way of labels
      still to be made up, every label made up is in use, and the others' labels are free unless
      they look made up. */
  ghost predicate FinishState(p: Policy, labels: Labels, c: nat, i: nat)
    requires i <= |p.finishFunctions|
  {
    (forall k: nat :: Ahead(labels, c, k) ==> exists j :: 0 <= j < i && Own(p, j) == Anonymous(k)) &&
    (forall j, k: nat :: 0 <= j < i && Own(p, j) == Anonymous(k) ==> Ahead(labels, c, k)) &&
    (forall k: nat :: !Free(labels, c, Anonymous(k))) &&
    (forall j :: i <= j < |p.finishFunctions| ==>
      (exists k: nat :: Own(p, j) == Anonymous(k)) || Free(labels, c, Own(p, j)))
  }

  lemma {:induction false} FinishHead(p: Policy, labels: Labels, c: nat, i: nat)
    requires i < |p.finishFunctions| && FinishState(p, labels, c, i) && NoRepeats(Names(p.finishFunctions))
    ensures Named(p, Own(p, i)) && (Own(p, i) in labels ==> Clash(p, c, Own(p, i)))
  {
    var l := Own(p, i);
    assert Named(p, l);
    if k: nat :| l == Anonymous(k) && c <= k {
      forall j | 0 <= j < i ensures Own(p, j) != l {
        assert Names(p.finishFunctions)[j] != Names(p.finishFunctions)[i];
      }
      assert !Ahead(labels, c, k);
    }
  }

  lemma {:induction false} FinishStep(p: Policy, labels: Labels, c: nat, labels': Labels, c': nat, i: nat)
    requires i < |p.finishFunctions| && FinishState(p, labels, c, i) && Own(p, i) !in labels && c <= c'
    requires NoRepeats(Names(p.finishFunctions))
    requires !Free(labels', c', Own(p, i)) && forall l :: l != Own(p, i) ==>
      (Free(labels, c, l) <==> Free(labels', c', l))
    requires forall k: nat :: Anonymous(k) != Own(p, i) ==> (Ahead(labels, c, k) <==> Ahead(labels', c', k))
    requires forall k: nat :: Anonymous(k) == Own(p, i) && c <= k ==> Ahead(labels', c', k)
    ensures FinishState(p, labels', c', i + 1)
  {
    hide Anonymous;
    forall k: nat | Ahead(labels', c', k) ensures exists j :: 0 <= j < i + 1 && Own(p, j) == Anonymous(k) {
      if Anonymous(k) != Own(p, i) {
        var j :| 0 <= j < i && Own(p, j) == Anonymous(k);
      }
    }
    forall j, k: nat | 0 <= j < i + 1 && Own(p, j) == Anonymous(k) ensures Ahead(labels', c', k) {
      if Anonymous(k) == Own(p, i) {
        assert !Free(labels, c, Anonymous(k));
        var k': nat :| Own(p, i) == Anonymous(k') && c <= k';
        AnonymousInjective(k, k');
      } else {
        assert Ahead(labels, c, k);
      }
    }
    forall j | i + 1 <= j < |p.finishFunctions|
      ensures (exists k: nat :: Own(p, j) == Anonymous(k)) || Free(labels', c', Own(p, j))
    {
      assert Names(p.finishFunctions)[i] != Names(p.finishFunctions)[j];
    }
  }

  lemma {:induction false} FinishKept(p: Policy, labels: Labels, c: nat, labels': Labels, c': nat)
    requires FinishState(p, labels, c, 0)
    requires forall l: M.Label :: l.ltype.Temporary? ==> (Free(labels, c, l) <==> Free(labels', c', l))
    requires forall k: nat :: Ahead(labels, c, k) <==> Ahead(labels', c', k)
    ensures FinishState(p, labels', c', 0)
  {
    hide Free, Ahead;
  }

  /** At the start nothing is in use. */
  lemma {:induction false} NothingUsed(p: Policy)
    ensures Clean(p, map[], 0) && FinishState(p, map[], 0, 0)
    ensures forall t: M.LabelType :: t != M.Temporary ==> NamesFree(map[], 0, t, [])
  {
    forall l: M.Label | l.ltype != M.Temporary ensures Free(map[], 0, l) {
      NamedIssued(0, l);
    }
  }

  lemma {:induction false} NoneCollides(g: Program, labels: Labels, c: nat, labels': Labels, c': nat)
    requires FinishState(g.policy, labels, c, |g.policy.finishFunctions|) && c' == Made(g)
    requires forall k: nat :: Ahead(labels, c, k) <==> Ahead(labels', c', k)
    ensures !Collides(g)
  {
    hide Made, Free, Anonymous;
    forall j, k: nat | 0 <= j < |g.policy.finishFunctions| && Own(g.policy, j) == Anonymous(k) ensures Made(g) <= k {
      assert Ahead(labels, c, k);
      assert Ahead(labels', c', k);
    }
  }

  // ---- How many labels are made up ----

  function ExprMade(e: Expr): nat
    decreases e, 0
  {
    match e
    case Literal(_) | EnumReference(_, _) | Identifier(_) => 0
    case NamedStruct(_, fields) => FieldsMade(fields)
    case FactQuery(_, fact) => FactMade(fact)
    case Conditional(cond, yes, no) => 2 + ExprMade(cond) + ExprMade(no) + ExprMade(yes)
    case FunctionCall(_, args) => ArgsMade(args)
    case ForeignCall(_, _, args) => ArgsMade(args)
    case Unary(op, a) => ExprMade(a) + (if op.Unwrap? || op.CheckUnwrap? then 1 else 0)
    case Binary(_, a, b) => ExprMade(a) + ExprMade(b)
  }

  function ArgsMade(es: seq<Expr>): nat
    decreases es, 0
  {
    if es == [] then 0 else ExprMade(es[0]) + ArgsMade(es[1..])
  }

  function FieldsMade(fs: seq<Field>): nat
    decreases fs, 0
  {
    if fs == [] then 0
    else (match fs[0].value case Bind => 0 case Given(e) => ExprMade(e)) + FieldsMade(fs[1..])
  }

  function FactMade(f: FactLiteral): nat
    decreases f, 0
  {
    FieldsMade(f.keys) + match f.values case NoValues => 0 case GivenValues(fs) => FieldsMade(fs)
  }

  function StmtsMade(g: Program, ss: seq<Node>): nat
    decreases ss, 1
  {
    if ss == [] then 0 else StmtMade(g, ss[0]) + StmtsMade(g, ss[1..])
  }

  function StmtMade(g: Program, nd: Node): nat
    decreases nd, 0
  {
    match nd.stmt
    case Let(_, e) => ExprMade(e)
    case CheckThat(e) => ExprMade(e)
    case DebugAssert(e) => if g.debug then ExprMade(e) else 0
    case Match(e, arms) => ExprMade(e) + 1 + TestsMade(arms) + BodiesMade(g, arms)
    case If(branches, fallback) =>
      1 + BranchesMade(g, branches) + (match fallback case NoElse => 0 case Else(ss) => StmtsMade(g, ss))
    case Finish(body) => StmtsMade(g, body)
    case Map(fact, _, body) => FactMade(fact) + 2 + StmtsMade(g, body)
    case Return(e) => ExprMade(e)
    case ActionCall(_, args) => ArgsMade(args)
    case FinishCall(_, args) => ArgsMade(args)
    case Publish(e) => ExprMade(e)
    case Emit(e) => ExprMade(e)
    case Create(fact) => FactMade(fact)
    case Delete(fact) => FactMade(fact)
    case Update(fact, to) => FactMade(fact) + FieldsMade(to)
  }

  function BranchesMade(g: Program, bs: seq<Branch>): nat
    decreases bs, 2
  {
    if bs == [] then 0 else 1 + ExprMade(bs[0].cond) + StmtsMade(g, bs[0].body) + BranchesMade(g, bs[1..])
  }

  function TestsMade(arms: seq<Arm>): nat {
    if arms == [] then 0
    else 1 + (match arms[0].pattern case Default => 0 case Values(es) => ArgsMade(es)) + TestsMade(arms[1..])
  }

  function BodiesMade(g: Program, arms: seq<Arm>): nat
    decreases arms, 2
  {
    if arms == [] then 0 else StmtsMade(g, arms[0].body) + BodiesMade(g, arms[1..])
  }

  lemma {:induction false} ExprMadeUnfold(e: Expr)
    ensures ExprMade(e) ==
      match e
      case Literal(_) | EnumReference(_, _) | Identifier(_) => 0
      case NamedStruct(_, fields) => FieldsMade(fields)
      case FactQuery(_, fact) => FactMade(fact)
      case Conditional(cond, yes, no) => 2 + ExprMade(cond) + ExprMade(no) + ExprMade(yes)
      case FunctionCall(_, args) => ArgsMade(args)
      case ForeignCall(_, _, args) => ArgsMade(args)
      case Unary(op, a) => ExprMade(a) + (if op.Unwrap? || op.CheckUnwrap? then 1 else 0)
      case Binary(_, a, b) => ExprMade(a) + ExprMade(b)
  {
    hide FieldsMade, FactMade, ArgsMade;
  }

  lemma {:induction false} ArgsMadeUnfold(es: seq<Expr>)
    ensures ArgsMade(es) == if es == [] then 0 else ExprMade(es[0]) + ArgsMade(es[1..])
  {
    hide ExprMade;
  }

  lemma {:induction false} FieldsMadeUnfold(fs: seq<Field>)
    ensures FieldsMade(fs) ==
      if fs == [] then 0
      else (match fs[0].value case Bind => 0 case Given(e) => ExprMade(e)) + FieldsMade(fs[1..])
  {
    hide ExprMade;
  }

  lemma {:induction false} FactMadeUnfold(f: FactLiteral)
    ensures FactMade(f) == FieldsMade(f.keys) + match f.values case NoValues => 0 case GivenValues(fs) => FieldsMade(fs)
  {
    hide FieldsMade;
  }

  lemma {:induction false} StmtsMadeUnfold(g: Program, ss: seq<Node>)
    ensures StmtsMade(g, ss) == if ss == [] then 0 else StmtMade(g, ss[0]) + StmtsMade(g, ss[1..])
  {
    hide StmtMade;
  }

  lemma {:induction false} StmtMadeUnfold(g: Program, nd: Node)
    ensures StmtMade(g, nd) ==
      match nd.stmt
      case DebugAssert(e) => if g.debug then ExprMade(e) else 0
      case Match(e, arms) => ExprMade(e) + 1 + TestsMade(arms) + BodiesMade(g, arms)
      case If(branches, fallback) =>
        1 + BranchesMade(g, branches) + (match fallback case NoElse => 0 case Else(ss) => StmtsMade(g, ss))
      case Finish(body) => StmtsMade(g, body)
      case Map(fact, _, body) => FactMade(fact) + 2 + StmtsMade(g, body)
      case ActionCall(_, args) => ArgsMade(args)
      case FinishCall(_, args) => ArgsMade(args)
      case Create(fact) => FactMade(fact)
      case Delete(fact) => FactMade(fact)
      case Update(fact, to) => FactMade(fact) + FieldsMade(to)
      case _ => ExprMade(nd.stmt.expr)
  {
    hide ExprMade, TestsMade, BodiesMade, BranchesMade, StmtsMade, FactMade, ArgsMade, FieldsMade;
  }

  lemma {:induction false} BranchesMadeUnfold(g: Program, bs: seq<Branch>)
    ensures BranchesMade(g, bs) ==
      if bs == [] then 0 else 1 + ExprMade(bs[0].cond) + StmtsMade(g, bs[0].body) + BranchesMade(g, bs[1..])
  {
    hide ExprMade, StmtsMade;
  }

  lemma {:induction false} TestsMadeUnfold(arms: seq<Arm>)
    ensures TestsMade(arms) ==
      if arms == [] then 0
      else 1 + (match arms[0].pattern case Default => 0 case Values(es) => ArgsMade(es)) + TestsMade(arms[1..])
  {
    hide ArgsMade;
  }

  lemma {:induction false} BodiesMadeUnfold(g: Program, arms: seq<Arm>)
    ensures BodiesMade(g, arms) == if arms == [] then 0 else StmtsMade(g, arms[0].body) + BodiesMade(g, arms[1..])
  {
    hide StmtsMade;
  }

  function DefinitionsMade(g: Program, ds: seq<Definition>): nat {
    if ds == [] then 0 else StmtsMade(g, ds[0].body) + DefinitionsMade(g, ds[1..])
  }

  function CommandMade(g: Program, c: Command): nat {
    StmtsMade(g, c.policy) + StmtsMade(g, c.recall) + 1 + StmtsMade(g, c.seal) + 1 + StmtsMade(g, c.open)
  }

  function CommandsMade(g: Program, cs: seq<Command>): nat {
    if cs == [] then 0 else CommandMade(g, cs[0]) + CommandsMade(g, cs[1..])
  }

  lemma {:induction false} DefinitionsMadeUnfold(g: Program, ds: seq<Definition>)
    ensures DefinitionsMade(g, ds) == if ds == [] then 0 else StmtsMade(g, ds[0].body) + DefinitionsMade(g, ds[1..])
  {
    hide StmtsMade;
  }

  lemma {:induction false} CommandsMadeUnfold(g: Program, cs: seq<Command>)
    ensures CommandsMade(g, cs) == if cs == [] then 0 else CommandMade(g, cs[0]) + CommandsMade(g, cs[1..])
  {
    hide CommandMade;
  }

  /** How many labels compiling the policy makes up. */
  function Made(g: Program): nat {
    DefinitionsMade(g, g.policy.functions) + DefinitionsMade(g, g.policy.finishFunctions) +
    CommandsMade(g, g.policy.commands) + DefinitionsMade(g, g.policy.actions)
  }

  /** A finish function is named like a label that compiling makes up. */
  ghost predicate Collides(g: Program) {
    exists j, k: nat :: 0 <= j < |g.policy.finishFunctions| && k < Made(g) && Own(g.policy, j) == Anonymous(k)
  }

  /** One finish function called anonymous0, and one action that is an if statement. */
  function Unlucky(world: World): Program {
    var choice := Node(If([Branch(Literal(BoolV(true)), [])], NoElse), 0);
    Program(Policy([], [Definition("anonymous0", [], [], 0)], [], [Definition("act", [], [choice], 0)]), world, false)
  }

  /** Meeting the static rules is not enough to be accepted. */
  lemma {:induction false} RulesAreNotEnough(world: World)
    ensures PolicyOk(Unlucky(world)) && Collides(Unlucky(world))
  {
    var g := Unlucky(world);
    var body := g.policy.actions[0].body;
    var nd := body[0];
    var at := ActionSite(AllKnown(g.policy));
    assert StmtsOk(g, at, body) by {
      assert nd.stmt.branches[1..] == [];
      assert BranchesOk(g, at, nd.stmt.branches);
      assert StmtOk(g, at, nd);
      assert body[1..] == [];
    }
    assert ActionOk(g, g.policy.actions[0]);
    assert FinishFunctionOk(g, g.policy.finishFunctions[0]);
    assert Made(g) > 0 by {
      StmtMadeUnfold(g, nd);
      BranchesMadeUnfold(g, nd.stmt.branches);
      StmtsMadeUnfold(g, body);
      DefinitionsMadeUnfold(g, g.policy.actions);
    }
    assert Decimal(0) == "0";
    assert "anonymous" + "0" == "anonymous0";
    assert Own(g.policy, 0) == Anonymous(0);
  }
}
