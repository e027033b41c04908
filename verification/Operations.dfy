/** What single operations compute and record, spelled out on the values alone. Like the laws about
    facts, these name none of the primitive operations that the semantics and the machine share. */
module Operations {
  import opened Values
  import opened Ast
  import opened Effects
  import S = Semantics

  // ---- Events ----

  /** A struct with exactly the fields its definition declares. */
  ghost predicate Exactly(w: World, name: string, fields: map<string, Value>) {
    name in w.structs && forall k :: k in fields <==>
      exists j :: 0 <= j < |w.structs[name]| && w.structs[name][j].name == k
  }

  lemma {:induction false} FieldDeclared(fs: seq<FieldDef>, k: string)
    ensures HasField(fs, k) <==> exists j :: 0 <= j < |fs| && fs[j].name == k
  {
    if fs != [] {
      FieldDeclared(fs[1..], k);
      if j :| 0 <= j < |fs[1..]| && fs[1..][j].name == k { assert fs[j + 1] == fs[1..][j]; }
      if j :| 0 <= j < |fs| && fs[j].name == k { assert j > 0 ==> fs[1..][j - 1] == fs[j]; }
    }
  }

  lemma {:induction false} FitsExactly(w: World, name: string, fields: map<string, Value>)
    ensures StructFits(w, StructV(name, fields)) <==> Exactly(w, name, fields)
  {
    if name in w.structs {
      forall k ensures HasField(w.structs[name], k) <==>
        exists j :: 0 <= j < |w.structs[name]| && w.structs[name][j].name == k {
        FieldDeclared(w.structs[name], k);
      }
    }
  }

  /** Publishing records the struct; emitting records it with the command and whether it is recalled. */
  lemma {:induction false} EventMeans(g: Program, n: nat, env: Scope, nd: Node, h: History, v: Value, h1: History)
    requires (nd.stmt.Publish? || nd.stmt.Emit?) && S.EvalExpr(g, n, env, nd.stmt.expr, h) == Val(v, h1)
    ensures
      var o := S.EvalStmt(g, n, env, nd, h);
      if !v.StructV? then o == Fail(InvalidType, h1)
      else if !Exactly(g.world, v.name, v.fields) then o == Fail(InvalidSchema(v.name), h1)
      else if nd.stmt.Publish? then o == Val(S.Next(env), h1 + [Published(v.name, v.fields)])
      else match g.world.ctx
        case InPolicy(id) => o == Val(S.Next(env), h1 + [Emitted(v.name, v.fields, id, false)])
        case InRecall(id) => o == Val(S.Next(env), h1 + [Emitted(v.name, v.fields, id, true)])
        case _ => o == Fail(BadState, h1)
  {
    hide S.EvalExpr, StructFits, Exactly;
    if v.StructV? { FitsExactly(g.world, v.name, v.fields); }
  }

  // ---- The outside ----

  ghost predicate FirstModule(ms: seq<ForeignModule>, i: int, name: string) {
    0 <= i < |ms| && ms[i].name == name && forall j :: 0 <= j < i ==> ms[j].name != name
  }

  ghost predicate FirstProcedure(ps: seq<Procedure>, i: int, name: string) {
    0 <= i < |ps| && ps[i].name == name && forall j :: 0 <= j < i ==> ps[j].name != name
  }

  lemma {:induction false} ModuleFound(ms: seq<ForeignModule>, i: int, name: string)
    requires FirstModule(ms, i, name)
    ensures FindModule(ms, name) == Some(i)
  {
    if i > 0 {
      assert FirstModule(ms[1..], i - 1, name) by { assert forall j :: 0 <= j < |ms[1..]| ==> ms[1..][j] == ms[j + 1]; }
      ModuleFound(ms[1..], i - 1, name);
    }
  }

  lemma {:induction false} ProcedureFound(ps: seq<Procedure>, i: int, name: string)
    requires FirstProcedure(ps, i, name)
    ensures FindProcedure(ps, name) == Some(i)
  {
    if i > 0 {
      assert FirstProcedure(ps[1..], i - 1, name)
        by { assert forall j :: 0 <= j < |ps[1..]| ==> ps[1..][j] == ps[j + 1]; }
      ProcedureFound(ps[1..], i - 1, name);
    }
  }

  /** The host is asked for the first procedure of that name in the first module of that name, with the
      arguments in order, and the call is recorded. */
  lemma {:induction false} ForeignMeans(
    g: Program, n: nat, env: Scope, e: Expr, h: History, vs: seq<Value>, h1: History, m: int, p: int)
    requires e.ForeignCall? && S.EvalArgs(g, n, env, e.args, h) == Val(vs, h1)
    requires FirstModule(g.world.ffi, m, e.mod) && FirstProcedure(g.world.ffi[m].procedures, p, e.name)
    ensures S.EvalExpr(g, n, env, e, h) ==
      match g.world.host.call(h1, m, p, vs)
      case Answer(v) => Val(v, h1 + [Called(m, p, vs)])
      case Refused(c) => Fail(IoError(c), h1)
  {
    hide S.EvalArgs;
    ModuleFound(g.world.ffi, m, e.mod);
    ProcedureFound(g.world.ffi[m].procedures, p, e.name);
  }

  /** A struct is serialized only while sealing a command of its name, and deserialized only while
      opening one. */
  lemma {:induction false} SerializeMeans(g: Program, n: nat, env: Scope, a: Expr, h: History, v: Value, h1: History)
    requires S.EvalExpr(g, n, env, a, h) == Val(v, h1)
    ensures S.EvalExpr(g, n, env, Unary(Serialize, a), h) ==
      match g.world.ctx
      case InSeal(name) =>
        if !v.StructV? then Fail(InvalidType, h1)
        else if v.name != name then Fail(InvalidInstruction, h1)
        else (match g.world.host.encode(v) case Some(bs) => Val(BytesV(bs), h1) case None => Fail(Unknown, h1))
      case _ => Fail(InvalidInstruction, h1)
    ensures S.EvalExpr(g, n, env, Unary(Deserialize, a), h) ==
      match g.world.ctx
      case InOpen(name) =>
        if !v.BytesV? then Fail(InvalidType, h1)
        else (
          match g.world.host.decode(v.bytes)
          case Some(s) => if s.StructV? && s.name == name then Val(s, h1) else Fail(InvalidInstruction, h1)
          case None => Fail(Unknown, h1))
      case _ => Fail(InvalidInstruction, h1)
  {
  }

  // ---- Names ----

  /** The block `i` steps out from the innermost one. */
  function Block(env: Scope, i: nat): Option<map<string, Value>> {
    match env
    case Nil => None
    case Cons(b, outer) => if i == 0 then Some(b) else Block(outer, i - 1)
  }

  ghost predicate Has(env: Scope, i: nat, x: string) {
    Block(env, i).Some? && x in Block(env, i).value
  }

  ghost predicate Innermost(env: Scope, i: nat, x: string) {
    Has(env, i, x) && forall j: nat :: j < i ==> !Has(env, j, x)
  }

  lemma {:induction false} LocalInnermost(env: Scope, x: string)
    ensures forall i: nat :: Innermost(env, i, x) ==> LookupLocal(env, x) == Some(Block(env, i).value[x])
    ensures (forall i: nat :: !Has(env, i, x)) ==> LookupLocal(env, x) == None
    ensures DefinedIn(env, x) <==> exists i: nat :: Has(env, i, x)
  {
    if env.Cons? {
      LocalInnermost(env.tail, x);
      assert forall i: nat :: i > 0 ==> Block(env, i) == Block(env.tail, i - 1);
      if x in env.head {
        assert Has(env, 0, x);
      } else {
        assert !Has(env, 0, x);
        forall i: nat | Innermost(env, i, x) ensures LookupLocal(env, x) == Some(Block(env, i).value[x]) {
          assert Innermost(env.tail, i - 1, x) by {
            forall j: nat | j < i - 1 ensures !Has(env.tail, j, x) { assert !Has(env, j + 1, x); }
          }
        }
        if i: nat :| Has(env.tail, i, x) { assert Has(env, i + 1, x); }
        if forall i: nat :: !Has(env, i, x) {
          forall i: nat ensures !Has(env.tail, i, x) { assert !Has(env, i + 1, x); }
        }
        if i: nat :| Has(env, i, x) { assert Has(env.tail, i - 1, x); }
      }
    }
  }

  /** A name stands for its value in the innermost block that has it, else for the global. */
  lemma {:induction false} IdentifierMeans(g: Program, n: nat, env: Scope, x: string, h: History)
    ensures forall i: nat :: Innermost(env, i, x) ==>
      S.EvalExpr(g, n, env, Identifier(x), h) == Val(Block(env, i).value[x], h)
    ensures (forall i: nat :: !Has(env, i, x)) ==>
      S.EvalExpr(g, n, env, Identifier(x), h) ==
        if x in g.world.globals then Val(g.world.globals[x], h) else Fail(NotDefined(x), h)
  {
    hide Has, LookupLocal, Block;
    LocalInnermost(env, x);
  }

  /** A new name goes into the innermost block; a name that is global or in any block is refused. */
  lemma {:induction false} LetMeans(g: Program, n: nat, env: Scope, nd: Node, h: History, v: Value, h1: History)
    requires nd.stmt.Let? && S.EvalExpr(g, n, env, nd.stmt.expr, h) == Val(v, h1) && env.Cons?
    ensures
      var x := nd.stmt.name;
      S.EvalStmt(g, n, env, nd, h) ==
        if x in g.world.globals || exists i: nat :: Has(env, i, x) then Fail(AlreadyDefined(x), h1)
        else Val(S.Next(Cons(env.head[x := v], env.tail)), h1)
  {
    hide S.EvalExpr, Has, DefinedIn;
    LocalInnermost(env, nd.stmt.name);
  }

  // ---- Structs ----

  lemma {:induction false} FieldsMore(given: seq<Entry>, m: map<string, Value>, e: Entry)
    requires Fields(given, m)
    ensures Fields(given + [e], m[e.key := e.value])
  {
    NamesMore(given, e);
    forall i, k | LastNamed(given + [e], i, k)
      ensures k in m[e.key := e.value] && m[e.key := e.value][k] == (given + [e])[i].value
    {
      LastMore(given, e, i, k);
    }
  }

  ghost predicate AllDeclared(w: World, name: string, es: seq<Entry>) {
    name in w.structs &&
    forall i :: 0 <= i < |es| ==> exists j :: 0 <= j < |w.structs[name]| && w.structs[name][j].name == es[i].key
  }

  lemma {:induction false} DeclaredRest(w: World, name: string, e: Entry, rest: seq<Entry>)
    requires AllDeclared(w, name, [e] + rest)
    ensures name in w.structs && HasField(w.structs[name], e.key) && AllDeclared(w, name, rest)
  {
    hide HasField;
    var all := [e] + rest;
    assert all[0] == e && forall i :: 0 <= i < |rest| ==> all[i + 1] == rest[i];
    FieldDeclared(w.structs[name], e.key);
  }

  lemma {:induction false} MembersMean(
    g: Program, n: nat, env: Scope, fs: seq<Field>, name: string, m: map<string, Value>, h: History, given: seq<Entry>)
    requires Supplied(g, n, env, fs, h).Val? && AllDeclared(g.world, name, Supplied(g, n, env, fs, h).value)
    requires Fields(given, m)
    ensures
      var o, r := Supplied(g, n, env, fs, h), S.EvalFields(g, n, env, StructMember, fs, StructV(name, m), h);
      r.Val? && r.hist == o.hist && r.value.StructV? && r.value.name == name && Fields(given + o.value, r.value.fields)
    decreases |fs|
  {
    hide Fields, S.EvalExpr, AllDeclared, HasField;
    if fs == [] {
      assert given + [] == given;
    } else if fs[0].value.Bind? {
      MembersMean(g, n, env, fs[1..], name, m, h, given);
    } else {
      var o := Supplied(g, n, env, fs, h);
      var v := S.EvalExpr(g, n, env, fs[0].value.expr, h);
      var e := Entry(fs[0].name, v.value);
      var rest := Supplied(g, n, env, fs[1..], v.hist).value;
      assert o.value == [e] + rest;
      DeclaredRest(g.world, name, e, rest);
      FieldsMore(given, m, e);
      MembersMean(g, n, env, fs[1..], name, m[e.key := e.value], v.hist, given + [e]);
      assert (given + [e]) + rest == given + o.value;
    }
  }

  lemma {:induction false} MembersDeclared(
    g: Program, n: nat, env: Scope, fs: seq<Field>, name: string, m: map<string, Value>, h: History)
    requires S.EvalFields(g, n, env, StructMember, fs, StructV(name, m), h).Val?
    ensures
      var o := Supplied(g, n, env, fs, h);
      o.Val? && (o.value == [] || AllDeclared(g.world, name, o.value))
    decreases |fs|
  {
    hide S.EvalExpr, HasField;
    if fs != [] {
      if fs[0].value.Bind? {
        MembersDeclared(g, n, env, fs[1..], name, m, h);
      } else {
        var v := S.EvalExpr(g, n, env, fs[0].value.expr, h);
        MembersDeclared(g, n, env, fs[1..], name, m[fs[0].name := v.value], v.hist);
        FieldDeclared(g.world.structs[name], fs[0].name);
        var rest := Supplied(g, n, env, fs[1..], v.hist).value;
        var all := [Entry(fs[0].name, v.value)] + rest;
        assert forall i :: 0 < i < |all| ==> all[i] == rest[i - 1];
      }
    }
  }

  lemma {:induction false} NoMembers(
    g: Program, n: nat, env: Scope, fs: seq<Field>, target: Value, h: History)
    requires Supplied(g, n, env, fs, h).Val? && Supplied(g, n, env, fs, h).value == []
    ensures S.EvalFields(g, n, env, StructMember, fs, target, h) == Val(target, Supplied(g, n, env, fs, h).hist)
    decreases |fs|
  {
    if fs != [] && fs[0].value.Bind? { NoMembers(g, n, env, fs[1..], target, h); }
  }

  /** A struct literal has a value if and only if all it gives has one and is declared. The struct has
      the fields it gives, and of several values for a field the last. */
  lemma {:induction false} StructMeans(g: Program, n: nat, env: Scope, e: Expr, h: History)
    requires e.NamedStruct?
    ensures
      var o, given := S.EvalExpr(g, n, env, e, h), Supplied(g, n, env, e.fields, h);
      (o.Val? <==> given.Val? && (given.value == [] || AllDeclared(g.world, e.name, given.value))) &&
      (o.Val? ==>
        o.hist == given.hist && o.value.StructV? && o.value.name == e.name && Fields(given.value, o.value.fields))
  {
    hide S.EvalFields, Supplied, AllDeclared, Fields;
    var o, given := S.EvalExpr(g, n, env, e, h), Supplied(g, n, env, e.fields, h);
    if o.Val? { MembersDeclared(g, n, env, e.fields, e.name, map[], h); }
    NoFields();
    if given.Val? && given.value == [] {
      NoMembers(g, n, env, e.fields, StructV(e.name, map[]), h);
    } else if given.Val? && AllDeclared(g.world, e.name, given.value) {
      MembersMean(g, n, env, e.fields, e.name, map[], h, []);
      assert [] + given.value == given.value;
    }
  }

  lemma NoFields()
    ensures Fields([], map[])
  {
  }

  /** The first field that is not declared ends the evaluation, once its value is known. */
  lemma {:induction false} StructFaults(
    g: Program, n: nat, env: Scope, fs: seq<Field>, i: nat, name: string, m: map<string, Value>, h: History,
    v: Value, h1: History)
    requires i < |fs| && fs[i].value.Given? && Supplied(g, n, env, fs[..i], h).Val?
    requires
      var before := Supplied(g, n, env, fs[..i], h);
      before.value == [] || AllDeclared(g.world, name, before.value)
    requires S.EvalExpr(g, n, env, fs[i].value.expr, Supplied(g, n, env, fs[..i], h).hist) == Val(v, h1)
    requires !AllDeclared(g.world, name, [Entry(fs[i].name, v)])
    ensures S.EvalFields(g, n, env, StructMember, fs, StructV(name, m), h) ==
      Fail(if name in g.world.structs then InvalidStructMember(fs[i].name) else InvalidSchema(name), h1)
    decreases i
  {
    hide S.EvalExpr, HasField, AllDeclared;
    if i == 0 {
      assert fs[..0] == [];
      OneDeclared(g.world, name, Entry(fs[0].name, v));
    } else {
      assert fs[..i][0] == fs[0] && fs[..i][1..] == fs[1..][..i - 1];
      if fs[0].value.Bind? {
        StructFaults(g, n, env, fs[1..], i - 1, name, m, h, v, h1);
      } else {
        var o := S.EvalExpr(g, n, env, fs[0].value.expr, h);
        var e := Entry(fs[0].name, o.value);
        var rest := Supplied(g, n, env, fs[1..][..i - 1], o.hist);
        assert Supplied(g, n, env, fs[..i], h).value == [e] + rest.value;
        DeclaredRest(g.world, name, e, rest.value);
        StructFaults(g, n, env, fs[1..], i - 1, name, m[e.key := e.value], o.hist, v, h1);
      }
    }
  }

  lemma {:induction false} OneDeclared(w: World, name: string, e: Entry)
    ensures AllDeclared(w, name, [e]) <==> name in w.structs && HasField(w.structs[name], e.key)
  {
    hide HasField;
    if name in w.structs { FieldDeclared(w.structs[name], e.key); }
    assert [e][0] == e;
  }

  /** And so does the first key that is neither an integer, a boolean, a string nor an identifier. */
  lemma {:induction false} KeyFaults(
    g: Program, n: nat, env: Scope, fs: seq<Field>, i: nat, name: string, ks: seq<Entry>, vs: seq<Entry>, h: History,
    v: Value, h1: History)
    requires i < |fs| && fs[i].value.Given?
    requires Supplied(g, n, env, fs[..i], h).Val? && Scalars(Supplied(g, n, env, fs[..i], h).value)
    requires S.EvalExpr(g, n, env, fs[i].value.expr, Supplied(g, n, env, fs[..i], h).hist) == Val(v, h1)
    requires !Scalars([Entry(fs[i].name, v)])
    ensures S.EvalFields(g, n, env, KeyMember, fs, FactV(name, ks, vs), h) == Fail(InvalidType, h1)
    decreases i
  {
    hide S.EvalExpr, SetEntry, Scalars, Hashable;
    if i == 0 {
      assert fs[..0] == [];
      OneScalar(Entry(fs[0].name, v), []);
    } else {
      assert fs[..i][0] == fs[0] && fs[..i][1..] == fs[1..][..i - 1];
      if fs[0].value.Bind? {
        KeyFaults(g, n, env, fs[1..], i - 1, name, ks, vs, h, v, h1);
      } else {
        var o := S.EvalExpr(g, n, env, fs[0].value.expr, h);
        var rest := Supplied(g, n, env, fs[1..][..i - 1], o.hist);
        assert Supplied(g, n, env, fs[..i], h).value == [Entry(fs[0].name, o.value)] + rest.value;
        OneScalar(Entry(fs[0].name, o.value), rest.value);
        KeyFaults(g, n, env, fs[1..], i - 1, name, SetEntry(ks, fs[0].name, o.value), vs, o.hist, v, h1);
      }
    }
  }

  lemma {:induction false} OneScalar(e: Entry, rest: seq<Entry>)
    ensures Scalars([e]) <==> Hashable(e.value)
    ensures Scalars([e] + rest) <==> Hashable(e.value) && Scalars(rest)
  {
    var all := [e] + rest;
    assert [e][0] == e && all[0] == e;
    assert forall j :: 0 <= j < |rest| ==> rest[j] == all[j + 1];
    assert forall j :: 0 < j < |all| ==> all[j] == rest[j - 1];
  }

  lemma {:induction false} DotMeans(g: Program, n: nat, env: Scope, a: Expr, k: string, h: History, v: Value,
      h1: History)
    requires S.EvalExpr(g, n, env, a, h) == Val(v, h1)
    ensures S.EvalExpr(g, n, env, Unary(Dot(k), a), h) ==
      if !v.StructV? then Fail(InvalidType, h1)
      else if k !in v.fields then Fail(InvalidStructMember(k), h1) else Val(v.fields[k], h1)
  {
  }

  // ---- Numbers ----

  lemma {:induction false} OperandsFirst(
    g: Program, n: nat, env: Scope, op: BinaryOp, a: Expr, b: Expr, h: History, x: Value, h1: History, y: Value,
      h2: History)
    requires S.EvalExpr(g, n, env, a, h) == Val(x, h1) && S.EvalExpr(g, n, env, b, h1) == Val(y, h2)
    ensures S.EvalExpr(g, n, env, Binary(op, a, b), h) == Lift(S.BinaryValue(op, x, y), h2)
  {
    hide S.BinaryValue;
  }

  /** Sums and differences are those of integers where they fit 64 bits, and an error elsewhere. */
  lemma {:induction false} ArithmeticMeans(
    g: Program, n: nat, env: Scope, a: Expr, b: Expr, h: History, x: int, h1: History, y: int, h2: History)
    requires S.EvalExpr(g, n, env, a, h) == Val(IntV(x), h1) && S.EvalExpr(g, n, env, b, h1) == Val(IntV(y), h2)
    ensures S.EvalExpr(g, n, env, Binary(Add, a, b), h) ==
      if -9223372036854775808 <= x + y <= 9223372036854775807 then Val(IntV(x + y), h2) else Fail(IntegerOverflow, h2)
    ensures S.EvalExpr(g, n, env, Binary(Subtract, a, b), h) ==
      if -9223372036854775808 <= x - y <= 9223372036854775807 then Val(IntV(x - y), h2) else Fail(IntegerOverflow, h2)
  {
    hide S.EvalExpr;
    OperandsFirst(g, n, env, Add, a, b, h, IntV(x), h1, IntV(y), h2);
    OperandsFirst(g, n, env, Subtract, a, b, h, IntV(x), h1, IntV(y), h2);
  }

  lemma {:induction false} NegativeMeans(g: Program, n: nat, env: Scope, a: Expr, h: History, x: int, h1: History)
    requires S.EvalExpr(g, n, env, a, h) == Val(IntV(x), h1)
    ensures S.EvalExpr(g, n, env, Unary(Negative, a), h) ==
      if -9223372036854775807 <= x <= 9223372036854775808 then Val(IntV(-x), h1) else Fail(IntegerOverflow, h1)
  {
  }

  lemma {:induction false} OrderMeans(
    g: Program, n: nat, env: Scope, a: Expr, b: Expr, h: History, x: int, h1: History, y: int, h2: History)
    requires S.EvalExpr(g, n, env, a, h) == Val(IntV(x), h1) && S.EvalExpr(g, n, env, b, h1) == Val(IntV(y), h2)
    ensures S.EvalExpr(g, n, env, Binary(GreaterThan, a, b), h) == Val(BoolV(y < x), h2)
    ensures S.EvalExpr(g, n, env, Binary(LessThan, a, b), h) == Val(BoolV(x < y), h2)
    ensures S.EvalExpr(g, n, env, Binary(GreaterOrEqual, a, b), h) == Val(BoolV(y <= x), h2)
    ensures S.EvalExpr(g, n, env, Binary(LessOrEqual, a, b), h) == Val(BoolV(x <= y), h2)
  {
    hide S.EvalExpr;
    OperandsFirst(g, n, env, GreaterThan, a, b, h, IntV(x), h1, IntV(y), h2);
    OperandsFirst(g, n, env, LessThan, a, b, h, IntV(x), h1, IntV(y), h2);
    OperandsFirst(g, n, env, GreaterOrEqual, a, b, h, IntV(x), h1, IntV(y), h2);
    OperandsFirst(g, n, env, LessOrEqual, a, b, h, IntV(x), h1, IntV(y), h2);
  }

  // ---- Going through the rows of a query ----

  /** A map statement goes through all rows the host reports for the keys, in order: each round runs
      the body in a block of its own that binds the name to the row as a struct. */
  lemma {:induction false} RoundMeans(
    g: Program, n: nat, env: Scope, x: string, body: seq<Node>, rows: seq<Row>, h: History)
      returns (m: map<string, Value>)
    ensures rows == [] ==> S.EvalMap(g, n, env, x, body, rows, h) == Val(S.Next(env), h)
    ensures rows != [] && rows[0].RowFailed? ==>
      S.EvalMap(g, n, env, x, body, rows, h) == Fail(IoError(rows[0].code), h)
    ensures rows != [] && rows[0].Row? ==>
      var o := S.EvalMap(g, n, env, x, body, rows, h);
      Fields(rows[0].keys + rows[0].values, m) &&
      if x in g.world.globals || exists i: nat :: Has(env, i, x) then o == Fail(AlreadyDefined(x), h)
      else
        var r := S.EvalStmts(g, n, Cons(map[x := StructV(x, m)], env), body, h);
        if !r.Val? then o == r
        else if r.value.Returned? then o == r
        else o == S.EvalMap(g, n, if r.value.env.Cons? then r.value.env.tail else Nil, x, body, rows[1..], r.hist)
  {
    hide S.EvalStmts, Has, DefinedIn, Fields, Collect;
    m := map[];
    if rows != [] && rows[0].Row? {
      m := Collect(rows[0].keys + rows[0].values);
      CollectFields(rows[0].keys + rows[0].values);
      LocalInnermost(env, x);
      assert DefinedIn(Cons(map[], env), x) <==> DefinedIn(env, x) by { EmptyBlock(env, x); }
      var none: map<string, Value> := map[];
      assert none[x := StructV(x, m)] == map[x := StructV(x, m)];
    }
  }

  lemma EmptyBlock(env: Scope, x: string)
    ensures DefinedIn(Cons(map[], env), x) <==> DefinedIn(env, x)
  {
  }

  lemma {:induction false} MapMeans(g: Program, n: nat, env: Scope, nd: Node, h: History, p: Parts)
    returns (ks: seq<Entry>, vs: seq<Entry>, rows: Result<seq<Row>>)
    requires nd.stmt.Map? && Supplies(g, n, env, nd.stmt.fact, h, p)
    ensures Merges([], p.keys, ks) && Merges([], p.values, vs)
    ensures Asked(g.world, nd.stmt.fact.name, ks, vs, p.hist, rows)
    ensures S.EvalStmt(g, n, env, nd, h) ==
      match rows
      case Err(f) => Fail(f, p.hist)
      case Ok(rs) => S.EvalMap(g, n, env, nd.stmt.name, nd.stmt.body, rs, p.hist)
  {
    hide Merges, S.EvalFact, Supplies, Asked, QueryRows, S.EvalMap;
    ks, vs := FactMeans(g, n, env, nd.stmt.fact, h, p);
    RowsAsked(g.world, nd.stmt.fact.name, ks, vs, p.hist);
    rows := QueryRows(g.world, FactV(nd.stmt.fact.name, ks, vs), p.hist);
  }
}
