/** The meaning of policies, defined on the syntax alone: no instructions, addresses or
    operand stack. `n` bounds the depth of nested calls; an evaluation that needs more
    answers `Timeout`. */
module Semantics {
  import opened Values
  import opened Ast

  // ---- Operators ----

  function IntOp(a: Value, b: Value, f: (int, int) -> Result<Value>): Result<Value> {
    if a.IntV? && b.IntV? then f(a.n, b.n) else Err(InvalidType)
  }

  function BinaryValue(op: BinaryOp, a: Value, b: Value): Result<Value> {
    match op
    case Equal => Ok(BoolV(a == b))
    case NotEqual => Ok(BoolV(a != b))
    case And => if a.BoolV? && b.BoolV? then Ok(BoolV(a.b && b.b)) else Err(InvalidType)
    case Or => if a.BoolV? && b.BoolV? then Ok(BoolV(a.b || b.b)) else Err(InvalidType)
    case Add => IntOp(a, b, (x, y) => Checked(x + y))
    case Subtract => IntOp(a, b, (x, y) => Checked(x - y))
    case GreaterThan => IntOp(a, b, (x, y) => Ok(BoolV(x > y)))
    case LessThan => IntOp(a, b, (x, y) => Ok(BoolV(x < y)))
    case GreaterOrEqual => IntOp(a, b, (x, y) => Ok(BoolV(x >= y)))
    case LessOrEqual => IntOp(a, b, (x, y) => Ok(BoolV(x <= y)))
  }

  function UnaryValue(w: World, op: UnaryOp, v: Value, h: History): Outcome<Value> {
    match op
    case SomeOf => Val(v, h)
    case Negative => Lift(if v.IntV? then Checked(-v.n) else Err(InvalidType), h)
    case Not => Lift(if v.BoolV? then Ok(BoolV(!v.b)) else Err(InvalidType), h)
    case Unwrap => if v.NoneV? then Exit(Panic, h) else Val(v, h)
    case CheckUnwrap => if v.NoneV? then Exit(Check, h) else Val(v, h)
    case IsSome => Val(BoolV(!v.NoneV?), h)
    case IsNone => Val(BoolV(v.NoneV?), h)
    case Dot(k) => Lift(GetField(v, k), h)
    case Serialize => Lift(SerializeStruct(w, v), h)
    case Deserialize => Lift(DeserializeStruct(w, v), h)
  }

  /** The number of matching rows ahead of the first row the host fails to deliver. */
  function Matching(f: Value, rows: seq<Row>): nat
    requires f.FactV?
  {
    if rows == [] || rows[0].RowFailed? then 0
    else (if RowMatches(f, rows[0]) then 1 else 0) + Matching(f, rows[1..])
  }

  /** The first delivery failure, if any. */
  function FirstFailure(rows: seq<Row>): Option<nat> {
    if rows == [] then None
    else if rows[0].RowFailed? then Some(rows[0].code)
    else FirstFailure(rows[1..])
  }

  /** What a query asks of the rows. A count that is already decided by the rows delivered so
      far does not depend on later failures. */
  function QueryValue(kind: QueryKind, f: Value, rows: seq<Row>): Result<Value>
    requires f.FactV?
  {
    var total := Matching(f, rows);
    var end := FirstFailure(rows);
    match kind
    case Query => FirstMatch(f, rows)
    case Exists =>
      var r :- FirstMatch(f, rows);
      Ok(BoolV(r != NoneV))
    case UpTo(k) =>
      if total >= k then Ok(IntV(k)) else if end.Some? then Err(IoError(end.value)) else Ok(IntV(total))
    case AtLeast(k) =>
      if total >= k then Ok(BoolV(true)) else if end.Some? then Err(IoError(end.value)) else Ok(BoolV(false))
    case AtMost(k) =>
      if total > k then Ok(BoolV(false)) else if end.Some? then Err(IoError(end.value)) else Ok(BoolV(true))
    case Exactly(k) =>
      if total > k then Ok(BoolV(false)) else if end.Some? then Err(IoError(end.value)) else Ok(BoolV(total == k))
  }

  function EvalQuery(w: World, kind: QueryKind, f: Value, h: History): Result<Value> {
    var rows :- QueryRows(w, f, h);
    if f.FactV? then QueryValue(kind, f, rows) else Err(InvalidType)
  }

  function SetMemberOf(w: World, m: Member, target: Value, k: string, v: Value): Result<Value> {
    match m
    case StructMember => SetField(w, target, k, v)
    case KeyMember => SetKey(target, k, v)
    case ValueMember => SetValue(target, k, v)
  }

  // ---- Expressions ----

  function EvalExpr(g: Program, n: nat, env: Scope, e: Expr, h: History): Outcome<Value>
    decreases n, e, 0
  {
    match e
    case Literal(v) => Val(v, h)
    case EnumReference(t, v) => Val(EnumV(t, v), h)
    case Identifier(x) => Lift(Lookup(g.world.globals, env, x), h)
    case NamedStruct(name, fields) => EvalFields(g, n, env, StructMember, fields, StructV(name, map[]), h)
    case FactQuery(kind, fact) =>
      var (f, h1) :- EvalFact(g, n, env, fact, h);
      Lift(EvalQuery(g.world, kind, f, h1), h1)
    case Conditional(c, yes, no) =>
      var (v, h1) :- EvalExpr(g, n, env, c, h);
      if !v.BoolV? then Fail(InvalidType, h1)
      else if v.b then EvalExpr(g, n, env, yes, h1)
      else EvalExpr(g, n, env, no, h1)
    case FunctionCall(name, args) =>
      var (vs, h1) :- EvalArgs(g, n, env, args, h);
      if n == 0 then Timeout else EvalFunction(g, n - 1, FindDefinition(g.policy.functions, name), vs, h1)
    case ForeignCall(m, name, args) =>
      var (vs, h1) :- EvalArgs(g, n, env, args, h);
      EvalForeign(g.world, m, name, vs, h1)
    case Unary(op, a) =>
      var (v, h1) :- EvalExpr(g, n, env, a, h);
      UnaryValue(g.world, op, v, h1)
    case Binary(op, a, b) =>
      var (va, h1) :- EvalExpr(g, n, env, a, h);
      var (vb, h2) :- EvalExpr(g, n, env, b, h1);
      Lift(BinaryValue(op, va, vb), h2)
  }

  /** Arguments are evaluated left to right. */
  function EvalArgs(g: Program, n: nat, env: Scope, es: seq<Expr>, h: History): Outcome<seq<Value>>
    decreases n, es, 0
  {
    if es == [] then Val([], h)
    else
      var (v, h1) :- EvalExpr(g, n, env, es[0], h);
      var (vs, h2) :- EvalArgs(g, n, env, es[1..], h1);
      Val([v] + vs, h2)
  }

  /** Adds the given members to `target` one by one; bind markers add nothing. */
  function EvalFields(g: Program, n: nat, env: Scope, m: Member, fs: seq<Field>, target: Value, h: History)
    : Outcome<Value>
    decreases n, fs, 0
  {
    if fs == [] then Val(target, h)
    else match fs[0].value
      case Bind => EvalFields(g, n, env, m, fs[1..], target, h)
      case Given(e) =>
        var (v, h1) :- EvalExpr(g, n, env, e, h);
        var (t, h2) :- Lift(SetMemberOf(g.world, m, target, fs[0].name, v), h1);
        EvalFields(g, n, env, m, fs[1..], t, h2)
  }

  function EvalFact(g: Program, n: nat, env: Scope, f: FactLiteral, h: History): Outcome<Value>
    decreases n, f, 0
  {
    var (t, h1) :- EvalFields(g, n, env, KeyMember, f.keys, FactV(f.name, [], []), h);
    match f.values
    case NoValues => Val(t, h1)
    case GivenValues(fs) => EvalFields(g, n, env, ValueMember, fs, t, h1)
  }

  function EvalForeign(w: World, m: string, name: string, vs: seq<Value>, h: History): Outcome<Value> {
    match FindModule(w.ffi, m)
    case None => Fail(NotDefined(m), h)
    case Some(mi) =>
      if mi >= |w.ffi| then Fail(NotDefined(m), h)
      else match FindProcedure(w.ffi[mi].procedures, name)
        case None => Fail(NotDefined(name), h)
        case Some(pi) => CallForeign(w, mi, pi, vs, h)
  }

  // ---- Calls ----

  /** The scope of a call: each parameter is bound to its own argument. */
  function BindParams(globals: map<string, Value>, params: seq<string>, args: seq<Value>): Result<Scope> {
    if params == [] || args == [] then Ok(Cons(map[], Nil))
    else
      var rest :- BindParams(globals, params[1..], args[1..]);
      Define(globals, rest, params[0], args[0])
  }

  /** A function must return a value; falling off its end is a panic. */
  function EvalFunction(g: Program, n: nat, d: Option<Definition>, vs: seq<Value>, h: History): Outcome<Value>
    decreases n
  {
    if d.None? then Fail(BadState, h)
    else
      var (env, h0) :- Lift(BindParams(g.world.globals, d.value.params, vs), h);
      var (flow, h1) :- EvalStmts(g, n, env, d.value.body, h0);
      match flow
      case Returned(v) => Val(v, h1)
      case Next(_) => Exit(Panic, h1)
  }

  /** Actions and finish functions run for their effects. */
  function EvalProcedure(g: Program, n: nat, d: Option<Definition>, vs: seq<Value>, h: History): Outcome<()>
    decreases n
  {
    if d.None? then Fail(BadState, h)
    else
      var (env, h0) :- Lift(BindParams(g.world.globals, d.value.params, vs), h);
      var (_, h1) :- EvalStmts(g, n, env, d.value.body, h0);
      Val((), h1)
  }

  // ---- Statements ----

  /** How a statement list ends: it runs on with a scope, or returns from the function. */
  datatype Flow = Next(env: Scope) | Returned(value: Value)

  /** The scope outside the innermost block. */
  function Outer(env: Scope): Scope {
    if env.Cons? then env.tail else Nil
  }

  function EvalStmts(g: Program, n: nat, env: Scope, ss: seq<Node>, h: History): Outcome<Flow>
    decreases n, ss, 1
  {
    if ss == [] then Val(Next(env), h)
    else
      var (flow, h1) :- EvalStmt(g, n, env, ss[0], h);
      match flow
      case Returned(_) => Val(flow, h1)
      case Next(env1) => EvalStmts(g, n, env1, ss[1..], h1)
  }

  /** A condition that ends the run with `reason` unless it is true. */
  function Require(v: Value, reason: ExitReason, env: Scope, h: History): Outcome<Flow> {
    if !v.BoolV? then Fail(InvalidType, h) else if v.b then Val(Next(env), h) else Exit(reason, h)
  }

  function EvalStmt(g: Program, n: nat, env: Scope, nd: Node, h: History): Outcome<Flow>
    decreases n, nd, 0
  {
    match nd.stmt
    case Let(x, e) =>
      var (v, h1) :- EvalExpr(g, n, env, e, h);
      var (env1, h2) :- Lift(Define(g.world.globals, env, x, v), h1);
      Val(Next(env1), h2)
    case CheckThat(e) =>
      var (v, h1) :- EvalExpr(g, n, env, e, h);
      Require(v, Check, env, h1)
    case DebugAssert(e) =>
      if !g.debug then Val(Next(env), h)
      else
        var (v, h1) :- EvalExpr(g, n, env, e, h);
        Require(v, Panic, env, h1)
    case Match(e, arms) =>
      var (v, h1) :- EvalExpr(g, n, env, e, h);
      EvalArms(g, n, env, arms, v, h1)
    case If(branches, fallback) =>
      var (taken, h1) :- EvalBranches(g, n, env, branches, h);
      match taken {
        case Some(flow) => Val(flow, h1)
        case None =>
          match fallback
          case NoElse => Val(Next(env), h1)
          case Else(ss) => EvalStmts(g, n, env, ss, h1)
      }
    case Finish(body) =>
      var (_, h1) :- EvalStmts(g, n, Cons(map[], env), body, h);
      Exit(Normal, h1)
    case Map(fact, x, body) =>
      var (f, h1) :- EvalFact(g, n, env, fact, h);
      var (rows, h2) :- Lift(QueryRows(g.world, f, h1), h1);
      EvalMap(g, n, env, x, body, rows, h2)
    case Return(e) =>
      var (v, h1) :- EvalExpr(g, n, env, e, h);
      Val(Returned(v), h1)
    case ActionCall(name, args) =>
      var (vs, h1) :- EvalArgs(g, n, env, args, h);
      var (_, h2) :- if n == 0 then Timeout
        else EvalProcedure(g, n - 1, FindDefinition(g.policy.actions, name), vs, h1);
      Val(Next(env), h2)
    case FinishCall(name, args) =>
      var (vs, h1) :- EvalArgs(g, n, env, args, h);
      var (_, h2) :- if n == 0 then Timeout
        else EvalProcedure(g, n - 1, FindDefinition(g.policy.finishFunctions, name), vs, h1);
      Val(Next(env), h2)
    case Publish(e) =>
      var (v, h1) :- EvalExpr(g, n, env, e, h);
      var (_, h2) :- PublishStruct(g.world, v, h1);
      Val(Next(env), h2)
    case Emit(e) =>
      var (v, h1) :- EvalExpr(g, n, env, e, h);
      var (_, h2) :- EmitStruct(g.world, v, h1);
      Val(Next(env), h2)
    case Create(fact) =>
      var (f, h1) :- EvalFact(g, n, env, fact, h);
      var (_, h2) :- CreateFact(g.world, f, h1);
      Val(Next(env), h2)
    case Delete(fact) =>
      var (f, h1) :- EvalFact(g, n, env, fact, h);
      var (_, h2) :- DeleteFact(g.world, f, h1);
      Val(Next(env), h2)
    case Update(fact, to) =>
      var (f, h1) :- EvalFact(g, n, env, fact, h);
      var (t, h2) :- EvalFields(g, n, env, ValueMember, to, f, h1);
      var (_, h3) :- UpdateFact(g.world, f, t, h2);
      Val(Next(env), h3)
  }

  /** Runs the first branch whose condition holds, if there is one; names it defines stay
      visible afterwards. */
  function EvalBranches(g: Program, n: nat, env: Scope, bs: seq<Branch>, h: History): Outcome<Option<Flow>>
    decreases n, bs, 2
  {
    if bs == [] then Val(None, h)
    else
      var (v, h1) :- EvalExpr(g, n, env, bs[0].cond, h);
      if !v.BoolV? then Fail(InvalidType, h1)
      else if v.b then
        var (flow, h2) :- EvalStmts(g, n, env, bs[0].body, h1);
        Val(Some(flow), h2)
      else EvalBranches(g, n, env, bs[1..], h1)
  }

  /** Arms are tried in order; if none applies the run panics. */
  function EvalArms(g: Program, n: nat, env: Scope, arms: seq<Arm>, v: Value, h: History): Outcome<Flow>
    decreases n, arms, 2
  {
    if arms == [] then Exit(Panic, h)
    else match arms[0].pattern
      case Default => EvalStmts(g, n, env, arms[0].body, h)
      case Values(es) =>
        var (hit, h1) :- AnyEqual(g, n, env, es, v, h);
        if hit then EvalStmts(g, n, env, arms[0].body, h1)
        else EvalArms(g, n, env, arms[1..], v, h1)
  }

  /** Whether some expression equals `v`; later ones are not evaluated after a hit. */
  function AnyEqual(g: Program, n: nat, env: Scope, es: seq<Expr>, v: Value, h: History): Outcome<bool>
    decreases n, es, 0
  {
    if es == [] then Val(false, h)
    else
      var (u, h1) :- EvalExpr(g, n, env, es[0], h);
      if u == v then Val(true, h1) else AnyEqual(g, n, env, es[1..], v, h1)
  }

  /** Runs the body once per row, each time in a fresh block that binds `x` to the row. */
  function EvalMap(g: Program, n: nat, env: Scope, x: string, body: seq<Node>, rows: seq<Row>, h: History)
    : Outcome<Flow>
    decreases n, body, 2 + |rows|
  {
    if rows == [] then Val(Next(env), h)
    else match rows[0]
      case RowFailed(c) => Fail(IoError(c), h)
      case Row(ks, vs) =>
        var (inner, h1) :- Lift(Define(g.world.globals, Cons(map[], env), x, StructV(x, Collect(ks + vs))), h);
        var (flow, h2) :- EvalStmts(g, n, inner, body, h1);
        match flow
        case Returned(_) => Val(flow, h2)
        case Next(inner1) => EvalMap(g, n, Outer(inner1), x, body, rows[1..], h2)
  }
}
