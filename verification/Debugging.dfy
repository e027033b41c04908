/** Debug and release builds. A debug build evaluates the conditions of `debug_assert`, a release
    build leaves them out; runs in which all of them hold cannot tell the difference. */
module Debugging {
  import opened Values
  import opened Ast
  import S = Semantics

  function Release(g: Program): Program { g.(debug := false) }

  function Debug(g: Program): Program { g.(debug := true) }

  // ---- Every assertion reached by a release run holds ----
  //
  // `late` tells whether a condition may be undecided because it needs more depth than `n`.

  predicate HoldExpr(g: Program, n: nat, late: bool, env: Scope, e: Expr, h: History)
    decreases n, e, 0
  {
    match e
    case Literal(_) | EnumReference(_, _) | Identifier(_) => true
    case NamedStruct(name, fields) => HoldFields(g, n, late, env, StructMember, fields, StructV(name, map[]), h)
    case FactQuery(_, fact) => HoldFact(g, n, late, env, fact, h)
    case Conditional(c, yes, no) =>
      HoldExpr(g, n, late, env, c, h) &&
      (match S.EvalExpr(g, n, env, c, h)
       case Val(v, h1) => v.BoolV? ==>
         if v.b then HoldExpr(g, n, late, env, yes, h1) else HoldExpr(g, n, late, env, no, h1)
       case _ => true)
    case FunctionCall(name, args) =>
      HoldArgs(g, n, late, env, args, h) &&
      (match S.EvalArgs(g, n, env, args, h)
       case Val(vs, h1) => n > 0 ==> HoldBody(g, n - 1, late, FindDefinition(g.policy.functions, name), vs, h1)
       case _ => true)
    case ForeignCall(_, _, args) => HoldArgs(g, n, late, env, args, h)
    case Unary(_, a) => HoldExpr(g, n, late, env, a, h)
    case Binary(_, a, b) =>
      HoldExpr(g, n, late, env, a, h) &&
      (match S.EvalExpr(g, n, env, a, h) case Val(_, h1) => HoldExpr(g, n, late, env, b, h1) case _ => true)
  }

  predicate HoldArgs(g: Program, n: nat, late: bool, env: Scope, es: seq<Expr>, h: History)
    decreases n, es, 0
  {
    es != [] ==>
      HoldExpr(g, n, late, env, es[0], h) &&
      match S.EvalExpr(g, n, env, es[0], h) case Val(_, h1) => HoldArgs(g, n, late, env, es[1..], h1) case _ => true
  }

  predicate HoldFields(g: Program, n: nat, late: bool, env: Scope, m: Member, fs: seq<Field>, target: Value, h: History)
    decreases n, fs, 0
  {
    if fs == [] then true
    else match fs[0].value
      case Bind => HoldFields(g, n, late, env, m, fs[1..], target, h)
      case Given(e) =>
        HoldExpr(g, n, late, env, e, h) &&
        match S.EvalExpr(g, n, env, e, h)
        case Val(v, h1) => (
          match S.SetMemberOf(g.world, m, target, fs[0].name, v)
          case Ok(t) => HoldFields(g, n, late, env, m, fs[1..], t, h1)
          case Err(_) => true)
        case _ => true
  }

  predicate HoldFact(g: Program, n: nat, late: bool, env: Scope, f: FactLiteral, h: History)
    decreases n, f, 0
  {
    HoldFields(g, n, late, env, KeyMember, f.keys, FactV(f.name, [], []), h) &&
    match S.EvalFields(g, n, env, KeyMember, f.keys, FactV(f.name, [], []), h)
    case Val(t, h1) => (
      match f.values
      case NoValues => true
      case GivenValues(fs) => HoldFields(g, n, late, env, ValueMember, fs, t, h1))
    case _ => true
  }

  predicate HoldBody(g: Program, n: nat, late: bool, d: Option<Definition>, vs: seq<Value>, h: History)
    decreases n
  {
    d.Some? ==>
      match S.BindParams(g.world.globals, d.value.params, vs)
      case Ok(env) => HoldStmts(g, n, late, env, d.value.body, h)
      case Err(_) => true
  }

  predicate HoldStmts(g: Program, n: nat, late: bool, env: Scope, ss: seq<Node>, h: History)
    decreases n, ss, 1
  {
    ss != [] ==>
      HoldStmt(g, n, late, env, ss[0], h) &&
      match S.EvalStmt(g, n, env, ss[0], h)
      case Val(flow, h1) => flow.Next? ==> HoldStmts(g, n, late, flow.env, ss[1..], h1)
      case _ => true
  }

  predicate HoldStmt(g: Program, n: nat, late: bool, env: Scope, nd: Node, h: History)
    decreases n, nd, 0
  {
    match nd.stmt
    case DebugAssert(e) =>
      // True, and nothing else happened while finding out.
      HoldExpr(g, n, late, env, e, h) &&
      (S.EvalExpr(g, n, env, e, h) == Val(BoolV(true), h) || (late && S.EvalExpr(g, n, env, e, h).Timeout?))
    case Let(_, e) => HoldExpr(g, n, late, env, e, h)
    case CheckThat(e) => HoldExpr(g, n, late, env, e, h)
    case Return(e) => HoldExpr(g, n, late, env, e, h)
    case Publish(e) => HoldExpr(g, n, late, env, e, h)
    case Emit(e) => HoldExpr(g, n, late, env, e, h)
    case Create(fact) => HoldFact(g, n, late, env, fact, h)
    case Delete(fact) => HoldFact(g, n, late, env, fact, h)
    case Update(fact, to) =>
      HoldFact(g, n, late, env, fact, h) &&
      (match S.EvalFact(g, n, env, fact, h)
       case Val(f, h1) => HoldFields(g, n, late, env, ValueMember, to, f, h1)
       case _ => true)
    case ActionCall(name, args) => HoldCall(g, n, late, env, g.policy.actions, name, args, h)
    case FinishCall(name, args) => HoldCall(g, n, late, env, g.policy.finishFunctions, name, args, h)
    case Match(e, arms) =>
      HoldExpr(g, n, late, env, e, h) &&
      (match S.EvalExpr(g, n, env, e, h) case Val(v, h1) => HoldArms(g, n, late, env, arms, v, h1) case _ => true)
    case If(branches, fallback) =>
      HoldBranches(g, n, late, env, branches, h) &&
      (match S.EvalBranches(g, n, env, branches, h)
       case Val(taken, h1) => (
         match fallback case NoElse => true case Else(ss) => taken.None? ==> HoldStmts(g, n, late, env, ss, h1))
       case _ => true)
    case Finish(body) => HoldStmts(g, n, late, Cons(map[], env), body, h)
    case Map(fact, x, body) =>
      HoldFact(g, n, late, env, fact, h) &&
      (match S.EvalFact(g, n, env, fact, h)
       case Val(f, h1) => (
         match QueryRows(g.world, f, h1) case Ok(rows) => HoldMap(g, n, late, env, x, body, rows,
           h1) case Err(_) => true)
       case _ => true)
  }

  predicate HoldCall(g: Program, n: nat, late: bool, env: Scope, ds: seq<Definition>, name: string, args: seq<Expr>,
      h: History)
    decreases n, args, 1
  {
    HoldArgs(g, n, late, env, args, h) &&
    match S.EvalArgs(g, n, env, args, h)
    case Val(vs, h1) => n > 0 ==> HoldBody(g, n - 1, late, FindDefinition(ds, name), vs, h1)
    case _ => true
  }

  predicate HoldBranches(g: Program, n: nat, late: bool, env: Scope, bs: seq<Branch>, h: History)
    decreases n, bs, 2
  {
    bs != [] ==>
      HoldExpr(g, n, late, env, bs[0].cond, h) &&
      match S.EvalExpr(g, n, env, bs[0].cond, h)
      case Val(v, h1) =>
        v.BoolV? ==>
          if v.b then HoldStmts(g, n, late, env, bs[0].body, h1) else HoldBranches(g, n, late, env, bs[1..], h1)
      case _ => true
  }

  predicate HoldArms(g: Program, n: nat, late: bool, env: Scope, arms: seq<Arm>, v: Value, h: History)
    decreases n, arms, 2
  {
    if arms == [] then true
    else match arms[0].pattern
      case Default => HoldStmts(g, n, late, env, arms[0].body, h)
      case Values(es) =>
        HoldTests(g, n, late, env, es, v, h) &&
        match S.AnyEqual(g, n, env, es, v, h)
        case Val(hit, h1) =>
          if hit then HoldStmts(g, n, late, env, arms[0].body, h1) else HoldArms(g, n, late, env, arms[1..], v, h1)
        case _ => true
  }

  predicate HoldTests(g: Program, n: nat, late: bool, env: Scope, es: seq<Expr>, v: Value, h: History)
    decreases n, es, 0
  {
    es != [] ==>
      HoldExpr(g, n, late, env, es[0], h) &&
      match S.EvalExpr(g, n, env, es[0], h)
      case Val(u, h1) => u != v ==> HoldTests(g, n, late, env, es[1..], v, h1)
      case _ => true
  }

  predicate HoldMap(g: Program, n: nat, late: bool, env: Scope, x: string, body: seq<Node>, rows: seq<Row>, h: History)
    decreases n, body, 2 + |rows|
  {
    if rows == [] || rows[0].RowFailed? then true
    else match Define(g.world.globals, Cons(map[], env), x, StructV(x, Collect(rows[0].keys + rows[0].values)))
      case Err(_) => true
      case Ok(inner) =>
        HoldStmts(g, n, late, inner, body, h) &&
        match S.EvalStmts(g, n, inner, body, h)
        case Val(flow, h1) => flow.Next? ==> HoldMap(g, n, late, S.Outer(flow.env), x, body, rows[1..], h1)
        case _ => true
  }

  // ---- Then the debug build does the same, or needs more depth ----

  predicate Follows<T(==)>(late: bool, d: Outcome<T>, r: Outcome<T>) {
    d == r || (late && d.Timeout?)
  }

  lemma {:induction false} SameExpr(g: Program, n: nat, late: bool, env: Scope, e: Expr, h: History)
    requires HoldExpr(Release(g), n, late, env, e, h)
    ensures Follows(late, S.EvalExpr(Debug(g), n, env, e, h), S.EvalExpr(Release(g), n, env, e, h))
    ensures !S.EvalExpr(Debug(g), n, env, e, h).Timeout? ==> HoldExpr(Release(g), n, false, env, e, h)
    decreases n, e, 0
  {
    hide HoldArgs, HoldFields, HoldFact, HoldBody, S.EvalArgs, S.EvalFields, S.EvalFact, S.EvalFunction,
      S.EvalForeign, S.EvalQuery, S.UnaryValue, S.BinaryValue, FindDefinition, Lookup;
    var b := Release(g);
    match e
    case Literal(_) | EnumReference(_, _) | Identifier(_) =>
    case NamedStruct(name, fields) => SameFields(g, n, late, env, StructMember, fields, StructV(name, map[]), h);
    case FactQuery(_, fact) => SameFact(g, n, late, env, fact, h);
    case Conditional(c, yes, no) =>
      SameExpr(g, n, late, env, c, h);
      match S.EvalExpr(b, n, env, c, h) {
        case Val(v, h1) =>
          if v.BoolV? { if v.b { SameExpr(g, n, late, env, yes, h1); } else { SameExpr(g, n, late, env, no, h1); } }
        case _ =>
      }
    case FunctionCall(name, args) =>
      SameArgs(g, n, late, env, args, h);
      match S.EvalArgs(b, n, env, args, h) {
        case Val(vs, h1) =>
          if n > 0 { SameFunction(g, n - 1, late, FindDefinition(g.policy.functions, name), vs, h1); }
        case _ =>
      }
    case ForeignCall(_, _, args) => SameArgs(g, n, late, env, args, h);
    case Unary(_, a) => SameExpr(g, n, late, env, a, h);
    case Binary(_, x, y) =>
      SameExpr(g, n, late, env, x, h);
      match S.EvalExpr(b, n, env, x, h) {
        case Val(_, h1) => SameExpr(g, n, late, env, y, h1);
        case _ =>
      }
  }

  lemma {:induction false} SameArgs(g: Program, n: nat, late: bool, env: Scope, es: seq<Expr>, h: History)
    requires HoldArgs(Release(g), n, late, env, es, h)
    ensures Follows(late, S.EvalArgs(Debug(g), n, env, es, h), S.EvalArgs(Release(g), n, env, es, h))
    ensures !S.EvalArgs(Debug(g), n, env, es, h).Timeout? ==> HoldArgs(Release(g), n, false, env, es, h)
    decreases n, es, 0
  {
    hide HoldExpr, S.EvalExpr;
    if es != [] {
      SameExpr(g, n, late, env, es[0], h);
      match S.EvalExpr(Release(g), n, env, es[0], h) {
        case Val(_, h1) => SameArgs(g, n, late, env, es[1..], h1);
        case _ =>
      }
    }
  }

  lemma {:induction false} SameFields(g: Program, n: nat, late: bool, env: Scope, m: Member, fs: seq<Field>,
      target: Value, h: History)
    requires HoldFields(Release(g), n, late, env, m, fs, target, h)
    ensures Follows(late, S.EvalFields(Debug(g), n, env, m, fs, target, h),
      S.EvalFields(Release(g), n, env, m, fs, target, h))
    ensures !S.EvalFields(Debug(g), n, env, m, fs, target, h).Timeout? ==>
      HoldFields(Release(g), n, false, env, m, fs, target, h)
    decreases n, fs, 0
  {
    hide HoldExpr, S.EvalExpr, S.SetMemberOf;
    if fs != [] {
      match fs[0].value {
        case Bind => SameFields(g, n, late, env, m, fs[1..], target, h);
        case Given(e) =>
          SameExpr(g, n, late, env, e, h);
          match S.EvalExpr(Release(g), n, env, e, h) {
            case Val(v, h1) =>
              var r := S.SetMemberOf(g.world, m, target, fs[0].name, v);
              if r.Ok? { SameFields(g, n, late, env, m, fs[1..], r.value, h1); }
            case _ =>
          }
      }
    }
  }

  lemma {:induction false} SameFact(g: Program, n: nat, late: bool, env: Scope, f: FactLiteral, h: History)
    requires HoldFact(Release(g), n, late, env, f, h)
    ensures Follows(late, S.EvalFact(Debug(g), n, env, f, h), S.EvalFact(Release(g), n, env, f, h))
    ensures !S.EvalFact(Debug(g), n, env, f, h).Timeout? ==> HoldFact(Release(g), n, false, env, f, h)
    decreases n, f, 0
  {
    hide HoldFields, S.EvalFields;
    SameFields(g, n, late, env, KeyMember, f.keys, FactV(f.name, [], []), h);
    match S.EvalFields(Release(g), n, env, KeyMember, f.keys, FactV(f.name, [], []), h) {
      case Val(t, h1) =>
        if f.values.GivenValues? { SameFields(g, n, late, env, ValueMember, f.values.fields, t, h1); }
      case _ =>
    }
  }

  lemma {:induction false} SameFunction(g: Program, n: nat, late: bool, d: Option<Definition>, vs: seq<Value>,
      h: History)
    requires HoldBody(Release(g), n, late, d, vs, h)
    ensures Follows(late, S.EvalFunction(Debug(g), n, d, vs, h), S.EvalFunction(Release(g), n, d, vs, h))
    ensures !S.EvalFunction(Debug(g), n, d, vs, h).Timeout? ==> HoldBody(Release(g), n, false, d, vs, h)
    decreases n
  {
    hide HoldStmts, S.EvalStmts, S.BindParams;
    if d.Some? {
      var r := S.BindParams(g.world.globals, d.value.params, vs);
      if r.Ok? { SameStmts(g, n, late, r.value, d.value.body, h); }
    }
  }

  lemma {:induction false} SameProcedure(g: Program, n: nat, late: bool, d: Option<Definition>, vs: seq<Value>,
      h: History)
    requires HoldBody(Release(g), n, late, d, vs, h)
    ensures Follows(late, S.EvalProcedure(Debug(g), n, d, vs, h), S.EvalProcedure(Release(g), n, d, vs, h))
    ensures !S.EvalProcedure(Debug(g), n, d, vs, h).Timeout? ==> HoldBody(Release(g), n, false, d, vs, h)
    decreases n
  {
    hide HoldStmts, S.EvalStmts, S.BindParams;
    if d.Some? {
      var r := S.BindParams(g.world.globals, d.value.params, vs);
      if r.Ok? { SameStmts(g, n, late, r.value, d.value.body, h); }
    }
  }

  lemma {:induction false} SameStmts(g: Program, n: nat, late: bool, env: Scope, ss: seq<Node>, h: History)
    requires HoldStmts(Release(g), n, late, env, ss, h)
    ensures Follows(late, S.EvalStmts(Debug(g), n, env, ss, h), S.EvalStmts(Release(g), n, env, ss, h))
    ensures !S.EvalStmts(Debug(g), n, env, ss, h).Timeout? ==> HoldStmts(Release(g), n, false, env, ss, h)
    decreases n, ss, 1
  {
    hide HoldStmt, S.EvalStmt;
    if ss != [] {
      SameStmt(g, n, late, env, ss[0], h);
      match S.EvalStmt(Release(g), n, env, ss[0], h) {
        case Val(flow, h1) =>
          if flow.Next? { SameStmts(g, n, late, flow.env, ss[1..], h1); }
        case _ =>
      }
    }
  }

  predicate Nests(st: Stmt) {
    st.Match? || st.If? || st.Finish? || st.Map? || st.ActionCall? || st.FinishCall?
  }

  lemma {:induction false} SameStmt(g: Program, n: nat, late: bool, env: Scope, nd: Node, h: History)
    requires HoldStmt(Release(g), n, late, env, nd, h)
    ensures Follows(late, S.EvalStmt(Debug(g), n, env, nd, h), S.EvalStmt(Release(g), n, env, nd, h))
    ensures !S.EvalStmt(Debug(g), n, env, nd, h).Timeout? ==> HoldStmt(Release(g), n, false, env, nd, h)
    decreases n, nd, 1
  {
    hide HoldStmt, S.EvalStmt;
    if Nests(nd.stmt) { SameNested(g, n, late, env, nd, h); } else { SameSimple(g, n, late, env, nd, h); }
  }

  lemma {:induction false} SameSimple(g: Program, n: nat, late: bool, env: Scope, nd: Node, h: History)
    requires HoldStmt(Release(g), n, late, env, nd, h) && !Nests(nd.stmt)
    ensures Follows(late, S.EvalStmt(Debug(g), n, env, nd, h), S.EvalStmt(Release(g), n, env, nd, h))
    ensures !S.EvalStmt(Debug(g), n, env, nd, h).Timeout? ==> HoldStmt(Release(g), n, false, env, nd, h)
    decreases n, nd, 0
  {
    hide HoldExpr, HoldFact, HoldFields, HoldArgs, HoldBody, HoldStmts, HoldArms, HoldBranches, HoldMap, HoldCall,
      S.EvalExpr, S.EvalFact, S.EvalFields, S.EvalArgs, S.EvalProcedure, S.EvalStmts, S.EvalArms, S.EvalBranches,
      S.EvalMap, Define, QueryRows, PublishStruct, EmitStruct, CreateFact, DeleteFact, UpdateFact, FindDefinition;
    match nd.stmt
    case DebugAssert(e) => SameExpr(g, n, late, env, e, h);
    case Let(_, e) => SameExpr(g, n, late, env, e, h);
    case CheckThat(e) => SameExpr(g, n, late, env, e, h);
    case Return(e) => SameExpr(g, n, late, env, e, h);
    case Publish(e) => SameExpr(g, n, late, env, e, h);
    case Emit(e) => SameExpr(g, n, late, env, e, h);
    case Create(fact) => SameFact(g, n, late, env, fact, h);
    case Delete(fact) => SameFact(g, n, late, env, fact, h);
    case Update(fact, to) =>
      SameFact(g, n, late, env, fact, h);
      match S.EvalFact(Release(g), n, env, fact, h) {
        case Val(f, h1) => SameFields(g, n, late, env, ValueMember, to, f, h1);
        case _ =>
      }
  }

  lemma {:induction false} SameNested(g: Program, n: nat, late: bool, env: Scope, nd: Node, h: History)
    requires HoldStmt(Release(g), n, late, env, nd, h) && Nests(nd.stmt)
    ensures Follows(late, S.EvalStmt(Debug(g), n, env, nd, h), S.EvalStmt(Release(g), n, env, nd, h))
    ensures !S.EvalStmt(Debug(g), n, env, nd, h).Timeout? ==> HoldStmt(Release(g), n, false, env, nd, h)
    decreases n, nd, 0
  {
    hide HoldExpr, HoldFact, HoldFields, HoldArgs, HoldBody, HoldStmts, HoldArms, HoldBranches, HoldMap, HoldCall,
      S.EvalExpr, S.EvalFact, S.EvalFields, S.EvalArgs, S.EvalProcedure, S.EvalStmts, S.EvalArms, S.EvalBranches,
      S.EvalMap, Define, QueryRows, PublishStruct, EmitStruct, CreateFact, DeleteFact, UpdateFact, FindDefinition;
    var b := Release(g);
    match nd.stmt
    case ActionCall(name, args) => SameCall(g, n, late, env, g.policy.actions, name, args, h);
    case FinishCall(name, args) => SameCall(g, n, late, env, g.policy.finishFunctions, name, args, h);
    case Match(e, arms) =>
      SameExpr(g, n, late, env, e, h);
      match S.EvalExpr(b, n, env, e, h) {
        case Val(v, h1) => SameArms(g, n, late, env, arms, v, h1);
        case _ =>
      }
    case If(branches, fallback) =>
      SameBranches(g, n, late, env, branches, h);
      match S.EvalBranches(b, n, env, branches, h) {
        case Val(taken, h1) =>
          if taken.None? && fallback.Else? { SameStmts(g, n, late, env, fallback.body, h1); }
        case _ =>
      }
    case Finish(body) => SameStmts(g, n, late, Cons(map[], env), body, h);
    case Map(fact, x, body) =>
      SameFact(g, n, late, env, fact, h);
      match S.EvalFact(b, n, env, fact, h) {
        case Val(f, h1) =>
          var r := QueryRows(g.world, f, h1);
          if r.Ok? { SameMap(g, n, late, env, x, body, r.value, h1); }
        case _ =>
      }
  }

  lemma {:induction false} SameCall(
    g: Program, n: nat, late: bool, env: Scope, ds: seq<Definition>, name: string, args: seq<Expr>, h: History)
    requires HoldCall(Release(g), n, late, env, ds, name, args, h)
    ensures Follows(late, S.EvalArgs(Debug(g), n, env, args, h), S.EvalArgs(Release(g), n, env, args, h))
    ensures
      var o, d := S.EvalArgs(Release(g), n, env, args, h), FindDefinition(ds, name);
      o.Val? && n > 0 ==>
        Follows(late, S.EvalProcedure(Debug(g), n - 1, d, o.value, o.hist),
          S.EvalProcedure(Release(g), n - 1, d, o.value, o.hist))
    ensures
      var o, d := S.EvalArgs(Debug(g), n, env, args, h), FindDefinition(ds, name);
      !o.Timeout? && (o.Val? && n > 0 ==> !S.EvalProcedure(Debug(g), n - 1, d, o.value, o.hist).Timeout?) ==>
        HoldCall(Release(g), n, false, env, ds, name, args, h)
    decreases n, args, 1
  {
    hide HoldArgs, HoldBody, S.EvalArgs, S.EvalProcedure, FindDefinition;
    SameArgs(g, n, late, env, args, h);
    var o := S.EvalArgs(Release(g), n, env, args, h);
    if o.Val? && n > 0 { SameProcedure(g, n - 1, late, FindDefinition(ds, name), o.value, o.hist); }
  }

  lemma {:induction false} SameBranches(g: Program, n: nat, late: bool, env: Scope, bs: seq<Branch>, h: History)
    requires HoldBranches(Release(g), n, late, env, bs, h)
    ensures Follows(late, S.EvalBranches(Debug(g), n, env, bs, h), S.EvalBranches(Release(g), n, env, bs, h))
    ensures !S.EvalBranches(Debug(g), n, env, bs, h).Timeout? ==> HoldBranches(Release(g), n, false, env, bs, h)
    decreases n, bs, 2
  {
    hide HoldExpr, HoldStmts, S.EvalExpr, S.EvalStmts;
    if bs != [] {
      SameExpr(g, n, late, env, bs[0].cond, h);
      match S.EvalExpr(Release(g), n, env, bs[0].cond, h) {
        case Val(v, h1) =>
          if v.BoolV? { if v.b { SameStmts(g, n, late, env, bs[0].body, h1); }
            else { SameBranches(g, n, late, env, bs[1..], h1); } }
        case _ =>
      }
    }
  }

  lemma {:induction false} SameArms(g: Program, n: nat, late: bool, env: Scope, arms: seq<Arm>, v: Value, h: History)
    requires HoldArms(Release(g), n, late, env, arms, v, h)
    ensures Follows(late, S.EvalArms(Debug(g), n, env, arms, v, h), S.EvalArms(Release(g), n, env, arms, v, h))
    ensures !S.EvalArms(Debug(g), n, env, arms, v, h).Timeout? ==> HoldArms(Release(g), n, false, env, arms, v, h)
    decreases n, arms, 2
  {
    hide HoldTests, HoldStmts, S.AnyEqual, S.EvalStmts;
    if arms != [] {
      match arms[0].pattern {
        case Default => SameStmts(g, n, late, env, arms[0].body, h);
        case Values(es) =>
          SameTests(g, n, late, env, es, v, h);
          match S.AnyEqual(Release(g), n, env, es, v, h) {
            case Val(hit, h1) =>
              if hit { SameStmts(g, n, late, env, arms[0].body, h1); }
                else { SameArms(g, n, late, env, arms[1..], v, h1); }
            case _ =>
          }
      }
    }
  }

  lemma {:induction false} SameTests(g: Program, n: nat, late: bool, env: Scope, es: seq<Expr>, v: Value, h: History)
    requires HoldTests(Release(g), n, late, env, es, v, h)
    ensures Follows(late, S.AnyEqual(Debug(g), n, env, es, v, h), S.AnyEqual(Release(g), n, env, es, v, h))
    ensures !S.AnyEqual(Debug(g), n, env, es, v, h).Timeout? ==> HoldTests(Release(g), n, false, env, es, v, h)
    decreases n, es, 0
  {
    hide HoldExpr, S.EvalExpr;
    if es != [] {
      SameExpr(g, n, late, env, es[0], h);
      match S.EvalExpr(Release(g), n, env, es[0], h) {
        case Val(u, h1) => if u != v { SameTests(g, n, late, env, es[1..], v, h1); }
        case _ =>
      }
    }
  }

  lemma {:induction false} SameMap(
    g: Program, n: nat, late: bool, env: Scope, x: string, body: seq<Node>, rows: seq<Row>, h: History)
    requires HoldMap(Release(g), n, late, env, x, body, rows, h)
    ensures Follows(late, S.EvalMap(Debug(g), n, env, x, body, rows, h),
      S.EvalMap(Release(g), n, env, x, body, rows, h))
    ensures !S.EvalMap(Debug(g), n, env, x, body, rows, h).Timeout? ==>
      HoldMap(Release(g), n, false, env, x, body, rows, h)
    decreases n, body, 2 + |rows|
  {
    hide HoldStmts, S.EvalStmts, Define, Collect;
    if rows != [] && rows[0].Row? {
      var r := Define(g.world.globals, Cons(map[], env), x, StructV(x, Collect(rows[0].keys + rows[0].values)));
      if r.Ok? {
        SameStmts(g, n, late, r.value, body, h);
        match S.EvalStmts(Release(g), n, r.value, body, h) {
          case Val(flow, h1) =>
            if flow.Next? { SameMap(g, n, late, S.Outer(flow.env), x, body, rows[1..], h1); }
          case _ =>
        }
      }
    }
  }
}
