/** Scopes only grow: running statements adds names to the innermost block, never changes or
    removes one, and leaves every enclosing block as it was. */
module Scoping {
  import opened Values
  import opened Ast
  import S = Semantics

  /** `after` is `before` with names added to its innermost block. */
  ghost predicate Extends(before: Scope, after: Scope) {
    before.Cons? && after.Cons? && after.tail == before.tail &&
    forall x :: x in before.head ==> x in after.head && after.head[x] == before.head[x]
  }

  ghost predicate Keeps(env: Scope, o: Outcome<S.Flow>) {
    o.Val? && o.value.Next? ==> Extends(env, o.value.env)
  }

  lemma {:induction false} StmtsKeep(g: Program, n: nat, env: Scope, ss: seq<Node>, h: History)
    requires env.Cons?
    ensures Keeps(env, S.EvalStmts(g, n, env, ss, h))
    decreases ss, 1
  {
    if ss != [] {
      StmtKeeps(g, n, env, ss[0], h);
      var o := S.EvalStmt(g, n, env, ss[0], h);
      if o.Val? && o.value.Next? { StmtsKeep(g, n, o.value.env, ss[1..], o.hist); }
    }
  }

  lemma {:induction false} StmtKeeps(g: Program, n: nat, env: Scope, nd: Node, h: History)
    requires env.Cons?
    ensures Keeps(env, S.EvalStmt(g, n, env, nd, h))
    decreases nd, 0
  {
    match nd.stmt
    case If(branches, fallback) =>
      BranchesKeep(g, n, env, branches, h);
      var o := S.EvalBranches(g, n, env, branches, h);
      if o.Val? && o.value.None? && fallback.Else? { StmtsKeep(g, n, env, fallback.body, o.hist); }
    case Match(e, arms) =>
      var o := S.EvalExpr(g, n, env, e, h);
      if o.Val? { ArmsKeep(g, n, env, arms, o.value, o.hist); }
    case Map(fact, x, body) =>
      var o := S.EvalFact(g, n, env, fact, h);
      if o.Val? {
        var rows := QueryRows(g.world, o.value, o.hist);
        if rows.Ok? { MapKeeps(g, n, env, x, body, rows.value, o.hist); }
      }
    case _ =>
  }

  lemma {:induction false} BranchesKeep(g: Program, n: nat, env: Scope, bs: seq<Branch>, h: History)
    requires env.Cons?
    ensures
      var o := S.EvalBranches(g, n, env, bs, h);
      o.Val? && o.value.Some? ==> Keeps(env, Val(o.value.value, o.hist))
    decreases bs, 2
  {
    if bs != [] {
      var o := S.EvalExpr(g, n, env, bs[0].cond, h);
      if o.Val? {
        StmtsKeep(g, n, env, bs[0].body, o.hist);
        BranchesKeep(g, n, env, bs[1..], o.hist);
      }
    }
  }

  lemma {:induction false} ArmsKeep(g: Program, n: nat, env: Scope, arms: seq<Arm>, v: Value, h: History)
    requires env.Cons?
    ensures Keeps(env, S.EvalArms(g, n, env, arms, v, h))
    decreases arms, 2
  {
    if arms != [] {
      if arms[0].pattern.Default? {
        StmtsKeep(g, n, env, arms[0].body, h);
      } else {
        var o := S.AnyEqual(g, n, env, arms[0].pattern.values, v, h);
        if o.Val? {
          StmtsKeep(g, n, env, arms[0].body, o.hist);
          ArmsKeep(g, n, env, arms[1..], v, o.hist);
        }
      }
    }
  }

  /** A map statement leaves the scope exactly as it found it. */
  lemma {:induction false} MapKeeps(g: Program, n: nat, env: Scope, x: string, body: seq<Node>, rows: seq<Row>,
      h: History)
    requires env.Cons?
    ensures
      var o := S.EvalMap(g, n, env, x, body, rows, h);
      o.Val? && o.value.Next? ==> o.value.env == env
    decreases body, 2 + |rows|
  {
    if rows != [] && rows[0].Row? {
      var inner := Define(g.world.globals, Cons(map[], env), x, StructV(x, Collect(rows[0].keys + rows[0].values)));
      if inner.Ok? {
        StmtsKeep(g, n, inner.value, body, h);
        var o := S.EvalStmts(g, n, inner.value, body, h);
        if o.Val? && o.value.Next? { MapKeeps(g, n, env, x, body, rows[1..], o.hist); }
      }
    }
  }

  // ---- Parameters ----

  /** Distinct names, none of them global. */
  ghost predicate Bindable(globals: map<string, Value>, params: seq<string>) {
    forall i :: 0 <= i < |params| ==> params[i] !in globals && params[i] !in params[i + 1..]
  }

  lemma {:induction false} BindableStep(globals: map<string, Value>, params: seq<string>)
    requires params != []
    ensures Bindable(globals, params) <==>
      params[0] !in globals && params[0] !in params[1..] && Bindable(globals, params[1..])
  {
    var rest := params[1..];
    if Bindable(globals, params) {
      forall i | 0 <= i < |rest| ensures rest[i] !in globals && rest[i] !in rest[i + 1..] {
        assert rest[i] == params[i + 1] && rest[i + 1..] == params[i + 1 + 1..];
      }
    }
    if params[0] !in globals && params[0] !in rest && Bindable(globals, rest) {
      forall i | 0 <= i < |params| ensures params[i] !in globals && params[i] !in params[i + 1..] {
        if i > 0 { assert params[i] == rest[i - 1] && params[i + 1..] == rest[i - 1 + 1..]; }
      }
    }
  }

  /** A call binds each parameter to its own argument and nothing else, and succeeds exactly when
      the parameters are distinct and none hides a global. */
  lemma {:induction false} ParamsBound(globals: map<string, Value>, params: seq<string>, args: seq<Value>)
    requires |params| == |args|
    ensures S.BindParams(globals, params, args).Ok? <==> Bindable(globals, params)
    ensures
      var r := S.BindParams(globals, params, args);
      r.Ok? ==>
        r.value.Cons? && r.value.tail == Nil &&
        (forall x :: x in r.value.head <==> x in params) &&
        (forall i :: 0 <= i < |params| ==> r.value.head[params[i]] == args[i])
    decreases |params|
  {
    if params != [] {
      ParamsBound(globals, params[1..], args[1..]);
      BindableStep(globals, params);
      hide Bindable;
      var r := S.BindParams(globals, params[1..], args[1..]);
      if r.Ok? {
        assert DefinedIn(r.value, params[0]) <==> params[0] in params[1..];
        if params[0] !in params[1..] && params[0] !in globals {
          forall i | 0 <= i < |params| ensures (r.value.head[params[0] := args[0]])[params[i]] == args[i] {
            if i > 0 { assert params[i] == params[1..][i - 1] && args[i] == args[1..][i - 1]; }
          }
        }
      }
    }
  }
}
