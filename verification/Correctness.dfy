/** Whole runs: what the host observes when it enters a loaded program. */
module Correctness {
  import opened Values
  import opened Ast
  import opened Layout
  import opened Static
  import opened SimBase
  import opened Simulation
  import M = Machine
  import S = Semantics

  // ---- The meaning of the entry points ----
  //
  // A value is the operand stack left behind by a run that ends normally.

  function ActionMeaning(g: Program, n: nat, d: Definition, args: seq<Value>, h: History): Outcome<List<Value>> {
    var (_, h1) :- S.EvalProcedure(g, n, Some(d), args, h);
    Val(Nil, h1)
  }

  /** Running a command's policy or recall block on a command and its envelope. */
  function BlockMeaning(g: Program, n: nat, ss: seq<Node>, this_: Value, envelope: Value,
      h: History): Outcome<List<Value>> {
    var (env, _) :- Lift(Define(g.world.globals, Cons(map["this" := this_], Nil), "envelope", envelope), h);
    var (_, h1) :- S.EvalStmts(g, n, env, ss, h);
    Val(Nil, h1)
  }

  /** Running a seal or open block on its argument `x`: a function that must return a value. */
  function StubMeaning(g: Program, n: nat, ss: seq<Node>, x: string, arg: Value, h: History): Outcome<List<Value>> {
    var (v, h1) :- S.EvalFunction(g, n, Some(Definition("", [x], ss, 0)), [arg], h);
    Val(Cons(v, Nil), h1)
  }

  /** The run ended the way the source did. */
  ghost predicate Ends(o: Outcome<List<Value>>, s: M.Config, n: nat, t: M.State) {
    if o.Val? then t.Halted? && t.reason == Normal && t.cfg.stack == o.value && t.cfg.hist == o.hist
    else Stopped(o, s, n, t)
  }

  // ---- Start configurations ----

  function Start(pc: int, stack: List<Value>, scope: Scope, h: History): M.Config {
    M.Config(pc, stack, Nil, Cons(scope, Nil), Nil, h)
  }

  function ActionStart(img: Image, d: Definition, args: seq<Value>, h: History): M.Config
    requires M.Label(d.name, M.ActionLabel) in img.labels
  {
    Start(img.labels[M.Label(d.name, M.ActionLabel)], PushAll(Nil, args), Cons(map[], Nil), h)
  }

  // ---- Entry points agree ----

  lemma {:induction false} ActionAgrees(img: Image, n: nat, d: Definition, args: seq<Value>, h: History)
      returns (k: nat)
    requires Loaded(img) && ActionLoaded(img, d) && |args| == |d.params|
    ensures Ends(ActionMeaning(img.g, n, d, args, h), ActionStart(img, d, args, h), n,
                    Go(img, ActionStart(img, d, args, h), k))
  {
    hide M.Run, Loaded, S.EvalProcedure;
    k := ProcedureSim(img, n, ActionSite(AllKnown(img.g.policy)), d, args, Nil, ActionStart(img, d, args, h));
  }

  lemma {:induction false} BlockAgrees(
    img: Image, n: nat, at: Site, ss: seq<Node>, this_: Value, envelope: Value, base: int, h: History)
    returns (k: nat)
    requires Loaded(img) && StmtsOk(img.g, at, ss) && (at.PolicySite? || at.RecallSite?)
    requires Holds(img, base, BlockCode(img.g, ss))
    ensures
      var s := Start(base, Cons(envelope, Nil), Cons(map["this" := this_], Nil), h);
      Ends(BlockMeaning(img.g, n, ss, this_, envelope, h), s, n, Go(img, s, k))
  {
    hide M.Run, M.Step, Loaded, S.EvalStmts, StmtsCode, StmtsOk;
    var s := Start(base, Cons(envelope, Nil), Cons(map["this" := this_], Nil), h);
    var c := StmtsCode(img.g, ss);
    DoInstr(img, s, M.Def("envelope"), c + [I(M.Exit(Normal))]);
    k := 1;
    var r := Define(img.g.world.globals, s.locals.head, "envelope", envelope);
    if r.Ok? {
      var s1 := s.(pc := base + 1, stack := Nil, locals := Cons(r.value, Nil));
      Split(img, base + 1, c, [I(M.Exit(Normal))]);
      var k1 := StmtsSim(img, n, at, ss, s1);
      Chain(img, s, 1, s1, k1);
      k := 1 + k1;
      var o := S.EvalStmts(img.g, n, r.value, ss, h);
      if o.Val? {
        var s2 := s1.(pc := s1.pc + |c|, locals := Cons(o.value.env, Nil), hist := o.hist);
        assert [I(M.Exit(Normal))] == [I(M.Exit(Normal))] + [];
        DoExit(img, s2, Normal, []);
        Chain(img, s, k, s2, 1);
        k := k + 1;
      }
    }
  }

  lemma {:induction false} StubAgrees(img: Image, n: nat, ss: seq<Node>, x: string, arg: Value, base: int, h: History)
    returns (k: nat)
    requires Loaded(img) && StmtsOk(img.g, FunctionSite(AllKnown(img.g.policy)), ss) &&
      Holds(img, base, StubCode(img.g, x, ss))
    ensures
      var s := Start(base, Cons(arg, Nil), Cons(map[], Nil), h);
      Ends(StubMeaning(img.g, n, ss, x, arg, h), s, n, Go(img, s, k))
  {
    hide M.Run, M.Step, Loaded, S.EvalStmts, StmtsCode, StmtsOk;
    var s := Start(base, Cons(arg, Nil), Cons(map[], Nil), h);
    var c := StmtsCode(img.g, ss);
    var body := [I(M.Def(x))] + (c + [I(M.Exit(Panic))]);
    assert StubCode(img.g, x, ss) == [CallBy(2)] + ([I(M.Exit(Normal))] + body);
    StubCall(img, s, [I(M.Exit(Normal))] + body);
    var s1 := Entered(s, base + 2);
    Split(img, base + 1, [I(M.Exit(Normal))], body);
    k := StubBody(img, n, ss, x, arg, s1);
    Chain(img, s, 1, s1, k);
    k := 1 + k;
    var o := StubMeaning(img.g, n, ss, x, arg, h);
    if o.Val? {
      var s2 := Left(s1).(stack := o.value, hist := o.hist);
      DoExit(img, s2, Normal, body);
      Chain(img, s, k, s2, 1);
      k := k + 1;
    }
  }

  lemma {:induction false} StubCall(img: Image, s: M.Config, rest: Code)
    requires Holds(img, s.pc, [CallBy(2)] + rest)
    ensures Go(img, s, 1) == M.Running(Entered(s, s.pc + 2))
    ensures Holds(img, s.pc + 1, rest)
  {
    hide M.Operate;
    Fetch(img, s, CallBy(2), rest);
    StepAt(img, s);
  }

  /** The body of a seal or open block, from its entry to just behind the call. */
  lemma {:induction false} StubBody(img: Image, n: nat, ss: seq<Node>, x: string, arg: Value, s: M.Config)
    returns (k: nat)
    requires Loaded(img) && StmtsOk(img.g, FunctionSite(AllKnown(img.g.policy)), ss)
    requires Holds(img, s.pc, [I(M.Def(x))] + (StmtsCode(img.g, ss) + [I(M.Exit(Panic))]))
    requires s.calls.Cons? && s.stack == Cons(arg, Nil) && s.locals.Cons? && s.locals.head == Cons(map[], Nil)
    ensures
      var o := StubMeaning(img.g, n, ss, x, arg, s.hist);
      if o.Val? then Go(img, s, k) == M.Running(Left(s).(stack := o.value, hist := o.hist))
      else Ends(o, s, n, Go(img, s, k))
  {
    hide M.Run, M.Step, Loaded, S.EvalStmts, StmtsCode, StmtsOk;
    var c := StmtsCode(img.g, ss);
    DoInstr(img, s, M.Def(x), c + [I(M.Exit(Panic))]);
    k := 1;
    OneParam(img.g.world.globals, x, arg);
    var r := S.BindParams(img.g.world.globals, [x], [arg]);
    if r.Ok? {
      var s1 := s.(pc := s.pc + 1, stack := Nil, locals := Cons(r.value, s.locals.tail));
      Split(img, s1.pc, c, [I(M.Exit(Panic))]);
      var k1 := StmtsSim(img, n, FunctionSite(AllKnown(img.g.policy)), ss, s1);
      Chain(img, s, 1, s1, k1);
      k := 1 + k1;
      var o := S.EvalStmts(img.g, n, r.value, ss, s.hist);
      if o.Val? && o.value.Next? {
        var s2 := s1.(pc := s1.pc + |c|, locals := Cons(o.value.env, s.locals.tail), hist := o.hist);
        assert [I(M.Exit(Panic))] == [I(M.Exit(Panic))] + [];
        DoExit(img, s2, Panic, []);
        Chain(img, s, k, s2, 1);
        k := k + 1;
      }
    }
  }

  lemma {:induction false} OneParam(globals: map<string, Value>, x: string, arg: Value)
    ensures S.BindParams(globals, [x], [arg]) == Define(globals, Cons(map[], Nil), x, arg)
  {
    assert S.BindParams(globals, [x][1..], [arg][1..]) == Ok(Cons(map[], Nil));
  }

  // ---- From agreement at every call depth to whole runs ----

  /** The machine started in `s` ends in `t`. */
  ghost predicate EndsIn(img: Image, s: M.Config, t: M.State) {
    !t.Running? && exists k: nat :: Go(img, s, k) == t
  }

  /** The machine started in `s` never ends. */
  ghost predicate Diverges(img: Image, s: M.Config) {
    forall k: nat :: Go(img, s, k).Running?
  }

  /** At depth `n` the machine agrees with outcome `o`. */
  ghost predicate AgreesAt(img: Image, s: M.Config, o: Outcome<List<Value>>, n: nat) {
    exists k: nat :: Ends(o, s, n, Go(img, s, k))
  }

  /** The source, explored to depth `n`, comes to an outcome, and it is what the ended run `t` shows. */
  ghost predicate Explains(o: Outcome<List<Value>>, s: M.Config, n: nat, t: M.State) {
    !o.Timeout? && Ends(o, s, n, t)
  }

  /** Agreement at every depth determines the whole run: whatever the machine ends in is what
      the source does, whatever the source does the machine ends in, and the machine diverges
      exactly when the source needs unbounded depth. */
  lemma {:induction false} Adequacy(img: Image, s: M.Config, meaning: nat -> Outcome<List<Value>>)
    requires forall n: nat :: AgreesAt(img, s, meaning(n), n)
    ensures forall t :: EndsIn(img, s, t) ==> exists n: nat :: Explains(meaning(n), s, n, t)
    ensures forall n: nat :: !meaning(n).Timeout? ==> exists t :: EndsIn(img, s, t) && Explains(meaning(n), s, n, t)
    ensures Diverges(img, s) <==> forall n: nat :: meaning(n).Timeout?
  {
    hide Go, EndsIn, Explains, AgreesAt;
    forall t | EndsIn(img, s, t) ensures exists n: nat :: Explains(meaning(n), s, n, t) {
      var n := Explained(img, s, meaning, t);
    }
    forall n: nat | !meaning(n).Timeout? ensures exists t :: EndsIn(img, s, t) && Explains(meaning(n), s, n, t) {
      var t := Ending(img, s, meaning(n), n);
    }
    Divergence(img, s, meaning);
  }

  lemma {:induction false} Ending(img: Image, s: M.Config, o: Outcome<List<Value>>, n: nat) returns (t: M.State)
    requires AgreesAt(img, s, o, n) && !o.Timeout?
    ensures EndsIn(img, s, t) && Explains(o, s, n, t)
  {
    var k: nat :| Ends(o, s, n, Go(img, s, k));
    t := Go(img, s, k);
  }

  lemma {:induction false} Explained(img: Image, s: M.Config, meaning: nat -> Outcome<List<Value>>, t: M.State)
    returns (n: nat)
    requires forall n: nat :: AgreesAt(img, s, meaning(n), n)
    requires EndsIn(img, s, t)
    ensures Explains(meaning(n), s, n, t)
  {
    hide M.Run, Ends;
    var k: nat :| Go(img, s, k) == t;
    n := k + 1;
    EndedMeans(img, s, meaning(n), k);
    var u := Ending(img, s, meaning(n), n);
    var j: nat :| Go(img, s, j) == u;
    SameEnd(img, s, j, k);
  }

  lemma {:induction false} Divergence(img: Image, s: M.Config, meaning: nat -> Outcome<List<Value>>)
    requires forall n: nat :: AgreesAt(img, s, meaning(n), n)
    ensures Diverges(img, s) <==> forall n: nat :: meaning(n).Timeout?
  {
    hide M.Run, AgreesAt, Ends;
    if n: nat :| !meaning(n).Timeout? {
      var t := Ending(img, s, meaning(n), n);
      var k: nat :| Go(img, s, k) == t;
    } else if !Diverges(img, s) {
      var k: nat :| !Go(img, s, k).Running?;
      EndedMeans(img, s, meaning(k + 1), k);
    }
  }

  /** A run that ends within `k` steps does not exhaust depth `k + 1`. */
  lemma {:induction false} EndedMeans(img: Image, s: M.Config, o: Outcome<List<Value>>, k: nat)
    requires !Go(img, s, k).Running? && AgreesAt(img, s, o, k + 1)
    ensures !o.Timeout?
  {
    var j: nat :| Ends(o, s, k + 1, Go(img, s, j));
    if o.Timeout? {
      M.CallsBounded(img.prog, img.g.world, s, j);
      if j >= k { M.EndIsFinal(img.prog, img.g.world, M.Running(s), k, j); }
    }
  }

  lemma {:induction false} SameEnd(img: Image, s: M.Config, j: nat, k: nat)
    requires !Go(img, s, j).Running? && !Go(img, s, k).Running?
    ensures Go(img, s, j) == Go(img, s, k)
  {
    if j <= k { M.EndIsFinal(img.prog, img.g.world, M.Running(s), j, k); }
    else { M.EndIsFinal(img.prog, img.g.world, M.Running(s), k, j); }
  }
}
