/** The tracer and the machine: the paths the tracer follows cover every run that halts, so what
    an analyzer would say of a run is in the tracer's report. */
module TraceRuns {
  import opened Values
  import opened Tracing
  import opened Discipline
  import M = Machine

  /** The pending calls of a configuration, innermost last. */
  function Pending(calls: List<int>): seq<int> {
    match calls
    case Nil => []
    case Cons(a, rest) => Pending(rest) + [a]
  }

  function PlaceOf(s: M.Config): Place {
    Place(s.pc, Pending(s.calls))
  }

  /** A branch whose target was never resolved: the machine only fails when it jumps there, the
      tracer fails in any case. */
  predicate Loose(prog: seq<M.Instr>, pc: int) {
    0 <= pc < |prog| && prog[pc].Branch? && prog[pc].target.Unresolved?
  }

  /** Wherever the machine goes in one step, the tracer goes too, unless it passes a loose branch;
      where the machine halts, the tracer ends the path. */
  lemma {:induction false} StepFollows<A>(c: Code<A>, w: World, s: M.Config)
    ensures
      var t := M.Step(c.prog, w, s);
      (t.Running? ==> if Loose(c.prog, s.pc) then Ahead(c, PlaceOf(s)).None?
        else Ahead(c, PlaceOf(s)).Some? && PlaceOf(t.cfg) in Ahead(c, PlaceOf(s)).value) &&
      (t.Halted? ==> Ahead(c, PlaceOf(s)) == Some([]))
  {
    hide M.Operate;
    if 0 <= s.pc < |c.prog| {
      var i, at, t := c.prog[s.pc], PlaceOf(s), M.Step(c.prog, w, s);
      match i
      case Jump(_) => assert t.Running? ==> Ahead(c, at).value[0] == PlaceOf(t.cfg);
      case Branch(_) =>
        AheadBranch(c, at);
        if t.Running? && !Loose(c.prog, s.pc) { assert Ahead(c, at).value[if s.stack.head.b then 0 else 1] ==
          PlaceOf(t.cfg); }
      case Call(_) => assert t.Running? ==> Ahead(c, at).value[0] == PlaceOf(t.cfg);
      case Return =>
        if s.calls.Cons? {
          assert Pending(s.calls)[..|Pending(s.calls)| - 1] == Pending(s.calls.tail);
          assert t.Running? ==> Ahead(c, at).value[0] == PlaceOf(t.cfg);
        }
      case Exit(_) =>
      case Next =>
      case Last =>
      case _ =>
        SameCalls(w, i, s);
        assert Ahead(c, at).value[0] == Place(s.pc + 1, at.stack);
    }
  }

  /** Only control instructions touch the calls, and none of the others halts. */
  lemma {:induction false} SameCalls(w: World, i: M.Instr, s: M.Config)
    ensures
      var t := M.Operate(w, i, s);
      (t.Running? ==> t.cfg.calls == s.calls && t.cfg.pc == s.pc) && !t.Halted?
  {
    hide M.OnTop, M.Binary, M.SetMember, M.Consume, UpdateFact, CallForeign, QueryRows, PopMany, M.Nth, M.Replace;
  }

  /** The places a run passes within `k` steps. */
  function Visited(prog: seq<M.Instr>, w: World, s: M.Config, k: nat): seq<Place>
    decreases k
  {
    if k == 0 then []
    else
      var t := M.Step(prog, w, s);
      [PlaceOf(s)] + if t.Running? then Visited(prog, w, t.cfg, k - 1) else []
  }

  ghost predicate Tight(prog: seq<M.Instr>, p: seq<Place>) {
    forall j :: 0 <= j < |p| ==> !Loose(prog, p[j].pc)
  }

  /** A run that halts is a complete path if and only if it passes no loose branch. */
  lemma {:induction false} RunIsPath<A>(c: Code<A>, w: World, s: M.Config, k: nat)
    requires M.Run(c.prog, w, M.Running(s), k).Halted?
    ensures PathFrom(c, PlaceOf(s), Visited(c.prog, w, s, k)) <==> Tight(c.prog, Visited(c.prog, w, s, k))
    decreases k
  {
    hide M.Step, Ahead, Loose;
    var t, p := M.Step(c.prog, w, s), Visited(c.prog, w, s, k);
    StepFollows(c, w, s);
    if t.Running? {
      RunIsPath(c, w, t.cfg, k - 1);
      var rest := Visited(c.prog, w, t.cfg, k - 1);
      assert p == [PlaceOf(s)] + rest && p[1..] == rest;
      assert k > 1 && rest[0] == PlaceOf(t.cfg);
      assert Tight(c.prog, p) <==> !Loose(c.prog, s.pc) && Tight(c.prog, rest) by {
        assert forall j :: 0 < j < |p| ==> p[j] == rest[j - 1];
        if Tight(c.prog, p) { assert !Loose(c.prog, p[0].pc) && forall j :: 0 <= j < |rest| ==> rest[j] == p[j + 1]; }
      }
    } else {
      assert M.Run(c.prog, w, t, k - 1) == t;
      assert p == [PlaceOf(s)];
      EndIsTight(c, s);
    }
  }

  lemma EndIsTight<A>(c: Code<A>, s: M.Config)
    ensures Ahead(c, PlaceOf(s)) == Some([]) ==> !Loose(c.prog, s.pc)
  {
  }

  /** What an analyzer says of a run that halts, on the machine with its bounded operand stack,
      is in the report of a trace from where the run started. */
  lemma {:induction false} RunsAreReported<A>(c: Code<A>, analyzers: seq<A>, w: World, s: M.Config, k: nat, j: nat)
    requires M.RealRun(c.prog, w, M.Running(s), k).Halted? && s.calls.Nil? && j < |analyzers|
    requires Tight(c.prog, Visited(c.prog, w, s, k))
    ensures forall f :: f in Alone(c, analyzers[j], true, [], Visited(c.prog, w, s, k)) ==>
      Reported(c, analyzers, s.pc, f.instruction, f.message)
  {
    hide Alone, Path;
    M.RealAgrees(c.prog, w, M.Running(s), k);
    RunIsPath(c, w, s, k);
    var p := Visited(c.prog, w, s, k);
    var said := Alone(c, analyzers[j], true, [], p);
    forall f | f in said ensures Reported(c, analyzers, s.pc, f.instruction, f.message) {
      assert Mentions(said, f.instruction, f.message);
    }
  }

  /** In a module the compiler hands over, every run that halts is a complete path. */
  lemma {:induction false} CompiledRunIsPath<A>(c: Code<A>, w: World, s: M.Config, k: nat)
    requires forall i :: 0 <= i < |c.prog| ==> WellLinked(c.prog, i)
    requires M.Run(c.prog, w, M.Running(s), k).Halted?
    ensures PathFrom(c, PlaceOf(s), Visited(c.prog, w, s, k))
  {
    hide PathFrom, M.Step;
    RunIsPath(c, w, s, k);
    assert forall pc :: 0 <= pc < |c.prog| ==> WellLinked(c.prog, pc) && !Loose(c.prog, pc);
  }

  // ---- No other places ----

  function Calls(stack: seq<int>): (calls: List<int>)
    ensures Pending(calls) == stack
  {
    if stack == [] then Nil
    else
      assert stack[..|stack| - 1] + [stack[|stack| - 1]] == stack;
      Cons(stack[|stack| - 1], Calls(stack[..|stack| - 1]))
  }

  ghost predicate Goes<A>(c: Code<A>, w: World, s: M.Config, at: Place, to: Place) {
    var t := M.Step(c.prog, w, s);
    PlaceOf(s) == at && t.Running? && PlaceOf(t.cfg) == to
  }

  /** The tracer invents no way on: at a jump, branch, call or return, every place ahead is where
      some configuration of the machine goes. */
  lemma {:induction false} AheadIsReached<A>(c: Code<A>, w: World, at: Place, i: nat)
    requires 0 <= at.pc < |c.prog| && Ahead(c, at).Some? && i < |Ahead(c, at).value|
    requires M.IsControl(c.prog[at.pc]) && (c.prog[at.pc].Call? ==> c.prog[at.pc].target.Resolved?)
    requires !c.prog[at.pc].Next? && !c.prog[at.pc].Last?
    ensures exists s :: Goes(c, w, s, at, Ahead(c, at).value[i])
  {
    var s := M.Config(at.pc, Cons(BoolV(i == 0), Nil), Calls(at.stack), Cons(Cons(map[], Nil), Nil), Nil, []);
    assert PlaceOf(s) == at;
    if c.prog[at.pc].Return? {
      assert Pending(s.calls)[..|at.stack| - 1] == Pending(s.calls.tail);
    }
    assert Goes(c, w, s, at, Ahead(c, at).value[i]);
  }
}
