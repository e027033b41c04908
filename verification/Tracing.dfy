/** The code-path tracer: explores every control-flow path of a module and runs analyzers, each
    an arbitrary state machine over instructions, along the way. */
module Tracing {
  import opened Values
  import opened Layout
  import M = Machine

  datatype Status = Fine | Failed(message: string) | Halted(message: string)

  /** An analyzer's reaction to an instruction: a new state and a status, or an error. */
  datatype Answer<A> = Gave(state: A, status: Status) | Broke

  datatype Failure = Failure(path: seq<int>, instruction: int, message: string)

  /** A module as the tracer sees it, and the behaviour of its analyzers. */
  datatype Code<!A> = Code(prog: seq<M.Instr>, labels: Labels, analyze: (A, int, M.Instr) -> Answer<A>)

  // ---- Control flow ----

  /** A place in the code together with the pending calls, innermost last. */
  datatype Place = Place(pc: int, stack: seq<int>)

  /** Where control can go from a place: nowhere at an exit or outermost return, to both sides of
      a branch (the target first), to one place otherwise. `None` when the code is broken. */
  function Ahead<A>(c: Code<A>, at: Place): Option<seq<Place>> {
    if !(0 <= at.pc < |c.prog|) then None
    else match c.prog[at.pc]
      case Jump(t) => if t.Resolved? then Some([at.(pc := t.addr)]) else None
      case Branch(t) => if t.Resolved? then Some([at.(pc := t.addr), at.(pc := at.pc + 1)]) else None
      case Call(t) =>
        var there := match t
          case Resolved(a) => Some(a)
          case Unresolved(l) => if l in c.labels then Some(c.labels[l]) else None;
        if there.Some? then Some([Place(there.value, at.stack + [at.pc])]) else None
      case Return =>
        if at.stack == [] then Some([])
        else Some([Place(at.stack[|at.stack| - 1] + 1, at.stack[..|at.stack| - 1])])
      case Exit(_) => Some([])
      case _ => Some([at.(pc := at.pc + 1)])
  }

  /** Every path from here ends, or runs into broken code, within `n` steps. */
  ghost predicate Bounded<A>(c: Code<A>, at: Place, n: nat)
    decreases n
  {
    var next := Ahead(c, at);
    next.None? || forall i :: 0 <= i < |next.value| ==> n > 0 && Bounded(c, next.value[i], n - 1)
  }

  /** A complete path: from one place to the next, up to an end. */
  ghost predicate Path<A>(c: Code<A>, p: seq<Place>) {
    p != [] && Ahead(c, p[0]).Some? &&
    if |p| == 1 then Ahead(c, p[0]).value == []
    else p[1] in Ahead(c, p[0]).value && Path(c, p[1..])
  }

  ghost predicate PathFrom<A>(c: Code<A>, at: Place, p: seq<Place>) {
    p != [] && p[0] == at && Path(c, p)
  }

  // ---- One analyzer alone on one path ----

  /** What an analyzer in state `a` reports along `p`, given what came before. */
  function Alone<A>(c: Code<A>, a: A, on: bool, before: seq<int>, p: seq<Place>): seq<Failure>
    decreases p
  {
    if p == [] || !on || !(0 <= p[0].pc < |c.prog|) then []
    else
      var pc := p[0].pc;
      var here := before + [pc];
      match c.analyze(a, pc, c.prog[pc])
      case Broke => []
      case Gave(a1, status) =>
        match status
        case Fine => Alone(c, a1, true, here, p[1..])
        case Failed(m) => [Failure(here, pc, m)] + Alone(c, a1, true, here, p[1..])
        case Halted(m) => [Failure(here, pc, m)]
  }

  // ---- What the tracer computes ----

  /** The state a tracer carries along a path. */
  datatype View<A> = View(path: seq<int>, branches: seq<int>, enabled: seq<bool>, analyzers: seq<A>)

  predicate Wide<A>(v: View<A>) { |v.enabled| == |v.analyzers| }

  /** Failures by analyzer, and the branches passed on each path that came to an end. */
  datatype Found = Found(failures: seq<seq<Failure>>, ends: seq<seq<int>>)

  function Joined(a: seq<seq<Failure>>, b: seq<seq<Failure>>): (r: seq<seq<Failure>>)
    requires |a| == |b|
    ensures |r| == |a|
  {
    seq(|a|, i requires 0 <= i < |a| => a[i] + b[i])
  }

  /** How one analyzer takes an instruction: its next state, whether it stays enabled, and what
      it reports. */
  function React<A>(c: Code<A>, v: View<A>, pc: int, i: nat): Option<(A, bool, seq<Failure>)>
    requires Wide(v) && i < |v.analyzers| && 0 <= pc < |c.prog|
  {
    if !v.enabled[i] then Some((v.analyzers[i], false, []))
    else match c.analyze(v.analyzers[i], pc, c.prog[pc])
      case Broke => None
      case Gave(a1, Fine) => Some((a1, true, []))
      case Gave(a1, Failed(m)) => Some((a1, true, [Failure(v.path, pc, m)]))
      case Gave(a1, Halted(m)) => Some((a1, false, [Failure(v.path, pc, m)]))
  }

  predicate AllReact<A>(c: Code<A>, v: View<A>, pc: int)
    requires Wide(v) && 0 <= pc < |c.prog|
  {
    forall i :: 0 <= i < |v.analyzers| ==> React(c, v, pc, i).Some?
  }

  function Reacted<A>(c: Code<A>, v: View<A>, pc: int): View<A>
    requires Wide(v) && 0 <= pc < |c.prog| && AllReact(c, v, pc)
  {
    v.(enabled := seq(|v.analyzers|, i requires 0 <= i < |v.analyzers| => React(c, v, pc, i).value.1),
       analyzers := seq(|v.analyzers|, i requires 0 <= i < |v.analyzers| => React(c, v, pc, i).value.0))
  }

  function News<A>(c: Code<A>, v: View<A>, pc: int): seq<seq<Failure>>
    requires Wide(v) && 0 <= pc < |c.prog| && AllReact(c, v, pc)
  {
    seq(|v.analyzers|, i requires 0 <= i < |v.analyzers| => React(c, v, pc, i).value.2)
  }

  /** Puts what was found first in front. */
  function After(f: Found, r: Option<Found>): Option<Found>
    requires r.Some? ==> |f.failures| == |r.value.failures|
  {
    match r
    case None => None
    case Some(g) => Some(Found(Joined(f.failures, g.failures), f.ends + g.ends))
  }

  /** What is handed back from the target of a branch: the failures, and the paths that ended
      only if there is an analyzer to carry them. */
  function Handed(f: Found): Found {
    Found(f.failures, if f.failures == [] then [] else f.ends)
  }

  ghost function Explore<A>(c: Code<A>, v: View<A>, at: Place, n: nat): (r: Option<Found>)
    requires Wide(v) && Bounded(c, at, n)
    ensures r.Some? ==> |r.value.failures| == |v.analyzers|
    decreases n
  {
    var v1 := v.(path := v.path + [at.pc]);
    var next := Ahead(c, at);
    if next.None? || !AllReact(c, v1, at.pc) then None
    else
      var v2, news := Reacted(c, v1, at.pc), News(c, v1, at.pc);
      if |next.value| == 0 then Some(Found(news, [v2.branches]))
      else if |next.value| == 1 then After(Found(news, []), Explore(c, v2, next.value[0], n - 1))
      else
        var v3 := v2.(branches := v2.branches + [at.pc]);
        match Explore(c, v3, next.value[0], n - 1)
        case None => None
        case Some(f) => After(Found(news, []), After(Handed(f), Explore(c, v3, next.value[1], n - 1)))
  }

  lemma {:induction false} AfterAfter(f: Found, g: Found, r: Option<Found>)
    requires |f.failures| == |g.failures| && (r.Some? ==> |g.failures| == |r.value.failures|)
    ensures After(Found(Joined(f.failures, g.failures), f.ends + g.ends), r) == After(f, After(g, r))
  {
    if r.Some? {
      var a, b, c := f.failures, g.failures, r.value.failures;
      forall i | 0 <= i < |a| ensures Joined(Joined(a, b), c)[i] == Joined(a, Joined(b, c))[i] {
        assert (a[i] + b[i]) + c[i] == a[i] + (b[i] + c[i]);
      }
      assert Joined(Joined(a, b), c) == Joined(a, Joined(b, c));
      assert (f.ends + g.ends) + r.value.ends == f.ends + (g.ends + r.value.ends);
    }
  }

  // ---- The tracer ----

  class TraceAnalyzer<!A> {
    const code: Code<A>
    /** Call sites of the calls that are open. */
    var callStack: seq<int>
    var path: seq<int>
    var branches: seq<int>
    var enabled: seq<bool>
    var analyzers: seq<A>

    constructor (code: Code<A>, callStack: seq<int>, path: seq<int>, branches: seq<int>, enabled: seq<bool>,
      analyzers: seq<A>)
      ensures this.code == code && this.callStack == callStack && Now() == View(path, branches, enabled, analyzers)
    {
      this.code := code;
      this.callStack := callStack;
      this.path := path;
      this.branches := branches;
      this.enabled := enabled;
      this.analyzers := analyzers;
    }

    function Now(): View<A>
      reads this
    {
      View(path, branches, enabled, analyzers)
    }

    /** Shows the instruction to every analyzer that is enabled. */
    method AnalyzeInstruction(pc: int) returns (ar: seq<Option<Status>>)
      requires Wide(Now()) && 0 <= pc < |code.prog|
      modifies this`analyzers
      ensures |ar| == |analyzers| == |old(analyzers)|
      ensures forall k :: 0 <= k < |ar| ==> Noted(code, old(Now()), pc, k, ar[k], analyzers[k])
    {
      ar := [];
      for k := 0 to |analyzers|
        invariant |analyzers| == |old(analyzers)| && |ar| == k
        invariant forall j :: 0 <= j < k ==> Noted(code, old(Now()), pc, j, ar[j], analyzers[j])
        invariant forall j :: k <= j < |analyzers| ==> analyzers[j] == old(analyzers)[j]
      {
        if !enabled[k] {
          ar := ar + [Some(Fine)];
        } else {
          match code.analyze(analyzers[k], pc, code.prog[pc])
          case Broke => ar := ar + [None];
          case Gave(a, status) =>
            analyzers := analyzers[k := a];
            ar := ar + [Some(status)];
        }
      }
    }

    /** Runs the analyzers on one instruction and files what they report. */
    method Record(pc: int, failures: seq<seq<Failure>>) returns (ok: bool, more: seq<seq<Failure>>)
      requires Wide(Now()) && 0 <= pc < |code.prog| && |failures| == |analyzers|
      modifies this`analyzers, this`enabled
      ensures ok == AllReact(code, old(Now()), pc)
      ensures ok ==> Now() == Reacted(code, old(Now()), pc) && more == Joined(failures, News(code, old(Now()), pc))
    {
      var ar := AnalyzeInstruction(pc);
      ghost var v, now := old(Now()), analyzers;
      more := failures;
      for k := 0 to |ar|
        invariant analyzers == now && path == v.path && branches == v.branches
        invariant |more| == |failures| == |enabled| == |ar|
        invariant forall j :: 0 <= j < k ==> React(code, v, pc, j).Some?
        invariant forall j :: 0 <= j < k ==> enabled[j] == React(code, v, pc, j).value.1
        invariant forall j :: 0 <= j < k ==> more[j] == failures[j] + React(code, v, pc, j).value.2
        invariant forall j :: k <= j < |ar| ==> enabled[j] == v.enabled[j] && more[j] == failures[j]
      {
        assert Noted(code, v, pc, k, ar[k], analyzers[k]);
        if ar[k].None? {
          assert React(code, v, pc, k).None?;
          return false, more;
        }
        if ar[k].value.Halted? { enabled := enabled[k := false]; }
        if !ar[k].value.Fine? {
          more := more[k := more[k] + [Failure(path, pc, ar[k].value.message)]];
        }
        assert failures[k] + [] == failures[k];
      }
      assert forall k :: 0 <= k < |ar| ==> Noted(code, v, pc, k, ar[k], analyzers[k]);
      return true, more;
    }

    /** The address that follows an instruction that has just one, keeping the call stack. */
    method Advance(pc: int) returns (next: Option<int>)
      requires 0 <= pc < |code.prog| && !code.prog[pc].Branch? && !code.prog[pc].Exit?
      requires code.prog[pc].Return? ==> callStack != []
      modifies this`callStack
      ensures Ahead(code, Place(pc, old(callStack))) ==
        if next.None? then None else Some([Place(next.value, callStack)])
    {
      match code.prog[pc]
      case Jump(t) =>
        if t.Unresolved? { return None; }
        return Some(t.addr);
      case Call(t) =>
        match t {
          case Unresolved(l) =>
            if l !in code.labels { return None; }
            callStack := callStack + [pc];
            return Some(code.labels[l]);
          case Resolved(a) =>
            callStack := callStack + [pc];
            return Some(a);
        }
      case Return =>
        var site := callStack[|callStack| - 1];
        callStack := callStack[..|callStack| - 1];
        return Some(site + 1);
      case _ => return Some(pc + 1);
    }

    /** Follows one path from `entry`, recursing with a copy of itself at the target of every
        branch. It finds exactly what exploring all paths finds. */
    method TraceInner(entry: int, ghost n: nat) returns (r: Option<Found>)
      requires Wide(Now()) && Bounded(code, Place(entry, callStack), n)
      modifies this
      ensures r == old(Explore(code, Now(), Place(entry, callStack), n))
      decreases n
    {
      hide Explore, Bounded, AllReact, Reacted, News, Joined, After, React, Ahead;
      var pc := entry;
      var failures: seq<seq<Failure>> := seq(|analyzers|, _ => []);
      var ends: seq<seq<int>> := [];
      ghost var steps: nat := n;
      ghost var whole := Explore(code, Now(), Place(entry, callStack), n);
      AfterNothing(|analyzers|, whole);
      while 0 <= pc < |code.prog|
        invariant Wide(Now()) && |failures| == |analyzers|
        invariant Bounded(code, Place(pc, callStack), steps) && steps <= n
        invariant whole == After(Found(failures, ends), Explore(code, Now(), Place(pc, callStack), steps))
        decreases steps
      {
        ghost var at, v, f := Place(pc, callStack), Now(), Found(failures, ends);
        path := path + [pc];
        var ok;
        ok, failures := Record(pc, failures);
        AfterNone(f);
        if !ok {
          ExploreNone(code, v, at, steps);
          return None;
        }
        var i := code.prog[pc];
        if i.Exit? || (i.Return? && callStack == []) {
          AheadEnd(code, at);
          ExploreEnd(code, v, at, steps, f);
          return Some(Found(failures, ends + [branches]));
        }
        if i.Branch? {
          branches := branches + [pc];
          AheadBranch(code, at);
          if i.target.Unresolved? {
            ExploreNone(code, v, at, steps);
            return None;
          }
          ExploreTwo(code, v, at, steps, f, Place(i.target.addr, callStack), Place(pc + 1, callStack));
          var jump := new TraceAnalyzer(code, callStack, path, branches, enabled, analyzers);
          var found := jump.TraceInner(i.target.addr, steps - 1);
          if found.None? { return None; }
          failures, ends := Appended(failures, ends, found.value);
          pc, steps := pc + 1, steps - 1;
        } else {
          var next := Advance(pc);
          if next.None? {
            ExploreNone(code, v, at, steps);
            return None;
          }
          ExploreOne(code, v, at, steps, f, Place(next.value, callStack));
          pc, steps := next.value, steps - 1;
        }
      }
      AfterNone(Found(failures, ends));
      ExploreOff(code, Now(), Place(pc, callStack), steps);
      return None;
    }

    /** Traces from an address. The report is sorted by instruction and says, up to the path a
        failure was found on, exactly what the analyzers say on their own: a pair of instruction
        and message is in it if and only if some analyzer reports it on some complete path. */
    method TracePc(start: int, ghost n: nat) returns (r: Option<seq<Failure>>)
      requires callStack == [] && path == [] && branches == [] && Bounded(code, Place(start, []), n)
      modifies this
      ensures r.None? <==> exists p :: Trouble(code, old(analyzers), AllOn(|old(analyzers)|), Place(start, []), p)
      ensures r.Some? ==> ByInstruction(r.value) && NoTwins(r.value)
      ensures r.Some? ==> forall i, m :: Mentions(r.value, i, m) <==> Reported(code, old(analyzers), start, i, m)
      ensures r.Some? ==> forall k :: 0 <= k < |r.value| ==> SaidOn(code, old(analyzers), start, r.value[k])
      ensures r.Some? ==>
        var found := Explore(code, View([], [], AllOn(|old(analyzers)|), old(analyzers)), Place(start, []), n);
        found.Some? && exists all :: StableOrder(Flatten(found.value.failures), all) && KeepsFirsts(all, r.value)
    {
      hide Explore, Bounded, Trouble, StableOrder, KeepsFirsts, NoTwins, SaidOn;
      enabled := AllOn(|analyzers|);
      ghost var v := Now();
      FailsExactly(code, v, Place(start, []), n);
      var found := TraceInner(start, n);
      if found.None? { return None; }
      var failures := Flatten(found.value.failures);
      forall i, m ensures Mentions(Deduped(Sorted(failures)), i, m) <==> Reported(code, v.analyzers, start, i, m) {
        DedupKeeps(Sorted(failures), i, m);
        SortKeeps(failures, i, m);
        ReportExact(code, v, start, n, i, m);
      }
      SortOrders(failures);
      SortStable(failures);
      DedupOrders(Sorted(failures));
      DedupFirsts(Sorted(failures));
      forall k | 0 <= k < |Deduped(Sorted(failures))|
        ensures SaidOn(code, v.analyzers, start, Deduped(Sorted(failures))[k])
      {
        EntrySaid(code, v, start, n, Deduped(Sorted(failures))[k]);
      }
      return Some(Deduped(Sorted(failures)));
    }

    /** Traces from a label. */
    method Trace(start: M.Label, ghost n: nat) returns (r: Option<seq<Failure>>)
      requires callStack == [] && path == [] && branches == []
      requires start in code.labels ==> Bounded(code, Place(code.labels[start], []), n)
      modifies this
      ensures r.None? <==>
        start !in code.labels ||
        exists p :: Trouble(code, old(analyzers), AllOn(|old(analyzers)|), Place(code.labels[start], []), p)
      ensures r.Some? ==> ByInstruction(r.value) && NoTwins(r.value)
      ensures r.Some? ==>
        start in code.labels &&
        (forall k :: 0 <= k < |r.value| ==> SaidOn(code, old(analyzers), code.labels[start], r.value[k])) &&
        forall i, m :: Mentions(r.value, i, m) <==> Reported(code, old(analyzers), code.labels[start], i, m)
    {
      if start !in code.labels { return None; }
      r := TracePc(code.labels[start], n);
    }
  }

  // ---- Exploring one instruction ----

  lemma AfterNone(f: Found)
    ensures After(f, None) == None
  {
  }

  lemma {:induction false} ExploreNone<A>(c: Code<A>, v: View<A>, at: Place, n: nat)
    requires Wide(v) && Bounded(c, at, n) && 0 <= at.pc < |c.prog|
    requires Ahead(c, at).None? || !AllReact(c, v.(path := v.path + [at.pc]), at.pc)
    ensures Explore(c, v, at, n).None?
  {
  }

  lemma ExploreOff<A>(c: Code<A>, v: View<A>, at: Place, n: nat)
    requires Wide(v) && Bounded(c, at, n) && !(0 <= at.pc < |c.prog|)
    ensures Explore(c, v, at, n).None?
  {
  }

  lemma {:induction false} ExploreEnd<A>(c: Code<A>, v: View<A>, at: Place, n: nat, f: Found)
    requires Wide(v) && Bounded(c, at, n) && 0 <= at.pc < |c.prog| && Ahead(c, at) == Some([]) &&
      |f.failures| == |v.analyzers|
    requires AllReact(c, v.(path := v.path + [at.pc]), at.pc)
    ensures After(f, Explore(c, v, at, n)) ==
      Some(Found(Joined(f.failures, News(c, v.(path := v.path + [at.pc]), at.pc)), f.ends + [v.branches]))
  {
  }

  /** The view after showing one more instruction to the analyzers. */
  function Shown<A>(c: Code<A>, v: View<A>, pc: int): View<A>
    requires Wide(v) && 0 <= pc < |c.prog| && AllReact(c, v.(path := v.path + [pc]), pc)
  {
    Reacted(c, v.(path := v.path + [pc]), pc)
  }

  function Heard<A>(c: Code<A>, v: View<A>, pc: int): seq<seq<Failure>>
    requires Wide(v) && 0 <= pc < |c.prog| && AllReact(c, v.(path := v.path + [pc]), pc)
  {
    News(c, v.(path := v.path + [pc]), pc)
  }

  lemma {:induction false} ExploreOne<A>(c: Code<A>, v: View<A>, at: Place, n: nat, f: Found, next: Place)
    requires Wide(v) && Bounded(c, at, n) && 0 <= at.pc < |c.prog| && Ahead(c, at) == Some([next])
    requires AllReact(c, v.(path := v.path + [at.pc]), at.pc) && |f.failures| == |v.analyzers|
    ensures
      var v', news := Shown(c, v, at.pc), Heard(c, v, at.pc);
      n > 0 && Bounded(c, next, n - 1) && Wide(v') && |v'.analyzers| == |news| == |v.analyzers| &&
      After(f, Explore(c, v, at, n)) == After(Found(Joined(f.failures, news), f.ends), Explore(c, v', next, n - 1))
  {
    var v', news := Shown(c, v, at.pc), Heard(c, v, at.pc);
    assert Bounded(c, Ahead(c, at).value[0], n - 1);
    assert f.ends + [] == f.ends;
    AfterAfter(f, Found(news, []), Explore(c, v', next, n - 1));
  }

  lemma {:induction false} ExploreTwo<A>(c: Code<A>, v: View<A>, at: Place, n: nat, f: Found, jump: Place, fall: Place)
    requires Wide(v) && Bounded(c, at, n) && 0 <= at.pc < |c.prog| && Ahead(c, at) == Some([jump, fall])
    requires AllReact(c, v.(path := v.path + [at.pc]), at.pc) && |f.failures| == |v.analyzers|
    ensures
      var v', news := Shown(c, v, at.pc).(branches := v.branches + [at.pc]), Heard(c, v, at.pc);
      n > 0 && Bounded(c, jump, n - 1) && Bounded(c, fall, n - 1) && Wide(v') &&
        |v'.analyzers| == |news| == |v.analyzers| &&
      After(f, Explore(c, v, at, n)) ==
        match Explore(c, v', jump, n - 1)
        case None => None
        case Some(g) =>
          After(Found(Joined(Joined(f.failures, news), g.failures), f.ends + Handed(g).ends),
            Explore(c, v', fall, n - 1))
  {
    var v', news := Shown(c, v, at.pc).(branches := v.branches + [at.pc]), Heard(c, v, at.pc);
    assert Bounded(c, Ahead(c, at).value[0], n - 1) && Bounded(c, Ahead(c, at).value[1], n - 1);
    var g, r := Explore(c, v', jump, n - 1), Explore(c, v', fall, n - 1);
    if g.Some? {
      assert f.ends + [] == f.ends;
      AfterAfter(f, Found(news, []), After(Handed(g.value), r));
      AfterAfter(Found(Joined(f.failures, news), f.ends), Handed(g.value), r);
    }
  }

  lemma AheadBranch<A>(c: Code<A>, at: Place)
    requires 0 <= at.pc < |c.prog| && c.prog[at.pc].Branch?
    ensures Ahead(c, at) ==
      if c.prog[at.pc].target.Resolved? then Some([at.(pc := c.prog[at.pc].target.addr), at.(pc := at.pc + 1)])
        else None
  {
  }

  lemma AheadEnd<A>(c: Code<A>, at: Place)
    requires 0 <= at.pc < |c.prog| && (c.prog[at.pc].Exit? || (c.prog[at.pc].Return? && at.stack == []))
    ensures Ahead(c, at) == Some([])
  {
  }

  /** What one analyzer did with an instruction. */
  ghost predicate Noted<A>(c: Code<A>, v: View<A>, pc: int, k: nat, status: Option<Status>, a: A)
    requires Wide(v) && k < |v.analyzers| && 0 <= pc < |c.prog|
  {
    if !v.enabled[k] then status == Some(Fine) && a == v.analyzers[k]
    else match c.analyze(v.analyzers[k], pc, c.prog[pc])
      case Broke => status.None?
      case Gave(a1, st) => status == Some(st) && a == a1
  }

  /** The failures found behind a branch are appended analyzer by analyzer; the paths that ended
      there are carried over with the first one. */
  method Appended(failures: seq<seq<Failure>>, ends: seq<seq<int>>, found: Found)
    returns (more: seq<seq<Failure>>, moreEnds: seq<seq<int>>)
    requires |failures| == |found.failures|
    ensures more == Joined(failures, found.failures) && moreEnds == ends + Handed(found).ends
  {
    more, moreEnds := failures, ends;
    var carried := found.ends;
    for k := 0 to |found.failures|
      invariant |more| == |failures|
      invariant forall j :: 0 <= j < k ==> more[j] == failures[j] + found.failures[j]
      invariant forall j :: k <= j < |failures| ==> more[j] == failures[j]
      invariant
        if k == 0 then moreEnds == ends && carried == found.ends
        else moreEnds == ends + found.ends && carried == []
    {
      more := more[k := more[k] + found.failures[k]];
      moreEnds, carried := moreEnds + carried, [];
    }
  }

  lemma {:induction false} AfterNothing(k: nat, r: Option<Found>)
    requires r.Some? ==> |r.value.failures| == k
    ensures After(Found(seq(k, _ => []), []), r) == r
  {
    if r.Some? {
      var none: seq<seq<Failure>> := seq(k, _ => []);
      forall i | 0 <= i < k ensures Joined(none, r.value.failures)[i] == r.value.failures[i] {
        assert [] + r.value.failures[i] == r.value.failures[i];
      }
      assert Joined(none, r.value.failures) == r.value.failures;
      assert [] + r.value.ends == r.value.ends;
    }
  }

  // ---- The tracer is sound and complete over paths ----

  /** A step of the tracer is a step of every analyzer on its own. */
  lemma {:induction false} AloneStep<A>(c: Code<A>, v: View<A>, at: Place, k: nat, q: seq<Place>)
    requires Wide(v) && k < |v.analyzers| && 0 <= at.pc < |c.prog|
    requires AllReact(c, v.(path := v.path + [at.pc]), at.pc)
    ensures
      var v1 := v.(path := v.path + [at.pc]);
      var v2 := Reacted(c, v1, at.pc);
      Alone(c, v.analyzers[k], v.enabled[k], v.path, [at] + q) ==
        News(c, v1, at.pc)[k] + Alone(c, v2.analyzers[k], v2.enabled[k], v2.path, q)
  {
    var p := [at] + q;
    assert p[0] == at && p[1..] == q;
    var v1 := v.(path := v.path + [at.pc]);
    assert React(c, v1, at.pc, k).Some?;
  }

  lemma {:induction false} PathStep<A>(c: Code<A>, at: Place, q: seq<Place>)
    requires Ahead(c, at).Some? && Path(c, q) && q[0] in Ahead(c, at).value
    ensures Path(c, [at] + q)
  {
    var p := [at] + q;
    assert p[0] == at && p[1] == q[0] && p[1..] == q;
  }

  /** The view in which the tracer goes on. */
  ghost function Onward<A>(c: Code<A>, v: View<A>, at: Place): View<A>
    requires Wide(v) && 0 <= at.pc < |c.prog| && AllReact(c, v.(path := v.path + [at.pc]), at.pc) && Ahead(c, at).Some?
  {
    var v2 := Reacted(c, v.(path := v.path + [at.pc]), at.pc);
    if |Ahead(c, at).value| == 2 then v2.(branches := v2.branches + [at.pc]) else v2
  }

  lemma AheadSome<A>(c: Code<A>, at: Place)
    ensures Ahead(c, at).Some? ==> 0 <= at.pc < |c.prog| && |Ahead(c, at).value| <= 2
  {
  }

  lemma ReactedWide<A>(c: Code<A>, v: View<A>, pc: int)
    requires Wide(v) && 0 <= pc < |c.prog| && AllReact(c, v, pc)
    ensures
      var v2 := Reacted(c, v, pc);
      Wide(v2) && |v2.analyzers| == |News(c, v, pc)| == |v.analyzers| && v2.path == v.path && v2.branches == v.branches
  {
  }

  /** What comes next, and what the tracer reports for one analyzer. */
  lemma {:induction false} Parts<A>(c: Code<A>, v: View<A>, at: Place, n: nat)
    requires Wide(v) && Bounded(c, at, n) && Explore(c, v, at, n).Some?
    ensures Ahead(c, at).Some? && 0 <= at.pc < |c.prog| && AllReact(c, v.(path := v.path + [at.pc]), at.pc)
    ensures
      var next, v' := Ahead(c, at).value, Onward(c, v, at);
      Wide(v') && |v'.analyzers| == |v.analyzers| && |next| <= 2 && |News(c, v.(path := v.path + [at.pc]), at.pc)| ==
        |v.analyzers| &&
      forall i :: 0 <= i < |next| ==> n > 0 && Bounded(c, next[i], n - 1) && Explore(c, v', next[i], n - 1).Some?
  {
    hide Reacted, News, React, Ahead, AllReact;
    AheadSome(c, at);
    ReactedWide(c, v.(path := v.path + [at.pc]), at.pc);
    var next := Ahead(c, at).value;
    assert |next| > 0 ==> Bounded(c, next[0], n - 1);
    assert |next| > 1 ==> Bounded(c, next[1], n - 1);
  }

  lemma {:induction false} Gathered<A>(c: Code<A>, v: View<A>, at: Place, n: nat, k: nat, f: Failure)
    requires Wide(v) && Bounded(c, at, n) && Explore(c, v, at, n).Some? && k < |v.analyzers|
    ensures Ahead(c, at).Some? && 0 <= at.pc < |c.prog| && AllReact(c, v.(path := v.path + [at.pc]), at.pc)
    ensures
      var next, v' := Ahead(c, at).value, Onward(c, v, at);
      Wide(v') && |v'.analyzers| == |v.analyzers| && |next| <= 2 && |News(c, v.(path := v.path + [at.pc]), at.pc)| ==
        |v.analyzers| &&
      (|next| > 0 ==> n > 0 && Bounded(c, next[0], n - 1) && Explore(c, v', next[0], n - 1).Some?) &&
      (|next| > 1 ==> Bounded(c, next[1], n - 1) && Explore(c, v', next[1], n - 1).Some?) &&
      (f in Explore(c, v, at, n).value.failures[k] <==>
        f in News(c, v.(path := v.path + [at.pc]), at.pc)[k] ||
        (|next| > 0 && f in Explore(c, v', next[0], n - 1).value.failures[k]) ||
        (|next| > 1 && f in Explore(c, v', next[1], n - 1).value.failures[k]))
  {
    Parts(c, v, at, n);
    hide Reacted, News, React, Ahead, AllReact, Bounded;
  }

  lemma {:induction false} AloneOnward<A>(c: Code<A>, v: View<A>, at: Place, k: nat, q: seq<Place>)
    requires Wide(v) && k < |v.analyzers| && 0 <= at.pc < |c.prog| && Ahead(c, at).Some?
    requires AllReact(c, v.(path := v.path + [at.pc]), at.pc)
    ensures
      var v' := Onward(c, v, at);
      Alone(c, v.analyzers[k], v.enabled[k], v.path, [at] + q) ==
        News(c, v.(path := v.path + [at.pc]), at.pc)[k] + Alone(c, v'.analyzers[k], v'.enabled[k], v'.path, q)
  {
    hide Alone, Ahead;
    AloneStep(c, v, at, k, q);
  }

  /** A successful exploration followed at least one path to its end. */
  lemma {:induction false} SomePath<A>(c: Code<A>, v: View<A>, at: Place, n: nat) returns (p: seq<Place>)
    requires Wide(v) && Bounded(c, at, n) && Explore(c, v, at, n).Some?
    ensures Path(c, p) && p[0] == at
    decreases n
  {
    hide Explore, Bounded, Onward, Ahead, News;
    Parts(c, v, at, n);
    var next, v' := Ahead(c, at).value, Onward(c, v, at);
    if next == [] {
      p := [at];
    } else {
      var q := SomePath(c, v', next[0], n - 1);
      PathStep(c, at, q);
      p := [at] + q;
    }
  }

  /** Sound: what the tracer reports for an analyzer, the analyzer reports on its own on some
      complete path. */
  lemma {:induction false} Sound<A>(c: Code<A>, v: View<A>, at: Place, n: nat, k: nat, f: Failure)
      returns (p: seq<Place>)
    requires Wide(v) && Bounded(c, at, n) && Explore(c, v, at, n).Some? && k < |v.analyzers|
    requires f in Explore(c, v, at, n).value.failures[k]
    ensures Path(c, p) && p[0] == at && f in Alone(c, v.analyzers[k], v.enabled[k], v.path, p)
    decreases n
  {
    hide Explore, Bounded, Onward, Ahead, News, Alone, AllReact, Path;
    Gathered(c, v, at, n, k, f);
    var next, v' := Ahead(c, at).value, Onward(c, v, at);
    if next == [] {
      AloneOnward(c, v, at, k, []);
      assert [at] + [] == [at];
      LastPlace(c, at);
      p := [at];
    } else {
      var q;
      if f in Explore(c, v', next[0], n - 1).value.failures[k] {
        q := Sound(c, v', next[0], n - 1, k, f);
      } else if |next| > 1 && f in Explore(c, v', next[1], n - 1).value.failures[k] {
        q := Sound(c, v', next[1], n - 1, k, f);
      } else {
        q := SomePath(c, v', next[0], n - 1);
      }
      PathHead(c, q);
      PathStep(c, at, q);
      AloneOnward(c, v, at, k, q);
      p := [at] + q;
    }
  }

  lemma LastPlace<A>(c: Code<A>, at: Place)
    requires Ahead(c, at) == Some([])
    ensures Path(c, [at])
  {
  }

  /** Complete: what an analyzer reports on its own on a complete path, the tracer reports. */
  lemma {:induction false} Complete<A>(c: Code<A>, v: View<A>, at: Place, n: nat, k: nat, p: seq<Place>, f: Failure)
    requires Wide(v) && Bounded(c, at, n) && Explore(c, v, at, n).Some? && k < |v.analyzers|
    requires Path(c, p) && p[0] == at && f in Alone(c, v.analyzers[k], v.enabled[k], v.path, p)
    ensures f in Explore(c, v, at, n).value.failures[k]
    decreases n
  {
    hide Explore, Bounded, Onward, Ahead, News, Alone, AllReact, Path;
    Gathered(c, v, at, n, k, f);
    PathHead(c, p);
    var next, v' := Ahead(c, at).value, Onward(c, v, at);
    assert p == [at] + p[1..];
    AloneOnward(c, v, at, k, p[1..]);
    if |p| == 1 {
      AloneNothing(c, v'.analyzers[k], v'.enabled[k], v'.path);
    } else if f !in News(c, v.(path := v.path + [at.pc]), at.pc)[k] {
      Complete(c, v', if p[1] == next[0] then next[0] else next[1], n - 1, k, p[1..], f);
    }
  }

  lemma AloneNothing<A>(c: Code<A>, a: A, on: bool, before: seq<int>)
    ensures Alone(c, a, on, before, []) == []
  {
  }

  // ---- When tracing fails ----

  /** Places one after the other, from `at` on. */
  ghost predicate Stretch<A>(c: Code<A>, at: Place, p: seq<Place>)
    decreases p
  {
    p != [] && p[0] == at &&
    (|p| > 1 ==> Ahead(c, at).Some? && p[1] in Ahead(c, at).value && Stretch(c, p[1], p[1..]))
  }

  /** An analyzer in state `a`, left alone, breaks down somewhere along `p`. */
  predicate Breaks<A>(c: Code<A>, a: A, on: bool, p: seq<Place>)
    decreases p
  {
    p != [] && on && 0 <= p[0].pc < |c.prog| &&
    match c.analyze(a, p[0].pc, c.prog[p[0].pc])
    case Broke => true
    case Gave(a1, status) => Breaks(c, a1, !status.Halted?, p[1..])
  }

  /** Along `p` broken code or the breakdown of an enabled analyzer is met. */
  ghost predicate Trouble<A>(c: Code<A>, analyzers: seq<A>, enabled: seq<bool>, at: Place, p: seq<Place>) {
    Stretch(c, at, p) && |enabled| == |analyzers| &&
    (Ahead(c, p[|p| - 1]).None? || exists k :: 0 <= k < |analyzers| && Breaks(c, analyzers[k], enabled[k], p))
  }

  lemma {:induction false} NoneParts<A>(c: Code<A>, v: View<A>, at: Place, n: nat)
    requires Wide(v) && Bounded(c, at, n) && Explore(c, v, at, n).None?
    requires Ahead(c, at).Some? && 0 <= at.pc < |c.prog| && AllReact(c, v.(path := v.path + [at.pc]), at.pc)
    ensures
      var next, v' := Ahead(c, at).value, Onward(c, v, at);
      Wide(v') && |v'.analyzers| == |v.analyzers| && 0 < |next| <= 2 && n > 0 && Bounded(c, next[0], n - 1) &&
      (|next| == 2 ==> Bounded(c, next[1], n - 1)) &&
      (Explore(c, v', next[0], n - 1).None? || (|next| == 2 && Explore(c, v', next[1], n - 1).None?))
  {
    hide Reacted, News, React, Ahead, AllReact;
    AheadSome(c, at);
    ReactedWide(c, v.(path := v.path + [at.pc]), at.pc);
    var next := Ahead(c, at).value;
    assert |next| > 0 ==> Bounded(c, next[0], n - 1);
    assert |next| > 1 ==> Bounded(c, next[1], n - 1);
  }

  /** One step of an analyzer on its own is one step of it in the tracer. */
  lemma {:induction false} BreaksStep<A>(c: Code<A>, v: View<A>, at: Place, k: nat, q: seq<Place>)
    requires Wide(v) && k < |v.analyzers| && 0 <= at.pc < |c.prog| && Ahead(c, at).Some?
    requires AllReact(c, v.(path := v.path + [at.pc]), at.pc)
    ensures
      var v' := Onward(c, v, at);
      k < |v'.analyzers| == |v'.enabled| &&
      Breaks(c, v.analyzers[k], v.enabled[k], [at] + q) == Breaks(c, v'.analyzers[k], v'.enabled[k], q)
  {
    hide Ahead;
    assert ([at] + q)[1..] == q;
    assert React(c, v.(path := v.path + [at.pc]), at.pc, k).Some?;
  }

  lemma {:induction false} StretchStep<A>(c: Code<A>, at: Place, next: Place, q: seq<Place>)
    requires Ahead(c, at).Some? && next in Ahead(c, at).value && Stretch(c, next, q)
    ensures Stretch(c, at, [at] + q)
  {
    hide Ahead;
    assert ([at] + q)[1..] == q;
  }

  lemma {:induction false} FailsForCause<A>(c: Code<A>, v: View<A>, at: Place, n: nat) returns (p: seq<Place>)
    requires Wide(v) && Bounded(c, at, n) && Explore(c, v, at, n).None?
    ensures Trouble(c, v.analyzers, v.enabled, at, p)
    decreases n
  {
    hide Explore, Bounded, Onward, Ahead, AllReact, Breaks;
    p := [at];
    if Ahead(c, at).Some? {
      AheadSome(c, at);
      if !AllReact(c, v.(path := v.path + [at.pc]), at.pc) {
        BreaksHere(c, v, at);
      } else {
        NoneParts(c, v, at, n);
        var next, v' := Ahead(c, at).value, Onward(c, v, at);
        var i := if Explore(c, v', next[0], n - 1).None? then 0 else 1;
        var q := FailsForCause(c, v', next[i], n - 1);
        StretchStep(c, at, next[i], q);
        p := [at] + q;
        if k :| 0 <= k < |v'.analyzers| && Breaks(c, v'.analyzers[k], v'.enabled[k], q) {
          BreaksStep(c, v, at, k, q);
        }
      }
    }
  }

  lemma {:induction false} BreaksHere<A>(c: Code<A>, v: View<A>, at: Place)
    requires Wide(v) && 0 <= at.pc < |c.prog| && !AllReact(c, v.(path := v.path + [at.pc]), at.pc)
    ensures exists k :: 0 <= k < |v.analyzers| && Breaks(c, v.analyzers[k], v.enabled[k], [at])
  {
    var v1 := v.(path := v.path + [at.pc]);
    var k :| 0 <= k < |v.analyzers| && React(c, v1, at.pc, k).None?;
    assert Breaks(c, v.analyzers[k], v.enabled[k], [at]);
  }

  lemma {:induction false} CauseFails<A>(c: Code<A>, v: View<A>, at: Place, n: nat, p: seq<Place>)
    requires Wide(v) && Bounded(c, at, n) && Trouble(c, v.analyzers, v.enabled, at, p)
    ensures Explore(c, v, at, n).None?
    decreases n
  {
    hide Explore, Bounded, Onward, Ahead, AllReact, Breaks, News;
    if Explore(c, v, at, n).Some? {
      Parts(c, v, at, n);
      var next, v' := Ahead(c, at).value, Onward(c, v, at);
      assert p == [at] + p[1..];
      if k :| 0 <= k < |v.analyzers| && Breaks(c, v.analyzers[k], v.enabled[k], p) {
        BreaksStep(c, v, at, k, p[1..]);
        BreaksNowhere(c, v'.analyzers[k], v'.enabled[k]);
      }
      CauseFails(c, v', p[1], n - 1, p[1..]);
    }
  }

  lemma BreaksNowhere<A>(c: Code<A>, a: A, on: bool)
    ensures !Breaks(c, a, on, [])
  {
  }

  /** Tracing fails if and only if trouble is met on some stretch of a path. */
  lemma {:induction false} FailsExactly<A>(c: Code<A>, v: View<A>, at: Place, n: nat)
    requires Wide(v) && Bounded(c, at, n)
    ensures Explore(c, v, at, n).None? <==> exists p :: Trouble(c, v.analyzers, v.enabled, at, p)
  {
    hide Explore, Bounded, Trouble;
    if Explore(c, v, at, n).None? {
      var p := FailsForCause(c, v, at, n);
    }
    if p :| Trouble(c, v.analyzers, v.enabled, at, p) {
      CauseFails(c, v, at, n, p);
    }
  }

  // ---- Paths that ended ----

  /** The branch instructions along a path. */
  function BranchesOf<A>(c: Code<A>, p: seq<Place>): seq<int> {
    if p == [] then []
    else (if 0 <= p[0].pc < |c.prog| && c.prog[p[0].pc].Branch? then [p[0].pc] else []) + BranchesOf(c, p[1..])
  }

  lemma {:induction false} BranchStep<A>(c: Code<A>, at: Place, q: seq<Place>)
    requires Ahead(c, at).Some?
    ensures BranchesOf(c, [at] + q) == (if |Ahead(c, at).value| == 2 then [at.pc] else []) + BranchesOf(c, q)
  {
    assert ([at] + q)[1..] == q;
  }

  lemma {:induction false} EndsParts<A>(c: Code<A>, v: View<A>, at: Place, n: nat)
    requires Wide(v) && Bounded(c, at, n) && Explore(c, v, at, n).Some?
    ensures Ahead(c, at).Some? && 0 <= at.pc < |c.prog| && AllReact(c, v.(path := v.path + [at.pc]), at.pc)
    ensures
      var next, v', ends := Ahead(c, at).value, Onward(c, v, at), Explore(c, v, at, n).value.ends;
      Wide(v') && |v'.analyzers| == |v.analyzers| &&
      v'.branches == v.branches + (if |next| == 2 then [at.pc] else []) && |next| <= 2 &&
      (forall i :: 0 <= i < |next| ==> n > 0 && Bounded(c, next[i], n - 1) && Explore(c, v', next[i], n - 1).Some?) &&
      ends ==
        (if |next| == 0 then [v.branches]
         else if |next| == 1 then Explore(c, v', next[0], n - 1).value.ends
         else (if v.analyzers == [] then [] else Explore(c, v', next[0], n - 1).value.ends) +
              Explore(c, v', next[1], n - 1).value.ends)
  {
    Parts(c, v, at, n);
    hide Reacted, News, React, Ahead, AllReact, Bounded;
    ReactedWide(c, v.(path := v.path + [at.pc]), at.pc);
  }

  /** Every list of branches the tracer records belongs to a complete path. */
  lemma {:induction false} EndsSound<A>(c: Code<A>, v: View<A>, at: Place, n: nat, e: seq<int>) returns (p: seq<Place>)
    requires Wide(v) && Bounded(c, at, n) && Explore(c, v, at, n).Some? && e in Explore(c, v, at, n).value.ends
    ensures Path(c, p) && p[0] == at && e == v.branches + BranchesOf(c, p)
    decreases n
  {
    hide Explore, Bounded, Onward, Ahead, BranchesOf;
    EndsParts(c, v, at, n);
    var next, v' := Ahead(c, at).value, Onward(c, v, at);
    if next == [] {
      p := [at];
      assert [at] + [] == p;
      BranchStep(c, at, []);
      BranchesNone(c);
    } else {
      var i := if e in Explore(c, v', next[0], n - 1).value.ends then 0 else 1;
      var q := EndsSound(c, v', next[i], n - 1, e);
      PathStep(c, at, q);
      BranchStep(c, at, q);
      p := [at] + q;
      Regroup(v.branches, if |next| == 2 then [at.pc] else [], BranchesOf(c, q));
    }
  }

  lemma Regroup(a: seq<int>, b: seq<int>, c: seq<int>)
    ensures (a + b) + c == a + (b + c)
  {
  }

  lemma BranchesNone<A>(c: Code<A>)
    ensures BranchesOf(c, []) == []
  {
  }

  /** With at least one analyzer, every complete path is recorded. */
  lemma {:induction false} EndsComplete<A>(c: Code<A>, v: View<A>, at: Place, n: nat, p: seq<Place>)
    requires Wide(v) && v.analyzers != [] && Bounded(c, at, n) && Explore(c, v, at, n).Some?
    requires Path(c, p) && p[0] == at
    ensures v.branches + BranchesOf(c, p) in Explore(c, v, at, n).value.ends
    decreases n
  {
    hide Explore, Bounded, Onward, Ahead, BranchesOf, Path;
    EndsParts(c, v, at, n);
    PathHead(c, p);
    var next, v' := Ahead(c, at).value, Onward(c, v, at);
    assert p == [at] + p[1..];
    BranchStep(c, at, p[1..]);
    var mark := if |next| == 2 then [at.pc] else [];
    if |p| == 1 {
      BranchesNone(c);
      assert v.branches + ([] + []) == v.branches;
    } else {
      var i := if p[1] == next[0] then 0 else 1;
      EndsComplete(c, v', next[i], n - 1, p[1..]);
      Regroup(v.branches, mark, BranchesOf(c, p[1..]));
    }
  }

  lemma {:induction false} PathHead<A>(c: Code<A>, p: seq<Place>)
    requires Path(c, p)
    ensures p != [] && Ahead(c, p[0]).Some?
    ensures |p| == 1 ==> Ahead(c, p[0]).value == []
    ensures |p| > 1 ==> p[1] in Ahead(c, p[0]).value && Path(c, p[1..]) && p[1..][0] == p[1]
  {
    hide Ahead;
  }

  /** Without analyzers only one path is recorded, however many there are. */
  lemma {:induction false} EndsWithoutAnalyzers<A>(c: Code<A>, v: View<A>, at: Place, n: nat)
    requires Wide(v) && v.analyzers == [] && Bounded(c, at, n) && Explore(c, v, at, n).Some?
    ensures |Explore(c, v, at, n).value.ends| == 1
    decreases n
  {
    hide Explore, Bounded, Onward, Ahead;
    EndsParts(c, v, at, n);
    var next, v' := Ahead(c, at).value, Onward(c, v, at);
    if |next| > 0 { EndsWithoutAnalyzers(c, v', next[|next| - 1], n - 1); }
  }

  /** Code in which one path passes one branch and two pass two. */
  function Forked<A>(analyze: (A, int, M.Instr) -> Answer<A>): Code<A> {
    Code([M.Branch(M.Resolved(3)), M.Branch(M.Resolved(3)), M.Exit(Normal), M.Exit(Normal)], map[], analyze)
  }

  lemma {:induction false} ForkedPath<A>(analyze: (A, int, M.Instr) -> Answer<A>)
    ensures
      var c, p := Forked(analyze), [Place(0, []), Place(3, [])];
      Path(c, p) && BranchesOf(c, p) == [0]
  {
    var c, start, last := Forked(analyze), Place(0, []), Place(3, []);
    assert Path(c, [last]);
    PathStep(c, start, [last]);
    BranchStep(c, start, [last]);
    assert [last] == [last] + [];
    BranchStep(c, last, []);
    BranchesNone(c);
    assert [start] + [last] == [start, last];
  }

  lemma {:induction false} ForkedBounded<A>(analyze: (A, int, M.Instr) -> Answer<A>)
    ensures
      var c := Forked(analyze);
      Ahead(c, Place(0, [])) == Some([Place(3, []), Place(1, [])]) &&
        Ahead(c, Place(1, [])) == Some([Place(3, []), Place(2, [])]) &&
      Ahead(c, Place(2, [])) == Some([]) && Ahead(c, Place(3, [])) == Some([]) &&
      Bounded(c, Place(0, []), 3) && Bounded(c, Place(1, []), 2) && Bounded(c, Place(2, []), 1) &&
      Bounded(c, Place(3, []), 1) && Bounded(c, Place(3, []), 2)
  {
    var c := Forked(analyze);
    assert Bounded(c, Place(3, []), 2) && Bounded(c, Place(3, []), 1) && Bounded(c, Place(2, []), 1);
    assert Bounded(c, Place(1, []), 2);
  }

  lemma {:induction false} ForkedEnds<A>(analyze: (A, int, M.Instr) -> Answer<A>)
    ensures
      var c := Forked(analyze);
      Bounded(c, Place(0, []), 3) && Explore(c, View([], [], [], []), Place(0, []), 3).Some? &&
      Explore(c, View([], [], [], []), Place(0, []), 3).value.ends == [[0, 1]]
  {
    ForkedBounded(analyze);
    hide Ahead, Bounded;
    var c := Forked(analyze);
    var start, second, low, last := Place(0, []), Place(1, []), Place(2, []), Place(3, []);
    var v: View<A> := View([], [], [], []);
    var v1: View<A> := View([0], [0], [], []);
    var v2: View<A> := View([0, 1], [0, 1], [], []);
    assert Onward(c, v, start) == v1 && Onward(c, v1, second) == v2;
    assert Explore(c, v2, last, 1).Some? && Explore(c, v2, low, 1).Some? && Explore(c, v1, last, 2).Some?;
    assert Explore(c, v1, second, 2).Some?;
    assert Explore(c, v, start, 3).Some?;
    hide Explore;
    EndsParts(c, v2, low, 1);
    EndsParts(c, v1, second, 2);
    EndsParts(c, v, start, 3);
  }

  /** The exact condition: every complete path is recorded if and only if there is an analyzer or
      all complete paths pass the same branches. */
  lemma {:induction false} EndsExact<A>(c: Code<A>, v: View<A>, at: Place, n: nat)
    requires Wide(v) && Bounded(c, at, n) && Explore(c, v, at, n).Some?
    ensures
      (forall p :: PathFrom(c, at, p) ==> v.branches + BranchesOf(c, p) in Explore(c, v, at, n).value.ends) <==>
      v.analyzers != [] || forall p, q :: PathFrom(c, at, p) && PathFrom(c, at, q) ==>
        BranchesOf(c, p) == BranchesOf(c, q)
  {
    hide Explore, Bounded, Path, BranchesOf;
    var ends := Explore(c, v, at, n).value.ends;
    if v.analyzers != [] {
      forall p | PathFrom(c, at, p) ensures v.branches + BranchesOf(c, p) in ends {
        EndsComplete(c, v, at, n, p);
      }
    } else {
      EndsWithoutAnalyzers(c, v, at, n);
      var p0 := EndsSound(c, v, at, n, ends[0]);
      PathHead(c, p0);
      assert PathFrom(c, at, p0);
      forall p, q | PathFrom(c, at, p) && PathFrom(c, at, q) &&
        v.branches + BranchesOf(c, p) in ends && v.branches + BranchesOf(c, q) in ends
        ensures BranchesOf(c, p) == BranchesOf(c, q)
      {
        Suffix(v.branches, BranchesOf(c, p), BranchesOf(c, q));
      }
    }
  }

  lemma {:induction false} Suffix(a: seq<int>, b: seq<int>, c: seq<int>)
    requires a + b == a + c
    ensures b == c
  {
    assert (a + b)[|a|..] == b && (a + c)[|a|..] == c;
  }

  /** So without analyzers the record is not complete in general. */
  lemma {:induction false} EndsMissing<A>(analyze: (A, int, M.Instr) -> Answer<A>)
    ensures
      var c, v, start, p := Forked(analyze), View([], [], [], []), Place(0, []), [Place(0, []), Place(3, [])];
      Path(c, p) && p[0] == start && Bounded(c, start, 3) && Explore(c, v, start, 3).Some? &&
      v.branches + BranchesOf(c, p) !in Explore(c, v, start, 3).value.ends
  {
    hide Explore, Bounded, Path, BranchesOf;
    ForkedPath(analyze);
    ForkedEnds(analyze);
    assert [] + [0] == [0] && [0] != [0, 1];
  }

  // ---- The final report ----

  function AllOn(k: nat): seq<bool> { seq(k, _ => true) }

  function Flatten(fs: seq<seq<Failure>>): seq<Failure> {
    if fs == [] then [] else fs[0] + Flatten(fs[1..])
  }

  /** Inserts behind everything at the same or an earlier instruction. */
  function Insert(f: Failure, xs: seq<Failure>): seq<Failure> {
    if xs == [] || f.instruction < xs[0].instruction then [f] + xs else [xs[0]] + Insert(f, xs[1..])
  }

  /** The stable order by instruction. */
  function Sorted(xs: seq<Failure>): seq<Failure> {
    if xs == [] then [] else Insert(xs[|xs| - 1], Sorted(xs[..|xs| - 1]))
  }

  predicate Same(f: Failure, g: Failure) { f.instruction == g.instruction && f.message == g.message }

  /** Drops a failure that is the same as the one kept before it. */
  function Deduped(xs: seq<Failure>): (r: seq<Failure>)
    ensures xs != [] ==> r != []
  {
    if |xs| <= 1 then xs
    else
      var r, f := Deduped(xs[..|xs| - 1]), xs[|xs| - 1];
      if Same(r[|r| - 1], f) then r else r + [f]
  }

  ghost predicate ByInstruction(xs: seq<Failure>) {
    forall i, j :: 0 <= i < j < |xs| ==> xs[i].instruction <= xs[j].instruction
  }

  ghost predicate Mentions(xs: seq<Failure>, i: int, m: string) {
    exists k :: 0 <= k < |xs| && xs[k].instruction == i && xs[k].message == m
  }

  /** Some analyzer, started afresh on some complete path, reports `m` at `i`. */
  ghost predicate Reported<A>(c: Code<A>, analyzers: seq<A>, start: int, i: int, m: string) {
    exists k, p :: 0 <= k < |analyzers| && Path(c, p) && p[0] == Place(start, []) &&
      Mentions(Alone(c, analyzers[k], true, [], p), i, m)
  }

  /** No two neighbours say the same of the same instruction. */
  ghost predicate NoTwins(xs: seq<Failure>) {
    forall k :: 0 <= k < |xs| - 1 ==> xs[k].instruction != xs[k + 1].instruction || xs[k].message != xs[k + 1].message
  }

  /** Some analyzer, started afresh on some complete path, reports exactly this, path included. */
  ghost predicate SaidOn<A>(c: Code<A>, analyzers: seq<A>, start: int, f: Failure) {
    exists k, p :: 0 <= k < |analyzers| && PathFrom(c, Place(start, []), p) && f in Alone(c, analyzers[k], true, [], p)
  }

  function AtInstruction(xs: seq<Failure>, i: int): seq<Failure> {
    if xs == [] then []
    else AtInstruction(xs[..|xs| - 1], i) + if xs[|xs| - 1].instruction == i then [xs[|xs| - 1]] else []
  }

  /** `all` is `found` in the order of instructions; failures at one instruction stay in their order. */
  ghost predicate StableOrder(found: seq<Failure>, all: seq<Failure>) {
    ByInstruction(all) && forall i :: AtInstruction(all, i) == AtInstruction(found, i)
  }

  /** The entry does not say the same as the one before it. */
  predicate Fresh(all: seq<Failure>, j: int) {
    0 <= j < |all| &&
    (j > 0 ==> all[j - 1].instruction != all[j].instruction || all[j - 1].message != all[j].message)
  }

  /** `idx` tells where the entries of `r` come from: in order, from the places that are fresh. */
  ghost predicate Starts(all: seq<Failure>, r: seq<Failure>, idx: seq<int>) {
    |idx| == |r| && (forall a, b :: 0 <= a < b < |idx| ==> idx[a] < idx[b]) &&
    (forall j :: j in idx <==> Fresh(all, j)) && forall k :: 0 <= k < |r| ==> 0 <= idx[k] < |all| && r[k] == all[idx[k]]
  }

  /** `r` has the first entry of every stretch of `all` that says the same, and nothing else. */
  ghost predicate KeepsFirsts(all: seq<Failure>, r: seq<Failure>) {
    NoTwins(r) && exists idx :: Starts(all, r, idx)
  }

  lemma {:induction false} DedupFirsts(xs: seq<Failure>)
    ensures NoTwins(Deduped(xs)) && KeepsFirsts(xs, Deduped(xs))
  {
    var idx := DedupStarts(xs);
  }

  lemma {:induction false} DedupStarts(xs: seq<Failure>) returns (idx: seq<int>)
    ensures NoTwins(Deduped(xs)) && Starts(xs, Deduped(xs), idx)
  {
    if |xs| <= 1 {
      idx := if xs == [] then [] else [0];
    } else {
      hide Starts, NoTwins, Fresh;
      var init, f := xs[..|xs| - 1], xs[|xs| - 1];
      var r := Deduped(init);
      assert xs == init + [f];
      DedupKeeps(init, 0, "");
      idx := DedupStarts(init);
      StartsMore(init, r, idx, f);
      if !Same(r[|r| - 1], f) {
        TwinsMore(r, f);
        idx := idx + [|init|];
      }
    }
  }

  lemma {:induction false} TwinsMore(r: seq<Failure>, f: Failure)
    requires r != [] && NoTwins(r) && !Same(r[|r| - 1], f)
    ensures NoTwins(r + [f])
  {
  }

  lemma {:induction false} StartsMore(init: seq<Failure>, r: seq<Failure>, idx: seq<int>, f: Failure)
    requires init != [] && r != [] && Starts(init, r, idx) && Same(r[|r| - 1], init[|init| - 1])
    ensures
      if Same(r[|r| - 1], f) then Starts(init + [f], r, idx) else Starts(init + [f], r + [f], idx + [|init|])
  {
    var xs, k := init + [f], |init|;
    forall j ensures Fresh(xs, j) <==> Fresh(init, j) || (j == k && !Same(r[|r| - 1], f)) {
      FreshMore(init, f, j);
    }
    hide Fresh;
    if !Same(r[|r| - 1], f) {
      forall j ensures j in idx + [k] <==> j in idx || j == k {}
    }
  }

  lemma {:induction false} FreshMore(init: seq<Failure>, f: Failure, j: int)
    requires init != []
    ensures Fresh(init + [f], j) <==> Fresh(init, j) || (j == |init| && !Same(init[|init| - 1], f))
  {
    var xs := init + [f];
    if 0 < j < |init| { assert xs[j - 1] == init[j - 1] && xs[j] == init[j]; }
  }

  lemma {:induction false} InsertAt(f: Failure, xs: seq<Failure>, i: int)
    requires ByInstruction(xs)
    ensures AtInstruction(Insert(f, xs), i) == AtInstruction(xs + [f], i)
  {
    assert (xs + [f])[..|xs|] == xs;
    if xs == [] || f.instruction < xs[0].instruction {
      AtJoin([f], xs, i);
      if xs != [] { NoneAt(xs, f.instruction); }
      assert [f][..0] == [];
    } else {
      InsertAt(f, xs[1..], i);
      AtJoin([xs[0]], Insert(f, xs[1..]), i);
      AtJoin([xs[0]], xs[1..] + [f], i);
      assert [xs[0]] + (xs[1..] + [f]) == xs + [f];
    }
  }

  lemma {:induction false} NoneAt(xs: seq<Failure>, i: int)
    requires forall k :: 0 <= k < |xs| ==> i != xs[k].instruction
    ensures AtInstruction(xs, i) == []
  {
    if xs != [] { NoneAt(xs[..|xs| - 1], i); }
  }

  lemma {:induction false} AtJoin(xs: seq<Failure>, ys: seq<Failure>, i: int)
    ensures AtInstruction(xs + ys, i) == AtInstruction(xs, i) + AtInstruction(ys, i)
    decreases |ys|
  {
    if ys == [] {
      assert xs + ys == xs;
    } else {
      AtJoin(xs, ys[..|ys| - 1], i);
      assert (xs + ys)[..|xs + ys| - 1] == xs + ys[..|ys| - 1];
    }
  }

  lemma {:induction false} SortStable(xs: seq<Failure>)
    ensures StableOrder(xs, Sorted(xs))
  {
    SortOrders(xs);
    forall i ensures AtInstruction(Sorted(xs), i) == AtInstruction(xs, i) {
      SortAt(xs, i);
    }
  }

  lemma {:induction false} SortAt(xs: seq<Failure>, i: int)
    ensures AtInstruction(Sorted(xs), i) == AtInstruction(xs, i)
  {
    hide Insert;
    if xs != [] {
      var init, f := xs[..|xs| - 1], xs[|xs| - 1];
      SortAt(init, i);
      SortOrders(init);
      InsertAt(f, Sorted(init), i);
      AtJoin(Sorted(init), [f], i);
      AtJoin(init, [f], i);
      assert xs == init + [f];
    }
  }

  lemma {:induction false} SortIn(xs: seq<Failure>, f: Failure)
    ensures f in Sorted(xs) ==> f in xs
  {
    hide Insert;
    if xs != [] {
      SortIn(xs[..|xs| - 1], f);
      SortOrders(xs[..|xs| - 1]);
      InsertOrders(xs[|xs| - 1], Sorted(xs[..|xs| - 1]));
    }
  }

  lemma {:induction false} FlattenIn(fs: seq<seq<Failure>>, f: Failure)
    requires f in Flatten(fs)
    ensures exists k :: 0 <= k < |fs| && f in fs[k]
  {
    if f !in fs[0] {
      FlattenIn(fs[1..], f);
      var k :| 0 <= k < |fs[1..]| && f in fs[1..][k];
      assert fs[k + 1] == fs[1..][k];
    }
  }

  lemma {:induction false} EntrySaid<A>(c: Code<A>, v: View<A>, start: int, n: nat, f: Failure)
    requires v == View([], [], AllOn(|v.analyzers|), v.analyzers) && Bounded(c, Place(start, []), n)
    requires Explore(c, v, Place(start, []), n).Some?
    requires f in Deduped(Sorted(Flatten(Explore(c, v, Place(start, []), n).value.failures)))
    ensures SaidOn(c, v.analyzers, start, f)
  {
    var fs := Explore(c, v, Place(start, []), n).value.failures;
    hide Explore, Bounded, Path, Alone, Flatten, Sorted, Deduped;
    SortOrders(Flatten(fs));
    DedupOrders(Sorted(Flatten(fs)));
    SortIn(Flatten(fs), f);
    FlattenIn(fs, f);
    var k :| 0 <= k < |fs| && f in fs[k];
    var p := Sound(c, v, Place(start, []), n, k, f);
    PathHead(c, p);
    assert PathFrom(c, Place(start, []), p);
  }

  lemma {:induction false} InsertKeeps(f: Failure, xs: seq<Failure>, i: int, m: string)
    ensures Mentions(Insert(f, xs), i, m) <==> Mentions([f] + xs, i, m)
  {
    if xs != [] && xs[0].instruction <= f.instruction {
      InsertKeeps(f, xs[1..], i, m);
      MentionsJoin([xs[0]], Insert(f, xs[1..]), i, m);
      MentionsJoin([f], xs[1..], i, m);
      MentionsJoin([f], xs, i, m);
      MentionsJoin([xs[0]], xs[1..], i, m);
      assert [xs[0]] + xs[1..] == xs;
    }
  }

  lemma {:induction false} MentionsJoin(xs: seq<Failure>, ys: seq<Failure>, i: int, m: string)
    ensures Mentions(xs + ys, i, m) <==> Mentions(xs, i, m) || Mentions(ys, i, m)
  {
    if Mentions(xs, i, m) {
      var k :| 0 <= k < |xs| && xs[k].instruction == i && xs[k].message == m;
      assert (xs + ys)[k] == xs[k];
    }
    if Mentions(ys, i, m) {
      var k :| 0 <= k < |ys| && ys[k].instruction == i && ys[k].message == m;
      assert (xs + ys)[|xs| + k] == ys[k];
    }
    if Mentions(xs + ys, i, m) {
      var k :| 0 <= k < |xs + ys| && (xs + ys)[k].instruction == i && (xs + ys)[k].message == m;
      assert if k < |xs| then xs[k] == (xs + ys)[k] else ys[k - |xs|] == (xs + ys)[k];
    }
  }

  lemma {:induction false} SortKeeps(xs: seq<Failure>, i: int, m: string)
    ensures Mentions(Sorted(xs), i, m) <==> Mentions(xs, i, m)
  {
    hide Insert, Mentions;
    if xs != [] {
      var init, f := xs[..|xs| - 1], xs[|xs| - 1];
      SortKeeps(init, i, m);
      InsertKeeps(f, Sorted(init), i, m);
      MentionsJoin([f], Sorted(init), i, m);
      MentionsJoin(init, [f], i, m);
      assert xs == init + [f];
    }
  }

  lemma {:induction false} DedupKeeps(xs: seq<Failure>, i: int, m: string)
    ensures Mentions(Deduped(xs), i, m) <==> Mentions(xs, i, m)
    ensures xs != [] ==> Same(Deduped(xs)[|Deduped(xs)| - 1], xs[|xs| - 1])
  {
    if |xs| > 1 {
      var init, f := xs[..|xs| - 1], xs[|xs| - 1];
      var r := Deduped(init);
      DedupKeeps(init, i, m);
      MentionsJoin(init, [f], i, m);
      MentionsJoin(r, [f], i, m);
      assert xs == init + [f];
      if Same(r[|r| - 1], f) && Mentions([f], i, m) { assert r[|r| - 1].instruction == i; }
    }
  }

  lemma {:induction false} InsertOrders(f: Failure, xs: seq<Failure>)
    requires ByInstruction(xs)
    ensures ByInstruction(Insert(f, xs))
    ensures forall k :: 0 <= k < |Insert(f, xs)| ==> Insert(f, xs)[k] == f || Insert(f, xs)[k] in xs
  {
    if xs != [] && xs[0].instruction <= f.instruction {
      InsertOrders(f, xs[1..]);
      var r := Insert(f, xs[1..]);
      forall k | 0 <= k < |r| ensures xs[0].instruction <= r[k].instruction {
        if r[k] != f {
          var j :| 0 <= j < |xs[1..]| && xs[1..][j] == r[k];
          assert xs[j + 1] == r[k];
        }
      }
    }
  }

  lemma {:induction false} SortOrders(xs: seq<Failure>)
    ensures ByInstruction(Sorted(xs))
  {
    hide Insert;
    if xs != [] {
      SortOrders(xs[..|xs| - 1]);
      InsertOrders(xs[|xs| - 1], Sorted(xs[..|xs| - 1]));
    }
  }

  lemma {:induction false} DedupOrders(xs: seq<Failure>)
    requires ByInstruction(xs)
    ensures ByInstruction(Deduped(xs))
    ensures forall k :: 0 <= k < |Deduped(xs)| ==> Deduped(xs)[k] in xs
  {
    if |xs| > 1 {
      var init := xs[..|xs| - 1];
      DedupOrders(init);
      var r := Deduped(init);
      forall k | 0 <= k < |r| ensures r[k].instruction <= xs[|xs| - 1].instruction {
        var j :| 0 <= j < |init| && init[j] == r[k];
        assert xs[j] == r[k];
      }
    }
  }

  lemma {:induction false} FlattenMentions(fs: seq<seq<Failure>>, i: int, m: string)
    ensures Mentions(Flatten(fs), i, m) <==> exists k :: 0 <= k < |fs| && Mentions(fs[k], i, m)
  {
    if fs != [] {
      FlattenMentions(fs[1..], i, m);
      MentionsJoin(fs[0], Flatten(fs[1..]), i, m);
      if k :| 0 <= k < |fs[1..]| && Mentions(fs[1..][k], i, m) { assert fs[k + 1] == fs[1..][k]; }
      if k :| 0 <= k < |fs| && Mentions(fs[k], i, m) { assert k > 0 ==> fs[1..][k - 1] == fs[k]; }
    }
  }

  /** Before sorting, the failures mention exactly what is reported on some path. */
  lemma {:induction false} ReportExact<A>(c: Code<A>, v: View<A>, start: int, n: nat, i: int, m: string)
    requires v == View([], [], AllOn(|v.analyzers|), v.analyzers) && Bounded(c, Place(start, []), n)
    requires Explore(c, v, Place(start, []), n).Some?
    ensures Mentions(Flatten(Explore(c, v, Place(start, []), n).value.failures), i, m) <==>
      Reported(c, v.analyzers, start, i, m)
  {
    var fs := Explore(c, v, Place(start, []), n).value.failures;
    hide Explore, Bounded, Path, Alone, Flatten;
    FlattenMentions(fs, i, m);
    if k :| 0 <= k < |fs| && Mentions(fs[k], i, m) {
      var j :| 0 <= j < |fs[k]| && fs[k][j].instruction == i && fs[k][j].message == m;
      var p := Sound(c, v, Place(start, []), n, k, fs[k][j]);
      assert Mentions(Alone(c, v.analyzers[k], true, [], p), i, m);
    }
    if k, p :| 0 <= k < |v.analyzers| && Path(c, p) && p != [] && p[0] == Place(start, []) &&
               Mentions(Alone(c, v.analyzers[k], true, [], p), i, m)
    {
      var xs := Alone(c, v.analyzers[k], true, [], p);
      var j :| 0 <= j < |xs| && xs[j].instruction == i && xs[j].message == m;
      Complete(c, v, Place(start, []), n, k, p, xs[j]);
      assert Mentions(fs[k], i, m);
    }
  }
}
