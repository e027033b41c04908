/** When tracing comes to an end, in terms of the layout: exactly where control gets neither into
    a loop nor into an unbounded chain of calls. */
module TraceBounds {
  import opened Values
  import opened Ast
  import opened Static
  import opened Layout
  import opened Programs
  import opened Flow
  import opened Discipline
  import opened SimBase
  import opened Trails
  import T = Tracing
  import M = Machine

  // ---- Control flow of definitions ----

  /** Control goes from `k` to `k'`; a call comes back only if its callee returns, with at most `n`
      further calls pending. */
  ghost predicate Edge(g: Program, n: nat, code: Code, k: int, k': int)
    decreases n, 1, 0
  {
    Step(code, k, k') && (code[k].CallTo? ==> Returns(g, n, code[k].target))
  }

  ghost predicate Way(g: Program, n: nat, code: Code, a: int, b: int, m: nat)
    decreases n, 2, m
  {
    if m == 0 then a == b else exists x :: Edge(g, n, code, a, x) && Way(g, n, code, x, b, m - 1)
  }

  ghost predicate Returns(g: Program, n: nat, l: M.Label)
    decreases n, 0, 0
  {
    n > 0 && CodeOf(g, l).Some? && Comes(g, n - 1, CodeOf(g, l).value, 0)
  }

  /** Control gets to a return from `k`. */
  ghost predicate Comes(g: Program, n: nat, code: Code, k: int)
    decreases n, 3, 0
  {
    exists j, m: nat :: Way(g, n, code, k, j, m) && At(code, j, I(M.Return))
  }

  predicate At(code: Code, k: int, op: Op) {
    0 <= k < |code| && code[k] == op
  }

  ghost predicate Live(g: Program, n: nat, code: Code, k: int) {
    exists m: nat :: Way(g, n, code, 0, k, m)
  }

  ghost predicate Further(g: Program, n: nat, code: Code, a: int, b: int) {
    exists m: nat :: m > 0 && Way(g, n, code, a, b, m)
  }

  /** Wherever control gets from the start, it does not go round, and what it calls settles. */
  ghost predicate Calm(g: Program, n: nat, code: Code)
    decreases n, 1
  {
    (forall k :: Live(g, n, code, k) ==> !Further(g, n, code, k, k)) &&
    forall k :: 0 <= k < |code| && code[k].CallTo? && Live(g, n, code, k) ==> Settles(g, n, code[k].target)
  }

  /** A call of `l` never goes round and never has more than `n` calls pending. */
  ghost predicate Settles(g: Program, n: nat, l: M.Label)
    decreases n, 0
  {
    n > 0 && CodeOf(g, l).Some? && Calm(g, n - 1, CodeOf(g, l).value)
  }

  ghost predicate EverCalm(g: Program, code: Code) {
    exists n: nat :: Calm(g, n, code)
  }

  ghost predicate EverSettles(g: Program, l: M.Label) {
    exists n: nat :: Settles(g, n, l)
  }

  /** Control stays in the code, except for calls of what is defined. */
  predicate Tidy(g: Program, code: Code) {
    code != [] && forall k :: 0 <= k < |code| ==> TidyAt(g, code, k)
  }

  predicate TidyAt(g: Program, code: Code, k: int)
    requires 0 <= k < |code|
  {
    match code[k]
    case I(i) => i.Exit? || i.Return? || (!M.IsControl(i) && k + 1 < |code|)
    case JumpBy(d) => 0 <= k + d < |code|
    case BranchBy(d) => k + 1 < |code| && 0 <= k + d < |code|
    case CallTo(l) => k + 1 < |code| && CodeOf(g, l).Some?
    case _ => false
  }

  lemma {:induction false} SealedTidy(md: Mode, code: Code, h: Height)
    requires Sealed(md, code, h) && !md.stub
    ensures Tidy(md.g, code) && code != []
  {
    hide FunctionCode, ProcedureCode, FindDefinition;
    var hs :| Closed(md, code, hs, h);
    forall k | 0 <= k < |code| ensures TidyAt(md.g, code, k) {
      assert Flows(md, code[k], hs, k);
      if code[k].CallTo? { assert CodeOf(md.g, code[k].target).Some? by { FindNone(code[k].target.name); } }
    }
  }

  /** What is called is tidy and stands where its label points. */
  lemma {:induction false} Callee(img: Image, l: M.Label)
    requires Loaded(img) && PolicyOk(img.g) && CodeOf(img.g, l).Some?
    ensures Installed(img, l, CodeOf(img.g, l).value) && Tidy(img.g, CodeOf(img.g, l).value) &&
      CodeOf(img.g, l).value != []
  {
    hide CodeOf, Sealed, Tidy, Installed, CallEffect, Loaded, PolicyOk;
    CalledSealed(img, l);
    SealedTidy(CalledMode(img.g, l), CodeOf(img.g, l).value, Height(CallEffect(img.g, l).value.0, 0));
  }

  // ---- Walks of the tracer ----

  ghost predicate Goes<A>(c: T.Code<A>, a: T.Place, b: T.Place) {
    T.Ahead(c, a).Some? && b in T.Ahead(c, a).value
  }

  ghost predicate Walk<A>(c: T.Code<A>, a: T.Place, b: T.Place, w: nat)
    decreases w
  {
    if w == 0 then a == b else exists x :: Goes(c, a, x) && Walk(c, x, b, w - 1)
  }

  lemma {:induction false} WalkOn<A>(c: T.Code<A>, a: T.Place, b: T.Place, d: T.Place, w: nat, w': nat)
    requires Walk(c, a, b, w) && Walk(c, b, d, w')
    ensures Walk(c, a, d, w + w')
    decreases w
  {
    hide Goes;
    if w > 0 {
      var x :| Goes(c, a, x) && Walk(c, x, b, w - 1);
      WalkOn(c, x, b, d, w - 1, w');
    }
  }

  lemma {:induction false} WalkStep<A>(c: T.Code<A>, a: T.Place, b: T.Place)
    requires Goes(c, a, b)
    ensures Walk(c, a, b, 1)
  {
    hide Goes;
    assert Walk(c, b, b, 0);
  }

  lemma {:induction false} BoundedStep<A>(c: T.Code<A>, a: T.Place, b: T.Place, n: nat)
    requires T.Bounded(c, a, n) && Goes(c, a, b)
    ensures n > 0 && T.Bounded(c, b, n - 1)
  {
    var next := T.Ahead(c, a).value;
    var i :| 0 <= i < |next| && next[i] == b;
  }

  lemma {:induction false} BoundedMore<A>(c: T.Code<A>, a: T.Place, n: nat, n': nat)
    requires T.Bounded(c, a, n) && n <= n'
    ensures T.Bounded(c, a, n')
    decreases n
  {
    var next := T.Ahead(c, a);
    if next.Some? {
      forall i | 0 <= i < |next.value| ensures n' > 0 && T.Bounded(c, next.value[i], n' - 1) {
        BoundedMore(c, next.value[i], n - 1, n' - 1);
      }
    }
  }

  lemma {:induction false} WalkBounded<A>(c: T.Code<A>, a: T.Place, b: T.Place, w: nat, n: nat)
    requires Walk(c, a, b, w) && T.Bounded(c, a, n)
    ensures w <= n && T.Bounded(c, b, n - w)
    decreases w
  {
    hide T.Bounded, Goes;
    if w > 0 {
      var x :| Goes(c, a, x) && Walk(c, x, b, w - 1);
      BoundedStep(c, a, x, n);
      WalkBounded(c, x, b, w - 1, n - 1);
    }
  }

  /** A place control can come back to, with the same calls pending, is never traced to the end. */
  lemma {:induction false} CycleUnbounded<A>(c: T.Code<A>, a: T.Place, w: nat, n: nat)
    requires w > 0 && Walk(c, a, a, w)
    ensures !T.Bounded(c, a, n)
    decreases n
  {
    hide T.Bounded, Walk;
    if T.Bounded(c, a, n) {
      WalkBounded(c, a, a, w, n);
      CycleUnbounded(c, a, w, n - w);
    }
  }

  // ---- Ways are walks ----

  lemma {:induction false} ComesBy(g: Program, n: nat, code: Code, k: int) returns (j: int, m: nat)
    requires Comes(g, n, code, k)
    ensures Way(g, n, code, k, j, m) && At(code, j, I(M.Return))
  {
    hide Way;
    j, m :| Way(g, n, code, k, j, m) && At(code, j, I(M.Return));
  }

  /** The operation at `k` of code standing at `base`. */
  lemma {:induction false} OpAt(img: Image, base: int, code: Code, k: int)
    requires Holds(img, base, code) && 0 <= k < |code|
    ensures 0 <= base + k < |img.prog| && img.prog[base + k] == Place(img.labels, code[k], base + k)
  {
  }

  lemma {:induction false} CallGoes<A>(c: T.Code<A>, img: Image, base: int, code: Code, k: int, st: seq<int>)
    requires c.prog == img.prog && Holds(img, base, code) && 0 <= k < |code| && code[k].CallTo? &&
      code[k].target in img.labels
    ensures T.Ahead(c, T.Place(base + k, st)) == Some([T.Place(img.labels[code[k].target], st + [base + k])])
    ensures Goes(c, T.Place(base + k, st), T.Place(img.labels[code[k].target], st + [base + k]))
  {
    OpAt(img, base, code, k);
  }

  lemma {:induction false} ReturnGoes<A>(c: T.Code<A>, img: Image, base: int, code: Code, k: int, st: seq<int>,
      from: int)
    requires c.prog == img.prog && Holds(img, base, code) && At(code, k, I(M.Return))
    ensures Goes(c, T.Place(base + k, st + [from]), T.Place(from + 1, st))
  {
    OpAt(img, base, code, k);
    assert (st + [from])[..|st|] == st;
  }

  lemma {:induction false} StepGoes<A>(c: T.Code<A>, img: Image, base: int, code: Code, k: int, k': int, st: seq<int>)
    requires c.prog == img.prog && Holds(img, base, code) && Step(code, k, k') && !code[k].CallTo?
    ensures Goes(c, T.Place(base + k, st), T.Place(base + k', st))
  {
    OpAt(img, base, code, k);
    if code[k].BranchBy? {
      var next := T.Ahead(c, T.Place(base + k, st)).value;
      assert next[0] == T.Place(base + k + code[k].distance, st) && next[1] == T.Place(base + k + 1, st);
    }
  }

  /** Every way through a definition is a walk of the tracer, with the same calls pending. */
  lemma {:induction false} WayWalks<A>(
    c: T.Code<A>, img: Image, n: nat, base: int, code: Code, a: int, b: int, m: nat, st: seq<int>) returns (w: nat)
    requires c.prog == img.prog && Loaded(img) && PolicyOk(img.g) && Holds(img, base, code) &&
      Way(img.g, n, code, a, b, m)
    ensures w >= m && Walk(c, T.Place(base + a, st), T.Place(base + b, st), w)
    decreases n, 1, m
  {
    hide Loaded, PolicyOk, Holds, Step, Returns;
    if m == 0 {
      w := 0;
    } else {
      var x :| Edge(img.g, n, code, a, x) && Way(img.g, n, code, x, b, m - 1);
      hide Walk;
      var w1 := EdgeWalks(c, img, n, base, code, a, x, st);
      var w2 := WayWalks(c, img, n, base, code, x, b, m - 1, st);
      WalkOn(c, T.Place(base + a, st), T.Place(base + x, st), T.Place(base + b, st), w1, w2);
      w := w1 + w2;
    }
  }

  lemma {:induction false} EdgeWalks<A>(
    c: T.Code<A>, img: Image, n: nat, base: int, code: Code, k: int, k': int, st: seq<int>) returns (w: nat)
    requires c.prog == img.prog && Loaded(img) && PolicyOk(img.g) && Holds(img, base, code) &&
      Edge(img.g, n, code, k, k')
    ensures w > 0 && Walk(c, T.Place(base + k, st), T.Place(base + k', st), w)
    decreases n, 0, 0
  {
    hide Loaded, PolicyOk, Holds, Way, Walk, Goes, CodeOf, Tidy;
    if code[k].CallTo? {
      var l := code[k].target;
      Callee(img, l);
      var body, entry := CodeOf(img.g, l).value, img.labels[l];
      var j, m := ComesBy(img.g, n - 1, body, 0);
      CallGoes(c, img, base, code, k, st);
      WalkStep(c, T.Place(base + k, st), T.Place(entry, st + [base + k]));
      w := WayWalks(c, img, n - 1, entry, body, 0, j, m, st + [base + k]);
      WalkOn(c, T.Place(base + k, st), T.Place(entry, st + [base + k]), T.Place(entry + j, st + [base + k]), 1, w);
      ReturnGoes(c, img, entry, body, j, st, base + k);
      WalkStep(c, T.Place(entry + j, st + [base + k]), T.Place(base + k + 1, st));
      WalkOn(c, T.Place(base + k, st), T.Place(entry + j, st + [base + k]), T.Place(base + k + 1, st), 1 + w, 1);
      w := 1 + w + 1;
    } else {
      StepGoes(c, img, base, code, k, k', st);
      WalkStep(c, T.Place(base + k, st), T.Place(base + k', st));
      w := 1;
    }
  }

  // ---- Tracing that ends keeps calm ----

  lemma {:induction false} NoTurn<A>(c: T.Code<A>, img: Image, base: int, code: Code, st: seq<int>, n: nat, k: int)
    requires c.prog == img.prog && Loaded(img) && PolicyOk(img.g) && Holds(img, base, code)
    requires T.Bounded(c, T.Place(base, st), n) && Live(img.g, n, code, k)
    ensures !Further(img.g, n, code, k, k)
  {
    hide Loaded, PolicyOk, Holds, Way, Walk, T.Bounded;
    if Further(img.g, n, code, k, k) {
      var m: nat :| Way(img.g, n, code, 0, k, m);
      var m': nat :| m' > 0 && Way(img.g, n, code, k, k, m');
      var w := WayWalks(c, img, n, base, code, 0, k, m, st);
      WalkBounded(c, T.Place(base, st), T.Place(base + k, st), w, n);
      var w' := WayWalks(c, img, n, base, code, k, k, m', st);
      CycleUnbounded(c, T.Place(base + k, st), w', n - w);
    }
  }

  lemma {:induction false} BoundedCalm<A>(c: T.Code<A>, img: Image, base: int, code: Code, st: seq<int>, n: nat)
    requires c.prog == img.prog && Loaded(img) && PolicyOk(img.g) && Holds(img, base, code) && Tidy(img.g, code)
    requires T.Bounded(c, T.Place(base, st), n)
    ensures Calm(img.g, n, code)
    decreases n
  {
    hide Loaded, PolicyOk, Holds, Way, Walk, T.Bounded, Further, CodeOf, Goes;
    forall k | Live(img.g, n, code, k) ensures !Further(img.g, n, code, k, k) {
      NoTurn(c, img, base, code, st, n, k);
    }
    forall k | 0 <= k < |code| && code[k].CallTo? && Live(img.g, n, code, k) ensures Settles(img.g, n, code[k].target) {
      assert TidyAt(img.g, code, k);
      var m: nat :| Way(img.g, n, code, 0, k, m);
      hide Tidy, Calm;
      var l := code[k].target;
      Callee(img, l);
      var w := WayWalks(c, img, n, base, code, 0, k, m, st);
      WalkBounded(c, T.Place(base, st), T.Place(base + k, st), w, n);
      CallGoes(c, img, base, code, k, st);
      BoundedStep(c, T.Place(base + k, st), T.Place(img.labels[l], st + [base + k]), n - w);
      BoundedMore(c, T.Place(img.labels[l], st + [base + k]), n - w - 1, n - 1);
      BoundedCalm(c, img, img.labels[l], CodeOf(img.g, l).value, st + [base + k], n - 1);
    }
  }

  // ---- Calm code is traced to the end ----

  lemma {:induction false} WayOn(g: Program, n: nat, code: Code, a: int, b: int, d: int, m: nat, m': nat)
    requires Way(g, n, code, a, b, m) && Way(g, n, code, b, d, m')
    ensures Way(g, n, code, a, d, m + m')
    decreases m
  {
    hide Edge;
    if m > 0 {
      var x :| Edge(g, n, code, a, x) && Way(g, n, code, x, b, m - 1);
      WayOn(g, n, code, x, b, d, m - 1, m');
    }
  }

  lemma {:induction false} WayStep(g: Program, n: nat, code: Code, k: int, k': int)
    requires Edge(g, n, code, k, k')
    ensures Way(g, n, code, k, k', 1)
  {
    hide Edge;
    assert Way(g, n, code, k', k', 0);
  }

  /** Where control gets from `k` in at least one step. */
  ghost function Beyond(g: Program, n: nat, code: Code, k: int): set<int> {
    set j | 0 <= j <= |code| && Further(g, n, code, k, j)
  }

  /** An edge of calm code keeps it live, keeps a return in reach only if it was, and leaves less
      ahead. */
  lemma {:induction false} EdgeLess(g: Program, n: nat, code: Code, k: int, k': int)
    requires Calm(g, n, code) && Live(g, n, code, k) && Edge(g, n, code, k, k')
    ensures Live(g, n, code, k') && (Comes(g, n, code, k') ==> Comes(g, n, code, k))
    ensures Beyond(g, n, code, k') < Beyond(g, n, code, k)
  {
    WayStep(g, n, code, k, k');
    hide Way, Settles, Returns;
    var m: nat :| Way(g, n, code, 0, k, m);
    WayOn(g, n, code, 0, k, k', m, 1);
    assert Live(g, n, code, k') && !Further(g, n, code, k', k') && Further(g, n, code, k, k');
    hide Calm;
    if Comes(g, n, code, k') {
      var j, m' := ComesBy(g, n, code, k');
      WayOn(g, n, code, k, k', j, 1, m');
    }
    forall j | j in Beyond(g, n, code, k') ensures j in Beyond(g, n, code, k) {
      var m': nat :| m' > 0 && Way(g, n, code, k', j, m');
      WayOn(g, n, code, k, k', j, 1, m');
    }
    assert k' in Beyond(g, n, code, k) && k' !in Beyond(g, n, code, k');
  }

  ghost predicate Ends<A>(c: T.Code<A>, at: T.Place) {
    exists n: nat :: T.Bounded(c, at, n)
  }

  /** After the innermost pending call, if any, tracing ends. */
  ghost predicate Resumes<A>(c: T.Code<A>, st: seq<int>) {
    st == [] || Ends(c, T.Place(st[|st| - 1] + 1, st[..|st| - 1]))
  }

  /** Tracing ends wherever it ends after one step. */
  lemma {:induction false} EndsAfter<A>(c: T.Code<A>, at: T.Place)
    requires T.Ahead(c, at).Some? && |T.Ahead(c, at).value| <= 2
    requires forall i :: 0 <= i < |T.Ahead(c, at).value| ==> Ends(c, T.Ahead(c, at).value[i])
    ensures Ends(c, at)
  {
    hide T.Ahead;
    var next := T.Ahead(c, at).value;
    if |next| == 0 {
      assert T.Bounded(c, at, 0);
    } else {
      var a: nat :| T.Bounded(c, next[0], a);
      var b: nat :| T.Bounded(c, next[|next| - 1], b);
      var n := if a < b then b else a;
      BoundedMore(c, next[0], a, n);
      BoundedMore(c, next[|next| - 1], b, n);
      assert T.Bounded(c, at, n + 1);
    }
  }

  /** The places after an operation that is neither a call nor a return. */
  lemma {:induction false} FewAhead<A>(c: T.Code<A>, img: Image, base: int, code: Code, k: int, st: seq<int>)
    requires c.prog == img.prog && Holds(img, base, code) && Tidy(img.g, code) && 0 <= k < |code|
    requires !code[k].CallTo? && code[k] != I(M.Return)
    ensures T.Ahead(c, T.Place(base + k, st)).Some? && |T.Ahead(c, T.Place(base + k, st)).value| <= 2
  {
    hide CodeOf;
    OpAt(img, base, code, k);
    assert TidyAt(img.g, code, k);
  }

  lemma {:induction false} Onward<A>(c: T.Code<A>, img: Image, n: nat, base: int, code: Code, k: int, st: seq<int>,
      i: nat)
    returns (k': int)
    requires c.prog == img.prog && Holds(img, base, code) && Tidy(img.g, code) && 0 <= k < |code|
    requires !code[k].CallTo? && code[k] != I(M.Return)
    requires T.Ahead(c, T.Place(base + k, st)).Some? && i < |T.Ahead(c, T.Place(base + k, st)).value|
    ensures 0 <= k' < |code| && Edge(img.g, n, code, k, k') && T.Ahead(c, T.Place(base + k, st)).value[i] ==
      T.Place(base + k', st)
  {
    hide CodeOf;
    OpAt(img, base, code, k);
    assert TidyAt(img.g, code, k);
    k' := match code[k] case JumpBy(d) => k + d case BranchBy(d) => (if i == 0 then k + d else k + 1) case _ => k + 1;
  }

  lemma {:induction false} ReturnEnds<A>(c: T.Code<A>, img: Image, n: nat, base: int, code: Code, k: int, st: seq<int>)
    requires c.prog == img.prog && Holds(img, base, code) && At(code, k, I(M.Return))
    requires Comes(img.g, n, code, k) ==> Resumes(c, st)
    ensures Ends(c, T.Place(base + k, st))
  {
    hide T.Bounded;
    assert Way(img.g, n, code, k, k, 0);
    OpAt(img, base, code, k);
    EndsAfter(c, T.Place(base + k, st));
  }

  lemma CallSettles(img: Image, n: nat, code: Code, k: int)
    requires Calm(img.g, n, code) && Live(img.g, n, code, k) && 0 <= k < |code| && code[k].CallTo?
    ensures n > 0 && CodeOf(img.g, code[k].target).Some? && Calm(img.g, n - 1, CodeOf(img.g, code[k].target).value)
  {
    hide Live, Further, CodeOf;
  }

  lemma CallEdge(img: Image, n: nat, code: Code, k: int)
    requires Tidy(img.g, code) && 0 <= k < |code| && code[k].CallTo? && Returns(img.g, n, code[k].target)
    ensures k + 1 < |code| && Edge(img.g, n, code, k, k + 1)
  {
    hide CodeOf, Comes;
    assert TidyAt(img.g, code, k);
  }

  lemma ResumesAt<A>(c: T.Code<A>, from: int, st: seq<int>)
    requires Ends(c, T.Place(from + 1, st))
    ensures Resumes(c, st + [from])
  {
    hide T.Bounded;
    assert (st + [from])[..|st|] == st;
  }

  lemma Begins(g: Program, n: nat, code: Code)
    ensures Live(g, n, code, 0)
  {
    assert Way(g, n, code, 0, 0, 0);
  }

  lemma {:induction false} CalmEnds<A>(c: T.Code<A>, img: Image, n: nat, base: int, code: Code, k: int, st: seq<int>)
    requires c.prog == img.prog && Loaded(img) && PolicyOk(img.g) && Holds(img, base, code) && Tidy(img.g, code)
    requires Calm(img.g, n, code) && 0 <= k < |code| && Live(img.g, n, code, k)
    requires Comes(img.g, n, code, k) ==> Resumes(c, st)
    ensures Ends(c, T.Place(base + k, st))
    decreases n, Beyond(img.g, n, code, k)
  {
    hide Loaded, PolicyOk, Holds, T.Bounded, T.Ahead, Tidy, Calm, Comes, Live, Edge, CodeOf, Resumes, Ends, Beyond;
    var at := T.Place(base + k, st);
    if code[k] == I(M.Return) {
      ReturnEnds(c, img, n, base, code, k, st);
    } else if code[k].CallTo? {
      var l := code[k].target;
      CallSettles(img, n, code, k);
      Callee(img, l);
      CallGoes(c, img, base, code, k, st);
      if Returns(img.g, n, l) {
        CallEdge(img, n, code, k);
        EdgeLess(img.g, n, code, k, k + 1);
        CalmEnds(c, img, n, base, code, k + 1, st);
        ResumesAt(c, base + k, st);
      }
      Begins(img.g, n - 1, CodeOf(img.g, l).value);
      CalmEnds(c, img, n - 1, img.labels[l], CodeOf(img.g, l).value, 0, st + [base + k]);
      EndsAfter(c, at);
    } else {
      FewAhead(c, img, base, code, k, st);
      forall i | 0 <= i < |T.Ahead(c, at).value| ensures Ends(c, T.Ahead(c, at).value[i]) {
        var k' := Onward(c, img, n, base, code, k, st, i);
        EdgeLess(img.g, n, code, k, k');
        CalmEnds(c, img, n, base, code, k', st);
      }
      EndsAfter(c, at);
    }
  }

  /** The exact condition: tracing from the start of tidy code ends if and only if control gets
      neither into a loop nor into an unbounded chain of calls. */
  lemma {:induction false} Exact<A>(c: T.Code<A>, img: Image, base: int, code: Code, st: seq<int>)
    requires c.prog == img.prog && Loaded(img) && PolicyOk(img.g) && Holds(img, base, code) && Tidy(img.g, code) &&
      Resumes(c, st)
    ensures Ends(c, T.Place(base, st)) <==> EverCalm(img.g, code)
  {
    hide Loaded, PolicyOk, Holds, T.Bounded, Calm, TidyAt, Resumes;
    if Ends(c, T.Place(base, st)) {
      var n: nat :| T.Bounded(c, T.Place(base, st), n);
      BoundedCalm(c, img, base, code, st, n);
    }
    if EverCalm(img.g, code) {
      var n: nat :| Calm(img.g, n, code);
      Begins(img.g, n, code);
      CalmEnds(c, img, n, base, code, 0, st);
    }
  }

  /** For every definition that can be called. */
  lemma {:induction false} CallExact<A>(c: T.Code<A>, img: Image, l: M.Label)
    requires c.prog == img.prog && Loaded(img) && PolicyOk(img.g) && CodeOf(img.g, l).Some?
    ensures l in img.labels && (Ends(c, T.Place(img.labels[l], [])) <==> EverSettles(img.g, l))
  {
    hide Loaded, PolicyOk, Holds, T.Bounded, CodeOf, Tidy, Ends, EverCalm, EverSettles;
    Callee(img, l);
    Exact(c, img, img.labels[l], CodeOf(img.g, l).value, []);
    SettlesCalm(img.g, l);
  }

  lemma {:induction false} SettlesCalm(g: Program, l: M.Label)
    requires CodeOf(g, l).Some?
    ensures EverSettles(g, l) <==> EverCalm(g, CodeOf(g, l).value)
  {
    hide CodeOf;
    if EverSettles(g, l) {
      var n: nat :| Settles(g, n, l);
      SettledCalm(g, n, l);
    }
    if EverCalm(g, CodeOf(g, l).value) {
      var n: nat :| Calm(g, n, CodeOf(g, l).value);
      hide Calm;
      assert Settles(g, n + 1, l);
    }
  }

  lemma SettledCalm(g: Program, n: nat, l: M.Label)
    requires Settles(g, n, l)
    ensures EverCalm(g, CodeOf(g, l).value)
  {
    hide CodeOf, Live, Further;
    var before: nat := n - 1;
    assert Calm(g, before, CodeOf(g, l).value);
  }
}
