/** The static heights are those of the machine: in every state a compiled policy gets into, the
    operand stack and the open blocks are as high as the code says. */
module Heights {
  import opened Values
  import opened Ast
  import opened Static
  import opened Layout
  import opened Programs
  import opened Flow
  import opened Discipline
  import opened Images
  import opened SimBase
  import opened Hosting
  import C = Correctness
  import M = Machine

  // ---- Instructions ----

  lemma {:induction false} NthSome(s: List<Value>, d: nat)
    ensures M.Nth(s, d).Some? <==> d < Length(s)
  {
    if s.Cons? && d > 0 { NthSome(s.tail, d - 1); }
  }

  lemma {:induction false} ReplaceLength(s: List<Value>, d: nat, v: Value)
    ensures Length(M.Replace(s, d, v)) == Length(s)
  {
    if s.Cons? && d > 0 { ReplaceLength(s.tail, d - 1, v); }
  }

  lemma {:induction false} PopManyLength(s: List<Value>, n: nat)
    ensures PopMany(s, n).Some? <==> n <= Length(s)
    ensures PopMany(s, n).Some? ==> Length(PopMany(s, n).value.1) == Length(s) - n
  {
    if s.Cons? && n > 0 { PopManyLength(s.tail, n - 1); }
  }

  lemma {:induction false} AdministerSound(w: World, i: M.Instr, s: M.Config)
    requires M.Administer(w, i, s).Running?
    ensures i.Pop? || Needs(w, i) <= Length(s.stack)
    ensures Needs(w, i) <= Length(s.stack) ==> Length(M.Administer(w, i, s).cfg.stack) == Length(s.stack) + Net(w, i)
  {
    hide QueryRows, Lookup, Define, UpdateFact, CallForeign, PopMany, M.Nth, M.Replace, Collect;
    match i
    case Dup(d) => NthSome(s.stack, d);
    case Swap(d) =>
      NthSome(s.stack, d);
      if d > 0 && s.stack.Cons? { ReplaceLength(s.stack.tail, d - 1, s.stack.head); }
    case ExtCall(m, p) => PopManyLength(s.stack, ArityOf(w, m, p));
    case _ =>
  }

  /** The effects are those of the machine: an instruction other than a bare pop runs only with
      the operands it needs, and then changes the height as stated. */
  lemma {:induction false} EffectSound(w: World, i: M.Instr, s: M.Config)
    requires !M.IsControl(i) && M.Operate(w, i, s).Running?
    ensures i.Pop? || Needs(w, i) <= Length(s.stack)
    ensures Needs(w, i) <= Length(s.stack) ==> Length(M.Operate(w, i, s).cfg.stack) == Length(s.stack) + Net(w, i)
  {
    hide M.Administer, M.Consume, M.OnTop, M.SetMember, M.Binary;
    if !M.IsBinary(i) && !M.IsOnTop(i) && !M.IsSetter(i) && !M.IsConsumer(i) { AdministerSound(w, i, s); }
  }

  /** The current scope chain gains or loses the blocks it should, and the callers' stay. */
  lemma {:induction false} BlocksSound(w: World, i: M.Instr, s: M.Config)
    requires !M.IsControl(i) && M.Operate(w, i, s).Running? && s.locals.Cons?
    ensures var t := M.Operate(w, i, s).cfg;
      t.locals.Cons? && t.locals.tail == s.locals.tail && t.calls == s.calls &&
      Length(t.locals.head) == Length(s.locals.head) + if i.Block? then 1 else if i.End? then -1 else 0
  {
    hide M.Consume, M.OnTop, M.SetMember, M.Binary, QueryRows, Lookup, UpdateFact, CallForeign, PopMany, M.Nth,
      M.Replace, Collect,
      DefinedIn;
  }

  predicate Underflow(t: M.State) {
    t.Faulted? && t.fault == StackUnderflow
  }

  lemma {:induction false} CountKeeps(f: Value, rows: seq<Row>, limit: int)
    requires f.FactV?
    ensures M.CountRows(f, rows, limit).Err? ==> M.CountRows(f, rows, limit).fault != StackUnderflow
    decreases |rows|
  {
    hide RowMatches;
    if 0 < limit && rows != [] && rows[0].Row? {
      CountKeeps(f, rows[1..], limit - 1);
      CountKeeps(f, rows[1..], limit);
    }
  }

  lemma {:induction false} FirstKeeps(f: Value, rows: seq<Row>)
    requires f.FactV?
    ensures FirstMatch(f, rows).Err? ==> FirstMatch(f, rows).fault != StackUnderflow
    decreases |rows|
  {
    hide RowMatches;
    if rows != [] && rows[0].Row? { FirstKeeps(f, rows[1..]); }
  }

  lemma {:induction false} OnTopKeeps(w: World, i: M.Instr, v: Value, h: History)
    ensures M.OnTop(w, i, v, h).Err? ==> M.OnTop(w, i, v, h).fault != StackUnderflow
  {
    hide M.CountRows, FirstMatch, FactFits;
    if (i.Query? || i.FactCount?) && v.FactV? && QueryRows(w, v, h).Ok? {
      FirstKeeps(v, QueryRows(w, v, h).value);
      if i.FactCount? { CountKeeps(v, QueryRows(w, v, h).value, i.limit); }
    }
  }

  /** With the operands it needs, no instruction underflows. */
  lemma {:induction false} OtherFaults(w: World, i: M.Instr, a: Value, b: Value, h: History)
    ensures M.Binary(i, a, b) != Err(StackUnderflow) && M.SetMember(w, i, a, b) != Err(StackUnderflow)
    ensures M.Consume(w, i, b, h).Fail? ==> M.Consume(w, i, b, h).fault != StackUnderflow
  {
    hide StructFits, HasField, SetEntry, Hashable;
  }

  lemma {:induction false} EnoughOperands(w: World, i: M.Instr, s: M.Config)
    requires !M.IsControl(i) && Needs(w, i) <= Length(s.stack)
    ensures !Underflow(M.Operate(w, i, s))
  {
    hide M.OnTop, M.Administer, M.Binary, M.SetMember, M.Consume;
    if M.IsOnTop(i) {
      OnTopKeeps(w, i, s.stack.head, s.hist);
    } else if M.IsBinary(i) || M.IsSetter(i) {
      OtherFaults(w, i, s.stack.tail.head, s.stack.head, s.hist);
    } else if M.IsConsumer(i) {
      OtherFaults(w, i, s.stack.head, s.stack.head, s.hist);
    } else {
      EnoughToAdminister(w, i, s);
    }
  }

  predicate Shuffles(i: M.Instr) {
    i.Const? || i.FactNew? || i.StructNew? || i.Pop? || i.Dup? || i.Swap?
  }

  predicate TouchesStore(i: M.Instr) {
    i.Update? || i.QueryStart? || i.QueryNext? || i.ExtCall?
  }

  lemma {:induction false} EnoughToAdminister(w: World, i: M.Instr, s: M.Config)
    requires Needs(w, i) <= Length(s.stack)
    ensures !Underflow(M.Administer(w, i, s))
  {
    hide M.Administer, Needs;
    if Shuffles(i) { EnoughToShuffle(w, i, s); }
    else if TouchesStore(i) { EnoughForStore(w, i, s); }
    else { EnoughForScope(w, i, s); }
  }

  lemma {:induction false} EnoughToShuffle(w: World, i: M.Instr, s: M.Config)
    requires Shuffles(i) && Needs(w, i) <= Length(s.stack)
    ensures !Underflow(M.Administer(w, i, s))
  {
    hide Lookup, Define, UpdateFact, QueryRows, CallForeign, M.FetchNext, PopMany, M.Nth, M.Replace;
    match i
    case Dup(d) => NthSome(s.stack, d);
    case Swap(d) => NthSome(s.stack, d);
    case _ =>
  }

  lemma {:induction false} EnoughForStore(w: World, i: M.Instr, s: M.Config)
    requires TouchesStore(i) && Needs(w, i) <= Length(s.stack)
    ensures !Underflow(M.Administer(w, i, s))
  {
    hide Lookup, Define, UpdateFact, QueryRows, CallForeign, M.FetchNext, PopMany, M.Nth, M.Replace;
    match i
    case Update => UpdateKeeps(w, s.stack.tail.head, s.stack.head, s.hist);
    case QueryStart => QueryKeeps(w, s.stack.head, s.hist);
    case QueryNext(x) => FetchKeeps(w, x, s);
    case ExtCall(m, p) =>
      PopManyLength(s.stack, ArityOf(w, m, p));
      ForeignKeeps(w, m, p, s.hist);
  }

  lemma {:induction false} EnoughForScope(w: World, i: M.Instr, s: M.Config)
    requires !Shuffles(i) && !TouchesStore(i) && Needs(w, i) <= Length(s.stack)
    ensures !Underflow(M.Administer(w, i, s))
  {
    hide Lookup, Define, UpdateFact, QueryRows, CallForeign, M.FetchNext, PopMany, M.Nth, M.Replace;
    match i
    case Def(x) => if s.locals.Cons? { DefineKeeps(w.globals, s.locals.head, x, s.stack.head); }
    case Get(x) => LookupKeeps(w.globals, if s.locals.Cons? then s.locals.head else Nil, x);
    case _ =>
  }

  lemma DefineKeeps(globals: map<string, Value>, scope: Scope, x: string, v: Value)
    ensures Define(globals, scope, x, v) != Err(StackUnderflow)
  {
    hide DefinedIn;
  }

  lemma LookupKeeps(globals: map<string, Value>, scope: Scope, x: string)
    ensures Lookup(globals, scope, x) != Err(StackUnderflow)
  {
    hide LookupLocal;
  }

  lemma UpdateKeeps(w: World, from: Value, to: Value, h: History)
    ensures UpdateFact(w, from, to, h).Fail? ==> UpdateFact(w, from, to, h).fault != StackUnderflow
  {
  }

  lemma QueryKeeps(w: World, f: Value, h: History)
    ensures QueryRows(w, f, h) != Err(StackUnderflow)
  {
    hide FactFits;
  }

  lemma ForeignKeeps(w: World, m: nat, p: nat, h: History)
    ensures forall args :: CallForeign(w, m, p, args, h).Fail? ==> CallForeign(w, m, p, args, h).fault != StackUnderflow
  {
  }

  lemma FetchKeeps(w: World, x: string, s: M.Config)
    ensures !Underflow(M.FetchNext(w, x, s))
  {
    hide DefinedIn, Collect;
  }

  // ---- The static heights ----

  /** A piece of code that control enters at its start, in a place, and with what it is checked for. */
  datatype Piece = Piece(base: int, code: Code, md: Mode, entry: Height)

  ghost predicate Whole(img: Image, p: Piece) {
    p.md.g == img.g && p.md.ret.blocks == 0 && p.entry.blocks == 0 && Holds(img, p.base, p.code) &&
    Sealed(p.md, p.code, p.entry)
  }

  /** Control can go from position `k` to position `k'`, calls taken as coming back. */
  predicate Edge(code: Code, k: int, k': int) {
    0 <= k < |code| && 0 <= k' < |code| && Next(code[k], k, k')
  }

  predicate Next(op: Op, k: int, k': int) {
    match op
    case I(i) => !i.Exit? && !i.Return? && k' == k + 1
    case JumpBy(d) => k' == k + d
    case BranchBy(d) => k' == k + 1 || k' == k + d
    case CallBy(d) => k' == k + 1 || k' == k + d
    case CallTo(_) => k' == k + 1
    case _ => false
  }

  ghost predicate Gets(code: Code, k: int, m: nat)
    decreases m
  {
    if m == 0 then k == 0 else exists j :: Edge(code, j, k) && Gets(code, j, m - 1)
  }

  /** Control can get from the start to position `k`. */
  ghost predicate Live(code: Code, k: int) {
    exists m: nat :: Gets(code, k, m)
  }

  lemma {:induction false} LiveNext(code: Code, k: int, k': int)
    requires Live(code, k) && Edge(code, k, k')
    ensures Live(code, k')
  {
    var m: nat :| Gets(code, k, m);
    assert Gets(code, k', m + 1);
  }

  /** Wherever control can get, all ways of giving heights to the code agree. */
  lemma {:induction false} OneHeight(md: Mode, code: Code, hs: seq<Height>, hs': seq<Height>, h: Height, k: int, m: nat)
    requires Closed(md, code, hs, h) && Closed(md, code, hs', h) && Gets(code, k, m)
    ensures 0 <= k < |code| && hs[k] == hs'[k]
    decreases m
  {
    hide Flows;
    if m > 0 {
      var j :| Edge(code, j, k) && Gets(code, j, m - 1);
      OneHeight(md, code, hs, hs', h, j, m - 1);
      SameNext(md, code[j], hs, hs', j);
    }
  }

  lemma {:induction false} SameNext(md: Mode, op: Op, hs: seq<Height>, hs': seq<Height>, k: int)
    requires Flows(md, op, hs, k) && Flows(md, op, hs', k) && |hs| == |hs'| && hs[k] == hs'[k]
    ensures forall k' :: Next(op, k, k') && 0 <= k' < |hs| ==> hs[k'] == hs'[k']
  {
    hide CallEffect, Needs, Net;
  }

  /** The heights of a piece. */
  ghost function HeightsOf(p: Piece): (hs: seq<Height>)
    ensures Sealed(p.md, p.code, p.entry) ==> Closed(p.md, p.code, hs, p.entry)
  {
    if Sealed(p.md, p.code, p.entry) then
      var hs :| Closed(p.md, p.code, hs, p.entry);
      hs
    else []
  }

  // ---- Frames ----

  /** An activation of a piece: how many operands lie below its own. */
  datatype Frame = Frame(piece: Piece, floor: int)

  ghost predicate Sound(img: Image, f: Frame) {
    Whole(img, f.piece) && 0 <= f.floor
  }

  predicate Callable(img: Image, l: M.Label) {
    l in img.labels && CodeOf(img.g, l).Some? && CallEffect(img.g, l).Some?
  }

  function CalledPiece(img: Image, l: M.Label): Piece
    requires Callable(img, l)
  {
    Piece(img.labels[l], CodeOf(img.g, l).value, CalledMode(img.g, l), Height(CallEffect(img.g, l).value.0, 0))
  }

  /** The frame that the call at address `a` of frame `f` opens: a call takes its operands from its
      caller, and a call stub calls into the code it stands in. */
  ghost function Opens(img: Image, f: Frame, a: int): Frame {
    var k, hs := a - f.piece.base, HeightsOf(f.piece);
    if !(0 <= k < |f.piece.code| && k < |hs|) then f
    else match f.piece.code[k]
      case CallTo(l) =>
        if Callable(img, l) then Frame(CalledPiece(img, l), f.floor + hs[k].values - CallEffect(img.g, l).value.0)
          else f
      case _ => f
  }

  /** The current frame: it follows from the entry point and the addresses of the pending calls. */
  ghost function FrameAt(img: Image, entry: Piece, calls: List<int>): Frame {
    match calls
    case Nil => Frame(entry, 0)
    case Cons(a, rest) => Opens(img, FrameAt(img, entry, rest), a)
  }

  lemma {:induction false} FrameSound(img: Image, entry: Piece, calls: List<int>)
    requires Loaded(img) && Whole(img, entry)
    ensures Sound(img, FrameAt(img, entry, calls))
  {
    hide Loaded, CodeOf, CallEffect, Sealed, CalledMode;
    if calls.Cons? {
      FrameSound(img, entry, calls.tail);
      OpensSound(img, FrameAt(img, entry, calls.tail), calls.head);
    }
  }

  lemma {:induction false} OpensSound(img: Image, f: Frame, a: int)
    requires Loaded(img) && Sound(img, f)
    ensures Sound(img, Opens(img, f, a))
  {
    hide Loaded, CodeOf, CallEffect, Sealed, CalledMode, Holds;
    var k, hs := a - f.piece.base, HeightsOf(f.piece);
    if 0 <= k < |f.piece.code| && k < |hs| && f.piece.code[k].CallTo? && Callable(img, f.piece.code[k].target) {
      CalledSealed(img, f.piece.code[k].target);
      assert Flows(f.piece.md, f.piece.code[k], hs, k);
    }
  }

  /** At address `pc` of the frame, the operands and blocks are as many as the code says there. */
  ghost predicate In(f: Frame, pc: int, values: int, blocks: int) {
    var k, hs := pc - f.piece.base, HeightsOf(f.piece);
    0 <= k < |f.piece.code| && k < |hs| && Live(f.piece.code, k) &&
    values == f.floor + hs[k].values && blocks == 1 + hs[k].blocks
  }

  /** Behind every pending call its caller's frame waits for what the callee leaves. */
  ghost predicate Waiting(img: Image, entry: Piece, calls: List<int>, locals: List<Scope>)
    decreases calls
  {
    match calls
    case Nil => true
    case Cons(a, rest) =>
      var callee := FrameAt(img, entry, calls);
      locals.Cons? &&
      In(FrameAt(img, entry, rest), a + 1, callee.floor + callee.piece.md.ret.values, Length(locals.head)) &&
      Waiting(img, entry, rest, locals.tail)
  }

  /** The heights of a state are what its address, its pending calls and the entry point say. */
  ghost predicate Measured(img: Image, entry: Piece, s: M.Config) {
    s.locals.Cons? && In(FrameAt(img, entry, s.calls), s.pc, Length(s.stack), Length(s.locals.head)) &&
    Waiting(img, entry, s.calls, s.locals.tail)
  }

  /** The operation about to run and what it demands of the heights. */
  lemma {:induction false} Current(img: Image, entry: Piece, s: M.Config) returns (f: Frame, k: nat, hs: seq<Height>)
    requires Loaded(img) && Whole(img, entry) && Measured(img, entry, s)
    ensures f == FrameAt(img, entry, s.calls) && k == s.pc - f.piece.base && hs == HeightsOf(f.piece)
    ensures 0 <= f.floor && f.piece.md.g == img.g && f.piece.md.ret.blocks == 0
    ensures k < |f.piece.code| == |hs| && Live(f.piece.code, k)
    ensures 0 <= s.pc < |img.prog| && img.prog[s.pc] == Place(img.labels, f.piece.code[k], s.pc)
    ensures Flows(f.piece.md, f.piece.code[k], hs, k)
    ensures Length(s.stack) == f.floor + hs[k].values && Length(s.locals.head) == 1 + hs[k].blocks
  {
    hide Flows, FrameAt, Waiting, Loaded, Sealed;
    FrameSound(img, entry, s.calls);
    f := FrameAt(img, entry, s.calls);
    hs := HeightsOf(f.piece);
    k := s.pc - f.piece.base;
    assert img.prog[f.piece.base + k] == Place(img.labels, f.piece.code[k], f.piece.base + k);
  }

  /** Whichever way heights are given to the code of the frame, they are those of the state. */
  lemma {:induction false} HeightsAreStatic(img: Image, entry: Piece, s: M.Config, hs: seq<Height>)
    requires Loaded(img) && Whole(img, entry) && Measured(img, entry, s)
    requires
      var p := FrameAt(img, entry, s.calls).piece;
      Closed(p.md, p.code, hs, p.entry)
    ensures
      var f := FrameAt(img, entry, s.calls);
      var k := s.pc - f.piece.base;
      0 <= k < |hs| && Length(s.stack) == f.floor + hs[k].values && Length(s.locals.head) == 1 + hs[k].blocks
  {
    hide FrameAt, Waiting, Loaded, Flows;
    FrameSound(img, entry, s.calls);
    var f := FrameAt(img, entry, s.calls);
    var k := s.pc - f.piece.base;
    var m: nat :| Gets(f.piece.code, k, m);
    OneHeight(f.piece.md, f.piece.code, HeightsOf(f.piece), hs, f.piece.entry, k, m);
  }

  ghost predicate Kept(img: Image, entry: Piece, t: M.State) {
    !Underflow(t) && (t.Running? ==> Measured(img, entry, t.cfg))
  }

  /** A step to another address of the same frame. */
  lemma {:induction false} Moves(img: Image, entry: Piece, s: M.Config, k: nat, t: M.Config)
    requires Measured(img, entry, s) && t.calls == s.calls && t.locals.Cons? && t.locals.tail == s.locals.tail
    requires
      var f := FrameAt(img, entry, s.calls);
      var hs := HeightsOf(f.piece);
      var k' := t.pc - f.piece.base;
      k == s.pc - f.piece.base && 0 <= k' < |hs| && Edge(f.piece.code, k, k') &&
      Length(t.stack) == f.floor + hs[k'].values && Length(t.locals.head) == 1 + hs[k'].blocks
    ensures Measured(img, entry, t)
  {
    hide Waiting, FrameAt, Live, Edge;
    var p := FrameAt(img, entry, s.calls).piece;
    LiveNext(p.code, k, t.pc - p.base);
    EdgeInside(p.code, k, t.pc - p.base);
  }

  lemma EdgeInside(code: Code, k: int, k': int)
    requires Edge(code, k, k')
    ensures 0 <= k < |code| && 0 <= k' < |code|
  {
  }

  lemma {:induction false} OperateKeeps(img: Image, entry: Piece, s: M.Config)
    requires Loaded(img) && Whole(img, entry) && Measured(img, entry, s)
    requires 0 <= s.pc < |img.prog| && !M.IsControl(img.prog[s.pc])
    ensures Kept(img, entry, M.Step(img.prog, img.g.world, s))
  {
    hide Loaded, Whole, Measured, M.Operate, FrameAt, Live, CallEffect, Needs, Net;
    var f, k, hs := Current(img, entry, s);
    var i := img.prog[s.pc];
    assert f.piece.code[k] == I(i);
    HeadThere(img, entry, s);
    EnoughOperands(img.g.world, i, s);
    if M.Operate(img.g.world, i, s).Running? {
      EffectSound(img.g.world, i, s);
      BlocksSound(img.g.world, i, s);
      var t := M.Operate(img.g.world, i, s).cfg;
      Moves(img, entry, s, k, t.(pc := s.pc + 1));
    }
  }

  lemma HeadThere(img: Image, entry: Piece, s: M.Config)
    requires Measured(img, entry, s)
    ensures s.locals.Cons?
  {
    hide In, Waiting, FrameAt;
  }

  lemma {:induction false} BranchKeeps(img: Image, entry: Piece, s: M.Config)
    requires Loaded(img) && Whole(img, entry) && Measured(img, entry, s)
    requires 0 <= s.pc < |img.prog| && (img.prog[s.pc].Branch? || img.prog[s.pc].Jump?)
    ensures Kept(img, entry, M.Step(img.prog, img.g.world, s))
  {
    hide Loaded, Whole, Measured, M.Operate, FrameAt, Live, CallEffect, Needs, Net;
    var f, k, hs := Current(img, entry, s);
    HeadThere(img, entry, s);
    var t := M.Step(img.prog, img.g.world, s);
    if t.Running? { Moves(img, entry, s, k, t.cfg); }
  }

  lemma {:induction false} ReturnKeeps(img: Image, entry: Piece, s: M.Config)
    requires Loaded(img) && Whole(img, entry) && Measured(img, entry, s)
    requires 0 <= s.pc < |img.prog| && img.prog[s.pc].Return?
    ensures Kept(img, entry, M.Step(img.prog, img.g.world, s))
  {
    hide Loaded, Whole, FrameAt, Live, CallEffect, Needs, Net, HeightsOf;
    var f, k, hs := Current(img, entry, s);
    hide M.Operate;
  }

  /** Entering the frame that a call opens. */
  lemma {:induction false} Enters(img: Image, entry: Piece, s: M.Config, pc: int)
    requires Measured(img, entry, s)
    requires
      var f, callee := FrameAt(img, entry, s.calls), FrameAt(img, entry, Cons(s.pc, s.calls));
      In(f, s.pc + 1, callee.floor + callee.piece.md.ret.values, Length(s.locals.head)) &&
        In(callee, pc, Length(s.stack), 1)
    ensures Measured(img, entry, s.(pc := pc, calls := Cons(s.pc, s.calls), locals := Cons(Cons(map[], Nil), s.locals)))
  {
    hide FrameAt, In;
    var t := s.(pc := pc, calls := Cons(s.pc, s.calls), locals := Cons(Cons(map[], Nil), s.locals));
    assert Waiting(img, entry, t.calls, t.locals.tail);
    assert Length(t.locals.head) == 1;
  }

  lemma {:induction false} CallKeeps(img: Image, entry: Piece, s: M.Config)
    requires Loaded(img) && Whole(img, entry) && Measured(img, entry, s)
    requires 0 <= s.pc < |img.prog| && img.prog[s.pc].Call?
    ensures Kept(img, entry, M.Step(img.prog, img.g.world, s))
  {
    hide Loaded, Whole, Measured, Waiting, M.Operate, Live, CallEffect, Needs, Net, FrameAt;
    var f, k, hs := Current(img, entry, s);
    HeadThere(img, entry, s);
    if f.piece.code[k].CallTo? {
      CallOpens(img, entry, s, f, k, hs);
      Enters(img, entry, s, img.labels[f.piece.code[k].target]);
    } else {
      StubOpens(img, entry, s, f, k, hs);
      Enters(img, entry, s, s.pc + f.piece.code[k].distance);
    }
  }

  lemma {:induction false} Found(img: Image, l: M.Label)
    requires Loaded(img) && CallEffect(img.g, l).Some?
    ensures CodeOf(img.g, l).Some? && Callable(img, l) && Whole(img, CalledPiece(img, l))
    ensures CalledMode(img.g, l).ret == Height(CallEffect(img.g, l).value.1, 0)
  {
    hide FunctionCode, ProcedureCode, Loaded, Sealed, Holds, MapFree;
    FindNone(l.name);
    hide FindDefinition;
    CalledSealed(img, l);
  }

  lemma {:induction false} CallOpens(img: Image, entry: Piece, s: M.Config, f: Frame, k: nat, hs: seq<Height>)
    requires Loaded(img) && f == FrameAt(img, entry, s.calls) && k == s.pc - f.piece.base && hs == HeightsOf(f.piece)
    requires k < |f.piece.code| == |hs| && f.piece.code[k].CallTo? && Live(f.piece.code, k) && f.piece.md.g == img.g
    requires Flows(f.piece.md, f.piece.code[k], hs, k)
    requires Length(s.stack) == f.floor + hs[k].values
    ensures
      var l, callee := f.piece.code[k].target, FrameAt(img, entry, Cons(s.pc, s.calls));
      l in img.labels && In(callee, img.labels[l], Length(s.stack), 1) &&
      In(f, s.pc + 1, callee.floor + callee.piece.md.ret.values, 1 + hs[k].blocks)
  {
    hide Loaded, CallEffect, CodeOf, CalledMode, Whole, HeightsOf, Live;
    var l := f.piece.code[k].target;
    Found(img, l);
    LiveNext(f.piece.code, k, k + 1);
    var callee := FrameAt(img, entry, Cons(s.pc, s.calls));
    assert callee == Frame(CalledPiece(img, l), f.floor + hs[k].values - CallEffect(img.g, l).value.0);
    Starts(img, CalledPiece(img, l));
  }

  /** A piece starts at the height it is entered at. */
  lemma {:induction false} Starts(img: Image, p: Piece)
    requires Whole(img, p)
    ensures 0 < |p.code| == |HeightsOf(p)| && HeightsOf(p)[0] == p.entry && p.entry.blocks == 0 && Live(p.code, 0)
  {
    assert Gets(p.code, 0, 0);
  }

  lemma {:induction false} StubOpens(img: Image, entry: Piece, s: M.Config, f: Frame, k: nat, hs: seq<Height>)
    requires f == FrameAt(img, entry, s.calls) && k == s.pc - f.piece.base && hs == HeightsOf(f.piece)
    requires k < |f.piece.code| == |hs| && f.piece.code[k].CallBy? && Live(f.piece.code, k)
    requires Flows(f.piece.md, f.piece.code[k], hs, k) && f.piece.md.ret.blocks == 0
    requires Length(s.stack) == f.floor + hs[k].values
    ensures
      var d, callee := f.piece.code[k].distance, FrameAt(img, entry, Cons(s.pc, s.calls));
      callee == f && In(callee, s.pc + d, Length(s.stack), 1) &&
      In(f, s.pc + 1, callee.floor + callee.piece.md.ret.values, 1 + hs[k].blocks)
  {
    hide HeightsOf, Live;
    LiveNext(f.piece.code, k, k + 1);
    LiveNext(f.piece.code, k, k + f.piece.code[k].distance);
  }

  /** Every step keeps the heights and needs no operand that is not there. */
  lemma {:induction false} StepKeeps(img: Image, entry: Piece, s: M.Config)
    requires Loaded(img) && Whole(img, entry) && Measured(img, entry, s)
    ensures Kept(img, entry, M.Step(img.prog, img.g.world, s))
  {
    hide Loaded, Whole, Measured, FrameAt, Live, M.Operate, CallEffect, Needs, Net;
    var f, k, hs := Current(img, entry, s);
    match img.prog[s.pc]
    case Branch(_) => BranchKeeps(img, entry, s);
    case Jump(_) => BranchKeeps(img, entry, s);
    case Call(_) => CallKeeps(img, entry, s);
    case Return => ReturnKeeps(img, entry, s);
    case Exit(_) =>
    case _ => OperateKeeps(img, entry, s);
  }

  /** Over whole runs. */
  lemma {:induction false} RunKeeps(img: Image, entry: Piece, t: M.State, k: nat)
    requires Loaded(img) && Whole(img, entry) && Kept(img, entry, t)
    ensures Kept(img, entry, M.Run(img.prog, img.g.world, t, k))
    decreases k
  {
    hide Loaded, Whole, Measured, M.Step;
    if k > 0 && t.Running? {
      StepKeeps(img, entry, t.cfg);
      RunKeeps(img, entry, M.Step(img.prog, img.g.world, t.cfg), k - 1);
    }
  }

  // ---- Entry points ----

  /** An end of a block without a block of its own to close. */
  predicate MissingBlock(prog: seq<M.Instr>, s: M.Config) {
    0 <= s.pc < |prog| && prog[s.pc].End? && (s.locals.Nil? || Length(s.locals.head) < 2)
  }

  lemma {:induction false} NoMissingBlock(img: Image, entry: Piece, s: M.Config)
    requires Loaded(img) && Whole(img, entry) && Measured(img, entry, s)
    ensures !MissingBlock(img.prog, s)
  {
    hide Loaded, Whole, Measured, FrameAt, Live, CallEffect;
    HeadThere(img, entry, s);
    var f, k, hs := Current(img, entry, s);
  }

  /** However long it runs from the start of `entry`, the machine never lacks an operand or a block,
      and in every state it gets into the heights are the static ones. */
  ghost predicate Steady(img: Image, entry: Piece, s: M.Config) {
    forall k: nat ::
      var t := M.RealRun(img.prog, img.g.world, M.Running(s), k);
      !Underflow(t) && (t.Running? ==> Measured(img, entry, t.cfg) && !MissingBlock(img.prog, t.cfg))
  }

  lemma {:induction false} SteadyFrom(img: Image, entry: Piece, s: M.Config)
    requires Loaded(img) && Whole(img, entry) && Measured(img, entry, s)
    ensures Steady(img, entry, s)
  {
    hide Loaded, Whole, Measured, M.Run, M.RealRun, MissingBlock;
    forall k: nat
      ensures
        var t := M.RealRun(img.prog, img.g.world, M.Running(s), k);
        !Underflow(t) && (t.Running? ==> Measured(img, entry, t.cfg) && !MissingBlock(img.prog, t.cfg))
    {
      var t := M.RealRun(img.prog, img.g.world, M.Running(s), k);
      RunKeeps(img, entry, M.Running(s), k);
      M.RealAgrees(img.prog, img.g.world, M.Running(s), k);
      if t.Running? { NoMissingBlock(img, entry, t.cfg); }
    }
  }

  /** A piece entered from outside, with all operands its own. */
  lemma {:induction false} EntrySteady(img: Image, entry: Piece, stack: List<Value>, scope: Scope, hist: History)
    requires Loaded(img) && Whole(img, entry) && Length(stack) == entry.entry.values && Length(scope) == 1
    ensures Steady(img, entry, C.Start(entry.base, stack, scope, hist))
  {
    hide Loaded, Steady, Whole, HeightsOf, Live;
    Starts(img, entry);
    SteadyFrom(img, entry, C.Start(entry.base, stack, scope, hist));
  }

  lemma {:induction false} PushedLength<T>(xs: List<T>, vs: seq<T>)
    ensures Length(PushAll(xs, vs)) == Length(xs) + |vs|
    decreases vs
  {
    if vs != [] { PushedLength(Cons(vs[0], xs), vs[1..]); }
  }

  /** The code of an action in its place. */
  function ActionPiece(img: Image, d: Definition): Piece
    requires M.Label(d.name, M.ActionLabel) in img.labels
  {
    Piece(img.labels[M.Label(d.name, M.ActionLabel)], ProcedureCode(img.g, d),
          Mode(img.g, Height(0, 0), !MapFree(d.body), false), Height(|d.params|, 0))
  }

  /** The code of a policy or recall block in its place. */
  function BlockPiece(img: Image, l: M.Label, ss: seq<Node>): Piece
    requires l in img.labels
  {
    Piece(img.labels[l], BlockCode(img.g, ss), Mode(img.g, Height(0, 0), false, false), Height(1, 0))
  }

  /** The code of a seal or open block in its place, with its call stub. */
  function StubPiece(img: Image, l: M.Label, x: string, ss: seq<Node>): Piece
    requires l in img.labels
  {
    Piece(img.labels[l], StubCode(img.g, x, ss), Mode(img.g, Height(1, 0), false, true), Height(1, 0))
  }

  ghost predicate ActionSteady(img: Image, d: Definition, args: seq<Value>, h: History) {
    M.Label(d.name, M.ActionLabel) in img.labels && Steady(img, ActionPiece(img, d), C.ActionStart(img, d, args, h))
  }

  ghost predicate BlockSteady(img: Image, l: M.Label, ss: seq<Node>, this_: Value, envelope: Value, h: History) {
    l in img.labels &&
    Steady(img, BlockPiece(img, l, ss), C.Start(img.labels[l], Cons(envelope, Nil), Cons(map["this" := this_], Nil), h))
  }

  ghost predicate StubSteady(img: Image, l: M.Label, x: string, ss: seq<Node>, arg: Value, h: History) {
    l in img.labels && Steady(img, StubPiece(img, l, x, ss),
      C.Start(img.labels[l], Cons(arg, Nil), Cons(map[], Nil), h))
  }

  ghost predicate CommandSteady(img: Image, c: Command) {
    (forall this_, envelope, h ::
      BlockSteady(img, M.Label(c.name, M.PolicyLabel), c.policy, this_, envelope, h) &&
      BlockSteady(img, M.Label(c.name, M.RecallLabel), c.recall, this_, envelope, h)) &&
    forall arg, h ::
      StubSteady(img, M.Label(c.name, M.SealLabel), "this", c.seal, arg, h) &&
      StubSteady(img, M.Label(c.name, M.OpenLabel), "envelope", c.open, arg, h)
  }

  lemma {:induction false} CommandIsSteady(img: Image, c: Command)
    requires Loaded(img) && CommandLoaded(img, c)
    ensures CommandSteady(img, c)
  {
    hide Loaded, Holds, Sealed, Steady, StmtsOk, BlockCode, StubCode;
    var g := img.g;
    BlockSealed(g, PolicySite(AllKnown(g.policy)), c.policy);
    BlockSealed(g, RecallSite(AllKnown(g.policy)), c.recall);
    StubSealed(g, "this", c.seal);
    StubSealed(g, "envelope", c.open);
    forall this_, envelope, h
      ensures BlockSteady(img, M.Label(c.name, M.PolicyLabel), c.policy, this_, envelope, h)
      ensures BlockSteady(img, M.Label(c.name, M.RecallLabel), c.recall, this_, envelope, h)
    {
      var stack, scope := Cons(envelope, Nil), Cons(map["this" := this_], Nil);
      EntrySteady(img, BlockPiece(img, M.Label(c.name, M.PolicyLabel), c.policy), stack, scope, h);
      EntrySteady(img, BlockPiece(img, M.Label(c.name, M.RecallLabel), c.recall), stack, scope, h);
    }
    forall arg, h
      ensures StubSteady(img, M.Label(c.name, M.SealLabel), "this", c.seal, arg, h)
      ensures StubSteady(img, M.Label(c.name, M.OpenLabel), "envelope", c.open, arg, h)
    {
      var stack, scope := Cons(arg, Nil), Cons(map[], Nil);
      EntrySteady(img, StubPiece(img, M.Label(c.name, M.SealLabel), "this", c.seal), stack, scope, h);
      EntrySteady(img, StubPiece(img, M.Label(c.name, M.OpenLabel), "envelope", c.open), stack, scope, h);
    }
  }

  lemma {:induction false} ActionIsSteady(img: Image, d: Definition, args: seq<Value>, h: History)
    requires Loaded(img) && ActionLoaded(img, d) && |args| == |d.params|
    ensures ActionSteady(img, d, args, h)
  {
    hide Loaded, Holds, Sealed, Steady, StmtsOk, StmtsCode, ParamsCode, MapFree;
    var p := ActionPiece(img, d);
    BodySealed(p.md, ActionSite(AllKnown(img.g.policy)), d.params, d.body, I(M.Return));
    PushedLength(Nil, args);
    EntrySteady(img, p, PushAll(Nil, args), Cons(map[], Nil), h);
  }

  /** From every entry point of a compiled policy, on all inputs, against every host and in every
      context. */
  lemma {:induction false} LoadedIsSteady(img: Image, host: Host, ctx: Context)
    requires FullyLoaded(img)
    ensures
      var on := img.(g := On(img.g, host, ctx));
      (forall i, args, h :: 0 <= i < |img.g.policy.actions| && |args| == |img.g.policy.actions[i].params| ==>
        ActionSteady(on, img.g.policy.actions[i], args, h)) &&
      forall i :: 0 <= i < |img.g.policy.commands| ==> CommandSteady(on, img.g.policy.commands[i])
  {
    hide ActionSteady, CommandSteady, FunctionLoaded, FinishLoaded, Holds, StmtsOk, StmtsCode, ParamsCode, BlockCode,
      StubCode, CommandLoaded;
    LoadedOn(img, host, ctx);
    var on := img.(g := On(img.g, host, ctx));
    forall i, args, h | 0 <= i < |img.g.policy.actions| && |args| == |img.g.policy.actions[i].params|
      ensures ActionSteady(on, img.g.policy.actions[i], args, h)
    {
      assert ActionLoaded(on, on.g.policy.actions[i]);
      ActionIsSteady(on, on.g.policy.actions[i], args, h);
    }
    forall i | 0 <= i < |img.g.policy.commands| ensures CommandSteady(on, img.g.policy.commands[i]) {
      CommandIsSteady(on, on.g.policy.commands[i]);
    }
  }
}
