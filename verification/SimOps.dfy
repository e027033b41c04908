/** The instruction sequences emitted for operators compute the operators. */
module SimOps {
  import opened Values
  import opened Ast
  import opened Layout
  import opened SimBase
  import Static
  import M = Machine
  import S = Semantics

  /** Straight-line code that turns the values on top of the stack into one value. */
  ghost predicate Computes(r: Result<Value>, s: M.Config, below: List<Value>, len: nat, t: M.State) {
    match r
    case Ok(v) => t == M.Running(s.(pc := s.pc + len, stack := Cons(v, below)))
    case Err(f) => t == M.Faulted(f, s.hist)
  }

  // ---- One instruction at a time ----

  /** `s` one instruction further on, with another stack. */
  function Advance(s: M.Config, stack: List<Value>): M.Config {
    s.(pc := s.pc + 1, stack := stack)
  }

  function Continue(w: World, r: Result<Value>, below: List<Value>, rest: seq<M.Instr>, s: M.Config): M.State {
    if r.Ok? then Exec(w, rest, Advance(s, Cons(r.value, below))) else M.Faulted(r.fault, s.hist)
  }

  lemma {:induction false} DoConst(w: World, v: Value, rest: seq<M.Instr>, s: M.Config)
    ensures Exec(w, [M.Const(v)] + rest, s) == Exec(w, rest, Advance(s, Cons(v, s.stack)))
  {
    ExecCons(w, M.Const(v), rest, s);
  }

  lemma {:induction false} DoBinary(w: World, i: M.Instr, rest: seq<M.Instr>, s: M.Config)
    requires M.IsBinary(i) && s.stack.Cons? && s.stack.tail.Cons?
    ensures Exec(w, [i] + rest, s) ==
      Continue(w, M.Binary(i, s.stack.tail.head, s.stack.head), s.stack.tail.tail, rest, s)
  {
    ExecCons(w, i, rest, s);
  }

  lemma {:induction false} DoTop(w: World, i: M.Instr, rest: seq<M.Instr>, s: M.Config)
    requires M.IsOnTop(i) && s.stack.Cons?
    ensures Exec(w, [i] + rest, s) == Continue(w, M.OnTop(w, i, s.stack.head, s.hist), s.stack.tail, rest, s)
  {
    ExecCons(w, i, rest, s);
  }

  lemma {:induction false} LastBinary(w: World, i: M.Instr, s: M.Config)
    requires M.IsBinary(i) && s.stack.Cons? && s.stack.tail.Cons?
    ensures Computes(M.Binary(i, s.stack.tail.head, s.stack.head), s, s.stack.tail.tail, 1, Exec(w, [i], s))
  {
    hide M.Operate;
    assert [i] == [i] + [];
    DoBinary(w, i, [], s);
  }

  lemma {:induction false} LastTop(w: World, i: M.Instr, s: M.Config)
    requires M.IsOnTop(i) && s.stack.Cons?
    ensures Computes(M.OnTop(w, i, s.stack.head, s.hist), s, s.stack.tail, 1, Exec(w, [i], s))
  {
    hide M.Operate;
    assert [i] == [i] + [];
    DoTop(w, i, [], s);
  }

  /** `Dup(1)` copies the second value. */
  lemma {:induction false} DoDup(w: World, rest: seq<M.Instr>, s: M.Config)
    requires s.stack.Cons? && s.stack.tail.Cons?
    ensures Exec(w, [M.Dup(1)] + rest, s) == Exec(w, rest, Advance(s, Cons(s.stack.tail.head, s.stack)))
  {
    assert M.Nth(s.stack, 1) == M.Nth(s.stack.tail, 0);
    ExecCons(w, M.Dup(1), rest, s);
  }

  /** `Swap(1)` exchanges the two values on top. */
  lemma {:induction false} DoSwap(w: World, rest: seq<M.Instr>, s: M.Config)
    requires s.stack.Cons? && s.stack.tail.Cons?
    ensures Exec(w, [M.Swap(1)] + rest, s) ==
      Exec(w, rest, Advance(s, Cons(s.stack.tail.head, Cons(s.stack.head, s.stack.tail.tail))))
  {
    assert M.Nth(s.stack, 1) == M.Nth(s.stack.tail, 0);
    ExecCons(w, M.Swap(1), rest, s);
  }

  /** `Swap(2)` exchanges the first and the third value. */
  lemma {:induction false} DoSwapTwo(w: World, rest: seq<M.Instr>, s: M.Config)
    requires s.stack.Cons? && s.stack.tail.Cons? && s.stack.tail.tail.Cons?
    ensures
      var c, b, a, below := s.stack.head, s.stack.tail.head, s.stack.tail.tail.head, s.stack.tail.tail.tail;
      Exec(w, [M.Swap(2)] + rest, s) == Exec(w, rest, Advance(s, Cons(a, Cons(b, Cons(c, below)))))
  {
    assert M.Nth(s.stack, 2) == M.Nth(s.stack.tail, 1) == M.Nth(s.stack.tail.tail, 0);
    assert M.Replace(s.stack.tail, 1, s.stack.head) ==
      Cons(s.stack.tail.head, M.Replace(s.stack.tail.tail, 0, s.stack.head));
    ExecCons(w, M.Swap(2), rest, s);
  }

  /** `Dup(0)` copies the value on top. */
  lemma {:induction false} DoCopy(w: World, rest: seq<M.Instr>, s: M.Config)
    requires s.stack.Cons?
    ensures Exec(w, [M.Dup(0)] + rest, s) == Exec(w, rest, Advance(s, Cons(s.stack.head, s.stack)))
  {
    hide Exec;
    ExecCons(w, M.Dup(0), rest, s);
  }

  lemma ExecNone(w: World, s: M.Config)
    ensures Exec(w, [], s) == M.Running(s)
  {
  }

  // ---- Unary operators ----

  lemma {:induction false} UnaryOps(w: World, op: UnaryOp, s: M.Config)
    requires s.stack.Cons? && !op.Unwrap? && !op.CheckUnwrap?
    ensures
      var o := S.UnaryValue(w, op, s.stack.head, s.hist);
      (o.Val? || o.Fail?) &&
      Computes(if o.Val? then Ok(o.value) else Err(o.fault),
               s, s.stack.tail, |UnaryInstrs(op)|, Exec(w, UnaryInstrs(op), s))
  {
    hide M.Operate, Exec, QueryRows, FirstMatch, M.CountRows, GetField, SerializeStruct, DeserializeStruct, Checked;
    match op
    case Negative => NegativeOps(w, s);
    case IsSome => IsSomeOps(w, s);
    case IsNone => IsNoneOps(w, s);
    case SomeOf => ExecNone(w, s);
    case Not => LastTop(w, M.Not, s);
    case Dot(k) => LastTop(w, M.StructGet(k), s);
    case Serialize => LastTop(w, M.Serialize, s);
    case Deserialize => LastTop(w, M.Deserialize, s);
  }

  lemma {:induction false} IsNoneOps(w: World, s: M.Config)
    requires s.stack.Cons?
    ensures Computes(Ok(BoolV(s.stack.head.NoneV?)), s, s.stack.tail, 2, Exec(w, [M.Const(NoneV), M.Eq], s))
  {
    hide M.Operate, Exec;
    assert [M.Const(NoneV), M.Eq] == [M.Const(NoneV)] + [M.Eq];
    DoConst(w, NoneV, [M.Eq], s);
    LastBinary(w, M.Eq, Advance(s, Cons(NoneV, s.stack)));
  }

  lemma {:induction false} NegativeOps(w: World, s: M.Config)
    requires s.stack.Cons?
    ensures
      var v := s.stack.head;
      Computes(if v.IntV? then Checked(-v.n) else Err(InvalidType), s, s.stack.tail, 3,
               Exec(w, UnaryInstrs(Negative), s))
  {
    hide M.Operate;
    var v, below := s.stack.head, s.stack.tail;
    assert UnaryInstrs(Negative) == [M.Const(IntV(0))] + ([M.Swap(1)] + ([M.Sub] + []));
    DoConst(w, IntV(0), [M.Swap(1)] + ([M.Sub] + []), s);
    var s1 := Advance(s, Cons(IntV(0), Cons(v, below)));
    DoSwap(w, [M.Sub] + [], s1);
    DoBinary(w, M.Sub, [], Advance(s1, Cons(v, Cons(IntV(0), below))));
  }

  lemma {:induction false} IsSomeOps(w: World, s: M.Config)
    requires s.stack.Cons?
    ensures Computes(Ok(BoolV(!s.stack.head.NoneV?)), s, s.stack.tail, 3, Exec(w, [M.Const(NoneV), M.Eq, M.Not], s))
  {
    hide M.Operate, Exec;
    assert [M.Const(NoneV), M.Eq, M.Not] == [M.Const(NoneV)] + [M.Eq, M.Not];
    DoConst(w, NoneV, [M.Eq, M.Not], s);
    EqNotOps(w, Advance(s, Cons(NoneV, s.stack)));
  }

  /** `[Eq, Not]` decides inequality of the two values on top. */
  lemma {:induction false} EqNotOps(w: World, s: M.Config)
    requires s.stack.Cons? && s.stack.tail.Cons?
    ensures Computes(Ok(BoolV(s.stack.tail.head != s.stack.head)), s, s.stack.tail.tail, 2, Exec(w, [M.Eq, M.Not], s))
  {
    hide M.Operate, Exec, QueryRows, FirstMatch, M.CountRows, GetField, SerializeStruct, DeserializeStruct;
    var b, a, below := s.stack.head, s.stack.tail.head, s.stack.tail.tail;
    assert [M.Eq, M.Not] == [M.Eq] + [M.Not];
    DoBinary(w, M.Eq, [M.Not], s);
    LastTop(w, M.Not, Advance(s, Cons(BoolV(a == b), below)));
  }

  // ---- Binary operators ----

  /** The operand order is `a` below `b`. */
  lemma {:induction false} BinaryOps(w: World, op: BinaryOp, s: M.Config)
    requires s.stack.Cons? && s.stack.tail.Cons?
    ensures Computes(S.BinaryValue(op, s.stack.tail.head, s.stack.head), s, s.stack.tail.tail,
                     |BinaryInstrs(op)|, Exec(w, BinaryInstrs(op), s))
  {
    hide M.Operate, Exec, Checked;
    match op
    case NotEqual => EqNotOps(w, s);
    case GreaterOrEqual => OrderOps(w, M.Gt, s);
    case LessOrEqual => OrderOps(w, M.Lt, s);
    case _ =>
      var i := BinaryInstrs(op)[0];
      assert BinaryInstrs(op) == [i];
      LastBinary(w, i, s);
  }

  /** The duplicate-compare-swap-compare sequence for `>=` and `<=`. */
  lemma {:induction false} OrderOps(w: World, cmp: M.Instr, s: M.Config)
    requires s.stack.Cons? && s.stack.tail.Cons? && (cmp.Gt? || cmp.Lt?)
    ensures
      var a, b := s.stack.tail.head, s.stack.head;
      Computes(if a.IntV? && b.IntV? then Ok(BoolV(if cmp.Gt? then a.n >= b.n else a.n <= b.n)) else Err(InvalidType),
               s, s.stack.tail.tail, 7,
               Exec(w, [M.Dup(1), M.Dup(1), M.Eq, M.Swap(2), M.Swap(1), cmp, M.Or], s))
  {
    hide M.Operate;
    var b, a, below := s.stack.head, s.stack.tail.head, s.stack.tail.tail;
    var c := BoolV(a == b);
    var rest4 := [M.Swap(2), M.Swap(1), cmp, M.Or];
    assert [M.Dup(1), M.Dup(1), M.Eq, M.Swap(2), M.Swap(1), cmp, M.Or] ==
      [M.Dup(1)] + ([M.Dup(1)] + ([M.Eq] + rest4));
    DoDup(w, [M.Dup(1)] + ([M.Eq] + rest4), s);
    var s1 := Advance(s, Cons(a, s.stack));
    DoDup(w, [M.Eq] + rest4, s1);
    var s2 := Advance(s1, Cons(b, Cons(a, s.stack)));
    DoBinary(w, M.Eq, rest4, s2);
    SwapCompare(w, cmp, Advance(s2, Cons(c, s.stack)));
  }

  /** The second half: with the verdict on equality `c` on top of `b` and `a`. */
  lemma {:induction false} SwapCompare(w: World, cmp: M.Instr, s: M.Config)
    requires s.stack.Cons? && s.stack.tail.Cons? && s.stack.tail.tail.Cons? && (cmp.Gt? || cmp.Lt?)
    requires s.stack.head == BoolV(s.stack.tail.tail.head == s.stack.tail.head)
    ensures
      var b, a := s.stack.tail.head, s.stack.tail.tail.head;
      Computes(if a.IntV? && b.IntV? then Ok(BoolV(if cmp.Gt? then a.n >= b.n else a.n <= b.n)) else Err(InvalidType),
               s, s.stack.tail.tail.tail, 4, Exec(w, [M.Swap(2), M.Swap(1), cmp, M.Or], s))
  {
    hide M.Operate, Exec;
    var c, b, a, below := s.stack.head, s.stack.tail.head, s.stack.tail.tail.head, s.stack.tail.tail.tail;
    assert [M.Swap(2), M.Swap(1), cmp, M.Or] == [M.Swap(2)] + ([M.Swap(1)] + ([cmp] + [M.Or]));
    DoSwapTwo(w, [M.Swap(1)] + ([cmp] + [M.Or]), s);
    var s1 := Advance(s, Cons(a, Cons(b, Cons(c, below))));
    DoSwap(w, [cmp] + [M.Or], s1);
    var s2 := Advance(s1, Cons(b, Cons(a, Cons(c, below))));
    DoBinary(w, cmp, [M.Or], s2);
    var d := M.Binary(cmp, a, b);
    if d.Ok? { LastBinary(w, M.Or, Advance(s2, Cons(d.value, Cons(c, below)))); }
  }

  // ---- Fact queries ----

  /** Counting up to a limit finds the limit, a failure, or the exact number. */
  lemma {:induction false} CountCorrect(f: Value, rows: seq<Row>, limit: int)
    requires f.FactV? && limit >= 0
    ensures M.CountRows(f, rows, limit) ==
      if S.Matching(f, rows) >= limit then Ok(limit)
      else if S.FirstFailure(rows).Some? then Err(IoError(S.FirstFailure(rows).value))
      else Ok(S.Matching(f, rows))
    decreases rows
  {
    if limit > 0 && rows != [] && rows[0].Row? {
      CountCorrect(f, rows[1..], if RowMatches(f, rows[0]) then limit - 1 else limit);
    }
  }

  lemma {:induction false} QueryOps(w: World, kind: QueryKind, s: M.Config)
    requires s.stack.Cons? && Static.LimitOk(kind)
    ensures Computes(S.EvalQuery(w, kind, s.stack.head, s.hist), s, s.stack.tail, |QueryInstrs(kind)|,
                     Exec(w, QueryInstrs(kind), s))
  {
    hide M.Operate;
    match kind
    case Query =>
      assert QueryInstrs(kind) == [M.Query] + [];
      DoTop(w, M.Query, [], s);
    case Exists => ExistsOps(w, s);
    case UpTo(k) =>
      assert QueryInstrs(kind) == [M.FactCount(k)] + [];
      CountOps(w, k, [], s);
    case _ => CountingOps(w, kind, s);
  }

  lemma {:induction false} ExistsOps(w: World, s: M.Config)
    requires s.stack.Cons?
    ensures Computes(S.EvalQuery(w, Exists, s.stack.head, s.hist), s, s.stack.tail, 4, Exec(w, QueryInstrs(Exists), s))
  {
    hide M.Operate;
    assert QueryInstrs(Exists) == [M.Query] + [M.Const(NoneV), M.Eq, M.Not];
    DoTop(w, M.Query, [M.Const(NoneV), M.Eq, M.Not], s);
    var r := M.OnTop(w, M.Query, s.stack.head, s.hist);
    if r.Ok? { IsSomeOps(w, Advance(s, Cons(r.value, s.stack.tail))); }
  }

  /** The machine's bounded count agrees with the source's. */
  lemma {:induction false} CountOps(w: World, limit: int, rest: seq<M.Instr>, s: M.Config)
    requires s.stack.Cons? && limit > 0
    ensures Exec(w, [M.FactCount(limit)] + rest, s) ==
      Continue(w, S.EvalQuery(w, UpTo(limit), s.stack.head, s.hist), s.stack.tail, rest, s)
  {
    hide M.Operate;
    DoTop(w, M.FactCount(limit), rest, s);
    var rows := QueryRows(w, s.stack.head, s.hist);
    if rows.Ok? { CountCorrect(s.stack.head, rows.value, limit); }
  }

  /** The comparison of a count with `k`, negated if `flip`. */
  function Compared(r: Result<Value>, k: int, cmp: M.Instr, flip: bool): Result<Value> {
    if r.Err? then r
    else
      var b := M.Binary(cmp, r.value, IntV(k));
      if b.Err? || !b.value.BoolV? then Err(InvalidType) else Ok(BoolV(b.value.b != flip))
  }

  /** Each kind of count is a comparison of a bounded count. */
  lemma {:induction false} CountKinds(w: World, f: Value, k: int, h: History)
    requires k > 0
    ensures S.EvalQuery(w, AtLeast(k), f, h) == Compared(S.EvalQuery(w, UpTo(k), f, h), k, M.Lt, true)
    ensures S.EvalQuery(w, AtMost(k), f, h) == Compared(S.EvalQuery(w, UpTo(k + 1), f, h), k, M.Gt, true)
    ensures S.EvalQuery(w, Exactly(k), f, h) == Compared(S.EvalQuery(w, UpTo(k + 1), f, h), k, M.Eq, false)
  {
    hide QueryRows, FirstMatch, S.Matching, S.FirstFailure;
  }

  lemma {:induction false} CountingOps(w: World, kind: QueryKind, s: M.Config)
    requires s.stack.Cons? && Static.LimitOk(kind) && (kind.AtLeast? || kind.AtMost? || kind.Exactly?)
    ensures Computes(S.EvalQuery(w, kind, s.stack.head, s.hist), s, s.stack.tail, |QueryInstrs(kind)|,
                     Exec(w, QueryInstrs(kind), s))
  {
    hide M.Operate, S.EvalQuery;
    CountKinds(w, s.stack.head, kind.limit, s.hist);
    match kind
    case AtLeast(k) =>
      assert QueryInstrs(kind) == [M.FactCount(k)] + ([M.Const(IntV(k))] + ([M.Lt] + [M.Not]));
      CompareOps(w, k, k, M.Lt, [M.Not], s);
    case AtMost(k) =>
      assert QueryInstrs(kind) == [M.FactCount(k + 1)] + ([M.Const(IntV(k))] + ([M.Gt] + [M.Not]));
      CompareOps(w, k + 1, k, M.Gt, [M.Not], s);
    case Exactly(k) =>
      assert QueryInstrs(kind) == [M.FactCount(k + 1)] + ([M.Const(IntV(k))] + ([M.Eq] + []));
      CompareOps(w, k + 1, k, M.Eq, [], s);
  }

  /** Counting, comparing with `k`, and possibly negating. */
  lemma {:induction false} CompareOps(w: World, limit: int, k: int, cmp: M.Instr, last: seq<M.Instr>, s: M.Config)
    requires s.stack.Cons? && limit > 0 && (cmp.Lt? || cmp.Gt? || cmp.Eq?) && (last == [] || last == [M.Not])
    ensures Computes(Compared(S.EvalQuery(w, UpTo(limit), s.stack.head, s.hist), k, cmp, last != []),
                     s, s.stack.tail, 3 + |last|,
                     Exec(w, [M.FactCount(limit)] + ([M.Const(IntV(k))] + ([cmp] + last)), s))
  {
    hide M.Operate, S.EvalQuery, Exec, QueryRows, FirstMatch, M.CountRows, GetField, SerializeStruct,
      DeserializeStruct, Checked;
    var r := S.EvalQuery(w, UpTo(limit), s.stack.head, s.hist);
    CountOps(w, limit, [M.Const(IntV(k))] + ([cmp] + last), s);
    if r.Ok? {
      var s1 := Advance(s, Cons(r.value, s.stack.tail));
      DoConst(w, IntV(k), [cmp] + last, s1);
      var s2 := Advance(s1, Cons(IntV(k), s1.stack));
      var b := M.Binary(cmp, r.value, IntV(k));
      if last == [] {
        assert [cmp] + last == [cmp];
        LastBinary(w, cmp, s2);
      } else {
        DoBinary(w, cmp, last, s2);
        if b.Ok? { LastTop(w, M.Not, Advance(s2, Cons(b.value, s.stack.tail))); }
      }
    }
  }
}
