/** The policy virtual machine: instructions, configurations and single steps. */
module Machine {
  import opened Values

  datatype LabelType = ActionLabel | PolicyLabel | RecallLabel | SealLabel | OpenLabel | Temporary | FunctionLabel
  datatype Label = Label(name: string, ltype: LabelType)

  datatype Target = Unresolved(sym: Label) | Resolved(addr: int)

  datatype Meta = LetMark(name: string) | GetMark(name: string) | FinishMark(on: bool) | FfiMark(mod: string,
    name: string)

  datatype Instr =
    | Const(value: Value) | Def(name: string) | Get(name: string)
    | Swap(d: nat) | Dup(d: nat) | Pop
    | Block | End | Jump(target: Target) | Branch(target: Target) | Next | Last
    | Call(target: Target) | ExtCall(mod: nat, procedure: nat) | Return | Exit(reason: ExitReason)
    | Add | Sub | Not | And | Or | Gt | Lt | Eq
    | FactNew(name: string) | FactKeySet(name: string) | FactValueSet(name: string)
    | StructNew(name: string) | StructSet(name: string) | StructGet(name: string)
    | Publish | Create | Delete | Update | Emit | Query | FactCount(limit: int)
    | QueryStart | QueryNext(name: string) | Serialize | Deserialize
    | Meta(meta: Meta)

  /** A machine configuration. `locals` holds one scope chain per active function, the current
      one first; `calls` holds the addresses of the pending calls; `iters` the open query
      iterators. */
  datatype Config = Config(
    pc: int, stack: List<Value>, calls: List<int>, locals: List<Scope>,
    iters: List<seq<Row>>, hist: History)

  datatype State =
    | Running(cfg: Config)
    | Halted(reason: ExitReason, cfg: Config)
    | Faulted(fault: Fault, hist: History)

  // ---- Instructions that only touch the operand stack ----

  function Nth(s: List<Value>, d: nat): Option<Value> {
    match s
    case Nil => None
    case Cons(v, rest) => if d == 0 then Some(v) else Nth(rest, d - 1)
  }

  function Replace(s: List<Value>, d: nat, v: Value): List<Value> {
    match s
    case Nil => Nil
    case Cons(x, rest) => if d == 0 then Cons(v, rest) else Cons(x, Replace(rest, d - 1, v))
  }

  /** Pops two operands, `b` from the top, and pushes the result of the operation. */
  function Binary(i: Instr, a: Value, b: Value): Result<Value> {
    match i
    case Add => if a.IntV? && b.IntV? then Checked(a.n + b.n) else Err(InvalidType)
    case Sub => if a.IntV? && b.IntV? then Checked(a.n - b.n) else Err(InvalidType)
    case And => if a.BoolV? && b.BoolV? then Ok(BoolV(a.b && b.b)) else Err(InvalidType)
    case Or => if a.BoolV? && b.BoolV? then Ok(BoolV(a.b || b.b)) else Err(InvalidType)
    case Gt => if a.IntV? && b.IntV? then Ok(BoolV(a.n > b.n)) else Err(InvalidType)
    case Lt => if a.IntV? && b.IntV? then Ok(BoolV(a.n < b.n)) else Err(InvalidType)
    case Eq => Ok(BoolV(a == b))
    case _ => Err(InvalidInstruction)
  }

  predicate IsBinary(i: Instr) {
    i.Add? || i.Sub? || i.And? || i.Or? || i.Gt? || i.Lt? || i.Eq?
  }

  /** Counts matching rows until `limit` is reached or a row fails. */
  function CountRows(f: Value, rows: seq<Row>, limit: int): Result<int>
    requires f.FactV?
  {
    if limit <= 0 || rows == [] then Ok(0)
    else match rows[0]
      case RowFailed(c) => Err(IoError(c))
      case Row(_, _) =>
        if RowMatches(f, rows[0]) then
          var n :- CountRows(f, rows[1..], limit - 1);
          Ok(n + 1)
        else CountRows(f, rows[1..], limit)
  }

  /** Instructions that replace the operand on top of the stack. */
  function OnTop(w: World, i: Instr, v: Value, h: History): Result<Value> {
    match i
    case Not => if v.BoolV? then Ok(BoolV(!v.b)) else Err(InvalidType)
    case StructGet(k) => GetField(v, k)
    case Serialize => SerializeStruct(w, v)
    case Deserialize => DeserializeStruct(w, v)
    case Query =>
      var rows :- QueryRows(w, v, h);
      if v.FactV? then FirstMatch(v, rows) else Err(InvalidType)
    case FactCount(limit) =>
      var rows :- QueryRows(w, v, h);
      if v.FactV? then
        var n :- CountRows(v, rows, limit);
        Ok(IntV(n))
      else Err(InvalidType)
    case _ => Err(InvalidInstruction)
  }

  predicate IsOnTop(i: Instr) {
    i.Not? || i.StructGet? || i.Serialize? || i.Deserialize? || i.Query? || i.FactCount?
  }

  /** Instructions that set a member `v` of the object below it. */
  function SetMember(w: World, i: Instr, target: Value, v: Value): Result<Value> {
    match i
    case StructSet(k) => SetField(w, target, k, v)
    case FactKeySet(k) => SetKey(target, k, v)
    case FactValueSet(k) => SetValue(target, k, v)
    case _ => Err(InvalidInstruction)
  }

  predicate IsSetter(i: Instr) {
    i.StructSet? || i.FactKeySet? || i.FactValueSet?
  }

  /** Instructions that consume the operand on top of the stack for an effect. */
  function Consume(w: World, i: Instr, v: Value, h: History): Outcome<()> {
    match i
    case Publish => PublishStruct(w, v, h)
    case Create => CreateFact(w, v, h)
    case Delete => DeleteFact(w, v, h)
    case Emit => EmitStruct(w, v, h)
    case _ => Outcome.Fail(InvalidInstruction, h)
  }

  predicate IsConsumer(i: Instr) {
    i.Publish? || i.Create? || i.Delete? || i.Emit?
  }

  function Push(s: Config, r: Result<Value>, below: List<Value>): State {
    match r
    case Ok(v) => Running(s.(stack := Cons(v, below)))
    case Err(f) => Faulted(f, s.hist)
  }

  /** The effect of an instruction that does not transfer control; the program counter is
      left to the caller. */
  function Operate(w: World, i: Instr, s: Config): State {
    if IsBinary(i) then
      match s.stack
      case Cons(b, Cons(a, below)) => Push(s, Binary(i, a, b), below)
      case _ => Faulted(StackUnderflow, s.hist)
    else if IsOnTop(i) then
      match s.stack
      case Cons(v, below) => Push(s, OnTop(w, i, v, s.hist), below)
      case Nil => Faulted(StackUnderflow, s.hist)
    else if IsSetter(i) then
      match s.stack
      case Cons(v, Cons(t, below)) => Push(s, SetMember(w, i, t, v), below)
      case _ => Faulted(StackUnderflow, s.hist)
    else if IsConsumer(i) then
      match s.stack
      case Nil => Faulted(StackUnderflow, s.hist)
      case Cons(v, below) => (
        match Consume(w, i, v, s.hist)
        case Val(_, h) => Running(s.(stack := below, hist := h))
        case Fail(f, h) => Faulted(f, h)
        case _ => Faulted(BadState, s.hist))
    else Administer(w, i, s)
  }

  /** The remaining instructions: constants, stack shuffling, scopes, facts and iterators. */
  function Administer(w: World, i: Instr, s: Config): State {
    match i
    case Const(v) => Running(s.(stack := Cons(v, s.stack)))
    case FactNew(n) => Running(s.(stack := Cons(FactV(n, [], []), s.stack)))
    case StructNew(n) => Running(s.(stack := Cons(StructV(n, map[]), s.stack)))
    case Pop => Running(s.(stack := if s.stack.Cons? then s.stack.tail else Nil))
    case Dup(d) => (
      match Nth(s.stack, d)
      case Some(v) => Running(s.(stack := Cons(v, s.stack)))
      case None => Faulted(StackUnderflow, s.hist))
    case Swap(d) =>
      if d == 0 then Faulted(InvalidInstruction, s.hist)
      else if s.stack.Nil? || Nth(s.stack, d).None? then Faulted(StackUnderflow, s.hist)
      else
        var top, other := s.stack.head, Nth(s.stack, d).value;
        Running(s.(stack := Cons(other, Replace(s.stack.tail, d - 1, top))))
    case Def(x) =>
      if s.stack.Nil? then Faulted(StackUnderflow, s.hist)
      else if s.locals.Nil? then Faulted(BadState, s.hist)
      else (
        match Define(w.globals, s.locals.head, x, s.stack.head)
        case Ok(sc) => Running(s.(stack := s.stack.tail, locals := Cons(sc, s.locals.tail)))
        case Err(f) => Faulted(f, s.hist))
    case Get(x) => Push(s, Lookup(w.globals, if s.locals.Cons? then s.locals.head else Nil, x), s.stack)
    case Block =>
      if s.locals.Nil? then Faulted(BadState, s.hist)
      else Running(s.(locals := Cons(Cons(map[], s.locals.head), s.locals.tail)))
    case End =>
      if s.locals.Nil? || s.locals.head.Nil? then Faulted(BadState, s.hist)
      else Running(s.(locals := Cons(s.locals.head.tail, s.locals.tail)))
    case Update => (
      match s.stack
      case Cons(to, Cons(from, below)) => (
        match UpdateFact(w, from, to, s.hist)
        case Val(_, h) => Running(s.(stack := below, hist := h))
        case Fail(f, h) => Faulted(f, h)
        case _ => Faulted(BadState, s.hist))
      case _ => Faulted(StackUnderflow, s.hist))
    case ExtCall(m, p) =>
      if m >= |w.ffi| || p >= |w.ffi[m].procedures| then Faulted(InvalidInstruction, s.hist)
      else (
        match PopMany(s.stack, w.ffi[m].procedures[p].arity)
        case None => Faulted(StackUnderflow, s.hist)
        case Some((args, below)) => (
          match CallForeign(w, m, p, args, s.hist)
          case Val(v, h) => Running(s.(stack := Cons(v, below), hist := h))
          case Fail(f, h) => Faulted(f, h)
          case _ => Faulted(BadState, s.hist)))
    case QueryStart => (
      match s.stack
      case Nil => Faulted(StackUnderflow, s.hist)
      case Cons(f, below) => (
        match QueryRows(w, f, s.hist)
        case Ok(rows) => Running(s.(stack := below, iters := Cons(rows, s.iters)))
        case Err(e) => Faulted(e, s.hist)))
    case QueryNext(x) => FetchNext(w, x, s)
    case Meta(_) => Running(s)
    case _ => Faulted(InvalidInstruction, s.hist)
  }

  /** Advances the innermost iterator: binds `x` to the next row and pushes false, or drops the
      exhausted iterator and pushes true. */
  function FetchNext(w: World, x: string, s: Config): State {
    match s.iters
    case Nil => Faulted(BadState, s.hist)
    case Cons(rows, rest) =>
      if rows == [] then Running(s.(iters := rest, stack := Cons(BoolV(true), s.stack)))
      else match rows[0]
        case RowFailed(c) => Faulted(IoError(c), s.hist)
        case Row(ks, vs) =>
          if s.locals.Nil? then Faulted(BadState, s.hist)
          else match Define(w.globals, s.locals.head, x, StructV(x, Collect(ks + vs)))
            case Err(f) => Faulted(f, s.hist)
            case Ok(sc) =>
              Running(s.(iters := Cons(rows[1..], rest), stack := Cons(BoolV(false), s.stack),
                         locals := Cons(sc, s.locals.tail)))
  }

  // ---- Control ----

  predicate IsControl(i: Instr) {
    i.Jump? || i.Branch? || i.Call? || i.Return? || i.Exit? || i.Next? || i.Last?
  }

  function Goto(t: Target, s: Config): State {
    match t
    case Resolved(a) => Running(s.(pc := a))
    case Unresolved(_) => Faulted(UnresolvedTarget, s.hist)
  }

  /** One step with an operand stack of unlimited height. */
  function Step(prog: seq<Instr>, w: World, s: Config): State {
    if !(0 <= s.pc < |prog|) then Faulted(InvalidAddress, s.hist)
    else match prog[s.pc]
      case Jump(t) => Goto(t, s)
      case Branch(t) => (
        match s.stack
        case Nil => Faulted(StackUnderflow, s.hist)
        case Cons(v, below) =>
          if !v.BoolV? then Faulted(InvalidType, s.hist)
          else if v.b then Goto(t, s.(stack := below))
          else Running(s.(pc := s.pc + 1, stack := below)))
      case Call(t) =>
        Goto(t, s.(calls := Cons(s.pc, s.calls), locals := Cons(Cons(map[], Nil), s.locals)))
      case Return => (
        match s.calls
        case Nil => Halted(Normal, s)
        case Cons(a, rest) =>
          if s.locals.Nil? then Faulted(BadState, s.hist)
          else Running(s.(pc := a + 1, calls := rest, locals := s.locals.tail)))
      case Exit(r) => Halted(r, s)
      case Next => Faulted(InvalidInstruction, s.hist)
      case Last => Faulted(InvalidInstruction, s.hist)
      case i =>
        match Operate(w, i, s)
        case Running(t) => Running(t.(pc := s.pc + 1))
        case t => t
  }

  /** Runs up to `k` steps; halted and faulted states are final. */
  function Run(prog: seq<Instr>, w: World, t: State, k: nat): State
    decreases k
  {
    if k == 0 || !t.Running? then t else Run(prog, w, Step(prog, w, t.cfg), k - 1)
  }

  lemma {:induction false} RunSplit(prog: seq<Instr>, w: World, t: State, a: nat, b: nat)
    ensures Run(prog, w, t, a + b) == Run(prog, w, Run(prog, w, t, a), b)
    decreases a
  {
    if a > 0 && t.Running? {
      RunSplit(prog, w, Step(prog, w, t.cfg), a - 1, b);
    }
  }

  // ---- The bounded operand stack ----

  const STACK_SIZE := 100

  /** One step of the real machine, whose operand stack holds `STACK_SIZE` values. Every
      instruction pushes at most one value, after its pops. */
  function RealStep(prog: seq<Instr>, w: World, s: Config): State {
    var t := Step(prog, w, s);
    if t.Running? && Length(t.cfg.stack) > STACK_SIZE then Faulted(StackOverflow, t.cfg.hist) else t
  }

  function RealRun(prog: seq<Instr>, w: World, t: State, k: nat): State
    decreases k
  {
    if k == 0 || !t.Running? then t else RealRun(prog, w, RealStep(prog, w, t.cfg), k - 1)
  }

  /** The real machine does what the unbounded one does, or overflows its stack. */
  lemma {:induction false} RealAgrees(prog: seq<Instr>, w: World, t: State, k: nat)
    ensures
      var r := RealRun(prog, w, t, k);
      r == Run(prog, w, t, k) || (r.Faulted? && r.fault == StackOverflow)
    decreases k
  {
    hide Step;
    if k > 0 && t.Running? {
      var u := RealStep(prog, w, t.cfg);
      if u == Step(prog, w, t.cfg) { RealAgrees(prog, w, u, k - 1); }
    }
  }

  /** A step adds at most one pending call. */
  lemma {:induction false} OneCall(prog: seq<Instr>, w: World, s: Config)
    ensures
      var t := Step(prog, w, s);
      t.Running? ==> Length(t.cfg.calls) <= Length(s.calls) + 1
  {
  }

  lemma {:induction false} CallsBounded(prog: seq<Instr>, w: World, s: Config, k: nat)
    ensures
      var t := Run(prog, w, Running(s), k);
      t.Running? ==> Length(t.cfg.calls) <= Length(s.calls) + k
    decreases k
  {
    if k > 0 {
      OneCall(prog, w, s);
      var t := Step(prog, w, s);
      if t.Running? { CallsBounded(prog, w, t.cfg, k - 1); }
    }
  }

  /** Once ended, the machine stays ended. */
  lemma {:induction false} EndIsFinal(prog: seq<Instr>, w: World, t: State, j: nat, k: nat)
    requires j <= k && !Run(prog, w, t, j).Running?
    ensures Run(prog, w, t, k) == Run(prog, w, t, j)
  {
    RunSplit(prog, w, t, j, k - j);
  }

  lemma {:induction false} RealEndIsFinal(prog: seq<Instr>, w: World, t: State, j: nat, k: nat)
    requires !RealRun(prog, w, t, j).Running? && !RealRun(prog, w, t, k).Running?
    ensures RealRun(prog, w, t, j) == RealRun(prog, w, t, k)
    decreases j + k
  {
    if t.Running? && j > 0 && k > 0 { RealEndIsFinal(prog, w, RealStep(prog, w, t.cfg), j - 1, k - 1); }
  }
}
