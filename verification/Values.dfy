/** Run-time values of the policy language and the primitive operations on them.
    These are the operations the virtual machine performs in one instruction; the
    source semantics and the machine share them, everything else about the two is
    defined separately. */
module Values {

  datatype Option<+T> = None | Some(value: T)

  /** Stacks and scope chains: the head is the top of the stack or the innermost scope. */
  datatype List<T> = Nil | Cons(head: T, tail: List<T>)

  function Length<T>(xs: List<T>): nat {
    match xs
    case Nil => 0
    case Cons(_, rest) => 1 + Length(rest)
  }

  /** Pushes `vs` left to right, so that the last element ends up on top. */
  function PushAll<T>(xs: List<T>, vs: seq<T>): List<T>
    decreases vs
  {
    if vs == [] then xs else PushAll(Cons(vs[0], xs), vs[1..])
  }

  /** Pops `n` elements; the result lists them in the order they were pushed. */
  function PopMany<T>(xs: List<T>, n: nat): Option<(seq<T>, List<T>)> {
    if n == 0 then Some(([], xs))
    else match xs
      case Nil => None
      case Cons(x, rest) =>
        match PopMany(rest, n - 1)
        case None => None
        case Some((vs, below)) => Some((vs + [x], below))
  }

  lemma {:induction false} PushThenPop<T>(xs: List<T>, vs: seq<T>)
    ensures PopMany(PushAll(xs, vs), |vs|) == Some((vs, xs))
  {
    if vs != [] {
      var init, last := vs[..|vs| - 1], vs[|vs| - 1];
      PushThenPop(xs, init);
      PushAllSnoc(xs, init, last);
      assert vs == init + [last];
    }
  }

  lemma {:induction false} PushAllSnoc<T>(xs: List<T>, vs: seq<T>, v: T)
    ensures PushAll(xs, vs + [v]) == Cons(v, PushAll(xs, vs))
    decreases vs
  {
    if vs != [] {
      PushAllSnoc(Cons(vs[0], xs), vs[1..], v);
      assert (vs + [v])[1..] == vs[1..] + [v];
    } else {
      assert vs + [v] == [v];
    }
  }

  datatype VType =
    | StringT | BytesT | IntT | BoolT | IdT
    | StructT(name: string) | EnumT(name: string) | OptionalT(inner: VType)

  datatype Value =
    | IntV(n: int)
    | BoolV(b: bool)
    | StringV(s: string)
    | BytesV(bytes: seq<nat>)
    | StructV(name: string, fields: map<string, Value>)
    | FactV(fact: string, keys: seq<Entry>, values: seq<Entry>)
    | IdV(id: nat)
    | EnumV(enum: string, variant: string)
    | NoneV

  /** A named member of a fact's key or value list. */
  datatype Entry = Entry(key: string, value: Value)

  /** Reasons for ending execution in an orderly way. */
  datatype ExitReason = Normal | Check | Panic

  /** Machine errors. */
  datatype Fault =
    | StackUnderflow | StackOverflow
    | AlreadyDefined(name: string) | NotDefined(name: string)
    | InvalidType | InvalidStructMember(name: string)
    | InvalidFact(name: string) | InvalidSchema(name: string)
    | UnresolvedTarget | InvalidAddress | BadState | IntegerOverflow | InvalidInstruction
    | IoError(code: nat) | Unknown

  datatype Result<+T> = Ok(value: T) | Err(fault: Fault) {
    predicate IsFailure() { Err? }
    function PropagateFailure<U>(): Result<U>
      requires Err?
    { Err(fault) }
    function Extract(): T
      requires Ok?
    { value }
  }

  const MIN_INT := -0x8000_0000_0000_0000
  const MAX_INT := 0x7fff_ffff_ffff_ffff

  /** A 64-bit signed result, or an overflow error. */
  function Checked(n: int): Result<Value> {
    if MIN_INT <= n <= MAX_INT then Ok(IntV(n)) else Err(IntegerOverflow)
  }

  function TypeOf(v: Value): Option<VType> {
    match v
    case IntV(_) => Some(IntT)
    case BoolV(_) => Some(BoolT)
    case StringV(_) => Some(StringT)
    case BytesV(_) => Some(BytesT)
    case IdV(_) => Some(IdT)
    case EnumV(name, _) => Some(EnumT(name))
    case StructV(name, _) => Some(StructT(name))
    case FactV(_, _, _) | NoneV => None
  }

  /** Only integers, booleans, strings and identifiers may be fact keys. */
  predicate Hashable(v: Value) {
    v.IntV? || v.BoolV? || v.StringV? || v.IdV?
  }

  // ---- Entry lists ----

  /** The value of the first entry named `k`. */
  function Find(es: seq<Entry>, k: string): Option<Value> {
    if es == [] then None else if es[0].key == k then Some(es[0].value) else Find(es[1..], k)
  }

  /** Replaces the first entry named `k`, or appends one. */
  function SetEntry(es: seq<Entry>, k: string, v: Value): seq<Entry> {
    if es == [] then [Entry(k, v)]
    else if es[0].key == k then [Entry(k, v)] + es[1..]
    else [es[0]] + SetEntry(es[1..], k, v)
  }

  /** Collects entries into a struct's field map; later entries win. */
  function Collect(es: seq<Entry>): map<string, Value> {
    if es == [] then map[] else Collect(es[..|es| - 1])[es[|es| - 1].key := es[|es| - 1].value]
  }

  // ---- Schemas and the host ----

  datatype FieldDef = FieldDef(name: string, vtype: VType)

  datatype FactDef = FactDef(immutable: bool, key: seq<FieldDef>, value: seq<FieldDef>)

  /** The declared type of field `k`. */
  function FieldType(fs: seq<FieldDef>, k: string): Option<VType> {
    if fs == [] then None else if fs[0].name == k then Some(fs[0].vtype) else FieldType(fs[1..], k)
  }

  /** One result of a fact query; iterating may fail part way. */
  datatype Row = Row(keys: seq<Entry>, values: seq<Entry>) | RowFailed(code: nat)

  /** Everything the machine does to the outside world, in order. Queries leave no trace:
      they only read. */
  datatype Event =
    | Inserted(fact: string, keys: seq<Entry>, values: seq<Entry>)
    | Deleted(fact: string, keys: seq<Entry>)
    | Published(name: string, fields: map<string, Value>)
    | Emitted(name: string, fields: map<string, Value>, command: nat, recalled: bool)
    | Called(mod: nat, procedure: nat, args: seq<Value>)

  type History = seq<Event>

  datatype Reply<+T> = Answer(value: T) | Refused(code: nat)

  /** The execution context of a run. */
  datatype Context =
    | InAction | InPolicy(command: nat) | InRecall(command: nat)
    | InSeal(name: string) | InOpen(name: string)

  /** The host: an arbitrary deterministic environment whose answers may depend on everything
      that was done to it before. */
  datatype Host = Host(
    query: (History, string, seq<Entry>) -> Reply<seq<Row>>,
    accepts: (History, Event) -> Option<nat>,
    call: (History, nat, nat, seq<Value>) -> Reply<Value>,
    encode: Value -> Option<seq<nat>>,
    decode: seq<nat> -> Option<Value>)

  datatype Procedure = Procedure(name: string, arity: nat)
  datatype ForeignModule = ForeignModule(name: string, procedures: seq<Procedure>)

  /** What a module fixes before a run, together with the host it runs against. */
  datatype World = World(
    globals: map<string, Value>,
    structs: map<string, seq<FieldDef>>,
    facts: map<string, FactDef>,
    ffi: seq<ForeignModule>,
    ctx: Context,
    host: Host)

  /** Result of a computation that may also end the whole run. `Timeout` means that the call
      depth granted to the computation was used up. */
  datatype Outcome<+T> =
    | Val(value: T, hist: History)
    | Exit(reason: ExitReason, hist: History)
    | Fail(fault: Fault, hist: History)
    | Timeout
  {
    predicate IsFailure() { !Val? }
    function PropagateFailure<U>(): Outcome<U>
      requires !Val?
    {
      match this
      case Exit(r, h) => Exit(r, h)
      case Fail(f, h) => Fail(f, h)
      case Timeout => Timeout
    }
    function Extract(): (T, History)
      requires Val?
    { (value, hist) }
  }

  function Lift<T>(r: Result<T>, h: History): Outcome<T> {
    match r
    case Ok(v) => Val(v, h)
    case Err(f) => Fail(f, h)
  }

  // ---- Scopes ----

  /** The blocks of the current function, innermost first. */
  type Scope = List<map<string, Value>>

  predicate DefinedIn(scope: Scope, x: string) {
    scope.Cons? && (x in scope.head || DefinedIn(scope.tail, x))
  }

  function LookupLocal(scope: Scope, x: string): Option<Value> {
    match scope
    case Nil => None
    case Cons(block, outer) => if x in block then Some(block[x]) else LookupLocal(outer, x)
  }

  function Lookup(globals: map<string, Value>, scope: Scope, x: string): Result<Value> {
    match LookupLocal(scope, x)
    case Some(v) => Ok(v)
    case None => if x in globals then Ok(globals[x]) else Err(NotDefined(x))
  }

  /** Names are defined once: neither a global nor any enclosing block of the function may
      already hold `x`. */
  function Define(globals: map<string, Value>, scope: Scope, x: string, v: Value): Result<Scope> {
    if x in globals || DefinedIn(scope, x) then Err(AlreadyDefined(x))
    else match scope
      case Nil => Err(BadState)
      case Cons(block, outer) => Ok(Cons(block[x := v], outer))
  }

  // ---- Structs and facts ----

  predicate HasField(fs: seq<FieldDef>, k: string) {
    FieldType(fs, k).Some?
  }

  function SetField(w: World, target: Value, k: string, v: Value): Result<Value> {
    if !target.StructV? then Err(InvalidType)
    else if target.name !in w.structs then Err(InvalidSchema(target.name))
    else if !HasField(w.structs[target.name], k) then Err(InvalidStructMember(k))
    else Ok(StructV(target.name, target.fields[k := v]))
  }

  function GetField(target: Value, k: string): Result<Value> {
    if !target.StructV? then Err(InvalidType)
    else if k !in target.fields then Err(InvalidStructMember(k))
    else Ok(target.fields[k])
  }

  function SetKey(target: Value, k: string, v: Value): Result<Value> {
    if !Hashable(v) || !target.FactV? then Err(InvalidType)
    else Ok(FactV(target.fact, SetEntry(target.keys, k, v), target.values))
  }

  function SetValue(target: Value, k: string, v: Value): Result<Value> {
    if !target.FactV? then Err(InvalidType)
    else Ok(FactV(target.fact, target.keys, SetEntry(target.values, k, v)))
  }

  predicate EntriesFit(es: seq<Entry>, fs: seq<FieldDef>) {
    forall i :: 0 <= i < |es| ==>
      FieldType(fs, es[i].key).Some? && TypeOf(es[i].value) == FieldType(fs, es[i].key)
  }

  /** A fact literal is valid when every member it gives is declared with the same type. */
  predicate FactFits(w: World, f: Value)
    requires f.FactV?
  {
    f.fact in w.facts && EntriesFit(f.keys, w.facts[f.fact].key) && EntriesFit(f.values, w.facts[f.fact].value)
  }

  /** A stored row matches when the given keys are a prefix of its keys and every given value
      is present and equal. */
  predicate RowMatches(f: Value, r: Row)
    requires f.FactV? && r.Row?
  {
    f.keys <= r.keys &&
    forall i :: 0 <= i < |f.values| ==> Find(r.values, f.values[i].key) == Some(f.values[i].value)
  }

  /** The rows the host reports for a valid fact literal. */
  function QueryRows(w: World, f: Value, h: History): Result<seq<Row>> {
    if !f.FactV? then Err(InvalidType)
    else if !FactFits(w, f) then Err(InvalidSchema(f.fact))
    else match w.host.query(h, f.fact, f.keys)
      case Refused(c) => Err(IoError(c))
      case Answer(rows) => Ok(rows)
  }

  /** The first matching row as a struct, or none. */
  function FirstMatch(f: Value, rows: seq<Row>): Result<Value>
    requires f.FactV?
  {
    if rows == [] then Ok(NoneV)
    else match rows[0]
      case RowFailed(c) => Err(IoError(c))
      case Row(ks, vs) =>
        if RowMatches(f, rows[0]) then Ok(StructV(f.fact, Collect(ks + vs))) else FirstMatch(f, rows[1..])
  }

  /** Publishing and emitting demand exactly the declared fields. */
  predicate StructFits(w: World, s: Value)
    requires s.StructV?
  {
    s.name in w.structs &&
    (forall k :: k in s.fields ==> HasField(w.structs[s.name], k)) &&
    (forall i :: 0 <= i < |w.structs[s.name]| ==> w.structs[s.name][i].name in s.fields)
  }

  // ---- Operations on the outside world ----

  function Perform(w: World, e: Event, h: History): Outcome<()> {
    match w.host.accepts(h, e)
    case None => Val((), h + [e])
    case Some(c) => Fail(IoError(c), h)
  }

  function PublishStruct(w: World, s: Value, h: History): Outcome<()> {
    if !s.StructV? then Fail(InvalidType, h)
    else if !StructFits(w, s) then Fail(InvalidSchema(s.name), h)
    else Val((), h + [Published(s.name, s.fields)])
  }

  function EmitStruct(w: World, s: Value, h: History): Outcome<()> {
    if !s.StructV? then Fail(InvalidType, h)
    else if !StructFits(w, s) then Fail(InvalidSchema(s.name), h)
    else match w.ctx
      case InPolicy(id) => Val((), h + [Emitted(s.name, s.fields, id, false)])
      case InRecall(id) => Val((), h + [Emitted(s.name, s.fields, id, true)])
      case _ => Fail(BadState, h)
  }

  function CreateFact(w: World, f: Value, h: History): Outcome<()> {
    if !f.FactV? then Fail(InvalidType, h) else Perform(w, Inserted(f.fact, f.keys, f.values), h)
  }

  function DeleteFact(w: World, f: Value, h: History): Outcome<()> {
    if !f.FactV? then Fail(InvalidType, h) else Perform(w, Deleted(f.fact, f.keys), h)
  }

  /** Replaces the first row stored under `from`'s keys by `to`. */
  function UpdateFact(w: World, from: Value, to: Value, h: History): Outcome<()> {
    if !to.FactV? || !from.FactV? then Fail(InvalidType, h)
    else match w.host.query(h, from.fact, from.keys)
      case Refused(c) => Fail(IoError(c), h)
      case Answer(rows) =>
        if rows == [] then Fail(InvalidFact(from.fact), h)
        else match rows[0]
          case RowFailed(c) => Fail(IoError(c), h)
          case Row(ks, _) =>
            var (_, h1) :- Perform(w, Deleted(from.fact, ks), h);
            Perform(w, Inserted(to.fact, to.keys, to.values), h1)
  }

  function CallForeign(w: World, m: nat, p: nat, args: seq<Value>, h: History): Outcome<Value> {
    match w.host.call(h, m, p, args)
    case Answer(v) => Val(v, h + [Called(m, p, args)])
    case Refused(c) => Fail(IoError(c), h)
  }

  function SerializeStruct(w: World, v: Value): Result<Value> {
    if !w.ctx.InSeal? then Err(InvalidInstruction)
    else if !v.StructV? then Err(InvalidType)
    else if v.name != w.ctx.name then Err(InvalidInstruction)
    else match w.host.encode(v)
      case Some(bs) => Ok(BytesV(bs))
      case None => Err(Unknown)
  }

  function DeserializeStruct(w: World, v: Value): Result<Value> {
    if !w.ctx.InOpen? then Err(InvalidInstruction)
    else if !v.BytesV? then Err(InvalidType)
    else match w.host.decode(v.bytes)
      case Some(s) => if s.StructV? && s.name == w.ctx.name then Ok(s) else Err(InvalidInstruction)
      case None => Err(Unknown)
  }
}
