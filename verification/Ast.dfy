/** The abstract syntax of policies. */
module Ast {
  import opened Values

  datatype UnaryOp =
    | SomeOf | Negative | Not | Unwrap | CheckUnwrap | IsSome | IsNone
    | Dot(field: string) | Serialize | Deserialize

  datatype BinaryOp =
    | Add | Subtract | And | Or | Equal | NotEqual
    | GreaterThan | LessThan | GreaterOrEqual | LessOrEqual

  datatype QueryKind =
    | Query | Exists | UpTo(limit: int) | AtLeast(limit: int) | AtMost(limit: int) | Exactly(limit: int)

  /** `Literal` covers integers, strings, booleans and the empty optional. */
  datatype Expr =
    | Literal(value: Value)
    | EnumReference(enum: string, variant: string)
    | Identifier(name: string)
    | NamedStruct(name: string, fields: seq<Field>)
    | FactQuery(kind: QueryKind, fact: FactLiteral)
    | Conditional(cond: Expr, yes: Expr, no: Expr)
    | FunctionCall(name: string, args: seq<Expr>)
    | ForeignCall(mod: string, name: string, args: seq<Expr>)
    | Unary(uop: UnaryOp, arg: Expr)
    | Binary(bop: BinaryOp, left: Expr, right: Expr)

  /** A member of a struct or fact literal. Only facts may hold a bind marker. */
  datatype Field = Field(name: string, value: FieldValue)
  datatype FieldValue = Bind | Given(expr: Expr)

  /** Where a member goes: a struct, a fact's key or a fact's value part. */
  datatype Member = StructMember | KeyMember | ValueMember

  datatype FactLiteral = FactLiteral(name: string, keys: seq<Field>, values: ValuePart)
  datatype ValuePart = NoValues | GivenValues(fields: seq<Field>)

  /** A statement with its locator in the source text. */
  datatype Node = Node(stmt: Stmt, locator: nat)

  datatype Pattern = Default | Values(values: seq<Expr>)
  datatype Arm = Arm(pattern: Pattern, body: seq<Node>)
  datatype Branch = Branch(cond: Expr, body: seq<Node>)
  datatype Fallback = NoElse | Else(body: seq<Node>)

  datatype Stmt =
    | Let(name: string, expr: Expr)
    | CheckThat(expr: Expr)
    | Match(expr: Expr, arms: seq<Arm>)
    | If(branches: seq<Branch>, fallback: Fallback)
    | Finish(body: seq<Node>)
    | Map(fact: FactLiteral, name: string, body: seq<Node>)
    | Return(expr: Expr)
    | ActionCall(name: string, args: seq<Expr>)
    | Publish(expr: Expr)
    | Create(fact: FactLiteral)
    | Update(fact: FactLiteral, to: seq<Field>)
    | Delete(fact: FactLiteral)
    | Emit(expr: Expr)
    | FinishCall(name: string, args: seq<Expr>)
    | DebugAssert(expr: Expr)

  /** A function, finish function or action. */
  datatype Definition = Definition(name: string, params: seq<string>, body: seq<Node>, locator: nat)

  datatype Command = Command(
    name: string, policy: seq<Node>, recall: seq<Node>, seal: seq<Node>, open: seq<Node>, locator: nat)

  datatype Policy = Policy(
    functions: seq<Definition>,
    finishFunctions: seq<Definition>,
    commands: seq<Command>,
    actions: seq<Definition>)

  /** A policy with everything a run of it depends on. */
  datatype Program = Program(policy: Policy, world: World, debug: bool)

  function FindDefinition(ds: seq<Definition>, name: string): Option<Definition> {
    if ds == [] then None else if ds[0].name == name then Some(ds[0]) else FindDefinition(ds[1..], name)
  }

  function FindModule(ms: seq<ForeignModule>, name: string): Option<nat> {
    if ms == [] then None
    else if ms[0].name == name then Some(0)
    else match FindModule(ms[1..], name) case None => None case Some(i) => Some(i + 1)
  }

  function FindProcedure(ps: seq<Procedure>, name: string): Option<nat> {
    if ps == [] then None
    else if ps[0].name == name then Some(0)
    else match FindProcedure(ps[1..], name) case None => None case Some(i) => Some(i + 1)
  }

  /** The fields a fact literal gives for its value part. */
  function ValueFields(f: FactLiteral): seq<Field> {
    match f.values case GivenValues(fs) => fs case NoValues => []
  }

  predicate HasDefault(arms: seq<Arm>) {
    arms != [] && (arms[0].pattern.Default? || HasDefault(arms[1..]))
  }
}
