/** The statement language as the move checker sees it: names resolved, types
    reduced to whether they are copyable, spans dropped. */
module MoveSyntax {

  datatype Option<+T> = None | Some(value: T)

  type Sym = nat

  /** What the checker reads of a binding: is its type copyable, is it a
      by-reference parameter. */
  datatype Binding = Binding(copy: bool, refParam: bool)

  type Bindings = map<Sym, Binding>

  /** How type checking classified a call. A function call carries, for each
      parameter, whether it is a reference. */
  datatype CallKind = FunctionCall(refParams: seq<bool>) | VariantCall | UnresolvedCall

  datatype Expr =
    | Literal
    | Name(local: bool, sym: Option<Sym>)
    | Borrow(mutable: bool, sym: Option<Sym>)
    | Unary(operand: Expr)
    | Binary(logical: bool, left: Expr, right: Expr)
    | Field(base: Expr, copyField: Option<bool>)
    | Struct(fields: seq<Expr>)
    | Call(callee: Expr, kind: CallKind, args: seq<Expr>)

  datatype Pattern =
    | Wildcard
    | IntPattern
    | NamePattern(binds: Option<Sym>)
    | VariantPattern(nested: seq<Pattern>)

  datatype Arm = Arm(pattern: Pattern, block: seq<Stmt>)

  // an absent else branch is an empty block
  datatype Stmt =
    | Let(sym: Option<Sym>, init: Expr)
    | Assign(sym: Option<Sym>, value: Expr)
    | FieldAssign(sym: Option<Sym>, value: Expr)
    | If(condition: Expr, thenBlock: seq<Stmt>, elseBlock: seq<Stmt>)
    | While(condition: Expr, body: seq<Stmt>)
    | Match(scrutinee: Expr, arms: seq<Arm>)
    | Return(result: Option<Expr>)
    | ExprStmt(expr: Expr)

  /** The local a bare name stands for. */
  function ExprSymbol(e: Expr): Option<Sym> {
    if e.Name? && e.local then e.sym else None
  }

  function PatternSymbols(p: Pattern): seq<Sym> {
    match p
    case NamePattern(Some(s)) => [s]
    case VariantPattern(nested) => AllPatternSymbols(nested)
    case _ => []
  }

  function AllPatternSymbols(ps: seq<Pattern>): seq<Sym> {
    if ps == [] then [] else PatternSymbols(ps[0]) + AllPatternSymbols(ps[1..])
  }

  /** Consuming this name moves it out. */
  predicate Moves(b: Bindings, s: Sym) {
    s in b && !b[s].copy && !b[s].refParam
  }

  // ----- what type checking guarantees of calls -----

  predicate WellTyped(e: Expr) {
    match e
    case Literal => true
    case Name(_, _) => true
    case Borrow(_, _) => true
    case Unary(x) => WellTyped(x)
    case Binary(_, l, r) => WellTyped(l) && WellTyped(r)
    case Field(x, _) => WellTyped(x)
    case Struct(fs) => forall i | 0 <= i < |fs| :: WellTyped(fs[i])
    case Call(f, kind, args) =>
      && WellTyped(f)
      && (forall i | 0 <= i < |args| :: WellTyped(args[i]))
      && (kind.FunctionCall? ==> ArgumentsFit(args, kind.refParams))
  }

  /** Arity matches and each reference parameter receives a borrow. */
  predicate ArgumentsFit(args: seq<Expr>, refParams: seq<bool>) {
    && |args| == |refParams|
    && forall i | 0 <= i < |args| && refParams[i] :: args[i].Borrow? && args[i].sym.Some?
  }

  predicate WellTypedStmt(s: Stmt) {
    match s
    case Let(_, e) => WellTyped(e)
    case Assign(_, e) => WellTyped(e)
    case FieldAssign(_, e) => WellTyped(e)
    case If(c, t, e) => WellTyped(c) && WellTypedBlock(t) && WellTypedBlock(e)
    case While(c, b) => WellTyped(c) && WellTypedBlock(b)
    case Match(e, arms) => WellTyped(e) && forall i | 0 <= i < |arms| :: WellTypedBlock(arms[i].block)
    case Return(e) => e.Some? ==> WellTyped(e.value)
    case ExprStmt(e) => WellTyped(e)
  }

  predicate WellTypedBlock(b: seq<Stmt>) {
    forall i | 0 <= i < |b| :: WellTypedStmt(b[i])
  }
}
