/** The grammar of programs as rules: which tokens, from one position up to another,
    may be written for a tree. These are the forms of GRAMMAR.md that this parser
    knows, with parentheses and commas wherever they may stand. */
module ProgramRules {
  import opened Numerals
  import opened ParserSyntax
  import opened ProgramGrammar
  import opened ProgramPrint

  ghost predicate Name(ts: seq<Token>, i: nat, name: string) {
    i < |ts| && ts[i].kind.IDENT? && ts[i].text == name
  }

  ghost predicate Number(ts: seq<Token>, i: nat, v: nat) {
    i < |ts| && ts[i].kind.INT? && IsNumeral(ts[i].text) && ValueOf(ts[i].text) == v
  }

  /** Behind the last of a list, where one more comma may stand. */
  ghost predicate Ends(ts: seq<Token>, m: nat, b: nat)
    requires b <= |ts|
  {
    m == b || (m + 1 == b && ts[m].kind.COMMA?)
  }

  // ----- expressions -----

  ghost predicate ExprRule(ts: seq<Token>, a: nat, b: nat, e: Expr, level: nat)
    requires a <= b <= |ts| && level <= UNARY
    decreases b - a, 30 - level
  {
    if level == UNARY then UnaryRule(ts, a, b, e)
    else ExprRule(ts, a, b, e, level + 1) || OperationRule(ts, a, b, e, level)
  }

  ghost predicate OperationRule(ts: seq<Token>, a: nat, b: nat, e: Expr, level: nat)
    requires a <= b <= |ts| && level < UNARY
    decreases b - a, 30 - level - 1
  {
    e.Binary? && Rung(e.op) == level &&
    exists m | a <= m < b ::
      ExprRule(ts, a, m, e.left, level) && ts[m].kind == e.op && ExprRule(ts, m + 1, b, e.right, level + 1)
  }

  ghost predicate UnaryRule(ts: seq<Token>, a: nat, b: nat, e: Expr)
    requires a <= b <= |ts|
    decreases b - a, 20
  {
    || PostfixRule(ts, a, b, e)
    || (e.Unary? && UnaryOp(e.op) && a < b && ts[a].kind == e.op && UnaryRule(ts, a + 1, b, e.operand))
    || (e.Borrow? && b == a + 2 && (if e.mutable then ts[a].kind.MUTREF? else ts[a].kind.REF?) && Name(ts, a + 1, e.name))
  }

  ghost predicate PostfixRule(ts: seq<Token>, a: nat, b: nat, e: Expr)
    requires a <= b <= |ts|
    decreases b - a, 19
  {
    || PrimaryRule(ts, a, b, e)
    || (e.Field? && a + 2 <= b && ts[b - 2].kind.DOT? && Name(ts, b - 1, e.name) && PostfixRule(ts, a, b - 2, e.base))
    || (e.Call? && exists m | a <= m < b - 1 :: PostfixRule(ts, a, m, e.callee) && CallRule(ts, m, b, e.args))
  }

  ghost predicate CallRule(ts: seq<Token>, a: nat, b: nat, args: seq<Expr>)
    requires a + 1 < b <= |ts|
    decreases b - a, 0
  {
    && ts[a].kind.LPAREN? && ts[b - 1].kind.RPAREN?
    && ((args == [] && a + 2 == b) || ArgsRule(ts, a + 1, b - 1, args))
  }

  ghost predicate PrimaryRule(ts: seq<Token>, a: nat, b: nat, e: Expr)
    requires a <= b <= |ts|
    decreases b - a, 18
  {
    || (a + 2 <= b && ts[a].kind.LPAREN? && ts[b - 1].kind.RPAREN? && ExprRule(ts, a + 1, b - 1, e, 0))
    || match e
       case IntLit(v) => b == a + 1 && Number(ts, a, v)
       case StringLit(text) => b == a + 1 && ts[a].kind.STRING? && ts[a].text == text
       case BoolLit(value) => b == a + 1 && if value then ts[a].kind.TRUE? else ts[a].kind.FALSE?
       case Var(name) => b == a + 1 && Name(ts, a, name)
       case Struct(name, fields) =>
         && a + 3 <= b && Name(ts, a, name) && ts[a + 1].kind.LBRACE? && ts[b - 1].kind.RBRACE?
         && ((fields == [] && b == a + 3) || FieldsRule(ts, a + 2, b - 1, fields))
       case _ => false
  }

  ghost predicate ArgsRule(ts: seq<Token>, a: nat, b: nat, args: seq<Expr>)
    requires a <= b <= |ts|
    decreases b - a, 31
  {
    args != [] && exists m | a <= m <= b ::
      && ExprRule(ts, a, m, args[0], 0)
      && if |args| == 1 then Ends(ts, m, b) else m < b && ts[m].kind.COMMA? && ArgsRule(ts, m + 1, b, args[1..])
  }

  ghost predicate FieldsRule(ts: seq<Token>, a: nat, b: nat, fields: seq<FieldInit>)
    requires a <= b <= |ts|
    decreases b - a, 31
  {
    fields != [] && a + 2 <= b && Name(ts, a, fields[0].name) && ts[a + 1].kind.COLON? && exists m | a + 2 <= m <= b ::
      && ExprRule(ts, a + 2, m, fields[0].value, 0)
      && if |fields| == 1 then Ends(ts, m, b) else m < b && ts[m].kind.COMMA? && FieldsRule(ts, m + 1, b, fields[1..])
  }

  // ----- types and patterns -----

  ghost predicate TypeRule(ts: seq<Token>, a: nat, b: nat, t: TypeExpr)
    requires a <= b <= |ts|
    decreases b - a, 1
  {
    match t
    case NamedType(_, _) => NamedTypeRule(ts, a, b, t)
    case BorrowType(mutable, inner) =>
      a < b && (if mutable then ts[a].kind.MUTREF? else ts[a].kind.REF?) && NamedTypeRule(ts, a + 1, b, inner)
  }

  ghost predicate NamedTypeRule(ts: seq<Token>, a: nat, b: nat, t: TypeExpr)
    requires a <= b <= |ts|
    decreases b - a, 0
  {
    && t.NamedType? && a < b && Name(ts, a, t.name)
    && ((t.args == [] && b == a + 1) ||
        (a + 3 <= b && ts[a + 1].kind.LT? && ts[b - 1].kind.GT? && TypesRule(ts, a + 2, b - 1, t.args)))
  }

  ghost predicate TypesRule(ts: seq<Token>, a: nat, b: nat, types: seq<TypeExpr>)
    requires a <= b <= |ts|
    decreases b - a, 2
  {
    types != [] && exists m | a <= m <= b ::
      && TypeRule(ts, a, m, types[0])
      && if |types| == 1 then Ends(ts, m, b) else m < b && ts[m].kind.COMMA? && TypesRule(ts, m + 1, b, types[1..])
  }

  ghost predicate PatternRule(ts: seq<Token>, a: nat, b: nat, p: Pattern)
    requires a <= b <= |ts|
    decreases b - a, 1
  {
    match p
    case WildcardPattern => b == a + 1 && Name(ts, a, "_")
    case IntPattern(v) =>
      if v < 0 || a + 2 == b then b == a + 2 && ts[a].kind.MINUS? && v <= 0 && Number(ts, a + 1, 0 - v)
      else b == a + 1 && Number(ts, a, v)
    case NamePattern(name) => name != "_" && b == a + 1 && Name(ts, a, name)
    case VariantPattern(name, args) =>
      && name != "_" && a + 3 <= b && Name(ts, a, name) && ts[a + 1].kind.LPAREN? && ts[b - 1].kind.RPAREN?
      && ((args == [] && b == a + 3) || PatternsRule(ts, a + 2, b - 1, args))
  }

  /** Without a comma at the end. */
  ghost predicate PatternsRule(ts: seq<Token>, a: nat, b: nat, ps: seq<Pattern>)
    requires a <= b <= |ts|
    decreases b - a, 2
  {
    ps != [] && exists m | a <= m <= b ::
      && PatternRule(ts, a, m, ps[0])
      && if |ps| == 1 then m == b else m < b && ts[m].kind.COMMA? && PatternsRule(ts, m + 1, b, ps[1..])
  }

  // ----- statements -----

  ghost predicate InitializerRule(ts: seq<Token>, a: nat, b: nat, value: Expr)
    requires a <= b <= |ts|
  {
    a + 2 <= b && ts[a].kind.EQ? && ts[b - 1].kind.SEMI? && ExprRule(ts, a + 1, b - 1, value, 0)
  }

  ghost predicate AnnotationRule(ts: seq<Token>, a: nat, b: nat, annotation: seq<TypeExpr>)
    requires a <= b <= |ts|
  {
    if annotation == [] then a == b
    else |annotation| == 1 && a < b && ts[a].kind.COLON? && TypeRule(ts, a + 1, b, annotation[0])
  }

  ghost predicate BlockRule(ts: seq<Token>, a: nat, b: nat, block: Block)
    requires a <= b <= |ts|
    decreases b - a, 1
  {
    a + 2 <= b && ts[a].kind.LBRACE? && ts[b - 1].kind.RBRACE? && StmtsRule(ts, a + 1, b - 1, block.statements)
  }

  ghost predicate StmtsRule(ts: seq<Token>, a: nat, b: nat, ss: seq<Stmt>)
    requires a <= b <= |ts|
    decreases b - a, 3
  {
    if ss == [] then a == b
    else exists m | a < m <= b :: StmtRule(ts, a, m, ss[0]) && StmtsRule(ts, m, b, ss[1..])
  }

  ghost predicate StmtRule(ts: seq<Token>, a: nat, b: nat, s: Stmt)
    requires a < b <= |ts|
    decreases b - a, 2
  {
    match s
    case LetStmt(name, mutable, annotation, value) =>
      var n := if mutable then a + 2 else a + 1;
      && ts[a].kind.LET? && (mutable ==> a + 1 < b && ts[a + 1].kind.MUT?) && n < b && Name(ts, n, name)
      && exists m | n < m <= b :: AnnotationRule(ts, n + 1, m, annotation) && InitializerRule(ts, m, b, value)
    case AssignStmt(target, value) => Name(ts, a, target) && InitializerRule(ts, a + 1, b, value)
    case FieldAssignStmt(target, field, value) =>
      a + 3 <= b && Name(ts, a, target) && ts[a + 1].kind.DOT? && Name(ts, a + 2, field) && InitializerRule(ts, a + 3, b, value)
    case IfStmt(condition, thenBlock, elseBlock) =>
      ts[a].kind.IF? && exists c, d | a < c <= d <= b ::
        && ExprRule(ts, a + 1, c, condition, 0) && BlockRule(ts, c, d, thenBlock)
        && if elseBlock == [] then d == b
           else |elseBlock| == 1 && d < b && ts[d].kind.ELSE? && BlockRule(ts, d + 1, b, elseBlock[0])
    case WhileStmt(condition, body) =>
      ts[a].kind.WHILE? && exists c | a < c <= b :: ExprRule(ts, a + 1, c, condition, 0) && BlockRule(ts, c, b, body)
    case MatchStmt(scrutinee, arms) =>
      ts[a].kind.MATCH? && exists c | a < c < b - 1 ::
        && ExprRule(ts, a + 1, c, scrutinee, 0) && ts[c].kind.LBRACE? && ts[b - 1].kind.RBRACE?
        && ((arms == [] && c + 2 == b) || ArmsRule(ts, c + 1, b - 1, arms))
    case ReturnStmt(result) =>
      && a + 2 <= b && ts[a].kind.RETURN? && ts[b - 1].kind.SEMI?
      && if result == [] then b == a + 2 else |result| == 1 && ExprRule(ts, a + 1, b - 1, result[0], 0)
    case ExprStmt(e) => ts[b - 1].kind.SEMI? && ExprRule(ts, a, b - 1, e, 0)
  }

  ghost predicate ArmsRule(ts: seq<Token>, a: nat, b: nat, arms: seq<Arm>)
    requires a <= b <= |ts|
    decreases b - a, 3
  {
    arms != [] && exists m | a <= m <= b ::
      && ArmRule(ts, a, m, arms[0])
      && if |arms| == 1 then Ends(ts, m, b) else m < b && ts[m].kind.COMMA? && ArmsRule(ts, m + 1, b, arms[1..])
  }

  ghost predicate ArmRule(ts: seq<Token>, a: nat, b: nat, arm: Arm)
    requires a <= b <= |ts|
    decreases b - a, 2
  {
    exists m | a <= m < b :: PatternRule(ts, a, m, arm.pattern) && ts[m].kind.FAT_ARROW? && BlockRule(ts, m + 1, b, arm.block)
  }

  // ----- items -----

  ghost predicate NamesRule(ts: seq<Token>, a: nat, b: nat, names: seq<string>)
    requires a <= b <= |ts|
    decreases b - a
  {
    && names != [] && a < b && Name(ts, a, names[0])
    && if |names| == 1 then Ends(ts, a + 1, b) else a + 1 < b && ts[a + 1].kind.COMMA? && NamesRule(ts, a + 2, b, names[1..])
  }

  ghost predicate IntentRule(ts: seq<Token>, a: nat, b: nat, intent: string)
    requires a <= b <= |ts|
  {
    && b == a + 5 && Name(ts, a, "intent") && ts[a + 1].kind.LPAREN? && ts[a + 2].kind.STRING? && ts[a + 2].text == intent
    && ts[a + 3].kind.RPAREN? && ts[a + 4].kind.SEMI?
  }

  ghost predicate ClauseRule(ts: seq<Token>, a: nat, b: nat, clause: string, names: seq<string>)
    requires a <= b <= |ts|
  {
    && a + 4 <= b && Name(ts, a, clause) && ts[a + 1].kind.LPAREN? && ts[b - 2].kind.RPAREN? && ts[b - 1].kind.SEMI?
    && ((names == [] && b == a + 4) || NamesRule(ts, a + 2, b - 2, names))
  }

  ghost predicate AuditRule(ts: seq<Token>, a: nat, b: nat, audit: Audit)
    requires a <= b <= |ts|
  {
    && a + 3 <= b && ts[a].kind.AUDIT? && ts[a + 1].kind.LBRACE? && ts[b - 1].kind.RBRACE?
    && exists m, n | a + 2 <= m <= n <= b - 1 ::
         && IntentRule(ts, a + 2, m, audit.intent) && ClauseRule(ts, m, n, "mutates", audit.mutates)
         && ClauseRule(ts, n, b - 1, "effects", audit.effects)
  }

  ghost predicate ParamRule(ts: seq<Token>, a: nat, b: nat, p: Param)
    requires a <= b <= |ts|
  {
    a + 2 <= b && Name(ts, a, p.name) && ts[a + 1].kind.COLON? && TypeRule(ts, a + 2, b, p.typ)
  }

  ghost predicate ParamsRule(ts: seq<Token>, a: nat, b: nat, params: seq<Param>)
    requires a <= b <= |ts|
    decreases b - a
  {
    params != [] && exists m | a <= m <= b ::
      && ParamRule(ts, a, m, params[0])
      && if |params| == 1 then Ends(ts, m, b) else m < b && ts[m].kind.COMMA? && ParamsRule(ts, m + 1, b, params[1..])
  }

  ghost predicate AllParamsRule(ts: seq<Token>, a: nat, b: nat, params: seq<Param>)
    requires a <= b <= |ts|
  {
    (params == [] && a == b) || ParamsRule(ts, a, b, params)
  }

  ghost predicate VariantRule(ts: seq<Token>, a: nat, b: nat, v: VariantDecl)
    requires a <= b <= |ts|
  {
    && a < b && Name(ts, a, v.name)
    && ((v.payloads == [] && b == a + 1) ||
        (a + 3 <= b && ts[a + 1].kind.LPAREN? && ts[b - 1].kind.RPAREN? &&
         ((v.payloads == [] && b == a + 3) || TypesRule(ts, a + 2, b - 1, v.payloads))))
  }

  ghost predicate VariantsRule(ts: seq<Token>, a: nat, b: nat, vs: seq<VariantDecl>)
    requires a <= b <= |ts|
    decreases b - a
  {
    vs != [] && exists m | a <= m <= b ::
      && VariantRule(ts, a, m, vs[0])
      && if |vs| == 1 then Ends(ts, m, b) else m < b && ts[m].kind.COMMA? && VariantsRule(ts, m + 1, b, vs[1..])
  }

  ghost predicate SignatureRule(ts: seq<Token>, a: nat, b: nat, sig: Signature)
    requires a <= b <= |ts|
  {
    && a + 3 <= b && ts[a].kind.FN? && Name(ts, a + 1, sig.name) && ts[a + 2].kind.LPAREN?
    && exists m | a + 3 <= m <= b - 2 ::
         && AllParamsRule(ts, a + 3, m, sig.params) && ts[m].kind.RPAREN? && ts[m + 1].kind.ARROW?
         && TypeRule(ts, m + 2, b, sig.result)
  }

  ghost predicate FunctionRule(ts: seq<Token>, a: nat, b: nat, item: Item)
    requires a <= b <= |ts| && item.FunctionDecl?
  {
    exists m, n | a <= m <= n <= b ::
      && SignatureRule(ts, a, m, Signature(item.name, item.params, item.result))
      && (if item.audit.Some? then AuditRule(ts, m, n, item.audit.value) else m == n)
      && BlockRule(ts, n, b, item.body)
  }

  /** An item from its keyword on. */
  ghost predicate DeclRule(ts: seq<Token>, a: nat, b: nat, item: Item)
    requires a <= b <= |ts|
  {
    match item
    case UseDecl(name) => b == a + 3 && ts[a].kind.USE? && Name(ts, a + 1, name) && ts[a + 2].kind.SEMI?
    case FunctionDecl(_, _, _, _, _, _) => FunctionRule(ts, a, b, item)
    case TypeDecl(name, fields, _) =>
      && a + 4 <= b && ts[a].kind.TYPE? && Name(ts, a + 1, name) && ts[a + 2].kind.LBRACE? && ts[b - 1].kind.RBRACE?
      && AllParamsRule(ts, a + 3, b - 1, fields)
    case EnumDecl(name, variants, _) =>
      && a + 4 <= b && ts[a].kind.ENUM? && Name(ts, a + 1, name) && ts[a + 2].kind.LBRACE? && ts[b - 1].kind.RBRACE?
      && ((variants == [] && b == a + 4) || VariantsRule(ts, a + 3, b - 1, variants))
  }

  ghost predicate ItemRule(ts: seq<Token>, a: nat, b: nat, item: Item)
    requires a < b <= |ts|
  {
    if Public(item) then ts[a].kind.PUB? && DeclRule(ts, a + 1, b, item) else DeclRule(ts, a, b, item)
  }

  ghost predicate ItemsRule(ts: seq<Token>, a: nat, b: nat, items: seq<Item>)
    requires a <= b <= |ts|
    decreases b - a
  {
    if items == [] then a == b
    else exists m | a < m <= b :: ItemRule(ts, a, m, items[0]) && ItemsRule(ts, m, b, items[1..])
  }

  /** A whole program: items up to the end marker, imports first. */
  ghost predicate ProgramRule(ts: seq<Token>, items: seq<Item>) {
    ts != [] && ItemsRule(ts, 0, |ts| - 1, items) && UsesFirst(items)
  }
}
