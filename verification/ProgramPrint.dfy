/** Printing programs: the tokens of types, patterns, statements, audits and items. */
module ProgramPrint {
  import opened Numerals
  import opened ParserSyntax
  import opened ExpressionRoundTrip
  import opened ProgramGrammar

  function Ident(name: string): Token {
    Token(IDENT, name)
  }

  // ----- types and patterns -----

  function PrintType(t: TypeExpr): seq<Token>
    decreases t
  {
    match t
    case NamedType(name, args) => [Ident(name)] + if args == [] then [] else [Op(LT)] + (PrintTypes(args) + [Op(GT)])
    case BorrowType(mutable, inner) => [Op(if mutable then MUTREF else REF)] + PrintType(inner)
  }

  function PrintTypes(types: seq<TypeExpr>): seq<Token>
    decreases types
  {
    if types == [] then []
    else if |types| == 1 then PrintType(types[0])
    else PrintType(types[0]) + ([Op(COMMA)] + PrintTypes(types[1..]))
  }

  function PrintPattern(p: Pattern): seq<Token>
    decreases p
  {
    match p
    case WildcardPattern => [Ident("_")]
    case IntPattern(v) => if v < 0 then [Op(MINUS)] + [Token(INT, NumeralText(-v))] else [Token(INT, NumeralText(v))]
    case NamePattern(name) => [Ident(name)]
    case VariantPattern(name, args) => [Ident(name)] + ([Op(LPAREN)] + (PrintPatterns(args) + [Op(RPAREN)]))
  }

  function PrintPatterns(ps: seq<Pattern>): seq<Token>
    decreases ps
  {
    if ps == [] then []
    else if |ps| == 1 then PrintPattern(ps[0])
    else PrintPattern(ps[0]) + ([Op(COMMA)] + PrintPatterns(ps[1..]))
  }

  // ----- statements -----

  function PrintBlock(b: Block): seq<Token>
    decreases b
  {
    [Op(LBRACE)] + (PrintStmts(b.statements) + [Op(RBRACE)])
  }

  function PrintStmts(ss: seq<Stmt>): seq<Token>
    decreases ss
  {
    if ss == [] then [] else PrintStmt(ss[0]) + PrintStmts(ss[1..])
  }

  function PrintAnnotation(annotation: seq<TypeExpr>): seq<Token> {
    if annotation == [] then [] else [Op(COLON)] + PrintType(annotation[0])
  }

  function PrintInitializer(value: Expr): seq<Token> {
    [Op(EQ)] + (Print(value, 0) + [Op(SEMI)])
  }

  function PrintResult(result: seq<Expr>): seq<Token> {
    if result == [] then [] else Print(result[0], 0)
  }

  function PrintStmt(s: Stmt): seq<Token>
    decreases s
  {
    match s
    case LetStmt(name, mutable, annotation, value) =>
      [Op(LET)] + ((if mutable then [Op(MUT)] else []) + ([Ident(name)] + (PrintAnnotation(annotation) + PrintInitializer(value))))
    case AssignStmt(target, value) => [Ident(target)] + PrintInitializer(value)
    case FieldAssignStmt(target, field, value) =>
      [Ident(target)] + ([Op(DOT)] + ([Ident(field)] + PrintInitializer(value)))
    case IfStmt(condition, thenBlock, elseBlock) =>
      [Op(IF)] + (Print(condition, 0) + (PrintBlock(thenBlock) + PrintElse(elseBlock)))
    case WhileStmt(condition, body) => [Op(WHILE)] + (Print(condition, 0) + PrintBlock(body))
    case MatchStmt(scrutinee, arms) =>
      [Op(MATCH)] + (Print(scrutinee, 0) + ([Op(LBRACE)] + (PrintArms(arms) + [Op(RBRACE)])))
    case ReturnStmt(result) => [Op(RETURN)] + (PrintResult(result) + [Op(SEMI)])
    case ExprStmt(e) => Print(e, 0) + [Op(SEMI)]
  }

  function PrintElse(elseBlock: seq<Block>): seq<Token>
    decreases elseBlock
  {
    if elseBlock == [] then [] else [Op(ELSE)] + PrintBlock(elseBlock[0])
  }

  function PrintArms(arms: seq<Arm>): seq<Token>
    decreases arms
  {
    if arms == [] then []
    else if |arms| == 1 then PrintArm(arms[0])
    else PrintArm(arms[0]) + ([Op(COMMA)] + PrintArms(arms[1..]))
  }

  function PrintArm(arm: Arm): seq<Token>
    decreases arm
  {
    PrintPattern(arm.pattern) + ([Op(FAT_ARROW)] + PrintBlock(arm.block))
  }

  // ----- items -----

  function PrintNames(names: seq<string>): seq<Token> {
    if names == [] then []
    else if |names| == 1 then [Ident(names[0])]
    else [Ident(names[0])] + ([Op(COMMA)] + PrintNames(names[1..]))
  }

  function PrintIntent(intent: string): seq<Token> {
    [Ident("intent")] + ([Op(LPAREN)] + ([Token(STRING, intent)] + ([Op(RPAREN)] + [Op(SEMI)])))
  }

  function PrintClause(clause: string, names: seq<string>): seq<Token> {
    [Ident(clause)] + ([Op(LPAREN)] + (PrintNames(names) + ([Op(RPAREN)] + [Op(SEMI)])))
  }

  function PrintAudit(audit: Option<Audit>): seq<Token> {
    match audit
    case None => []
    case Some(a) =>
      [Op(AUDIT)] + ([Op(LBRACE)] + (PrintIntent(a.intent) +
        (PrintClause("mutates", a.mutates) + (PrintClause("effects", a.effects) + [Op(RBRACE)]))))
  }

  function PrintParam(p: Param): seq<Token> {
    [Ident(p.name)] + ([Op(COLON)] + PrintType(p.typ))
  }

  function PrintParams(params: seq<Param>): seq<Token> {
    if params == [] then []
    else if |params| == 1 then PrintParam(params[0])
    else PrintParam(params[0]) + ([Op(COMMA)] + PrintParams(params[1..]))
  }

  function PrintVariant(v: VariantDecl): seq<Token> {
    [Ident(v.name)] + if v.payloads == [] then [] else [Op(LPAREN)] + (PrintTypes(v.payloads) + [Op(RPAREN)])
  }

  function PrintVariants(vs: seq<VariantDecl>): seq<Token> {
    if vs == [] then []
    else if |vs| == 1 then PrintVariant(vs[0])
    else PrintVariant(vs[0]) + ([Op(COMMA)] + PrintVariants(vs[1..]))
  }

  function PrintSignature(sig: Signature): seq<Token> {
    [Op(FN)] + ([Ident(sig.name)] + ([Op(LPAREN)] + (PrintParams(sig.params) + ([Op(RPAREN)] + ([Op(ARROW)] +
      PrintType(sig.result))))))
  }

  /** An item from its keyword on. */
  function PrintDecl(item: Item): seq<Token> {
    match item
    case UseDecl(name) => [Op(USE)] + ([Ident(name)] + [Op(SEMI)])
    case FunctionDecl(name, params, result, audit, body, _) =>
      PrintSignature(Signature(name, params, result)) + (PrintAudit(audit) + PrintBlock(body))
    case TypeDecl(name, fields, _) =>
      [Op(TYPE)] + ([Ident(name)] + ([Op(LBRACE)] + (PrintParams(fields) + [Op(RBRACE)])))
    case EnumDecl(name, variants, _) =>
      [Op(ENUM)] + ([Ident(name)] + ([Op(LBRACE)] + (PrintVariants(variants) + [Op(RBRACE)])))
  }

  predicate Public(item: Item) {
    !item.UseDecl? && item.public
  }

  function PrintItem(item: Item): seq<Token> {
    if Public(item) then [Op(PUB)] + PrintDecl(item) else PrintDecl(item)
  }

  function PrintItems(items: seq<Item>): seq<Token> {
    if items == [] then [] else PrintItem(items[0]) + PrintItems(items[1..])
  }

  /** A whole program, up to the end marker. */
  function PrintProgram(items: seq<Item>): seq<Token> {
    PrintItems(items) + [Op(EOF)]
  }

  // ----- the trees the parser can build -----

  predicate ValidType(t: TypeExpr)
    decreases t
  {
    match t
    case NamedType(_, args) => forall i | 0 <= i < |args| :: ValidType(args[i])
    case BorrowType(_, inner) => inner.NamedType? && ValidType(inner)
  }

  predicate ValidTypes(types: seq<TypeExpr>) {
    forall i | 0 <= i < |types| :: ValidType(types[i])
  }

  /** A name is not the wildcard. */
  predicate ValidPattern(p: Pattern)
    decreases p
  {
    match p
    case NamePattern(name) => name != "_"
    case VariantPattern(name, args) => name != "_" && forall i | 0 <= i < |args| :: ValidPattern(args[i])
    case _ => true
  }

  predicate ValidBlock(b: Block)
    decreases b
  {
    forall i | 0 <= i < |b.statements| :: ValidStmt(b.statements[i])
  }

  predicate ValidStmt(s: Stmt)
    decreases s
  {
    match s
    case LetStmt(_, _, annotation, value) => |annotation| <= 1 && ValidTypes(annotation) && ValidExpr(value)
    case AssignStmt(_, value) => ValidExpr(value)
    case FieldAssignStmt(_, _, value) => ValidExpr(value)
    case IfStmt(condition, thenBlock, elseBlock) =>
      ValidExpr(condition) && ValidBlock(thenBlock) && |elseBlock| <= 1 &&
      forall i | 0 <= i < |elseBlock| :: ValidBlock(elseBlock[i])
    case WhileStmt(condition, body) => ValidExpr(condition) && ValidBlock(body)
    case MatchStmt(scrutinee, arms) =>
      ValidExpr(scrutinee) && forall i | 0 <= i < |arms| :: ValidPattern(arms[i].pattern) && ValidBlock(arms[i].block)
    case ReturnStmt(result) => |result| <= 1 && forall i | 0 <= i < |result| :: ValidExpr(result[i])
    case ExprStmt(e) => ValidExpr(e)
  }

  predicate ValidParams(params: seq<Param>) {
    forall i | 0 <= i < |params| :: ValidType(params[i].typ)
  }

  predicate ValidItem(item: Item) {
    match item
    case UseDecl(_) => true
    case FunctionDecl(_, params, result, _, body, _) => ValidParams(params) && ValidType(result) && ValidBlock(body)
    case TypeDecl(_, fields, _) => ValidParams(fields)
    case EnumDecl(_, variants, _) => forall i | 0 <= i < |variants| :: ValidTypes(variants[i].payloads)
  }

  // ----- what the look-ahead for struct literals gets wrong -----

  /** A bare name is not followed by empty braces, which would make it a struct
      literal without fields. */
  predicate Clear(e: Expr, empty: bool) {
    !(empty && EndsBare(e, 0))
  }

  predicate ClearBlock(b: Block)
    decreases b
  {
    forall i | 0 <= i < |b.statements| :: ClearStmt(b.statements[i])
  }

  /** No condition and no scrutinee ends with a bare name before empty braces. */
  predicate ClearStmt(s: Stmt)
    decreases s
  {
    match s
    case IfStmt(condition, thenBlock, elseBlock) =>
      Clear(condition, thenBlock.statements == []) && ClearBlock(thenBlock) &&
      forall i | 0 <= i < |elseBlock| :: ClearBlock(elseBlock[i])
    case WhileStmt(condition, body) => Clear(condition, body.statements == []) && ClearBlock(body)
    case MatchStmt(scrutinee, arms) =>
      Clear(scrutinee, arms == []) && forall i | 0 <= i < |arms| :: ClearBlock(arms[i].block)
    case _ => true
  }

  predicate ClearItem(item: Item) {
    item.FunctionDecl? ==> ClearBlock(item.body)
  }

  /** Imports come first. */
  predicate UsesFirst(items: seq<Item>) {
    forall i, j | 0 <= i < j < |items| && items[j].UseDecl? :: items[i].UseDecl?
  }

  predicate ValidProgram(items: seq<Item>) {
    forall i | 0 <= i < |items| :: ValidItem(items[i])
  }

  predicate ClearProgram(items: seq<Item>) {
    forall i | 0 <= i < |items| :: ClearItem(items[i])
  }
}
