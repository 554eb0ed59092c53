/** What parsing a whole program yields, as functions of the cursor: types,
    patterns, statements, audit blocks and items, with the recovery of each. Every
    form keeps the cursor in range and never moves it back, and what must have begun
    with a keyword moves it on, so loops over statements, arms, variants and items
    end however malformed the tokens are. A form with patterns in it may stop the
    parse instead of yielding anything; where patterns were begun is recorded with
    every yield and every stop, because what stops a parse stands at such a place
    and nowhere else. Reports are kept in the order in which they are made. */
module ProgramGrammar {
  import opened Numerals
  import opened ParserSyntax
  import opened ExpressionGrammar

  datatype Option<+T> = None | Some(value: T)

  datatype TypeExpr = NamedType(name: string, args: seq<TypeExpr>) | BorrowType(mutable: bool, inner: TypeExpr)

  datatype Pattern =
    | WildcardPattern
    | IntPattern(value: int)
    | NamePattern(name: string)
    | VariantPattern(name: string, args: seq<Pattern>)

  datatype Block = Block(statements: seq<Stmt>)

  datatype Arm = Arm(pattern: Pattern, block: Block)

  datatype Stmt =
    | LetStmt(name: string, mutable: bool, annotation: seq<TypeExpr>, value: Expr)
    | AssignStmt(target: string, value: Expr)
    | FieldAssignStmt(target: string, field: string, value: Expr)
    | IfStmt(condition: Expr, thenBlock: Block, elseBlock: seq<Block>)
    | WhileStmt(condition: Expr, body: Block)
    | MatchStmt(scrutinee: Expr, arms: seq<Arm>)
    | ReturnStmt(result: seq<Expr>)
    | ExprStmt(expr: Expr)

  datatype Param = Param(name: string, typ: TypeExpr)

  datatype VariantDecl = VariantDecl(name: string, payloads: seq<TypeExpr>)

  datatype Audit = Audit(intent: string, mutates: seq<string>, effects: seq<string>)

  datatype Item =
    | UseDecl(name: string)
    | FunctionDecl(name: string, params: seq<Param>, result: TypeExpr, audit: Option<Audit>, body: Block, public: bool)
    | TypeDecl(name: string, fields: seq<Param>, public: bool)
    | EnumDecl(name: string, variants: seq<VariantDecl>, public: bool)

  const CLAUSES: set<string> := {"intent", "mutates", "effects"}

  predicate StartsStmt(k: Kind) {
    k.LET? || k.IF? || k.WHILE? || k.MATCH? || k.RETURN?
  }

  predicate StartsItem(k: Kind) {
    k.FN? || k.TYPE? || k.ENUM? || k.USE? || k.PUB?
  }

  function Report(s: State, code: Code): State {
    s.(diags := s.diags + [code])
  }

  // ----- types -----

  function TypeAt(ts: seq<Token>, s: State): (o: Out<TypeExpr>)
    requires ValidTokens(ts) && Inside(ts, s)
    ensures Kept(ts, s, o.state)
    decreases |ts| - s.at, 2
  {
    if KindAt(ts, s).REF? || KindAt(ts, s).MUTREF? then
      var inner := NamedTypeAt(ts, Advance(ts, s));
      Out(BorrowType(KindAt(ts, s).MUTREF?, inner.value), inner.state)
    else NamedTypeAt(ts, s)
  }

  function NamedTypeAt(ts: seq<Token>, s: State): (o: Out<TypeExpr>)
    requires ValidTokens(ts) && Inside(ts, s)
    ensures Kept(ts, s, o.state)
    decreases |ts| - s.at, 1
  {
    var name := Expect(ts, s, IDENT);
    if !KindAt(ts, name.state).LT? then Out(NamedType(name.value.text, []), name.state)
    else
      var args := TypeArgsAt(ts, Advance(ts, name.state), []);
      Out(NamedType(name.value.text, args.value), Expect(ts, args.state, GT).state)
  }

  function TypeArgsAt(ts: seq<Token>, s: State, done: seq<TypeExpr>): (o: Out<seq<TypeExpr>>)
    requires ValidTokens(ts) && Inside(ts, s)
    ensures Kept(ts, s, o.state)
    decreases |ts| - s.at, 3
  {
    var t := TypeAt(ts, s);
    if !KindAt(ts, t.state).COMMA? then Out(done + [t.value], t.state)
    else
      var next := Advance(ts, t.state);
      if KindAt(ts, next).GT? then Out(done + [t.value], next) else TypeArgsAt(ts, next, done + [t.value])
  }

  // ----- patterns -----

  /** Reading something with patterns in it may stop the whole parse: after a minus
      sign the next token is read as a number, whatever it is. Where patterns were
      begun is recorded. */
  datatype Reading<+T> =
    | Got(value: T, state: State, patterns: set<nat>)
    | Raised(patterns: set<nat>)

  function Also<T>(ps: set<nat>, r: Reading<T>): Reading<T> {
    r.(patterns := ps + r.patterns)
  }

  /** A minus sign that is not followed by a number. */
  predicate BadAt(ts: seq<Token>, p: nat) {
    p + 1 < |ts| && ts[p].kind.MINUS? && !IsNumeral(ts[p + 1].text)
  }

  ghost predicate SomeBad(ts: seq<Token>, ps: set<nat>) {
    exists p :: p in ps && BadAt(ts, p)
  }

  function PatternAt(ts: seq<Token>, s: State): (o: Reading<Pattern>)
    requires ValidTokens(ts) && Inside(ts, s)
    ensures o.Got? ==> Kept(ts, s, o.state)
    decreases |ts| - s.at, 1
  {
    if KindAt(ts, s).IDENT? && ts[s.at].text == "_" then Got(WildcardPattern, Advance(ts, s), {s.at})
    else if KindAt(ts, s).MINUS? then Also({s.at}, NegativeAt(ts, Advance(ts, s)))
    else if KindAt(ts, s).INT? then Got(IntPattern(ValueOf(ts[s.at].text)), Advance(ts, s), {s.at})
    else Also({s.at}, NamedPatternAt(ts, s))
  }

  /** Behind a minus sign. */
  function NegativeAt(ts: seq<Token>, s: State): (o: Reading<Pattern>)
    requires ValidTokens(ts) && Inside(ts, s)
    ensures o.Got? ==> Kept(ts, s, o.state)
  {
    var value := Expect(ts, s, INT);
    if IsNumeral(value.value.text) then Got(IntPattern(0 - ValueOf(value.value.text)), value.state, {}) else Raised({})
  }

  /** A name, perhaps with arguments. */
  function NamedPatternAt(ts: seq<Token>, s: State): (o: Reading<Pattern>)
    requires ValidTokens(ts) && Inside(ts, s)
    ensures o.Got? ==> Kept(ts, s, o.state)
    decreases |ts| - s.at, 0
  {
    var name := Expect(ts, s, IDENT);
    if !KindAt(ts, name.state).LPAREN? then Got(NamePattern(name.value.text), name.state, {})
    else PayloadAt(ts, Advance(ts, name.state), name.value.text)
  }

  /** The arguments of a variant, behind the opening parenthesis. */
  function PayloadAt(ts: seq<Token>, s: State, name: string): (o: Reading<Pattern>)
    requires ValidTokens(ts) && Inside(ts, s)
    ensures o.Got? ==> Kept(ts, s, o.state)
    decreases |ts| - s.at, 4
  {
    var args := PatternArgsAt(ts, s);
    if args.Raised? then Raised(args.patterns)
    else Got(VariantPattern(name, args.value), Expect(ts, args.state, RPAREN).state, args.patterns)
  }

  function PatternArgsAt(ts: seq<Token>, s: State): (o: Reading<seq<Pattern>>)
    requires ValidTokens(ts) && Inside(ts, s)
    ensures o.Got? ==> Kept(ts, s, o.state)
    decreases |ts| - s.at, 3
  {
    if KindAt(ts, s).RPAREN? then Got([], s, {}) else PatternsAt(ts, s, [])
  }

  function PatternsAt(ts: seq<Token>, s: State, done: seq<Pattern>): (o: Reading<seq<Pattern>>)
    requires ValidTokens(ts) && Inside(ts, s)
    ensures o.Got? ==> Kept(ts, s, o.state)
    decreases |ts| - s.at, 2
  {
    var first := PatternAt(ts, s);
    if first.Raised? then Raised(first.patterns)
    else if !KindAt(ts, first.state).COMMA? then Got(done + [first.value], first.state, first.patterns)
    else Also(first.patterns, PatternsAt(ts, Advance(ts, first.state), done + [first.value]))
  }

  // ----- statements without blocks -----

  /** The equals sign, the value and the semicolon of a binding or assignment. */
  function InitializerAt(ts: seq<Token>, s: State): (o: Out<Expr>)
    requires ValidTokens(ts) && Inside(ts, s)
    ensures Kept(ts, s, o.state)
  {
    var value := ExprAt(ts, Expect(ts, s, EQ).state);
    Out(value.value, Expect(ts, value.state, SEMI).state)
  }

  function LetAt(ts: seq<Token>, s: State): (o: Out<Stmt>)
    requires ValidTokens(ts) && Inside(ts, s) && KindAt(ts, s).LET?
    ensures Moved(ts, s, o.state)
  {
    var let := Expect(ts, s, LET);
    var mutable := KindAt(ts, let.state).MUT?;
    var name := Expect(ts, if mutable then Advance(ts, let.state) else let.state, IDENT);
    var annotation := AnnotationAt(ts, name.state);
    var value := InitializerAt(ts, annotation.state);
    Out(LetStmt(name.value.text, mutable, annotation.value, value.value), value.state)
  }

  function AnnotationAt(ts: seq<Token>, s: State): (o: Out<seq<TypeExpr>>)
    requires ValidTokens(ts) && Inside(ts, s)
    ensures Kept(ts, s, o.state)
  {
    if !KindAt(ts, s).COLON? then Out([], s)
    else
      var t := TypeAt(ts, Advance(ts, s));
      Out([t.value], t.state)
  }

  function ReturnAt(ts: seq<Token>, s: State): (o: Out<Stmt>)
    requires ValidTokens(ts) && Inside(ts, s) && KindAt(ts, s).RETURN?
    ensures Moved(ts, s, o.state)
  {
    var next := Expect(ts, s, RETURN).state;
    if KindAt(ts, next).SEMI? then Out(ReturnStmt([]), Expect(ts, next, SEMI).state)
    else
      var e := ExprAt(ts, next);
      Out(ReturnStmt([e.value]), Expect(ts, e.state, SEMI).state)
  }

  function FieldAssignAt(ts: seq<Token>, s: State): (o: Out<Stmt>)
    requires ValidTokens(ts) && Inside(ts, s) && KindAt(ts, s).IDENT?
    ensures Moved(ts, s, o.state)
  {
    var target := Expect(ts, s, IDENT);
    var field := Expect(ts, Expect(ts, target.state, DOT).state, IDENT);
    var value := InitializerAt(ts, field.state);
    Out(FieldAssignStmt(target.value.text, field.value.text, value.value), value.state)
  }

  function AssignAt(ts: seq<Token>, s: State): (o: Out<Stmt>)
    requires ValidTokens(ts) && Inside(ts, s) && KindAt(ts, s).IDENT?
    ensures Moved(ts, s, o.state)
  {
    var target := Expect(ts, s, IDENT);
    var value := InitializerAt(ts, target.state);
    Out(AssignStmt(target.value.text, value.value), value.state)
  }

  function ExprStmtAt(ts: seq<Token>, s: State): (o: Out<Stmt>)
    requires ValidTokens(ts) && Inside(ts, s)
    ensures Moved(ts, s, o.state)
  {
    var e := ExprAt(ts, s);
    Out(ExprStmt(e.value), Expect(ts, e.state, SEMI).state)
  }

  /** Assignments are told from expressions by looking ahead. */
  function SimpleAt(ts: seq<Token>, s: State): (o: Out<Stmt>)
    requires ValidTokens(ts) && Inside(ts, s)
    ensures Moved(ts, s, o.state)
  {
    if KindAt(ts, s).LET? then LetAt(ts, s)
    else if KindAt(ts, s).RETURN? then ReturnAt(ts, s)
    else if KindAt(ts, s).IDENT? && Peek(ts, s, 1).kind.DOT? && Peek(ts, s, 2).kind.IDENT? && Peek(ts, s, 3).kind.EQ? then
      FieldAssignAt(ts, s)
    else if KindAt(ts, s).IDENT? && Peek(ts, s, 1).kind.EQ? then AssignAt(ts, s)
    else ExprStmtAt(ts, s)
  }

  // ----- blocks -----

  function BlockAt(ts: seq<Token>, s: State): (o: Reading<Block>)
    requires ValidTokens(ts) && Inside(ts, s)
    ensures o.Got? ==> Kept(ts, s, o.state)
    decreases |ts| - s.at, 4
  {
    var body := StmtsAt(ts, Expect(ts, s, LBRACE).state, []);
    if body.Raised? then Raised(body.patterns)
    else Got(Block(body.value), Expect(ts, body.state, RBRACE).state, body.patterns)
  }

  /** Statements up to a closing brace or the end of input. */
  function StmtsAt(ts: seq<Token>, s: State, done: seq<Stmt>): (o: Reading<seq<Stmt>>)
    requires ValidTokens(ts) && Inside(ts, s)
    ensures o.Got? ==> Kept(ts, s, o.state)
    decreases |ts| - s.at, 3
  {
    if KindAt(ts, s).RBRACE? || KindAt(ts, s).EOF? then Got(done, s, {})
    else
      var stmt := StmtAt(ts, s);
      if stmt.Raised? then Raised(stmt.patterns)
      else Also(stmt.patterns, StmtsAt(ts, stmt.state, done + [stmt.value]))
  }

  function StmtAt(ts: seq<Token>, s: State): (o: Reading<Stmt>)
    requires ValidTokens(ts) && Inside(ts, s)
    ensures o.Got? ==> Moved(ts, s, o.state)
    decreases |ts| - s.at, 2
  {
    if KindAt(ts, s).IF? then IfAt(ts, s)
    else if KindAt(ts, s).WHILE? then WhileAt(ts, s)
    else if KindAt(ts, s).MATCH? then MatchAt(ts, s)
    else
      var simple := SimpleAt(ts, s);
      Got(simple.value, simple.state, {})
  }

  function IfAt(ts: seq<Token>, s: State): (o: Reading<Stmt>)
    requires ValidTokens(ts) && Inside(ts, s) && KindAt(ts, s).IF?
    ensures o.Got? ==> Moved(ts, s, o.state)
    decreases |ts| - s.at, 1
  {
    var condition := ExprAt(ts, Expect(ts, s, IF).state);
    var then' := BlockAt(ts, condition.state);
    if then'.Raised? then Raised(then'.patterns)
    else if !KindAt(ts, then'.state).ELSE? then
      Got(IfStmt(condition.value, then'.value, []), then'.state, then'.patterns)
    else
      var else' := BlockAt(ts, Advance(ts, then'.state));
      if else'.Raised? then Raised(then'.patterns + else'.patterns)
      else Got(IfStmt(condition.value, then'.value, [else'.value]), else'.state, then'.patterns + else'.patterns)
  }

  function WhileAt(ts: seq<Token>, s: State): (o: Reading<Stmt>)
    requires ValidTokens(ts) && Inside(ts, s) && KindAt(ts, s).WHILE?
    ensures o.Got? ==> Moved(ts, s, o.state)
    decreases |ts| - s.at, 1
  {
    var condition := ExprAt(ts, Expect(ts, s, WHILE).state);
    var body := BlockAt(ts, condition.state);
    if body.Raised? then Raised(body.patterns)
    else Got(WhileStmt(condition.value, body.value), body.state, body.patterns)
  }

  function MatchAt(ts: seq<Token>, s: State): (o: Reading<Stmt>)
    requires ValidTokens(ts) && Inside(ts, s) && KindAt(ts, s).MATCH?
    ensures o.Got? ==> Moved(ts, s, o.state)
    decreases |ts| - s.at, 1
  {
    var scrutinee := ExprAt(ts, Expect(ts, s, MATCH).state);
    var arms := ArmsAt(ts, Expect(ts, scrutinee.state, LBRACE).state, []);
    if arms.Raised? then Raised(arms.patterns)
    else Got(MatchStmt(scrutinee.value, arms.value), Expect(ts, arms.state, RBRACE).state, arms.patterns)
  }

  /** Arms as long as a comma follows. */
  function ArmsAt(ts: seq<Token>, s: State, done: seq<Arm>): (o: Reading<seq<Arm>>)
    requires ValidTokens(ts) && Inside(ts, s)
    ensures o.Got? ==> Kept(ts, s, o.state)
    decreases |ts| - s.at, 6
  {
    if KindAt(ts, s).RBRACE? || KindAt(ts, s).EOF? then Got(done, s, {})
    else
      var arm := ArmAt(ts, s);
      if arm.Raised? then Raised(arm.patterns)
      else if !KindAt(ts, arm.state).COMMA? then Got(done + [arm.value], arm.state, arm.patterns)
      else Also(arm.patterns, ArmsAt(ts, Advance(ts, arm.state), done + [arm.value]))
  }

  function ArmAt(ts: seq<Token>, s: State): (o: Reading<Arm>)
    requires ValidTokens(ts) && Inside(ts, s)
    ensures o.Got? ==> Kept(ts, s, o.state)
    decreases |ts| - s.at, 5
  {
    var pattern := PatternAt(ts, s);
    if pattern.Raised? then Raised(pattern.patterns)
    else
      var block := BlockAt(ts, Expect(ts, pattern.state, FAT_ARROW).state);
      if block.Raised? then Raised(pattern.patterns + block.patterns)
      else Got(Arm(pattern.value, block.value), block.state, pattern.patterns + block.patterns)
  }

  // ----- audit clauses -----

  /** From inside a clause to behind its semicolon, or to the end of the block. */
  function SkipFrom(ts: seq<Token>, s: State, depth: nat): (r: State)
    requires ValidTokens(ts) && Inside(ts, s)
    ensures Kept(ts, s, r)
    decreases |ts| - s.at
  {
    var kind := KindAt(ts, s);
    if kind.EOF? || (kind.RBRACE? && depth == 0) then s
    else
      NotLast(ts, s.at);
      if kind.SEMI? && depth == 0 then Advance(ts, s) else SkipFrom(ts, Advance(ts, s), Deeper(kind, depth))
  }

  function Deeper(kind: Kind, depth: nat): nat {
    if kind.LPAREN? then depth + 1 else if kind.RPAREN? && depth > 0 then depth - 1 else depth
  }

  function SkipClauseAt(ts: seq<Token>, s: State): (r: State)
    requires ValidTokens(ts) && Inside(ts, s) && KindAt(ts, s).IDENT?
    ensures Moved(ts, s, r)
  {
    SkipFrom(ts, Advance(ts, s), 0)
  }

  /** Clauses that come too early are skipped and reported. */
  function ClauseNameAt(ts: seq<Token>, s: State, expected: string): (o: Out<bool>)
    requires ValidTokens(ts) && Inside(ts, s)
    ensures Kept(ts, s, o.state)
    decreases |ts| - s.at
  {
    if KindAt(ts, s).IDENT? && ts[s.at].text in CLAUSES && ts[s.at].text != expected then
      NotLast(ts, s.at);
      ClauseNameAt(ts, SkipClauseAt(ts, Report(s, WrongClause)), expected)
    else if KindAt(ts, s).IDENT? && ts[s.at].text == expected then Out(true, Advance(ts, s))
    else Out(false, Report(s, WrongClause))
  }

  function IntentAt(ts: seq<Token>, s: State): (o: Out<string>)
    requires ValidTokens(ts) && Inside(ts, s)
    ensures Kept(ts, s, o.state)
  {
    var matched := ClauseNameAt(ts, s, "intent");
    if !matched.value then Out("", matched.state)
    else
      var token := Expect(ts, Expect(ts, matched.state, LPAREN).state, STRING);
      var end := Expect(ts, Expect(ts, token.state, RPAREN).state, SEMI);
      Out(if token.value.kind.STRING? then token.value.text else "", end.state)
  }

  function NamesAt(ts: seq<Token>, s: State, done: seq<string>): (o: Out<seq<string>>)
    requires ValidTokens(ts) && Inside(ts, s)
    ensures Kept(ts, s, o.state)
    decreases |ts| - s.at
  {
    var token := Expect(ts, s, IDENT);
    var names := if token.value.kind.IDENT? then done + [token.value.text] else done;
    if !KindAt(ts, token.state).COMMA? then Out(names, token.state)
    else
      var next := Advance(ts, token.state);
      if KindAt(ts, next).RPAREN? then Out(names, next) else NamesAt(ts, next, names)
  }

  function NameListAt(ts: seq<Token>, s: State, clause: string): (o: Out<seq<string>>)
    requires ValidTokens(ts) && Inside(ts, s)
    ensures Kept(ts, s, o.state)
  {
    var matched := ClauseNameAt(ts, s, clause);
    if !matched.value then Out([], matched.state)
    else
      var names := AllNamesAt(ts, Expect(ts, matched.state, LPAREN).state);
      Out(names.value, Expect(ts, Expect(ts, names.state, RPAREN).state, SEMI).state)
  }

  function AllNamesAt(ts: seq<Token>, s: State): (o: Out<seq<string>>)
    requires ValidTokens(ts) && Inside(ts, s)
    ensures Kept(ts, s, o.state)
  {
    if KindAt(ts, s).RPAREN? then Out([], s) else NamesAt(ts, s, [])
  }

  function AuditAt(ts: seq<Token>, s: State): (o: Out<Audit>)
    requires ValidTokens(ts) && Inside(ts, s)
    ensures Kept(ts, s, o.state)
  {
    var intent := IntentAt(ts, Expect(ts, Expect(ts, s, AUDIT).state, LBRACE).state);
    var mutates := NameListAt(ts, intent.state, "mutates");
    var effects := NameListAt(ts, mutates.state, "effects");
    Out(Audit(intent.value, mutates.value, effects.value), Expect(ts, effects.state, RBRACE).state)
  }

  // ----- items -----

  /** Names with types, up to a closing token; a trailing comma is allowed. */
  function TypedNamesAt(ts: seq<Token>, s: State, close: Kind): (o: Out<seq<Param>>)
    requires ValidTokens(ts) && Inside(ts, s)
    ensures Kept(ts, s, o.state)
  {
    if KindAt(ts, s) == close then Out([], s) else MoreTypedNames(ts, s, close, [])
  }

  function MoreTypedNames(ts: seq<Token>, s: State, close: Kind, done: seq<Param>): (o: Out<seq<Param>>)
    requires ValidTokens(ts) && Inside(ts, s)
    ensures Kept(ts, s, o.state)
    decreases |ts| - s.at
  {
    var param := TypedNameAt(ts, s);
    var params := done + [param.value];
    if !KindAt(ts, param.state).COMMA? then Out(params, param.state)
    else
      var next := Advance(ts, param.state);
      if KindAt(ts, next) == close then Out(params, next) else MoreTypedNames(ts, next, close, params)
  }

  function TypedNameAt(ts: seq<Token>, s: State): (o: Out<Param>)
    requires ValidTokens(ts) && Inside(ts, s)
    ensures Kept(ts, s, o.state)
  {
    var name := Expect(ts, s, IDENT);
    var t := TypeAt(ts, Expect(ts, name.state, COLON).state);
    Out(Param(name.value.text, t.value), t.state)
  }

  function UseAt(ts: seq<Token>, s: State): (o: Out<Item>)
    requires ValidTokens(ts) && Inside(ts, s) && KindAt(ts, s).USE?
    ensures Moved(ts, s, o.state)
  {
    var name := Expect(ts, Expect(ts, s, USE).state, IDENT);
    Out(UseDecl(name.value.text), Expect(ts, name.state, SEMI).state)
  }

  datatype Signature = Signature(name: string, params: seq<Param>, result: TypeExpr)

  function SignatureAt(ts: seq<Token>, s: State): (o: Out<Signature>)
    requires ValidTokens(ts) && Inside(ts, s) && KindAt(ts, s).FN?
    ensures Moved(ts, s, o.state)
  {
    var name := Expect(ts, Expect(ts, s, FN).state, IDENT);
    var params := TypedNamesAt(ts, Expect(ts, name.state, LPAREN).state, RPAREN);
    var result := TypeAt(ts, Expect(ts, Expect(ts, params.state, RPAREN).state, ARROW).state);
    Out(Signature(name.value.text, params.value, result.value), result.state)
  }

  function FunctionAt(ts: seq<Token>, s: State, public: bool): (o: Reading<Item>)
    requires ValidTokens(ts) && Inside(ts, s) && KindAt(ts, s).FN?
    ensures o.Got? ==> Moved(ts, s, o.state)
  {
    var sig := SignatureAt(ts, s);
    var audit := if !KindAt(ts, sig.state).AUDIT? then Out(None, sig.state)
                 else var a := AuditAt(ts, sig.state); Out(Some(a.value), a.state);
    var body := BlockAt(ts, audit.state);
    if body.Raised? then Raised(body.patterns)
    else Got(FunctionDecl(sig.value.name, sig.value.params, sig.value.result, audit.value, body.value, public), body.state, body.patterns)
  }

  function TypeDeclAt(ts: seq<Token>, s: State, public: bool): (o: Out<Item>)
    requires ValidTokens(ts) && Inside(ts, s) && KindAt(ts, s).TYPE?
    ensures Moved(ts, s, o.state)
  {
    var name := Expect(ts, Expect(ts, s, TYPE).state, IDENT);
    var fields := TypedNamesAt(ts, Expect(ts, name.state, LBRACE).state, RBRACE);
    Out(TypeDecl(name.value.text, fields.value, public), Expect(ts, fields.state, RBRACE).state)
  }

  function PayloadsAt(ts: seq<Token>, s: State, done: seq<TypeExpr>): (o: Out<seq<TypeExpr>>)
    requires ValidTokens(ts) && Inside(ts, s)
    ensures Kept(ts, s, o.state)
    decreases |ts| - s.at
  {
    var t := TypeAt(ts, s);
    if !KindAt(ts, t.state).COMMA? then Out(done + [t.value], t.state)
    else
      var next := Advance(ts, t.state);
      if KindAt(ts, next).RPAREN? then Out(done + [t.value], next) else PayloadsAt(ts, next, done + [t.value])
  }

  function AllPayloadsAt(ts: seq<Token>, s: State): (o: Out<seq<TypeExpr>>)
    requires ValidTokens(ts) && Inside(ts, s)
    ensures Kept(ts, s, o.state)
  {
    if KindAt(ts, s).RPAREN? then Out([], s) else PayloadsAt(ts, s, [])
  }

  function VariantAt(ts: seq<Token>, s: State): (o: Out<VariantDecl>)
    requires ValidTokens(ts) && Inside(ts, s)
    ensures Kept(ts, s, o.state)
  {
    var name := Expect(ts, s, IDENT);
    if !KindAt(ts, name.state).LPAREN? then Out(VariantDecl(name.value.text, []), name.state)
    else
      var payloads := AllPayloadsAt(ts, Advance(ts, name.state));
      Out(VariantDecl(name.value.text, payloads.value), Expect(ts, payloads.state, RPAREN).state)
  }

  function VariantsAt(ts: seq<Token>, s: State, done: seq<VariantDecl>): (o: Out<seq<VariantDecl>>)
    requires ValidTokens(ts) && Inside(ts, s)
    ensures Kept(ts, s, o.state)
    decreases |ts| - s.at
  {
    hide VariantAt, ValidTokens;
    var v := VariantAt(ts, s);
    NotLast(ts, v.state.at);
    if !KindAt(ts, v.state).COMMA? then Out(done + [v.value], v.state)
    else
      var next := Advance(ts, v.state);
      if KindAt(ts, next).RBRACE? then Out(done + [v.value], next) else VariantsAt(ts, next, done + [v.value])
  }

  function AllVariantsAt(ts: seq<Token>, s: State): (o: Out<seq<VariantDecl>>)
    requires ValidTokens(ts) && Inside(ts, s)
    ensures Kept(ts, s, o.state)
  {
    if KindAt(ts, s).RBRACE? then Out([], s) else VariantsAt(ts, s, [])
  }

  function EnumDeclAt(ts: seq<Token>, s: State, public: bool): (o: Out<Item>)
    requires ValidTokens(ts) && Inside(ts, s) && KindAt(ts, s).ENUM?
    ensures Moved(ts, s, o.state)
  {
    var name := Expect(ts, Expect(ts, s, ENUM).state, IDENT);
    var variants := AllVariantsAt(ts, Expect(ts, name.state, LBRACE).state);
    Out(EnumDecl(name.value.text, variants.value, public), Expect(ts, variants.state, RBRACE).state)
  }

  /** No item where the cursor stands at a token that begins none. */
  function ItemAt(ts: seq<Token>, s: State): (o: Reading<Option<Item>>)
    requires ValidTokens(ts) && Inside(ts, s)
    ensures o.Got? ==> Kept(ts, s, o.state)
    ensures o.Got? && o.value.Some? ==> s.at < o.state.at
    ensures o.Got? && o.value.None? && o.state.at == s.at ==> !StartsItem(KindAt(ts, s))
  {
    NotLast(ts, s.at);
    var pub := KindAt(ts, s).PUB?;
    var after := if pub then Advance(ts, s) else s;
    NotLast(ts, after.at);
    var wrong := pub && KindAt(ts, after).USE?;
    var begin := if wrong then Report(after, UseMarkedPublic) else after;
    ItemFrom(ts, begin, pub && !wrong)
  }

  function ItemFrom(ts: seq<Token>, s: State, public: bool): (o: Reading<Option<Item>>)
    requires ValidTokens(ts) && Inside(ts, s)
    ensures o.Got? ==> Kept(ts, s, o.state)
    ensures o.Got? && o.value.Some? ==> s.at < o.state.at
    ensures o.Got? && o.value.None? ==> o.state.at == s.at && (KindAt(ts, s).PUB? || !StartsItem(KindAt(ts, s)))
  {
    NotLast(ts, s.at);
    if KindAt(ts, s).FN? then
      var f := FunctionAt(ts, s, public);
      if f.Raised? then Raised(f.patterns) else Got(Some(f.value), f.state, f.patterns)
    else if KindAt(ts, s).TYPE? then
      var t := TypeDeclAt(ts, s, public);
      Got(Some(t.value), t.state, {})
    else if KindAt(ts, s).ENUM? then
      var e := EnumDeclAt(ts, s, public);
      Got(Some(e.value), e.state, {})
    else if KindAt(ts, s).USE? then
      var u := UseAt(ts, s);
      Got(Some(u.value), u.state, {})
    else Got(None, Report(s, NotAnItem), {})
  }

  /** To the next token that may begin an item, or to the end. */
  function SyncItemAt(ts: seq<Token>, s: State): (r: State)
    requires ValidTokens(ts) && Inside(ts, s)
    ensures Kept(ts, s, r) && (KindAt(ts, r).EOF? || StartsItem(KindAt(ts, r)))
    ensures !KindAt(ts, s).EOF? && !StartsItem(KindAt(ts, s)) ==> s.at < r.at
    decreases |ts| - s.at
  {
    if KindAt(ts, s).EOF? || StartsItem(KindAt(ts, s)) then s
    else
      NotLast(ts, s.at);
      SyncItemAt(ts, Advance(ts, s))
  }

  /** Items to the end of input. */
  function ItemsAt(ts: seq<Token>, s: State, done: seq<Item>, seenNonUse: bool): (o: Reading<seq<Item>>)
    requires ValidTokens(ts) && Inside(ts, s)
    ensures o.Got? ==> Kept(ts, s, o.state) && KindAt(ts, o.state).EOF?
    decreases |ts| - s.at
  {
    hide ItemAt, SyncItemAt, ValidTokens;
    NotLast(ts, s.at);
    if KindAt(ts, s).EOF? then Got(done, s, {})
    else
      var item := ItemAt(ts, s);
      if item.Raised? then Raised(item.patterns)
      else if item.value.None? then Also(item.patterns, ItemsAt(ts, SyncItemAt(ts, item.state), done, seenNonUse))
      else
        var late := item.value.value.UseDecl? && seenNonUse;
        Also(item.patterns, ItemsAt(ts, if late then Report(item.state, LateUse) else item.state, done + [item.value.value],
          seenNonUse || !item.value.value.UseDecl?))
  }

  function ProgramAt(ts: seq<Token>): (o: Reading<seq<Item>>)
    requires ValidTokens(ts)
    ensures o.Got? ==> o.state.at == |ts| - 1
  {
    var o := ItemsAt(ts, State(0, []), [], false);
    assert o.Got? ==> o.state.at == |ts| - 1 by {
      if o.Got? {
        NotLast(ts, o.state.at);
      }
    }
    o
  }
}
