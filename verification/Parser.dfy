/** The recursive-descent parser: one cursor moving over the tokens, errors
    recorded on the way. Every method yields what the grammar functions say, tree,
    cursor and reports, or stops the parse exactly where they do. */
module Parser {
  import opened Numerals
  import opened ParserSyntax
  import opened ExpressionGrammar
  import opened ProgramGrammar

  /** What a reading is worth to the parser: where patterns were begun is left out. */
  function Plain<T>(r: Reading<T>): Reading<T> {
    r.(patterns := {})
  }

  function Done<T>(value: T, raised: bool, s: State): Reading<T> {
    if raised then Raised({}) else Got(value, s, {})
  }

  predicate Extends(was: seq<Code>, now: seq<Code>) {
    was <= now
  }

  lemma ExtendsOn(was: seq<Code>, then': seq<Code>, now: seq<Code>)
    ensures Extends(was, was) && (Extends(was, then') && Extends(then', now) ==> Extends(was, now))
  {
  }

  // ----- the parser -----

  class Parser {
    const tokens: seq<Token>
    var index: nat
    var diagnostics: seq<Code>
    /** A pattern stopped the parse. */
    var raised: bool

    constructor (tokens: seq<Token>)
      requires ValidTokens(tokens)
      ensures this.tokens == tokens && index == 0 && diagnostics == [] && !raised && Valid()
    {
      this.tokens, index, diagnostics, raised := tokens, 0, [], false;
    }

    ghost predicate Valid()
      reads `index
    {
      ValidTokens(tokens) && index < |tokens|
    }

    function Cursor(): State
      reads `index, `diagnostics
    {
      State(index, diagnostics)
    }

    /** The cursor stays in range and does not go back; reports are kept. */
    twostate predicate Went()
      reads `index, `diagnostics
    {
      Valid() && old(index) <= index && Extends(old(diagnostics), diagnostics)
    }

    /** It also gets past any token but the end marker. */
    twostate predicate Progressed()
      reads `index, `diagnostics
    {
      Went() && (old(index) < |tokens| - 1 ==> old(index) < index)
    }

    // ----- the cursor -----

    function Current(): Token
      requires Valid()
      reads `index
    {
      tokens[index]
    }

    predicate At(kind: Kind)
      requires Valid()
      reads `index
    {
      Current().kind == kind
    }

    function PeekAt(offset: nat): Token
      requires Valid()
      reads `index, `diagnostics
    {
      Peek(tokens, Cursor(), offset)
    }

    method Next() returns (token: Token)
      requires Valid()
      modifies `index
      ensures Progressed() && token == old(Current())
      ensures Cursor() == Advance(tokens, old(Cursor()))
    {
      token := tokens[index];
      if index < |tokens| - 1 {
        index := index + 1;
      }
    }

    method Accept(kind: Kind) returns (found: bool)
      requires Valid() && !kind.EOF?
      modifies `index
      ensures Went() && found == old(At(kind))
      ensures found ==> old(index) < index && Cursor() == Advance(tokens, old(Cursor()))
      ensures !found ==> index == old(index)
    {
      found := Current().kind == kind;
      if found {
        var _ := Next();
      }
    }

    method AddReport(code: Code)
      modifies `diagnostics
      ensures diagnostics == old(diagnostics) + [code]
    {
      diagnostics := diagnostics + [code];
    }

    method Require(kind: Kind) returns (token: Token)
      requires Valid() && !kind.EOF?
      modifies `index, `diagnostics
      ensures Went() && (old(At(kind)) ==> old(index) < index)
      ensures Expect(tokens, old(Cursor()), kind) == Out(token, Cursor())
    {
      if At(kind) {
        token := Next();
      } else {
        token := Current();
        AddReport(Expected(kind));
      }
    }

    // ----- expressions -----

    method ParseExpr() returns (e: Expr)
      requires Valid()
      modifies `index, `diagnostics
      ensures Out(e, Cursor()) == ExprAt(tokens, old(Cursor())) && Progressed()
      decreases |tokens| - index, 20
    {
      e := ParseBinary(0);
    }

    method ParseBinary(level: nat) returns (e: Expr)
      requires Valid() && level <= UNARY
      modifies `index, `diagnostics
      ensures Out(e, Cursor()) == BinaryAt(tokens, old(Cursor()), level) && Progressed()
      decreases |tokens| - index, 18 - level
    {
      hide UnaryAt, PrimaryAt, MorePostfix, ValidTokens;
      if level == UNARY {
        e := ParseUnary();
        return;
      }
      e := ParseBinary(level + 1);
      while Rung(Current().kind) == level
        invariant Progressed()
        invariant MoreOperands(tokens, Cursor(), level, e) == BinaryAt(tokens, old(Cursor()), level)
        decreases |tokens| - index
      {
        e := ParseOperand(level, e);
      }
    }

    method ParseOperand(level: nat, left: Expr) returns (e: Expr)
      requires Valid() && level < UNARY && Rung(Current().kind) == level
      modifies `index, `diagnostics
      ensures Went() && old(index) < index
      ensures MoreOperands(tokens, Cursor(), level, e) == MoreOperands(tokens, old(Cursor()), level, left)
      decreases |tokens| - index, 0
    {
      hide BinaryAt;
      var op := Next();
      var right := ParseBinary(level + 1);
      e := Binary(left, op.kind, right);
    }

    method ParseUnary() returns (e: Expr)
      requires Valid()
      modifies `index, `diagnostics
      ensures Out(e, Cursor()) == UnaryAt(tokens, old(Cursor())) && Progressed()
      decreases |tokens| - index, 10
    {
      hide PrimaryAt, MorePostfix;
      if UnaryOp(Current().kind) {
        var op := Next();
        var operand := ParseUnary();
        e := Unary(op.kind, operand);
      } else if At(REF) || At(MUTREF) {
        var op := Next();
        var name := Require(IDENT);
        e := Borrow(op.kind.MUTREF?, name.text);
      } else {
        e := ParsePostfix();
      }
    }

    method ParsePostfix() returns (e: Expr)
      requires Valid()
      modifies `index, `diagnostics
      ensures Progressed()
      ensures var first := PrimaryAt(tokens, old(Cursor()));
              Out(e, Cursor()) == MorePostfix(tokens, first.state, first.value)
      decreases |tokens| - index, 9
    {
      hide PrimaryAt, ArgsAt, ValidTokens;
      e := ParsePrimary();
      ghost var first := PrimaryAt(tokens, old(Cursor()));
      while At(LPAREN) || At(DOT)
        invariant Progressed()
        invariant MorePostfix(tokens, Cursor(), e) == MorePostfix(tokens, first.state, first.value)
        decreases |tokens| - index
      {
        if At(LPAREN) {
          e := ParseCall(e);
        } else {
          e := ParseAccess(e);
        }
      }
    }

    lemma CallStep(s: State, callee: Expr)
      requires ValidTokens(tokens) && Inside(tokens, s) && KindAt(tokens, s).LPAREN?
      ensures var args := ArgsAt(tokens, Advance(tokens, s));
              MorePostfix(tokens, s, callee) ==
                MorePostfix(tokens, Expect(tokens, args.state, RPAREN).state, Call(callee, args.value))
    {
      hide ArgsAt, Expect, Advance, ValidTokens;
    }

    lemma AccessStep(s: State, base: Expr)
      requires ValidTokens(tokens) && Inside(tokens, s) && KindAt(tokens, s).DOT?
      ensures var name := Expect(tokens, Advance(tokens, s), IDENT);
              MorePostfix(tokens, s, base) == MorePostfix(tokens, name.state, Field(base, name.value.text))
    {
      hide Expect, Advance, ValidTokens;
    }

    method ParseCall(callee: Expr) returns (e: Expr)
      requires Valid() && At(LPAREN)
      modifies `index, `diagnostics
      ensures Went() && old(index) < index
      ensures MorePostfix(tokens, Cursor(), e) == MorePostfix(tokens, old(Cursor()), callee)
      decreases |tokens| - index, 0
    {
      hide ArgsAt, MorePostfix, Expect, ValidTokens;
      CallStep(Cursor(), callee);
      NotLast(tokens, index);
      var _ := Next();
      var args := ParseArgs();
      var _ := Require(RPAREN);
      e := Call(callee, args);
    }

    method ParseAccess(base: Expr) returns (e: Expr)
      requires Valid() && At(DOT)
      modifies `index, `diagnostics
      ensures Went() && old(index) < index
      ensures MorePostfix(tokens, Cursor(), e) == MorePostfix(tokens, old(Cursor()), base)
    {
      hide MorePostfix, Expect, ValidTokens;
      AccessStep(Cursor(), base);
      NotLast(tokens, index);
      var _ := Next();
      var name := Require(IDENT);
      e := Field(base, name.text);
    }

    method ParseArgs() returns (args: seq<Expr>)
      requires Valid()
      modifies `index, `diagnostics
      ensures Out(args, Cursor()) == ArgsAt(tokens, old(Cursor())) && Went()
      decreases |tokens| - index, 22
    {
      hide ExprAt, ValidTokens;
      args := [];
      if At(RPAREN) {
        return;
      }
      while true
        invariant Went()
        invariant MoreArgs(tokens, Cursor(), args) == ArgsAt(tokens, old(Cursor()))
        decreases |tokens| - index
      {
        var e := ParseExpr();
        args := args + [e];
        var more := Accept(COMMA);
        if !more || At(RPAREN) {
          return;
        }
      }
    }

    method ParsePrimary() returns (e: Expr)
      requires Valid()
      modifies `index, `diagnostics
      ensures Out(e, Cursor()) == PrimaryAt(tokens, old(Cursor())) && Progressed()
      decreases |tokens| - index, 8
    {
      hide ExprAt, FieldsAt, StructAhead, LiteralAt, ValidTokens;
      if At(IDENT) {
        e := ParseNameOrStruct();
      } else if At(LPAREN) {
        e := ParseParens();
      } else {
        e := ParseLiteral();
      }
    }

    method ParseLiteral() returns (e: Expr)
      requires Valid()
      modifies `index, `diagnostics
      ensures Out(e, Cursor()) == LiteralAt(tokens, old(Cursor())) && Progressed()
    {
      if At(INT) {
        NumberToken();
        var token := Next();
        e := IntLit(ValueOf(token.text));
      } else if At(STRING) {
        var token := Next();
        e := StringLit(token.text);
      } else if At(TRUE) {
        var _ := Next();
        e := BoolLit(true);
      } else if At(FALSE) {
        var _ := Next();
        e := BoolLit(false);
      } else {
        AddReport(NotAnExpression);
        var _ := Next();
        e := IntLit(0);
      }
    }

    lemma NumberToken()
      requires Valid() && At(INT)
      ensures IsNumeral(Current().text)
    {
    }

    method ParseNameOrStruct() returns (e: Expr)
      requires Valid() && At(IDENT)
      modifies `index, `diagnostics
      ensures Out(e, Cursor()) == PrimaryAt(tokens, old(Cursor())) && Progressed()
      decreases |tokens| - index, 7
    {
      hide ExprAt, FieldsAt, LiteralAt, StructAhead, ValidTokens;
      NotLast(tokens, index);
      var token := Next();
      if LooksLikeStruct() {
        var _ := Next();
        var fields := ParseFields();
        var _ := Require(RBRACE);
        e := Struct(token.text, fields);
      } else {
        e := Var(token.text);
      }
    }

    method ParseParens() returns (e: Expr)
      requires Valid() && At(LPAREN)
      modifies `index, `diagnostics
      ensures Out(e, Cursor()) == PrimaryAt(tokens, old(Cursor())) && Progressed()
      decreases |tokens| - index, 7
    {
      hide ExprAt, FieldsAt, LiteralAt, StructAhead, ValidTokens;
      NotLast(tokens, index);
      var _ := Next();
      e := ParseExpr();
      var _ := Require(RPAREN);
    }

    predicate LooksLikeStruct()
      requires Valid()
      reads `index, `diagnostics
    {
      StructAhead(tokens, Cursor())
    }

    method ParseFields() returns (fields: seq<FieldInit>)
      requires Valid()
      modifies `index, `diagnostics
      ensures Out(fields, Cursor()) == FieldsAt(tokens, old(Cursor())) && Went()
      decreases |tokens| - index, 22
    {
      hide ExprAt, ValidTokens, Expect;
      fields := [];
      if At(RBRACE) {
        return;
      }
      while true
        invariant Went()
        invariant MoreFields(tokens, Cursor(), fields) == FieldsAt(tokens, old(Cursor()))
        decreases |tokens| - index
      {
        var field := ParseFieldInit();
        fields := fields + [field];
        var more := Accept(COMMA);
        if !more || At(RBRACE) {
          return;
        }
      }
    }

    method ParseFieldInit() returns (field: FieldInit)
      requires Valid()
      modifies `index, `diagnostics
      ensures Went()
      ensures var name := Expect(tokens, old(Cursor()), IDENT);
              var value := ExprAt(tokens, Expect(tokens, name.state, COLON).state);
              Out(field, Cursor()) == Out(FieldInit(name.value.text, value.value), value.state)
      decreases |tokens| - index, 21
    {
      hide ExprAt, ValidTokens, Expect;
      var name := Require(IDENT);
      var _ := Require(COLON);
      var value := ParseExpr();
      field := FieldInit(name.text, value);
    }

    // ----- types and patterns -----

    method ParseTypeExpr() returns (t: TypeExpr)
      requires Valid()
      modifies `index, `diagnostics
      ensures Out(t, Cursor()) == TypeAt(tokens, old(Cursor())) && Went()
      decreases |tokens| - index, 2
    {
      hide ValidTokens, Expect, NamedTypeAt;
      if At(REF) || At(MUTREF) {
        NotLast(tokens, index);
        var op := Next();
        var inner := ParseNamedType();
        return BorrowType(op.kind.MUTREF?, inner);
      }
      t := ParseNamedType();
    }

    method ParseNamedType() returns (t: TypeExpr)
      requires Valid()
      modifies `index, `diagnostics
      ensures Out(t, Cursor()) == NamedTypeAt(tokens, old(Cursor())) && Went()
      decreases |tokens| - index, 1
    {
      hide ValidTokens, Expect, TypeArgsAt;
      var name := Require(IDENT);
      var args: seq<TypeExpr> := [];
      var generic := Accept(LT);
      if generic {
        args := ParseTypeArgs();
        var _ := Require(GT);
      }
      t := NamedType(name.text, args);
    }

    method ParseTypeArgs() returns (args: seq<TypeExpr>)
      requires Valid()
      modifies `index, `diagnostics
      ensures Out(args, Cursor()) == TypeArgsAt(tokens, old(Cursor()), []) && Went()
      decreases |tokens| - index, 3
    {
      hide ValidTokens, TypeAt;
      args := [];
      while true
        invariant Went()
        invariant TypeArgsAt(tokens, Cursor(), args) == TypeArgsAt(tokens, old(Cursor()), [])
        decreases |tokens| - index
      {
        var arg := ParseTypeExpr();
        args := args + [arg];
        var more := Accept(COMMA);
        if !more || At(GT) {
          return;
        }
      }
    }

    method ParsePattern() returns (p: Pattern)
      requires Valid() && !raised
      modifies this
      ensures Plain(PatternAt(tokens, old(Cursor()))) == Done(p, raised, Cursor()) && Went()
      decreases |tokens| - index, 1
    {
      hide NamedPatternAt, NegativeAt, ValidTokens, IsNumeral, ValueOf;
      if At(IDENT) && Current().text == "_" {
        var _ := Next();
        return WildcardPattern;
      }
      var negative := Accept(MINUS);
      if negative {
        p := ParseNegative();
        return;
      }
      if At(INT) {
        NumberToken();
        var token := Next();
        return IntPattern(ValueOf(token.text));
      }
      p := ParseNamedPattern();
    }

    /** Reads a number whatever the token is. */
    method ParseNegative() returns (p: Pattern)
      requires Valid() && !raised
      modifies this
      ensures Plain(NegativeAt(tokens, old(Cursor()))) == Done(p, raised, Cursor()) && Went()
    {
      hide ValidTokens, ValueOf, Expect;
      var value := Require(INT);
      if !IsNumeral(value.text) {
        raised := true;
        return WildcardPattern;
      }
      p := IntPattern(0 - ValueOf(value.text));
    }

    method ParseNamedPattern() returns (p: Pattern)
      requires Valid() && !raised
      modifies this
      ensures Plain(NamedPatternAt(tokens, old(Cursor()))) == Done(p, raised, Cursor()) && Went()
      decreases |tokens| - index, 0
    {
      hide PayloadAt, ValidTokens, Expect;
      var name := Require(IDENT);
      NotLast(tokens, index);
      var payload := Accept(LPAREN);
      if !payload {
        return NamePattern(name.text);
      }
      p := ParsePayload(name.text);
    }

    /** The arguments of a variant, behind the opening parenthesis. */
    method ParsePayload(name: string) returns (p: Pattern)
      requires Valid() && !raised
      modifies this
      ensures Plain(PayloadAt(tokens, old(Cursor()), name)) == Done(p, raised, Cursor()) && Went()
      decreases |tokens| - index, 4
    {
      hide PatternArgsAt, ValidTokens, Expect;
      var args := ParsePatternArgs();
      if raised {
        return WildcardPattern;
      }
      var _ := Require(RPAREN);
      p := VariantPattern(name, args);
    }

    method ParsePatternArgs() returns (args: seq<Pattern>)
      requires Valid() && !raised
      modifies this
      ensures Plain(PatternArgsAt(tokens, old(Cursor()))) == Done(args, raised, Cursor()) && Went()
      decreases |tokens| - index, 3
    {
      hide PatternsAt, ValidTokens;
      args := [];
      if !At(RPAREN) {
        args := ParsePatterns();
      }
    }

    method ParsePatterns() returns (args: seq<Pattern>)
      requires Valid() && !raised
      modifies this
      ensures Plain(PatternsAt(tokens, old(Cursor()), [])) == Done(args, raised, Cursor()) && Went()
      decreases |tokens| - index, 2
    {
      hide PatternAt, ValidTokens;
      args := [];
      while true
        invariant Went() && !raised
        invariant Plain(PatternsAt(tokens, Cursor(), args)) == Plain(PatternsAt(tokens, old(Cursor()), []))
        decreases |tokens| - index
      {
        var arg := ParsePattern();
        if raised {
          return;
        }
        args := args + [arg];
        var more := Accept(COMMA);
        if !more {
          return;
        }
      }
    }

    // ----- statements -----

    method ParseBlock() returns (b: Block)
      requires Valid() && !raised
      modifies this
      ensures Plain(BlockAt(tokens, old(Cursor()))) == Done(b, raised, Cursor()) && Went()
      decreases |tokens| - index, 4
    {
      hide ValidTokens, Expect, StmtsAt;
      var _ := Require(LBRACE);
      var statements := ParseStmts();
      if raised {
        return Block(statements);
      }
      var _ := Require(RBRACE);
      b := Block(statements);
    }

    method ParseStmts() returns (statements: seq<Stmt>)
      requires Valid() && !raised
      modifies this
      ensures Plain(StmtsAt(tokens, old(Cursor()), [])) == Done(statements, raised, Cursor()) && Went()
      decreases |tokens| - index, 3
    {
      hide ValidTokens, StmtAt;
      statements := [];
      while !At(RBRACE) && !At(EOF)
        invariant Went() && !raised
        invariant Plain(StmtsAt(tokens, Cursor(), statements)) == Plain(StmtsAt(tokens, old(Cursor()), []))
        decreases |tokens| - index
      {
        NotLast(tokens, index);
        var stmt := ParseStmt();
        if raised {
          return;
        }
        if stmt.None? {
          // where the recovery of statements would be called
          assert false;
        }
        statements := statements + [stmt.value];
      }
    }

    /** There always is a statement, so blocks never need SynchronizeStmt. */
    method ParseStmt() returns (stmt: Option<Stmt>)
      requires Valid() && !raised
      modifies this
      ensures Went() && (!raised ==> stmt.Some? && Progressed())
      ensures stmt.Some? ==> Plain(StmtAt(tokens, old(Cursor()))) == Done(stmt.value, raised, Cursor())
      ensures raised ==> StmtAt(tokens, old(Cursor())).Raised?
      decreases |tokens| - index, 2
    {
      hide ValidTokens, IfAt, WhileAt, MatchAt, SimpleAt;
      var s;
      if At(IF) {
        s := ParseIfStmt();
      } else if At(WHILE) {
        s := ParseWhileStmt();
      } else if At(MATCH) {
        s := ParseMatchStmt();
      } else {
        s := ParseSimpleStmt();
      }
      stmt := Some(s);
    }

    /** The statements without blocks. Assignments are told from expressions by
        looking ahead. */
    method ParseSimpleStmt() returns (stmt: Stmt)
      requires Valid()
      modifies `index, `diagnostics
      ensures Out(stmt, Cursor()) == SimpleAt(tokens, old(Cursor())) && Progressed()
    {
      hide ValidTokens, LetAt, ReturnAt, FieldAssignAt, AssignAt, ExprStmtAt, Peek;
      if At(LET) {
        stmt := ParseLetStmt();
      } else if At(RETURN) {
        stmt := ParseReturnStmt();
      } else if At(IDENT) && PeekAt(1).kind.DOT? && PeekAt(2).kind.IDENT? && PeekAt(3).kind.EQ? {
        stmt := ParseFieldAssignStmt();
      } else if At(IDENT) && PeekAt(1).kind.EQ? {
        stmt := ParseAssignStmt();
      } else {
        stmt := ParseExprStmt();
      }
    }

    method ParseExprStmt() returns (stmt: Stmt)
      requires Valid()
      modifies `index, `diagnostics
      ensures Out(stmt, Cursor()) == ExprStmtAt(tokens, old(Cursor())) && Progressed()
    {
      hide ValidTokens, ExprAt, Expect;
      var e := ParseExpr();
      var _ := Require(SEMI);
      stmt := ExprStmt(e);
    }

    method ParseLetStmt() returns (stmt: Stmt)
      requires Valid() && At(LET)
      modifies `index, `diagnostics
      ensures Out(stmt, Cursor()) == LetAt(tokens, old(Cursor())) && Progressed()
    {
      hide ValidTokens, InitializerAt, AnnotationAt;
      var _ := Require(LET);
      hide Expect;
      var mutable := Accept(MUT);
      var name := Require(IDENT);
      var annotation := ParseAnnotation();
      var value := ParseInitializer();
      stmt := LetStmt(name.text, mutable, annotation, value);
    }

    method ParseAnnotation() returns (annotation: seq<TypeExpr>)
      requires Valid()
      modifies `index, `diagnostics
      ensures Out(annotation, Cursor()) == AnnotationAt(tokens, old(Cursor())) && Went()
    {
      hide ValidTokens, TypeAt;
      annotation := [];
      var annotated := Accept(COLON);
      if annotated {
        var t := ParseTypeExpr();
        annotation := [t];
      }
    }

    /** The equals sign, the value and the semicolon of a binding or assignment. */
    method ParseInitializer() returns (value: Expr)
      requires Valid()
      modifies `index, `diagnostics
      ensures Out(value, Cursor()) == InitializerAt(tokens, old(Cursor())) && Went()
    {
      hide ValidTokens, Expect, ExprAt;
      var _ := Require(EQ);
      value := ParseExpr();
      var _ := Require(SEMI);
    }

    method ParseAssignStmt() returns (stmt: Stmt)
      requires Valid() && At(IDENT)
      modifies `index, `diagnostics
      ensures Out(stmt, Cursor()) == AssignAt(tokens, old(Cursor())) && Progressed()
    {
      hide ValidTokens, Expect, InitializerAt;
      var target := Require(IDENT);
      var value := ParseInitializer();
      stmt := AssignStmt(target.text, value);
    }

    method ParseFieldAssignStmt() returns (stmt: Stmt)
      requires Valid() && At(IDENT)
      modifies `index, `diagnostics
      ensures Out(stmt, Cursor()) == FieldAssignAt(tokens, old(Cursor())) && Progressed()
    {
      hide ValidTokens, Expect, InitializerAt;
      var target := Require(IDENT);
      var _ := Require(DOT);
      var field := Require(IDENT);
      var value := ParseInitializer();
      stmt := FieldAssignStmt(target.text, field.text, value);
    }

    method ParseIfStmt() returns (stmt: Stmt)
      requires Valid() && At(IF) && !raised
      modifies this
      ensures Plain(IfAt(tokens, old(Cursor()))) == Done(stmt, raised, Cursor()) && Went()
      decreases |tokens| - index, 1
    {
      hide ValidTokens, Expect, BlockAt, ExprAt;
      var _ := Require(IF);
      var condition := ParseExpr();
      stmt := ExprStmt(condition);
      var thenBlock := ParseBlock();
      if raised {
        return;
      }
      var elseBlock: seq<Block> := [];
      var otherwise := Accept(ELSE);
      if otherwise {
        var block := ParseBlock();
        if raised {
          return;
        }
        elseBlock := [block];
      }
      stmt := IfStmt(condition, thenBlock, elseBlock);
    }

    method ParseWhileStmt() returns (stmt: Stmt)
      requires Valid() && At(WHILE) && !raised
      modifies this
      ensures Plain(WhileAt(tokens, old(Cursor()))) == Done(stmt, raised, Cursor()) && Went()
      decreases |tokens| - index, 1
    {
      hide ValidTokens, Expect, BlockAt, ExprAt;
      var _ := Require(WHILE);
      var condition := ParseExpr();
      var body := ParseBlock();
      stmt := WhileStmt(condition, body);
    }

    method ParseMatchStmt() returns (stmt: Stmt)
      requires Valid() && At(MATCH) && !raised
      modifies this
      ensures Plain(MatchAt(tokens, old(Cursor()))) == Done(stmt, raised, Cursor()) && Went()
      decreases |tokens| - index, 1
    {
      hide ValidTokens, Expect, ArmsAt, ExprAt;
      var _ := Require(MATCH);
      var scrutinee := ParseExpr();
      stmt := ExprStmt(scrutinee);
      var _ := Require(LBRACE);
      var arms := ParseArms();
      if raised {
        return;
      }
      var _ := Require(RBRACE);
      stmt := MatchStmt(scrutinee, arms);
    }

    lemma ArmsStep(s: State, done: seq<Arm>)
      requires ValidTokens(tokens) && Inside(tokens, s)
      ensures var r := Plain(ArmsAt(tokens, s, done));
              var arm := Plain(ArmAt(tokens, s));
              if KindAt(tokens, s).RBRACE? || KindAt(tokens, s).EOF? then r == Got(done, s, {})
              else if arm.Raised? then r == Raised({})
              else if !KindAt(tokens, arm.state).COMMA? then r == Got(done + [arm.value], arm.state, {})
              else r == Plain(ArmsAt(tokens, Advance(tokens, arm.state), done + [arm.value]))
    {
      hide ValidTokens, ArmAt;
    }

    method ParseArms() returns (arms: seq<Arm>)
      requires Valid() && !raised
      modifies this
      ensures Plain(ArmsAt(tokens, old(Cursor()), [])) == Done(arms, raised, Cursor()) && Went()
      decreases |tokens| - index, 6
    {
      hide ValidTokens, ArmAt, ArmsAt, Plain, Advance, Extends;
      arms := [];
      ExtendsOn(diagnostics, diagnostics, diagnostics);
      while !At(RBRACE) && !At(EOF)
        invariant Went() && !raised
        invariant Plain(ArmsAt(tokens, Cursor(), arms)) == Plain(ArmsAt(tokens, old(Cursor()), []))
        decreases |tokens| - index
      {
        ArmsStep(Cursor(), arms);
        ghost var reports := diagnostics;
        var arm := ParseArm();
        ExtendsOn(old(diagnostics), reports, diagnostics);
        if raised {
          return;
        }
        arms := arms + [arm];
        var more := Accept(COMMA);
        if !more {
          return;
        }
      }
      ArmsStep(Cursor(), arms);
    }

    method ParseArm() returns (arm: Arm)
      requires Valid() && !raised
      modifies this
      ensures Plain(ArmAt(tokens, old(Cursor()))) == Done(arm, raised, Cursor()) && Went()
      decreases |tokens| - index, 5
    {
      hide ValidTokens, Expect, PatternAt, BlockAt;
      var pattern := ParsePattern();
      arm := Arm(pattern, Block([]));
      if raised {
        return;
      }
      var _ := Require(FAT_ARROW);
      var block := ParseBlock();
      arm := Arm(pattern, block);
    }

    method ParseReturnStmt() returns (stmt: Stmt)
      requires Valid() && At(RETURN)
      modifies `index, `diagnostics
      ensures Out(stmt, Cursor()) == ReturnAt(tokens, old(Cursor())) && Progressed()
    {
      hide ValidTokens, Expect, ExprAt;
      var _ := Require(RETURN);
      var value: seq<Expr> := [];
      if !At(SEMI) {
        var e := ParseExpr();
        value := [e];
      }
      var _ := Require(SEMI);
      stmt := ReturnStmt(value);
    }

    method SynchronizeStmt()
      requires Valid()
      modifies `index
      ensures Went()
      ensures At(EOF) || At(RBRACE) || StartsStmt(Current().kind) || (0 < index && tokens[index - 1].kind.SEMI?)
    {
      hide ValidTokens;
      while !At(EOF) && !At(RBRACE)
        invariant Went()
        decreases |tokens| - index
      {
        NotLast(tokens, index);
        var ended := Accept(SEMI);
        if ended {
          return;
        }
        if StartsStmt(Current().kind) {
          return;
        }
        var _ := Next();
      }
    }

    // ----- audit clauses -----

    /** Skips clauses that come too early, reporting each. */
    method ExpectClauseName(expected: string) returns (matched: bool)
      requires Valid()
      modifies `index, `diagnostics
      ensures Out(matched, Cursor()) == ClauseNameAt(tokens, old(Cursor()), expected) && Went()
    {
      hide SkipClauseAt, ValidTokens;
      while At(IDENT) && Current().text in CLAUSES && Current().text != expected
        invariant Went()
        invariant ClauseNameAt(tokens, Cursor(), expected) == ClauseNameAt(tokens, old(Cursor()), expected)
        decreases |tokens| - index
      {
        NotLast(tokens, index);
        AddReport(WrongClause);
        SkipClause();
      }
      if At(IDENT) && Current().text == expected {
        var _ := Next();
        return true;
      }
      AddReport(WrongClause);
      matched := false;
    }

    /** Skips to behind the semicolon of the clause, or to the end of the block. */
    method SkipClause()
      requires Valid() && At(IDENT)
      modifies `index
      ensures Cursor() == SkipClauseAt(tokens, old(Cursor())) && Progressed()
    {
      hide ValidTokens, SkipFrom;
      if !At(EOF) && !At(RBRACE) {
        var _ := Next();
      }
      SkipRest();
    }

    method SkipRest()
      requires Valid()
      modifies `index
      ensures Cursor() == SkipFrom(tokens, old(Cursor()), 0) && Went()
    {
      hide ValidTokens;
      var depth: nat := 0;
      while !At(EOF)
        invariant Went()
        invariant SkipFrom(tokens, Cursor(), depth) == SkipFrom(tokens, old(Cursor()), 0)
        decreases |tokens| - index
      {
        NotLast(tokens, index);
        if depth == 0 && At(RBRACE) {
          return;
        }
        var token := Next();
        if depth == 0 && token.kind.SEMI? {
          return;
        }
        depth := Deeper(token.kind, depth);
      }
    }

    method ParseAudit() returns (audit: Audit)
      requires Valid() && At(AUDIT)
      modifies `index, `diagnostics
      ensures Out(audit, Cursor()) == AuditAt(tokens, old(Cursor())) && Went()
    {
      hide ValidTokens, Expect, IntentAt, NameListAt;
      var _ := Require(AUDIT);
      var _ := Require(LBRACE);
      var intent := ParseIntent();
      var mutates := ParseNameList("mutates");
      var effects := ParseNameList("effects");
      var _ := Require(RBRACE);
      audit := Audit(intent, mutates, effects);
    }

    method ParseIntent() returns (intent: string)
      requires Valid()
      modifies `index, `diagnostics
      ensures Out(intent, Cursor()) == IntentAt(tokens, old(Cursor())) && Went()
    {
      hide ValidTokens, Expect, ClauseNameAt;
      var matched := ExpectClauseName("intent");
      if !matched {
        return "";
      }
      var _ := Require(LPAREN);
      var token := Require(STRING);
      var _ := Require(RPAREN);
      var _ := Require(SEMI);
      intent := if token.kind.STRING? then token.text else "";
    }

    method ParseNameList(clause: string) returns (names: seq<string>)
      requires Valid()
      modifies `index, `diagnostics
      ensures Out(names, Cursor()) == NameListAt(tokens, old(Cursor()), clause) && Went()
    {
      hide ValidTokens, Expect, ClauseNameAt, AllNamesAt;
      names := [];
      var matched := ExpectClauseName(clause);
      if !matched {
        return;
      }
      var _ := Require(LPAREN);
      names := ParseAllNames();
      var _ := Require(RPAREN);
      var _ := Require(SEMI);
    }

    method ParseAllNames() returns (names: seq<string>)
      requires Valid()
      modifies `index, `diagnostics
      ensures Out(names, Cursor()) == AllNamesAt(tokens, old(Cursor())) && Went()
    {
      hide ValidTokens, NamesAt;
      names := [];
      if !At(RPAREN) {
        names := ParseNames();
      }
    }

    method ParseNames() returns (names: seq<string>)
      requires Valid()
      modifies `index, `diagnostics
      ensures Out(names, Cursor()) == NamesAt(tokens, old(Cursor()), []) && Went()
    {
      hide ValidTokens, Expect;
      names := [];
      while true
        invariant Went()
        invariant NamesAt(tokens, Cursor(), names) == NamesAt(tokens, old(Cursor()), [])
        decreases |tokens| - index
      {
        var token := Require(IDENT);
        if token.kind.IDENT? {
          names := names + [token.text];
        }
        var more := Accept(COMMA);
        if !more || At(RPAREN) {
          return;
        }
      }
    }

    // ----- items -----

    /** Names with types, up to a closing token; a trailing comma is allowed. */
    method ParseTypedNames(close: Kind) returns (params: seq<Param>)
      requires Valid()
      modifies `index, `diagnostics
      ensures Out(params, Cursor()) == TypedNamesAt(tokens, old(Cursor()), close) && Went()
    {
      hide ValidTokens, TypedNameAt, Extends;
      ExtendsOn(diagnostics, diagnostics, diagnostics);
      params := [];
      if At(close) {
        return;
      }
      while true
        invariant Went()
        invariant MoreTypedNames(tokens, Cursor(), close, params) == TypedNamesAt(tokens, old(Cursor()), close)
        decreases |tokens| - index
      {
        ghost var reports := diagnostics;
        var param := ParseTypedName();
        ExtendsOn(old(diagnostics), reports, diagnostics);
        params := params + [param];
        var more := Accept(COMMA);
        if !more || At(close) {
          return;
        }
      }
    }

    method ParseTypedName() returns (param: Param)
      requires Valid()
      modifies `index, `diagnostics
      ensures Out(param, Cursor()) == TypedNameAt(tokens, old(Cursor())) && Went()
    {
      hide ValidTokens, Expect, TypeAt;
      var name := Require(IDENT);
      var _ := Require(COLON);
      var t := ParseTypeExpr();
      param := Param(name.text, t);
    }

    method ParseUse() returns (item: Item)
      requires Valid() && At(USE)
      modifies `index, `diagnostics
      ensures Out(item, Cursor()) == UseAt(tokens, old(Cursor())) && Went()
    {
      hide ValidTokens, Expect;
      var _ := Require(USE);
      var name := Require(IDENT);
      var _ := Require(SEMI);
      item := UseDecl(name.text);
    }

    method ParseSignature() returns (sig: Signature)
      requires Valid() && At(FN)
      modifies `index, `diagnostics
      ensures Out(sig, Cursor()) == SignatureAt(tokens, old(Cursor())) && Went()
    {
      hide Expect, ValidTokens, TypeAt, TypedNamesAt;
      var _ := Require(FN);
      var token := Require(IDENT);
      var _ := Require(LPAREN);
      var params := ParseTypedNames(RPAREN);
      var _ := Require(RPAREN);
      var _ := Require(ARROW);
      var result := ParseTypeExpr();
      sig := Signature(token.text, params, result);
    }

    method ParseFunction(public: bool) returns (item: Item)
      requires Valid() && At(FN) && !raised
      modifies this
      ensures Plain(FunctionAt(tokens, old(Cursor()), public)) == Done(item, raised, Cursor()) && Went()
    {
      hide Expect, ValidTokens, SignatureAt, AuditAt, BlockAt;
      var sig := ParseSignature();
      var audit: Option<Audit> := None;
      if At(AUDIT) {
        var parsed := ParseAudit();
        audit := Some(parsed);
      }
      var body := ParseBlock();
      item := FunctionDecl(sig.name, sig.params, sig.result, audit, body, public);
    }

    method ParseTypeDecl(public: bool) returns (item: Item)
      requires Valid() && At(TYPE)
      modifies `index, `diagnostics
      ensures Out(item, Cursor()) == TypeDeclAt(tokens, old(Cursor()), public) && Went()
    {
      hide ValidTokens, Expect, TypedNamesAt;
      var _ := Require(TYPE);
      var name := Require(IDENT);
      var _ := Require(LBRACE);
      var fields := ParseTypedNames(RBRACE);
      var _ := Require(RBRACE);
      item := TypeDecl(name.text, fields, public);
    }

    method ParseEnumDecl(public: bool) returns (item: Item)
      requires Valid() && At(ENUM)
      modifies `index, `diagnostics
      ensures Out(item, Cursor()) == EnumDeclAt(tokens, old(Cursor()), public) && Went()
    {
      hide ValidTokens, Expect, AllVariantsAt;
      var _ := Require(ENUM);
      var name := Require(IDENT);
      var _ := Require(LBRACE);
      var variants := ParseAllVariants();
      var _ := Require(RBRACE);
      item := EnumDecl(name.text, variants, public);
    }

    method ParseAllVariants() returns (variants: seq<VariantDecl>)
      requires Valid()
      modifies `index, `diagnostics
      ensures Out(variants, Cursor()) == AllVariantsAt(tokens, old(Cursor())) && Went()
    {
      hide ValidTokens, VariantsAt;
      variants := [];
      if !At(RBRACE) {
        variants := ParseVariants();
      }
    }

    method ParseVariants() returns (variants: seq<VariantDecl>)
      requires Valid()
      modifies `index, `diagnostics
      ensures Out(variants, Cursor()) == VariantsAt(tokens, old(Cursor()), []) && Went()
    {
      hide ValidTokens, VariantAt;
      variants := [];
      while true
        invariant Went()
        invariant VariantsAt(tokens, Cursor(), variants) == VariantsAt(tokens, old(Cursor()), [])
        decreases |tokens| - index
      {
        var variant := ParseVariant();
        variants := variants + [variant];
        var more := Accept(COMMA);
        if !more || At(RBRACE) {
          return;
        }
      }
    }

    method ParseVariant() returns (variant: VariantDecl)
      requires Valid()
      modifies `index, `diagnostics
      ensures Out(variant, Cursor()) == VariantAt(tokens, old(Cursor())) && Went()
    {
      hide ValidTokens, Expect, AllPayloadsAt;
      var name := Require(IDENT);
      var payloads: seq<TypeExpr> := [];
      var parens := Accept(LPAREN);
      if parens {
        payloads := ParseAllPayloads();
        var _ := Require(RPAREN);
      }
      variant := VariantDecl(name.text, payloads);
    }

    method ParseAllPayloads() returns (payloads: seq<TypeExpr>)
      requires Valid()
      modifies `index, `diagnostics
      ensures Out(payloads, Cursor()) == AllPayloadsAt(tokens, old(Cursor())) && Went()
    {
      hide ValidTokens, PayloadsAt;
      payloads := [];
      if !At(RPAREN) {
        payloads := ParsePayloads();
      }
    }

    method ParsePayloads() returns (payloads: seq<TypeExpr>)
      requires Valid()
      modifies `index, `diagnostics
      ensures Out(payloads, Cursor()) == PayloadsAt(tokens, old(Cursor()), []) && Went()
    {
      hide ValidTokens, TypeAt;
      payloads := [];
      while true
        invariant Went()
        invariant PayloadsAt(tokens, Cursor(), payloads) == PayloadsAt(tokens, old(Cursor()), [])
        decreases |tokens| - index
      {
        var t := ParseTypeExpr();
        payloads := payloads + [t];
        var more := Accept(COMMA);
        if !more || At(RPAREN) {
          return;
        }
      }
    }

    /** No item means the cursor stands at a token that begins none, unless the
        token before it was a lone `pub`. */
    method ParseItem() returns (item: Option<Item>)
      requires Valid() && !raised
      modifies this
      ensures Plain(ItemAt(tokens, old(Cursor()))) == Done(item, raised, Cursor()) && Went()
    {
      hide ValidTokens, ItemFrom;
      NotLast(tokens, index);
      var public := Accept(PUB);
      NotLast(tokens, index);
      if public && At(USE) {
        AddReport(UseMarkedPublic);
        public := false;
      }
      item := ParseItemFrom(public);
    }

    method ParseItemFrom(public: bool) returns (item: Option<Item>)
      requires Valid() && !raised
      modifies this
      ensures Plain(ItemFrom(tokens, old(Cursor()), public)) == Done(item, raised, Cursor()) && Went()
    {
      hide ValidTokens, FunctionAt, TypeDeclAt, EnumDeclAt, UseAt;
      item := None;
      if At(FN) {
        var f := ParseFunction(public);
        item := Some(f);
      } else if At(TYPE) {
        var t := ParseTypeDecl(public);
        item := Some(t);
      } else if At(ENUM) {
        var e := ParseEnumDecl(public);
        item := Some(e);
      } else if At(USE) {
        var u := ParseUse();
        item := Some(u);
      } else {
        AddReport(NotAnItem);
      }
    }

    method SynchronizeItem()
      requires Valid()
      modifies `index
      ensures Cursor() == SyncItemAt(tokens, old(Cursor())) && Went()
    {
      hide ValidTokens;
      while !At(EOF)
        invariant Went()
        invariant SyncItemAt(tokens, Cursor()) == SyncItemAt(tokens, old(Cursor()))
        decreases |tokens| - index
      {
        NotLast(tokens, index);
        if StartsItem(Current().kind) {
          return;
        }
        var _ := Next();
      }
    }

    /** Reads the whole program: its items and reports are those of the grammar, and
        it ends at the end marker, unless a pattern stops it, which happens exactly
        when the grammar says so. */
    method Parse() returns (items: seq<Item>)
      requires Valid() && !raised && index == 0 && diagnostics == []
      modifies this
      ensures Plain(ProgramAt(tokens)) == Done(items, raised, Cursor())
      ensures Valid() && (!raised ==> index == |tokens| - 1)
    {
      hide ValidTokens, ItemAt, SyncItemAt;
      items := [];
      var seenNonUse := false;
      while !At(EOF)
        invariant Went() && !raised
        invariant Plain(ItemsAt(tokens, Cursor(), items, seenNonUse)) == Plain(ProgramAt(tokens))
        decreases |tokens| - index
      {
        NotLast(tokens, index);
        var item := ParseItem();
        if raised {
          return;
        }
        if item.Some? {
          if item.value.UseDecl? {
            if seenNonUse {
              AddReport(LateUse);
            }
          } else {
            seenNonUse := true;
          }
          items := items + [item.value];
        } else {
          SynchronizeItem();
        }
      }
      NotLast(tokens, index);
    }
  }
}
