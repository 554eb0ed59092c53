/** Printing a program and parsing it back yields the same program. Each form is
    taken from the grammar one step at a time: where its tokens stand, what the parts
    yield, and what the form then yields. Only a condition or a scrutinee that ends
    with a bare name before empty braces is excluded. */
module ProgramRoundTrip {
  import opened Numerals
  import opened ParserSyntax
  import opened ExpressionGrammar
  import opened ExpressionRoundTrip
  import opened ProgramGrammar
  import opened ProgramPrint

  // ----- taking tokens -----

  /** One token taken, what was printed behind it comes next. */
  lemma {:induction false} Take(ts: seq<Token>, s: State, token: Token, rest: seq<Token>) returns (next: State)
    requires ValidTokens(ts) && Here(ts, s.at, [token] + rest) && !token.kind.EOF?
    ensures next == s.(at := s.at + 1) && Inside(ts, s) && Inside(ts, next) && ts[s.at] == token
    ensures Expect(ts, s, token.kind) == Out(token, next) && Advance(ts, s) == next
    ensures Here(ts, next.at, rest)
  {
    next := s.(at := s.at + 1);
    HereConcat(ts, s.at, [token], rest);
    HereToken(ts, s.at, token);
    NotLast(ts, s.at);
  }

  lemma {:induction false} TakeLast(ts: seq<Token>, s: State, token: Token) returns (next: State)
    requires ValidTokens(ts) && Here(ts, s.at, [token]) && !token.kind.EOF?
    ensures next == s.(at := s.at + 1) && Inside(ts, s) && Inside(ts, next) && ts[s.at] == token
    ensures Expect(ts, s, token.kind) == Out(token, next) && Advance(ts, s) == next
  {
    hide Here, IsNumeral;
    assert [token] + [] == [token];
    next := Take(ts, s, token, []);
  }

  /** What stands at the end of a printed part is what follows it. */
  lemma {:induction false} FirstHere(ts: seq<Token>, at: nat, p: seq<Token>)
    requires Here(ts, at, p) && p != []
    ensures at < |ts| && ts[at] == p[0]
  {
    assert ts[at..at + |p|][0] == p[0];
  }

  /** A comma stands here, and what was printed behind it ends at a position. */
  ghost predicate Comma(ts: seq<Token>, s: State, rest: seq<Token>, end: nat) {
    && s.at + 1 < |ts| && ts[s.at].kind.COMMA? && Advance(ts, s) == s.(at := s.at + 1)
    && Here(ts, s.at + 1, rest) && s.at + 1 + |rest| == end
  }

  /** The first of several printed parts is followed by a comma and the others. */
  lemma {:induction false} FirstOfMany(ts: seq<Token>, s: State, one: seq<Token>, more: seq<Token>)
    requires ValidTokens(ts) && Here(ts, s.at, one + ([Op(COMMA)] + more))
    ensures Here(ts, s.at, one)
    ensures Comma(ts, Past(s, one), more, s.at + |one + ([Op(COMMA)] + more)|)
  {
    hide ValidTokens, Here, Advance, Expect, IsNumeral;
    HereConcat(ts, s.at, one, [Op(COMMA)] + more);
    var next := Take(ts, Past(s, one), Op(COMMA), more);
  }

  // ----- types -----

  predicate StartsType(k: Kind) {
    k.IDENT? || k.REF? || k.MUTREF?
  }

  lemma {:induction false} TypeBegins(t: TypeExpr)
    ensures PrintType(t) != [] && StartsType(PrintType(t)[0].kind)
  {
  }

  lemma {:induction false} TypeReads(ts: seq<Token>, s: State, t: TypeExpr)
    requires ValidTokens(ts) && ValidType(t) && Here(ts, s.at, PrintType(t))
    requires s.at + |PrintType(t)| < |ts| && !ts[s.at + |PrintType(t)|].kind.LT?
    ensures Inside(ts, s) && TypeAt(ts, s) == Out(t, Past(s, PrintType(t)))
    decreases t, 1
  {
    hide ValidTokens, Here, NamedTypeAt, IsNumeral;
    match t
    case NamedType(_, _) =>
      TypeBegins(t);
      FirstHere(ts, s.at, PrintType(t));
      NamedTypeReads(ts, s, t);
    case BorrowType(mutable, inner) =>
      var next := Take(ts, s, Op(if mutable then MUTREF else REF), PrintType(inner));
      NamedTypeReads(ts, next, inner);
  }

  lemma {:induction false} BareTypeStep(ts: seq<Token>, s: State, name: string, end: State)
    requires ValidTokens(ts) && Inside(ts, s) && Inside(ts, end)
    requires Expect(ts, s, IDENT) == Out(Ident(name), end) && !KindAt(ts, end).LT?
    ensures NamedTypeAt(ts, s) == Out(NamedType(name, []), end)
  {
    hide ValidTokens, TypeArgsAt, Expect, Advance;
  }

  lemma {:induction false} NamedTypeStep(ts: seq<Token>, s: State, t: TypeExpr, named: State, open: State, close: State, end: State)
    requires ValidTokens(ts) && Inside(ts, s) && Inside(ts, named) && Inside(ts, open) && Inside(ts, close) && t.NamedType?
    requires Expect(ts, s, IDENT) == Out(Ident(t.name), named) && KindAt(ts, named).LT? && Advance(ts, named) == open
    requires TypeArgsAt(ts, open, []) == Out(t.args, close) && Expect(ts, close, GT).state == end
    ensures NamedTypeAt(ts, s) == Out(t, end)
  {
    hide ValidTokens, TypeArgsAt, Expect, Advance;
  }

  lemma {:induction false} NamedTypeReads(ts: seq<Token>, s: State, t: TypeExpr)
    requires ValidTokens(ts) && t.NamedType? && ValidType(t) && Here(ts, s.at, PrintType(t))
    requires s.at + |PrintType(t)| < |ts| && !ts[s.at + |PrintType(t)|].kind.LT?
    ensures Inside(ts, s) && NamedTypeAt(ts, s) == Out(t, Past(s, PrintType(t)))
    decreases t, 0
  {
    hide ValidTokens, Here, TypeArgsAt, PrintTypes, Expect, Advance, IsNumeral, NamedTypeAt;
    if t.args == [] {
      assert PrintType(t) == [Ident(t.name)];
      var next := TakeLast(ts, s, Ident(t.name));
      BareTypeStep(ts, s, t.name, next);
    } else {
      var args := PrintTypes(t.args);
      var named := Take(ts, s, Ident(t.name), [Op(LT)] + (args + [Op(GT)]));
      var open := Take(ts, named, Op(LT), args + [Op(GT)]);
      HereConcat(ts, open.at, args, [Op(GT)]);
      var close := Past(open, args);
      var end := TakeLast(ts, close, Op(GT));
      TypeArgsRead(ts, open, t.args, []);
      assert [] + t.args == t.args;
      NamedTypeStep(ts, s, t, named, open, close, end);
    }
  }

  lemma {:induction false} TypeArgStep(ts: seq<Token>, s: State, t: TypeExpr, end: State, done: seq<TypeExpr>)
    requires ValidTokens(ts) && Inside(ts, s) && Inside(ts, end) && TypeAt(ts, s) == Out(t, end)
    ensures !KindAt(ts, end).COMMA? ==> TypeArgsAt(ts, s, done) == Out(done + [t], end)
    ensures KindAt(ts, end).COMMA? && !KindAt(ts, Advance(ts, end)).GT? ==>
              TypeArgsAt(ts, s, done) == TypeArgsAt(ts, Advance(ts, end), done + [t])
  {
    hide ValidTokens, TypeAt;
  }

  lemma {:induction false} TypeArgsRead(ts: seq<Token>, s: State, types: seq<TypeExpr>, done: seq<TypeExpr>)
    requires ValidTokens(ts) && types != [] && ValidTypes(types) && Here(ts, s.at, PrintTypes(types))
    requires s.at + |PrintTypes(types)| < |ts| && ts[s.at + |PrintTypes(types)|].kind.GT?
    ensures Inside(ts, s) && TypeArgsAt(ts, s, done) == Out(done + types, Past(s, PrintTypes(types)))
    decreases types, 2
  {
    hide ValidTokens, Here, TypeAt, PrintType, TypeArgsAt, Advance, IsNumeral, ValidType;
    var end := FirstType(ts, s, types);
    if |types| == 1 {
      assert done + [types[0]] == done + types;
      TypeArgStep(ts, s, types[0], end, done);
    } else {
      var next := end.(at := end.at + 1);
      TypesBegin(types[1..]);
      FirstHere(ts, next.at, PrintTypes(types[1..]));
      TypeArgsRead(ts, next, types[1..], done + [types[0]]);
      FirstOver(done, types);
      TypeArgStep(ts, s, types[0], end, done);
    }
  }

  lemma {:induction false} TypesBegin(types: seq<TypeExpr>)
    requires types != []
    ensures PrintTypes(types) != [] && StartsType(PrintTypes(types)[0].kind)
  {
    TypeBegins(types[0]);
  }

  /** The first of several types; a comma stands between it and the others. */
  lemma {:induction false} FirstType(ts: seq<Token>, s: State, types: seq<TypeExpr>) returns (end: State)
    requires ValidTokens(ts) && types != [] && ValidTypes(types) && Here(ts, s.at, PrintTypes(types))
    requires s.at + |PrintTypes(types)| < |ts| && !ts[s.at + |PrintTypes(types)|].kind.LT?
    ensures Inside(ts, s) && end == Past(s, PrintType(types[0])) && TypeAt(ts, s) == Out(types[0], end)
    ensures |types| == 1 ==> end.at == s.at + |PrintTypes(types)|
    ensures |types| > 1 ==> Comma(ts, end, PrintTypes(types[1..]), s.at + |PrintTypes(types)|)
    decreases types, 1
  {
    hide ValidTokens, Here, TypeAt, PrintType, Advance, Expect, IsNumeral;
    end := Past(s, PrintType(types[0]));
    if |types| > 1 {
      FirstOfMany(ts, s, PrintType(types[0]), PrintTypes(types[1..]));
    }
    TypeReads(ts, s, types[0]);
  }

  lemma {:induction false} PayloadTypeStep(ts: seq<Token>, s: State, t: TypeExpr, end: State, done: seq<TypeExpr>)
    requires ValidTokens(ts) && Inside(ts, s) && Inside(ts, end) && TypeAt(ts, s) == Out(t, end)
    ensures !KindAt(ts, end).COMMA? ==> PayloadsAt(ts, s, done) == Out(done + [t], end)
    ensures KindAt(ts, end).COMMA? && !KindAt(ts, Advance(ts, end)).RPAREN? ==>
              PayloadsAt(ts, s, done) == PayloadsAt(ts, Advance(ts, end), done + [t])
  {
    hide ValidTokens, TypeAt;
  }

  lemma {:induction false} PayloadsRead(ts: seq<Token>, s: State, types: seq<TypeExpr>, done: seq<TypeExpr>)
    requires ValidTokens(ts) && types != [] && ValidTypes(types) && Here(ts, s.at, PrintTypes(types))
    requires s.at + |PrintTypes(types)| < |ts| && ts[s.at + |PrintTypes(types)|].kind.RPAREN?
    ensures Inside(ts, s) && PayloadsAt(ts, s, done) == Out(done + types, Past(s, PrintTypes(types)))
    decreases types
  {
    hide ValidTokens, Here, TypeAt, PrintType, PayloadsAt, Advance, IsNumeral, ValidType;
    var end := FirstType(ts, s, types);
    if |types| == 1 {
      assert done + [types[0]] == done + types;
      PayloadTypeStep(ts, s, types[0], end, done);
    } else {
      var next := end.(at := end.at + 1);
      TypesBegin(types[1..]);
      FirstHere(ts, next.at, PrintTypes(types[1..]));
      PayloadsRead(ts, next, types[1..], done + [types[0]]);
      FirstOver(done, types);
      PayloadTypeStep(ts, s, types[0], end, done);
    }
  }

  // ----- patterns -----

  /** Something was read, and this is what it is and where the cursor stands then. */
  ghost predicate Gets<T>(r: Reading<T>, x: T, s: State) {
    r.Got? && r.value == x && r.state == s
  }

  lemma {:induction false} PatternBegins(p: Pattern)
    ensures PrintPattern(p) != [] && PrintPattern(p)[0].kind in {IDENT, MINUS, INT}
  {
  }

  lemma {:induction false} PatternReads(ts: seq<Token>, s: State, p: Pattern)
    requires ValidTokens(ts) && ValidPattern(p) && Here(ts, s.at, PrintPattern(p))
    requires s.at + |PrintPattern(p)| < |ts| && !ts[s.at + |PrintPattern(p)|].kind.LPAREN?
    ensures Inside(ts, s) && Gets(PatternAt(ts, s), p, Past(s, PrintPattern(p)))
    decreases p, 1
  {
    hide ValidTokens, Here, NamedPatternAt, NumeralText, ValueOf, Expect, IsNumeral;
    match p
    case WildcardPattern => var next := TakeLast(ts, s, Ident("_"));
    case IntPattern(v) =>
      if v < 0 {
        NegativeReads(ts, s, v);
      } else {
        var next := TakeLast(ts, s, Token(INT, NumeralText(v)));
        NumeralTextValue(v);
      }
    case NamePattern(_) => NamedPatternReads(ts, s, p);
    case VariantPattern(_, _) => NamedPatternReads(ts, s, p);
  }

  lemma {:induction false} NegativeStep(ts: seq<Token>, s: State, text: string, next: State, end: State)
    requires ValidTokens(ts) && Inside(ts, s) && Inside(ts, next) && KindAt(ts, s).MINUS? && Advance(ts, s) == next
    requires Expect(ts, next, INT) == Out(Token(INT, text), end) && IsNumeral(text)
    ensures Gets(PatternAt(ts, s), IntPattern(0 - ValueOf(text)), end)
  {
    hide ValidTokens, Expect, Advance, ValueOf, NamedPatternAt;
  }

  lemma {:induction false} NegativeReads(ts: seq<Token>, s: State, v: int)
    requires ValidTokens(ts) && v < 0 && Here(ts, s.at, PrintPattern(IntPattern(v)))
    ensures Inside(ts, s) && Gets(PatternAt(ts, s), IntPattern(v), s.(at := s.at + 2)) && |PrintPattern(IntPattern(v))| == 2
  {
    hide ValidTokens, Here, NumeralText, ValueOf, Expect, IsNumeral, Advance, PatternAt;
    var next := Take(ts, s, Op(MINUS), [Token(INT, NumeralText(-v))]);
    var end := TakeLast(ts, next, Token(INT, NumeralText(-v)));
    NumeralTextValue(-v);
    NegativeStep(ts, s, NumeralText(-v), next, end);
  }

  lemma {:induction false} NameStep(ts: seq<Token>, s: State, name: string, end: State)
    requires ValidTokens(ts) && Inside(ts, s) && Inside(ts, end)
    requires Expect(ts, s, IDENT) == Out(Ident(name), end) && !KindAt(ts, end).LPAREN?
    ensures Gets(NamedPatternAt(ts, s), NamePattern(name), end)
  {
    hide ValidTokens, PayloadAt, Expect, Advance;
  }

  lemma {:induction false} VariantPatternStep(ts: seq<Token>, s: State, name: string, named: State, open: State)
    requires ValidTokens(ts) && Inside(ts, s) && Inside(ts, named) && Inside(ts, open)
    requires Expect(ts, s, IDENT) == Out(Ident(name), named) && KindAt(ts, named).LPAREN? && Advance(ts, named) == open
    ensures NamedPatternAt(ts, s) == PayloadAt(ts, open, name)
  {
    hide ValidTokens, PayloadAt, Expect, Advance;
  }

  lemma {:induction false} NamedPatternReads(ts: seq<Token>, s: State, p: Pattern)
    requires ValidTokens(ts) && ValidPattern(p) && Here(ts, s.at, PrintPattern(p)) && (p.NamePattern? || p.VariantPattern?)
    requires s.at + |PrintPattern(p)| < |ts| && !ts[s.at + |PrintPattern(p)|].kind.LPAREN?
    ensures Inside(ts, s) && ts[s.at] == Ident(p.name)
    ensures Gets(NamedPatternAt(ts, s), p, Past(s, PrintPattern(p)))
    decreases p, 0
  {
    hide ValidTokens, Here, PayloadAt, PrintPatterns, Expect, Advance, IsNumeral, NamedPatternAt;
    if p.NamePattern? {
      var next := TakeLast(ts, s, Ident(p.name));
      NameStep(ts, s, p.name, next);
    } else {
      var args := PrintPatterns(p.args);
      var named := Take(ts, s, Ident(p.name), [Op(LPAREN)] + (args + [Op(RPAREN)]));
      var open := Take(ts, named, Op(LPAREN), args + [Op(RPAREN)]);
      PayloadReads(ts, open, p.name, p.args);
      VariantPatternStep(ts, s, p.name, named, open);
    }
  }

  lemma {:induction false} PayloadStep(ts: seq<Token>, s: State, name: string, args: seq<Pattern>, close: State, end: State)
    requires ValidTokens(ts) && Inside(ts, s) && Inside(ts, close)
    requires Gets(PatternArgsAt(ts, s), args, close) && Expect(ts, close, RPAREN).state == end
    ensures Gets(PayloadAt(ts, s, name), VariantPattern(name, args), end)
  {
    hide ValidTokens, PatternArgsAt, Expect;
  }

  lemma {:induction false} PatternsShape(ps: seq<Pattern>)
    ensures ps == [] ==> PrintPatterns(ps) == []
    ensures ps != [] ==> PrintPatterns(ps) != [] && !PrintPatterns(ps)[0].kind.RPAREN?
  {
    hide PrintPattern;
    if ps != [] {
      PatternBegins(ps[0]);
    }
  }

  lemma {:induction false} PatternArgsRead(ts: seq<Token>, s: State, args: seq<Pattern>)
    requires ValidTokens(ts) && (forall i | 0 <= i < |args| :: ValidPattern(args[i])) && Here(ts, s.at, PrintPatterns(args))
    requires s.at + |PrintPatterns(args)| < |ts| && ts[s.at + |PrintPatterns(args)|].kind.RPAREN?
    ensures Inside(ts, s) && Gets(PatternArgsAt(ts, s), args, Past(s, PrintPatterns(args)))
    decreases args, 4
  {
    hide ValidTokens, Here, PatternsAt, PrintPatterns, IsNumeral, ValidPattern;
    PatternsShape(args);
    if args == [] {
      assert Past(s, PrintPatterns(args)) == s;
    } else {
      FirstHere(ts, s.at, PrintPatterns(args));
      PatternsRead(ts, s, args, []);
      assert [] + args == args;
    }
  }

  lemma {:induction false} PayloadReads(ts: seq<Token>, s: State, name: string, args: seq<Pattern>)
    requires ValidTokens(ts) && (forall i | 0 <= i < |args| :: ValidPattern(args[i]))
    requires Here(ts, s.at, PrintPatterns(args) + [Op(RPAREN)])
    ensures Inside(ts, s) && Gets(PayloadAt(ts, s, name), VariantPattern(name, args), s.(at := s.at + |PrintPatterns(args)| + 1))
    decreases args, 5
  {
    hide ValidTokens, Here, PatternArgsAt, PrintPatterns, Expect, Advance, IsNumeral, PayloadAt, ValidPattern;
    var printed := PrintPatterns(args);
    HereConcat(ts, s.at, printed, [Op(RPAREN)]);
    var close := Past(s, printed);
    var end := TakeLast(ts, close, Op(RPAREN));
    PatternArgsRead(ts, s, args);
    PayloadStep(ts, s, name, args, close, end);
  }

  lemma {:induction false} PatternsRead(ts: seq<Token>, s: State, ps: seq<Pattern>, done: seq<Pattern>)
    requires ValidTokens(ts) && ps != [] && (forall i | 0 <= i < |ps| :: ValidPattern(ps[i]))
    requires Here(ts, s.at, PrintPatterns(ps))
    requires s.at + |PrintPatterns(ps)| < |ts| && ts[s.at + |PrintPatterns(ps)|].kind.RPAREN?
    ensures Inside(ts, s) && Gets(PatternsAt(ts, s, done), done + ps, Past(s, PrintPatterns(ps)))
    decreases ps, 3
  {
    hide ValidTokens, Here, PatternAt, PrintPattern, ValidPattern, Advance, IsNumeral;
    if |ps| == 1 {
      PatternReads(ts, s, ps[0]);
      assert done + [ps[0]] == done + ps;
    } else {
      FirstOfMany(ts, s, PrintPattern(ps[0]), PrintPatterns(ps[1..]));
      PatternReads(ts, s, ps[0]);
      PatternsRead(ts, s.(at := s.at + |PrintPattern(ps[0])| + 1), ps[1..], done + [ps[0]]);
      FirstOver(done, ps);
    }
  }

  // ----- statements without blocks -----

  /** An expression up to a semicolon. */
  lemma {:induction false} ExprReads(ts: seq<Token>, s: State, e: Expr, rest: seq<Token>) returns (end: State)
    requires ValidTokens(ts) && ValidExpr(e) && Here(ts, s.at, Print(e, 0) + ([Op(SEMI)] + rest))
    ensures Inside(ts, s) && end == Past(s, Print(e, 0)) && ExprAt(ts, s) == Out(e, end)
    ensures Begins(KindAt(ts, s)) && Here(ts, end.at, [Op(SEMI)] + rest)
  {
    hide ValidTokens, Here, Print, BinaryAt, IsNumeral;
    end := Past(s, Print(e, 0));
    HereConcat(ts, s.at, Print(e, 0), [Op(SEMI)] + rest);
    var next := Take(ts, end, Op(SEMI), rest);
    FirstToken(e, 0);
    FirstHere(ts, s.at, Print(e, 0));
    Parses(ts, s, e, 0);
  }

  lemma {:induction false} InitializerReads(ts: seq<Token>, s: State, value: Expr)
    requires ValidTokens(ts) && ValidExpr(value) && Here(ts, s.at, PrintInitializer(value))
    ensures Inside(ts, s) && InitializerAt(ts, s) == Out(value, Past(s, PrintInitializer(value)))
    ensures KindAt(ts, s).EQ?
  {
    hide ValidTokens, Here, Print, ExprAt, Expect, Advance, IsNumeral;
    assert [Op(SEMI)] + [] == [Op(SEMI)];
    var next := Take(ts, s, Op(EQ), Print(value, 0) + [Op(SEMI)]);
    var end := ExprReads(ts, next, value, []);
    var last := TakeLast(ts, end, Op(SEMI));
  }

  lemma {:induction false} AnnotationReads(ts: seq<Token>, s: State, annotation: seq<TypeExpr>, value: Expr)
    requires ValidTokens(ts) && |annotation| <= 1 && ValidTypes(annotation) && ValidExpr(value)
    requires Here(ts, s.at, PrintAnnotation(annotation) + PrintInitializer(value))
    ensures Inside(ts, s) && AnnotationAt(ts, s) == Out(annotation, Past(s, PrintAnnotation(annotation)))
    ensures Here(ts, s.at + |PrintAnnotation(annotation)|, PrintInitializer(value))
  {
    hide ValidTokens, Here, Print, TypeAt, PrintType, InitializerAt, IsNumeral;
    var end := Past(s, PrintAnnotation(annotation));
    HereConcat(ts, s.at, PrintAnnotation(annotation), PrintInitializer(value));
    InitializerReads(ts, end, value);
    if annotation != [] {
      var next := Take(ts, s, Op(COLON), PrintType(annotation[0]));
      TypeReads(ts, next, annotation[0]);
      assert annotation == [annotation[0]];
    }
  }

  /** The statements as they are printed, and what makes them valid. */
  lemma {:induction false} LetShape(stmt: Stmt)
    requires stmt.LetStmt? && ValidStmt(stmt)
    ensures PrintStmt(stmt) == [Op(LET)] + ((if stmt.mutable then [Op(MUT)] else []) + ([Ident(stmt.name)] +
              (PrintAnnotation(stmt.annotation) + PrintInitializer(stmt.value))))
    ensures |stmt.annotation| <= 1 && ValidTypes(stmt.annotation) && ValidExpr(stmt.value)
  {
    hide PrintAnnotation, PrintInitializer, ValidTypes, ValidExpr;
  }

  lemma {:induction false} IfShape(stmt: Stmt)
    requires stmt.IfStmt? && ValidStmt(stmt) && ClearStmt(stmt)
    ensures PrintStmt(stmt) ==
              [Op(IF)] + (Print(stmt.condition, 0) + (PrintBlock(stmt.thenBlock) + PrintElse(stmt.elseBlock)))
    ensures ValidExpr(stmt.condition) && ValidBlock(stmt.thenBlock) && ClearBlock(stmt.thenBlock)
    ensures Clear(stmt.condition, stmt.thenBlock.statements == [])
    ensures stmt.elseBlock == [] || (stmt.elseBlock == [stmt.elseBlock[0]] && ValidBlock(stmt.elseBlock[0]) && ClearBlock(stmt.elseBlock[0]))
    ensures PrintElse(stmt.elseBlock) == if stmt.elseBlock == [] then [] else [Op(ELSE)] + PrintBlock(stmt.elseBlock[0])
  {
    hide Print, PrintBlock, ValidExpr, ValidBlock, ClearBlock, Clear;
  }

  lemma {:induction false} MatchShape(stmt: Stmt)
    requires stmt.MatchStmt? && ValidStmt(stmt) && ClearStmt(stmt)
    ensures PrintStmt(stmt) ==
              [Op(MATCH)] + (Print(stmt.scrutinee, 0) + ([Op(LBRACE)] + (PrintArms(stmt.arms) + [Op(RBRACE)])))
    ensures ValidExpr(stmt.scrutinee) && Clear(stmt.scrutinee, stmt.arms == [])
    ensures forall i | 0 <= i < |stmt.arms| ::
              ValidPattern(stmt.arms[i].pattern) && ValidBlock(stmt.arms[i].block) && ClearBlock(stmt.arms[i].block)
  {
    hide Print, PrintArms, ValidExpr, ValidBlock, ClearBlock, Clear, ValidPattern;
  }

  lemma {:induction false} LetStep(ts: seq<Token>, s: State, stmt: Stmt, let: State, name: State, named: State, annotated: State, end: State)
    requires ValidTokens(ts) && Inside(ts, s) && Inside(ts, let) && Inside(ts, name) && Inside(ts, named) && Inside(ts, annotated)
    requires stmt.LetStmt? && KindAt(ts, s).LET? && Expect(ts, s, LET).state == let
    requires (stmt.mutable <==> KindAt(ts, let).MUT?) && name == (if stmt.mutable then Advance(ts, let) else let)
    requires Expect(ts, name, IDENT) == Out(Ident(stmt.name), named) && AnnotationAt(ts, named) == Out(stmt.annotation, annotated)
    requires InitializerAt(ts, annotated) == Out(stmt.value, end)
    ensures LetAt(ts, s) == Out(stmt, end)
  {
    hide ValidTokens, AnnotationAt, InitializerAt, Expect, Advance;
  }

  lemma {:induction false} LetReads(ts: seq<Token>, s: State, stmt: Stmt)
    requires ValidTokens(ts) && stmt.LetStmt? && ValidStmt(stmt) && Here(ts, s.at, PrintStmt(stmt))
    ensures Inside(ts, s) && KindAt(ts, s).LET? && LetAt(ts, s) == Out(stmt, Past(s, PrintStmt(stmt)))
  {
    hide ValidTokens, Here, AnnotationAt, InitializerAt, PrintAnnotation, PrintInitializer, Expect, Advance, PrintStmt,
      ValidStmt, ValidTypes, ValidExpr, LetAt, IsNumeral;
    LetShape(stmt);
    var tail := PrintAnnotation(stmt.annotation) + PrintInitializer(stmt.value);
    var mut := if stmt.mutable then [Op(MUT)] else [];
    var let := Take(ts, s, Op(LET), mut + ([Ident(stmt.name)] + tail));
    var name := let;
    if stmt.mutable {
      name := Take(ts, let, Op(MUT), [Ident(stmt.name)] + tail);
    } else {
      assert mut + ([Ident(stmt.name)] + tail) == [Ident(stmt.name)] + tail;
    }
    var named := Take(ts, name, Ident(stmt.name), tail);
    AnnotationReads(ts, named, stmt.annotation, stmt.value);
    var annotated := Past(named, PrintAnnotation(stmt.annotation));
    InitializerReads(ts, annotated, stmt.value);
    LetStep(ts, s, stmt, let, name, named, annotated, Past(annotated, PrintInitializer(stmt.value)));
  }

  lemma {:induction false} AssignReads(ts: seq<Token>, s: State, stmt: Stmt)
    requires ValidTokens(ts) && stmt.AssignStmt? && ValidStmt(stmt) && Here(ts, s.at, PrintStmt(stmt))
    ensures Inside(ts, s) && SimpleAt(ts, s) == Out(stmt, Past(s, PrintStmt(stmt))) && KindAt(ts, s).IDENT?
  {
    hide ValidTokens, Here, InitializerAt, PrintInitializer, Expect, Advance, ExprStmtAt, FieldAssignAt, LetAt,
      ReturnAt, IsNumeral;
    var next := Take(ts, s, Ident(stmt.target), PrintInitializer(stmt.value));
    InitializerReads(ts, next, stmt.value);
    Peeks(ts, s, 1);
  }

  lemma {:induction false} FieldAssignReads(ts: seq<Token>, s: State, stmt: Stmt)
    requires ValidTokens(ts) && stmt.FieldAssignStmt? && ValidStmt(stmt) && Here(ts, s.at, PrintStmt(stmt))
    ensures Inside(ts, s) && SimpleAt(ts, s) == Out(stmt, Past(s, PrintStmt(stmt))) && KindAt(ts, s).IDENT?
  {
    hide ValidTokens, Here, InitializerAt, PrintInitializer, Expect, Advance, ExprStmtAt, AssignAt, LetAt, ReturnAt,
      Peek, IsNumeral;
    var last := PrintInitializer(stmt.value);
    var next := Take(ts, s, Ident(stmt.target), [Op(DOT)] + ([Ident(stmt.field)] + last));
    next := Take(ts, next, Op(DOT), [Ident(stmt.field)] + last);
    next := Take(ts, next, Ident(stmt.field), last);
    InitializerReads(ts, next, stmt.value);
    Peeks(ts, s, 1);
    Peeks(ts, s, 2);
    Peeks(ts, s, 3);
  }

  lemma {:induction false} Peeks(ts: seq<Token>, s: State, offset: nat)
    requires ValidTokens(ts) && s.at + offset < |ts|
    ensures Peek(ts, s, offset) == ts[s.at + offset]
  {
    hide ValidTokens;
  }

  lemma {:induction false} ReturnStep(ts: seq<Token>, s: State, next: State, end: State, last: State)
    requires ValidTokens(ts) && Inside(ts, s) && Inside(ts, next) && Inside(ts, end)
    requires KindAt(ts, s).RETURN? && Expect(ts, s, RETURN).state == next && Expect(ts, end, SEMI).state == last
    ensures KindAt(ts, next).SEMI? && end == next ==> ReturnAt(ts, s) == Out(ReturnStmt([]), last)
    ensures !KindAt(ts, next).SEMI? && ExprAt(ts, next).state == end ==>
              ReturnAt(ts, s) == Out(ReturnStmt([ExprAt(ts, next).value]), last)
  {
    hide ValidTokens, ExprAt, Expect;
  }

  lemma {:induction false} ReturnReads(ts: seq<Token>, s: State, stmt: Stmt)
    requires ValidTokens(ts) && stmt.ReturnStmt? && ValidStmt(stmt) && Here(ts, s.at, PrintStmt(stmt))
    ensures Inside(ts, s) && KindAt(ts, s).RETURN? && ReturnAt(ts, s) == Out(stmt, Past(s, PrintStmt(stmt)))
  {
    hide ValidTokens, Here, Print, ExprAt, Expect, Advance, IsNumeral, ValidExpr, ReturnAt;
    assert [Op(SEMI)] + [] == [Op(SEMI)];
    var next := Take(ts, s, Op(RETURN), PrintResult(stmt.result) + [Op(SEMI)]);
    if stmt.result == [] {
      assert PrintResult(stmt.result) + [Op(SEMI)] == [Op(SEMI)];
      var last := TakeLast(ts, next, Op(SEMI));
      ReturnStep(ts, s, next, next, last);
    } else {
      var end := ExprReads(ts, next, stmt.result[0], []);
      var last := TakeLast(ts, end, Op(SEMI));
      assert stmt.result == [stmt.result[0]];
      ReturnStep(ts, s, next, end, last);
    }
  }

  /** No printed expression looks like the beginning of an assignment. */
  lemma {:induction false} NoAssignment(ts: seq<Token>, s: State, e: Expr)
    requires ValidTokens(ts) && ValidExpr(e) && Here(ts, s.at, Print(e, 0)) && s.at + |Print(e, 0)| < |ts|
    requires ts[s.at + |Print(e, 0)|].kind.SEMI?
    ensures !Peek(ts, s, 1).kind.EQ?
    ensures !(Peek(ts, s, 1).kind.DOT? && Peek(ts, s, 2).kind.IDENT? && Peek(ts, s, 3).kind.EQ?)
  {
    hide ValidTokens, Print;
    var p := Print(e, 0);
    PrintedTokensValid(e, 0);
    FirstToken(e, 0);
    NotLast(ts, s.at + |p|);
    assert forall i | 0 <= i < |p| :: ts[s.at + i] == ts[s.at..s.at + |p|][i] == p[i];
  }

  lemma {:induction false} ExprStmtReads(ts: seq<Token>, s: State, stmt: Stmt)
    requires ValidTokens(ts) && stmt.ExprStmt? && ValidStmt(stmt) && Here(ts, s.at, PrintStmt(stmt))
    ensures Inside(ts, s) && SimpleAt(ts, s) == Out(stmt, Past(s, PrintStmt(stmt))) && Begins(KindAt(ts, s))
  {
    hide ValidTokens, Here, Print, ExprAt, Expect, Advance, Peek, AssignAt, FieldAssignAt, LetAt, ReturnAt, IsNumeral;
    assert [Op(SEMI)] + [] == [Op(SEMI)];
    HereConcat(ts, s.at, Print(stmt.expr, 0), [Op(SEMI)]);
    var end := ExprReads(ts, s, stmt.expr, []);
    var last := TakeLast(ts, end, Op(SEMI));
    NoAssignment(ts, s, stmt.expr);
  }

  // ----- what comes after a condition -----

  /** A printed expression that begins with a name does not go on with a colon. */
  lemma {:induction false} SecondToken(e: Expr, level: nat)
    requires ValidExpr(e)
    ensures |Print(e, level)| > 1 && Print(e, level)[0].kind.IDENT? ==> !Print(e, level)[1].kind.COLON?
    decreases e, 1
  {
    BareSecondToken(e);
  }

  lemma {:induction false} BareSecondToken(e: Expr)
    requires ValidExpr(e)
    ensures |PrintBare(e)| > 1 && PrintBare(e)[0].kind.IDENT? ==> !PrintBare(e)[1].kind.COLON?
    decreases e, 0
  {
    hide Print, PrintArgs, PrintFields;
    match e
    case Call(callee, _) =>
      FirstToken(callee, POSTFIX);
      SecondToken(callee, POSTFIX);
    case Field(base, _) =>
      FirstToken(base, POSTFIX);
      SecondToken(base, POSTFIX);
    case Binary(left, op, _) =>
      FirstToken(left, Rung(op));
      SecondToken(left, Rung(op));
    case _ =>
  }

  /** What a statement begins with. */
  lemma {:induction false} StmtBegins(s: Stmt)
    requires ValidStmt(s)
    ensures var p := PrintStmt(s);
      && |p| > 1 && p[0].kind !in {RBRACE, EOF, ELSE}
      && (p[0].kind.IDENT? ==> !p[1].kind.COLON?)
  {
    hide Print, ValidBlock, PrintBlock, PrintElse, PrintArms, PrintAnnotation;
    match s
    case ExprStmt(e) =>
      FirstToken(e, 0);
      SecondToken(e, 0);
    case IfStmt(condition, _, _) => FirstToken(condition, 0);
    case WhileStmt(condition, _) => FirstToken(condition, 0);
    case _ =>
  }

  lemma {:induction false} StmtsBegin(ss: seq<Stmt>)
    requires ss != [] && ValidStmt(ss[0])
    ensures var p := PrintStmts(ss);
      && |p| > 1 && p[0].kind !in {RBRACE, EOF, ELSE}
      && (p[0].kind.IDENT? ==> !p[1].kind.COLON?)
  {
    hide PrintStmt, ValidStmt;
    StmtBegins(ss[0]);
  }

  lemma {:induction false} ArmsBegin(arms: seq<Arm>)
    requires arms != []
    ensures var p := PrintArms(arms);
      && |p| > 1 && p[0].kind in {IDENT, MINUS, INT} && (p[0].kind.IDENT? ==> !p[1].kind.COLON?)
  {
    hide PrintBlock, PrintPatterns;
    var rest := [Op(FAT_ARROW)] + PrintBlock(arms[0].block);
    assert PrintArm(arms[0]) == PrintPattern(arms[0].pattern) + rest;
    PatternBegins(arms[0].pattern);
  }

  /** Braces around something printed do not look like those of a struct literal. */
  lemma {:induction false} NoStruct(ts: seq<Token>, at: nat, inner: seq<Token>)
    requires ValidTokens(ts) && Here(ts, at, [Op(LBRACE)] + inner) && |inner| > 1
    requires !inner[0].kind.RBRACE? && (inner[0].kind.IDENT? ==> !inner[1].kind.COLON?)
    ensures at + 2 < |ts| && !StructAhead(ts, State(at, []))
  {
    hide ValidTokens, IsNumeral;
    HereConcat(ts, at, [Op(LBRACE)], inner);
    assert ts[at + 1..at + 1 + |inner|][0] == inner[0] && ts[at + 1..at + 1 + |inner|][1] == inner[1];
    Peeks(ts, State(at, []), 1);
    Peeks(ts, State(at, []), 2);
  }

  /** A condition or scrutinee up to the opening brace behind it, which encloses
      something printed, or nothing when it may. */
  lemma {:induction false} ConditionReads(ts: seq<Token>, s: State, e: Expr, inner: seq<Token>, rest: seq<Token>) returns (end: State)
    requires ValidTokens(ts) && ValidExpr(e) && Here(ts, s.at, Print(e, 0) + ([Op(LBRACE)] + (inner + ([Op(RBRACE)] + rest))))
    requires inner == [] ==> !EndsBare(e, 0)
    requires inner != [] ==> |inner| > 1 && !inner[0].kind.RBRACE? && (inner[0].kind.IDENT? ==> !inner[1].kind.COLON?)
    ensures Inside(ts, s) && end == Past(s, Print(e, 0)) && ExprAt(ts, s) == Out(e, end)
    ensures Here(ts, end.at, [Op(LBRACE)] + (inner + ([Op(RBRACE)] + rest)))
  {
    hide ValidTokens, Here, Print, BinaryAt, StructAhead, IsNumeral;
    var all := inner + ([Op(RBRACE)] + rest);
    end := Past(s, Print(e, 0));
    HereConcat(ts, s.at, Print(e, 0), [Op(LBRACE)] + all);
    var next := Take(ts, end, Op(LBRACE), all);
    if inner != [] {
      NoStruct(ts, end.at, all);
    }
    Parses(ts, s, e, 0);
  }

  // ----- blocks -----

  lemma {:induction false} BlockReads(ts: seq<Token>, s: State, b: Block)
    requires ValidTokens(ts) && ValidBlock(b) && ClearBlock(b) && Here(ts, s.at, PrintBlock(b))
    ensures Inside(ts, s) && s.at + |PrintBlock(b)| < |ts|
    ensures Gets(BlockAt(ts, s), b, Past(s, PrintBlock(b)))
    decreases b, 2
  {
    hide ValidTokens, Here, StmtsAt, PrintStmts, Expect, Advance, IsNumeral;
    var inner := PrintStmts(b.statements);
    var next := Take(ts, s, Op(LBRACE), inner + [Op(RBRACE)]);
    HereConcat(ts, next.at, inner, [Op(RBRACE)]);
    var last := TakeLast(ts, Past(next, inner), Op(RBRACE));
    StmtsRead(ts, next, b.statements, []);
    assert [] + b.statements == b.statements;
  }

  lemma {:induction false} StmtsEnd(ts: seq<Token>, s: State, done: seq<Stmt>)
    requires ValidTokens(ts) && Inside(ts, s) && KindAt(ts, s).RBRACE?
    ensures Gets(StmtsAt(ts, s, done), done, s)
  {
    hide ValidTokens, StmtAt;
  }

  lemma {:induction false} StmtsStep(ts: seq<Token>, s: State, stmt: Stmt, next: State, done: seq<Stmt>)
    requires ValidTokens(ts) && Inside(ts, s) && !KindAt(ts, s).RBRACE? && !KindAt(ts, s).EOF?
    requires Gets(StmtAt(ts, s), stmt, next) && Inside(ts, next) && StmtsAt(ts, next, done + [stmt]).Got?
    ensures var all := StmtsAt(ts, next, done + [stmt]);
      Gets(StmtsAt(ts, s, done), all.value, all.state)
  {
    hide ValidTokens, StmtAt;
  }

  lemma {:induction false} StmtsRead(ts: seq<Token>, s: State, ss: seq<Stmt>, done: seq<Stmt>)
    requires ValidTokens(ts) && forall i | 0 <= i < |ss| :: ValidStmt(ss[i]) && ClearStmt(ss[i])
    requires Here(ts, s.at, PrintStmts(ss))
    requires s.at + |PrintStmts(ss)| < |ts| && ts[s.at + |PrintStmts(ss)|].kind.RBRACE?
    ensures Inside(ts, s) && Gets(StmtsAt(ts, s, done), done + ss, Past(s, PrintStmts(ss)))
    decreases ss, 1
  {
    hide ValidTokens, Here, StmtAt, PrintStmt, ValidStmt, ClearStmt, IsNumeral, StmtsAt;
    if ss == [] {
      assert done + ss == done;
      StmtsEnd(ts, s, done);
    } else {
      var one, more := PrintStmt(ss[0]), PrintStmts(ss[1..]);
      var next := Past(s, one);
      HereConcat(ts, s.at, one, more);
      StmtBegins(ss[0]);
      FirstHere(ts, s.at, one);
      if |ss| > 1 {
        StmtsBegin(ss[1..]);
        FirstHere(ts, next.at, more);
      }
      StmtReads(ts, s, ss[0]);
      StmtsRead(ts, next, ss[1..], done + [ss[0]]);
      FirstOver(done, ss);
      StmtsStep(ts, s, ss[0], next, done);
    }
  }

  lemma {:induction false} StmtReads(ts: seq<Token>, s: State, stmt: Stmt)
    requires ValidTokens(ts) && ValidStmt(stmt) && ClearStmt(stmt) && Here(ts, s.at, PrintStmt(stmt))
    requires s.at + |PrintStmt(stmt)| < |ts| && !ts[s.at + |PrintStmt(stmt)|].kind.ELSE?
    ensures Inside(ts, s) && Gets(StmtAt(ts, s), stmt, Past(s, PrintStmt(stmt)))
    decreases stmt, 1
  {
    hide ValidTokens, Here, PrintStmt, ValidStmt, ClearStmt, IfAt, WhileAt, MatchAt, LetAt, ReturnAt, ExprStmtAt,
      AssignAt, FieldAssignAt, Peek, IsNumeral;
    match stmt
    case LetStmt(_, _, _, _) => LetReads(ts, s, stmt);
    case AssignStmt(_, _) => AssignReads(ts, s, stmt);
    case FieldAssignStmt(_, _, _) => FieldAssignReads(ts, s, stmt);
    case IfStmt(_, _, _) => IfReads(ts, s, stmt);
    case WhileStmt(_, _) => WhileReads(ts, s, stmt);
    case MatchStmt(_, _) => MatchReads(ts, s, stmt);
    case ReturnStmt(_) => ReturnReads(ts, s, stmt);
    case ExprStmt(_) => ExprStmtReads(ts, s, stmt);
  }

  /** A block behind a condition. */
  lemma {:induction false} BlockShape(b: Block)
    requires ValidBlock(b)
    ensures var inner := PrintStmts(b.statements);
      && PrintBlock(b) == [Op(LBRACE)] + (inner + [Op(RBRACE)])
      && (inner == [] <==> b.statements == [])
      && (inner != [] ==> |inner| > 1 && !inner[0].kind.RBRACE? && (inner[0].kind.IDENT? ==> !inner[1].kind.COLON?))
  {
    hide PrintStmts, ValidStmt;
    if b.statements == [] {
      assert PrintStmts([]) == [] by { NoStmts(); }
    } else {
      StmtsBegin(b.statements);
    }
  }

  lemma {:induction false} NoStmts()
    ensures PrintStmts([]) == []
  {
  }

  lemma {:induction false} Regroup(inner: seq<Token>, rest: seq<Token>)
    ensures ([Op(LBRACE)] + (inner + [Op(RBRACE)])) + rest == [Op(LBRACE)] + (inner + ([Op(RBRACE)] + rest))
  {
  }

  lemma {:induction false} ConditionAndBlock(ts: seq<Token>, s: State, e: Expr, b: Block, rest: seq<Token>) returns (end: State)
    requires ValidTokens(ts) && ValidExpr(e) && ValidBlock(b) && Clear(e, b.statements == [])
    requires Here(ts, s.at, Print(e, 0) + (PrintBlock(b) + rest))
    ensures Inside(ts, s) && end == Past(s, Print(e, 0)) && ExprAt(ts, s) == Out(e, end)
    ensures Here(ts, end.at, PrintBlock(b)) && Here(ts, end.at + |PrintBlock(b)|, rest)
  {
    hide ValidTokens, Here, Print, PrintBlock, ExprAt, ValidBlock, IsNumeral;
    BlockShape(b);
    Regroup(PrintStmts(b.statements), rest);
    end := ConditionReads(ts, s, e, PrintStmts(b.statements), rest);
    HereConcat(ts, end.at, PrintBlock(b), rest);
  }

  lemma {:induction false} WhileReads(ts: seq<Token>, s: State, stmt: Stmt)
    requires ValidTokens(ts) && stmt.WhileStmt? && ValidStmt(stmt) && ClearStmt(stmt) && Here(ts, s.at, PrintStmt(stmt))
    ensures Inside(ts, s) && KindAt(ts, s).WHILE?
    ensures Gets(WhileAt(ts, s), stmt, Past(s, PrintStmt(stmt)))
    decreases stmt, 0
  {
    hide ValidTokens, Here, Print, PrintBlock, ExprAt, ValidBlock, ClearBlock, BlockAt, Expect, Advance, IsNumeral;
    var next := Take(ts, s, Op(WHILE), Print(stmt.condition, 0) + PrintBlock(stmt.body));
    assert PrintBlock(stmt.body) + [] == PrintBlock(stmt.body);
    var end := ConditionAndBlock(ts, next, stmt.condition, stmt.body, []);
    BlockReads(ts, end, stmt.body);
  }

  lemma {:induction false} IfReads(ts: seq<Token>, s: State, stmt: Stmt)
    requires ValidTokens(ts) && stmt.IfStmt? && ValidStmt(stmt) && ClearStmt(stmt) && Here(ts, s.at, PrintStmt(stmt))
    requires s.at + |PrintStmt(stmt)| < |ts| && !ts[s.at + |PrintStmt(stmt)|].kind.ELSE?
    ensures Inside(ts, s) && KindAt(ts, s).IF?
    ensures Gets(IfAt(ts, s), stmt, Past(s, PrintStmt(stmt)))
    decreases stmt, 0
  {
    hide ValidTokens, Here, Print, PrintBlock, ExprAt, ValidBlock, ClearBlock, BlockAt, Expect, Advance, PrintStmt,
      ValidStmt, ClearStmt, PrintElse, Clear, ValidExpr, IsNumeral;
    IfShape(stmt);
    var last := PrintElse(stmt.elseBlock);
    var next := Take(ts, s, Op(IF), Print(stmt.condition, 0) + (PrintBlock(stmt.thenBlock) + last));
    var end := ConditionAndBlock(ts, next, stmt.condition, stmt.thenBlock, last);
    BlockReads(ts, end, stmt.thenBlock);
    if stmt.elseBlock != [] {
      var behind := Take(ts, Past(end, PrintBlock(stmt.thenBlock)), Op(ELSE), PrintBlock(stmt.elseBlock[0]));
      BlockReads(ts, behind, stmt.elseBlock[0]);
    }
  }

  lemma {:induction false} MatchStep(ts: seq<Token>, s: State, stmt: Stmt, next: State, end: State, open: State, close: State, last: State)
    requires ValidTokens(ts) && Inside(ts, s) && Inside(ts, next) && Inside(ts, end) && Inside(ts, open) && Inside(ts, close)
    requires stmt.MatchStmt? && KindAt(ts, s).MATCH? && Expect(ts, s, MATCH).state == next
    requires ExprAt(ts, next) == Out(stmt.scrutinee, end) && Expect(ts, end, LBRACE).state == open
    requires Gets(ArmsAt(ts, open, []), stmt.arms, close) && Expect(ts, close, RBRACE).state == last
    ensures Gets(MatchAt(ts, s), stmt, last)
  {
    hide ValidTokens, ExprAt, ArmsAt, Expect;
  }

  /** The arms and the brace behind them. */
  lemma {:induction false} AllArmsRead(ts: seq<Token>, s: State, arms: seq<Arm>) returns (last: State)
    requires ValidTokens(ts) && Here(ts, s.at, PrintArms(arms) + [Op(RBRACE)])
    requires forall i | 0 <= i < |arms| :: ValidPattern(arms[i].pattern) && ValidBlock(arms[i].block) && ClearBlock(arms[i].block)
    ensures var close := Past(s, PrintArms(arms));
      && Inside(ts, s) && Inside(ts, close) && Gets(ArmsAt(ts, s, []), arms, close)
      && Expect(ts, close, RBRACE).state == last == close.(at := close.at + 1)
    decreases arms, 2
  {
    hide ValidTokens, Here, PrintArms, ArmsAt, ValidBlock, ClearBlock, ValidPattern, Expect, Advance, IsNumeral;
    HereConcat(ts, s.at, PrintArms(arms), [Op(RBRACE)]);
    last := TakeLast(ts, Past(s, PrintArms(arms)), Op(RBRACE));
    ArmsRead(ts, s, arms, []);
    assert [] + arms == arms;
  }

  lemma {:induction false} MatchReads(ts: seq<Token>, s: State, stmt: Stmt)
    requires ValidTokens(ts) && stmt.MatchStmt? && ValidStmt(stmt) && ClearStmt(stmt) && Here(ts, s.at, PrintStmt(stmt))
    ensures Inside(ts, s) && KindAt(ts, s).MATCH?
    ensures Gets(MatchAt(ts, s), stmt, Past(s, PrintStmt(stmt)))
    decreases stmt, 0
  {
    hide ValidTokens, Here, Print, PrintArms, ExprAt, ValidBlock, ClearBlock, ArmsAt, Expect, Advance, ValidPattern,
      PrintStmt, ValidStmt, ClearStmt, ValidExpr, IsNumeral, MatchAt;
    MatchShape(stmt);
    var arms := PrintArms(stmt.arms);
    var next := Take(ts, s, Op(MATCH), Print(stmt.scrutinee, 0) + ([Op(LBRACE)] + (arms + [Op(RBRACE)])));
    ArmsShape(stmt.arms);
    assert [Op(RBRACE)] + [] == [Op(RBRACE)];
    var end := ConditionReads(ts, next, stmt.scrutinee, arms, []);
    var open := Take(ts, end, Op(LBRACE), arms + [Op(RBRACE)]);
    var close := Past(open, arms);
    var last := AllArmsRead(ts, open, stmt.arms);
    MatchStep(ts, s, stmt, next, end, open, close, last);
  }

  lemma {:induction false} ArmsShape(arms: seq<Arm>)
    ensures PrintArms(arms) == [] <==> arms == []
    ensures var p := PrintArms(arms);
      p != [] ==> |p| > 1 && p[0].kind in {IDENT, MINUS, INT} && (p[0].kind.IDENT? ==> !p[1].kind.COLON?)
  {
    hide PrintArm;
    if arms != [] {
      ArmsBegin(arms);
    }
  }

  lemma {:induction false} ArmsEnd(ts: seq<Token>, s: State, done: seq<Arm>)
    requires ValidTokens(ts) && Inside(ts, s) && KindAt(ts, s).RBRACE?
    ensures Gets(ArmsAt(ts, s, done), done, s)
  {
    hide ValidTokens, ArmAt;
  }

  lemma {:induction false} ArmsStep(ts: seq<Token>, s: State, arm: Arm, end: State, done: seq<Arm>)
    requires ValidTokens(ts) && Inside(ts, s) && !KindAt(ts, s).RBRACE? && !KindAt(ts, s).EOF?
    requires Gets(ArmAt(ts, s), arm, end) && Inside(ts, end)
    ensures !KindAt(ts, end).COMMA? ==> Gets(ArmsAt(ts, s, done), done + [arm], end)
    ensures var all := ArmsAt(ts, Advance(ts, end), done + [arm]);
      KindAt(ts, end).COMMA? && all.Got? ==> Gets(ArmsAt(ts, s, done), all.value, all.state)
  {
    hide ValidTokens, ArmAt;
  }

  lemma {:induction false} ArmsRead(ts: seq<Token>, s: State, arms: seq<Arm>, done: seq<Arm>)
    requires ValidTokens(ts) && Here(ts, s.at, PrintArms(arms))
    requires forall i | 0 <= i < |arms| :: ValidPattern(arms[i].pattern) && ValidBlock(arms[i].block) && ClearBlock(arms[i].block)
    requires s.at + |PrintArms(arms)| < |ts| && ts[s.at + |PrintArms(arms)|].kind.RBRACE?
    ensures Inside(ts, s) && Gets(ArmsAt(ts, s, done), done + arms, Past(s, PrintArms(arms)))
    decreases arms, 1
  {
    hide ValidTokens, Here, ArmAt, ArmsAt, PrintArm, ValidPattern, ValidBlock, ClearBlock, Advance, IsNumeral;
    if arms == [] {
      assert done + arms == done;
      ArmsEnd(ts, s, done);
    } else {
      ArmsShape(arms);
      FirstHere(ts, s.at, PrintArms(arms));
      var end := Past(s, PrintArm(arms[0]));
      if |arms| == 1 {
        ArmReads(ts, s, arms[0]);
        assert done + [arms[0]] == done + arms;
        ArmsStep(ts, s, arms[0], end, done);
      } else {
        FirstOfMany(ts, s, PrintArm(arms[0]), PrintArms(arms[1..]));
        ArmReads(ts, s, arms[0]);
        ArmsRead(ts, end.(at := end.at + 1), arms[1..], done + [arms[0]]);
        FirstOver(done, arms);
        ArmsStep(ts, s, arms[0], end, done);
      }
    }
  }

  lemma {:induction false} ArmReads(ts: seq<Token>, s: State, arm: Arm)
    requires ValidTokens(ts) && Here(ts, s.at, PrintArm(arm))
    requires ValidPattern(arm.pattern) && ValidBlock(arm.block) && ClearBlock(arm.block)
    ensures Inside(ts, s) && Gets(ArmAt(ts, s), arm, Past(s, PrintArm(arm)))
    decreases arm, 0
  {
    hide ValidTokens, Here, PatternAt, BlockAt, PrintPattern, PrintBlock, ValidPattern, ValidBlock, ClearBlock, Expect,
      Advance, IsNumeral;
    HereConcat(ts, s.at, PrintPattern(arm.pattern), [Op(FAT_ARROW)] + PrintBlock(arm.block));
    var next := Take(ts, Past(s, PrintPattern(arm.pattern)), Op(FAT_ARROW), PrintBlock(arm.block));
    PatternReads(ts, s, arm.pattern);
    BlockReads(ts, next, arm.block);
  }

  // ----- audits -----

  lemma {:induction false} NamesRead(ts: seq<Token>, s: State, names: seq<string>, done: seq<string>)
    requires ValidTokens(ts) && names != [] && Here(ts, s.at, PrintNames(names))
    requires s.at + |PrintNames(names)| < |ts| && ts[s.at + |PrintNames(names)|].kind.RPAREN?
    ensures Inside(ts, s) && KindAt(ts, s).IDENT?
    ensures NamesAt(ts, s, done) == Out(done + names, Past(s, PrintNames(names)))
    decreases names
  {
    hide ValidTokens, Here, Expect, Advance, IsNumeral;
    if |names| == 1 {
      var next := TakeLast(ts, s, Ident(names[0]));
      assert done + [names[0]] == done + names;
    } else {
      FirstOfMany(ts, s, [Ident(names[0])], PrintNames(names[1..]));
      var next := TakeLast(ts, s, Ident(names[0]));
      NamesRead(ts, next.(at := next.at + 1), names[1..], done + [names[0]]);
      FirstOver(done, names);
    }
  }

  /** The parenthesis and the semicolon at the end of a clause. */
  lemma {:induction false} ClauseEnds(ts: seq<Token>, s: State) returns (end: State)
    requires ValidTokens(ts) && Here(ts, s.at, [Op(RPAREN)] + [Op(SEMI)])
    ensures end == s.(at := s.at + 2) && Inside(ts, s) && Inside(ts, end) && KindAt(ts, s).RPAREN?
    ensures Inside(ts, Expect(ts, s, RPAREN).state) && Expect(ts, Expect(ts, s, RPAREN).state, SEMI).state == end
  {
    hide ValidTokens, Here, Expect, Advance, IsNumeral;
    var next := Take(ts, s, Op(RPAREN), [Op(SEMI)]);
    end := TakeLast(ts, next, Op(SEMI));
  }

  lemma {:induction false} ClauseNamed(ts: seq<Token>, s: State, clause: string, rest: seq<Token>) returns (next: State)
    requires ValidTokens(ts) && Here(ts, s.at, [Ident(clause)] + ([Op(LPAREN)] + rest))
    ensures Inside(ts, s) && ClauseNameAt(ts, s, clause).value
    ensures Expect(ts, ClauseNameAt(ts, s, clause).state, LPAREN).state == next == s.(at := s.at + 2)
    ensures Here(ts, next.at, rest)
  {
    hide ValidTokens, Here, Expect, Advance, IsNumeral;
    var open := Take(ts, s, Ident(clause), [Op(LPAREN)] + rest);
    next := Take(ts, open, Op(LPAREN), rest);
  }

  lemma {:induction false} IntentReads(ts: seq<Token>, s: State, intent: string)
    requires ValidTokens(ts) && Here(ts, s.at, PrintIntent(intent))
    ensures Inside(ts, s) && IntentAt(ts, s) == Out(intent, Past(s, PrintIntent(intent)))
  {
    hide ValidTokens, Here, Expect, Advance, ClauseNameAt, IsNumeral;
    var text := Token(STRING, intent);
    var next := ClauseNamed(ts, s, "intent", [text] + ([Op(RPAREN)] + [Op(SEMI)]));
    next := Take(ts, next, text, [Op(RPAREN)] + [Op(SEMI)]);
    var end := ClauseEnds(ts, next);
  }

  lemma {:induction false} ClauseReads(ts: seq<Token>, s: State, clause: string, names: seq<string>)
    requires ValidTokens(ts) && Here(ts, s.at, PrintClause(clause, names))
    ensures Inside(ts, s) && NameListAt(ts, s, clause) == Out(names, Past(s, PrintClause(clause, names)))
  {
    hide ValidTokens, Here, Expect, Advance, ClauseNameAt, NamesAt, IsNumeral;
    var printed := PrintNames(names);
    var next := ClauseNamed(ts, s, clause, printed + ([Op(RPAREN)] + [Op(SEMI)]));
    HereConcat(ts, next.at, printed, [Op(RPAREN)] + [Op(SEMI)]);
    var end := ClauseEnds(ts, Past(next, printed));
    if names == [] {
      assert Past(next, printed) == next;
    } else {
      NamesRead(ts, next, names, []);
      assert [] + names == names;
    }
  }

  lemma {:induction false} AuditReads(ts: seq<Token>, s: State, a: Audit)
    requires ValidTokens(ts) && Here(ts, s.at, PrintAudit(Some(a)))
    ensures Inside(ts, s) && KindAt(ts, s).AUDIT? && AuditAt(ts, s) == Out(a, Past(s, PrintAudit(Some(a))))
  {
    hide ValidTokens, Here, Expect, Advance, PrintIntent, PrintClause, IntentAt, NameListAt, IsNumeral;
    var intent, mutates, effects := PrintIntent(a.intent), PrintClause("mutates", a.mutates), PrintClause("effects", a.effects);
    var next := Take(ts, s, Op(AUDIT), [Op(LBRACE)] + (intent + (mutates + (effects + [Op(RBRACE)]))));
    next := Take(ts, next, Op(LBRACE), intent + (mutates + (effects + [Op(RBRACE)])));
    HereConcat(ts, next.at, intent, mutates + (effects + [Op(RBRACE)]));
    IntentReads(ts, next, a.intent);
    next := Past(next, intent);
    HereConcat(ts, next.at, mutates, effects + [Op(RBRACE)]);
    ClauseReads(ts, next, "mutates", a.mutates);
    next := Past(next, mutates);
    HereConcat(ts, next.at, effects, [Op(RBRACE)]);
    ClauseReads(ts, next, "effects", a.effects);
    var end := TakeLast(ts, Past(next, effects), Op(RBRACE));
  }

  // ----- items -----

  lemma {:induction false} ParamReads(ts: seq<Token>, s: State, p: Param)
    requires ValidTokens(ts) && ValidType(p.typ) && Here(ts, s.at, PrintParam(p))
    requires s.at + |PrintParam(p)| < |ts| && !ts[s.at + |PrintParam(p)|].kind.LT?
    ensures Inside(ts, s) && KindAt(ts, s).IDENT? && TypedNameAt(ts, s) == Out(p, Past(s, PrintParam(p)))
  {
    hide ValidTokens, Here, Expect, Advance, TypeAt, PrintType, IsNumeral;
    var next := Take(ts, s, Ident(p.name), [Op(COLON)] + PrintType(p.typ));
    next := Take(ts, next, Op(COLON), PrintType(p.typ));
    TypeReads(ts, next, p.typ);
  }

  lemma {:induction false} ParamStep(ts: seq<Token>, s: State, close: Kind, param: Param, end: State, done: seq<Param>)
    requires ValidTokens(ts) && Inside(ts, s) && Inside(ts, end) && TypedNameAt(ts, s) == Out(param, end)
    ensures !KindAt(ts, end).COMMA? ==> MoreTypedNames(ts, s, close, done) == Out(done + [param], end)
    ensures KindAt(ts, end).COMMA? && KindAt(ts, Advance(ts, end)) != close ==>
              MoreTypedNames(ts, s, close, done) == MoreTypedNames(ts, Advance(ts, end), close, done + [param])
  {
    hide ValidTokens, TypedNameAt;
  }

  lemma {:induction false} MoreParamsRead(ts: seq<Token>, s: State, close: Kind, params: seq<Param>, done: seq<Param>)
    requires ValidTokens(ts) && params != [] && ValidParams(params) && Here(ts, s.at, PrintParams(params))
    requires close.RPAREN? || close.RBRACE?
    requires s.at + |PrintParams(params)| < |ts| && ts[s.at + |PrintParams(params)|].kind == close
    ensures Inside(ts, s) && KindAt(ts, s).IDENT?
    ensures MoreTypedNames(ts, s, close, done) == Out(done + params, Past(s, PrintParams(params)))
    decreases params
  {
    hide ValidTokens, Here, Advance, TypedNameAt, PrintParam, IsNumeral, ValidType, MoreTypedNames;
    var end := Past(s, PrintParam(params[0]));
    if |params| == 1 {
      ParamReads(ts, s, params[0]);
      assert done + [params[0]] == done + params;
      ParamStep(ts, s, close, params[0], end, done);
    } else {
      FirstOfMany(ts, s, PrintParam(params[0]), PrintParams(params[1..]));
      ParamReads(ts, s, params[0]);
      MoreParamsRead(ts, end.(at := end.at + 1), close, params[1..], done + [params[0]]);
      FirstOver(done, params);
      ParamStep(ts, s, close, params[0], end, done);
    }
  }

  lemma {:induction false} ParamsRead(ts: seq<Token>, s: State, close: Kind, params: seq<Param>)
    requires ValidTokens(ts) && ValidParams(params) && Here(ts, s.at, PrintParams(params))
    requires close.RPAREN? || close.RBRACE?
    requires s.at + |PrintParams(params)| < |ts| && ts[s.at + |PrintParams(params)|].kind == close
    ensures Inside(ts, s) && TypedNamesAt(ts, s, close) == Out(params, Past(s, PrintParams(params)))
  {
    hide ValidTokens, Here, MoreTypedNames, ValidParams, IsNumeral;
    if params == [] {
      assert Past(s, PrintParams(params)) == s;
    } else {
      MoreParamsRead(ts, s, close, params, []);
      assert [] + params == params;
    }
  }

  lemma {:induction false} UseReads(ts: seq<Token>, s: State, item: Item)
    requires ValidTokens(ts) && item.UseDecl? && Here(ts, s.at, PrintDecl(item))
    ensures Inside(ts, s) && KindAt(ts, s).USE? && UseAt(ts, s) == Out(item, Past(s, PrintDecl(item)))
  {
    hide ValidTokens, Here, Expect, Advance, IsNumeral;
    var next := Take(ts, s, Op(USE), [Ident(item.name)] + [Op(SEMI)]);
    next := Take(ts, next, Ident(item.name), [Op(SEMI)]);
    var end := TakeLast(ts, next, Op(SEMI));
  }

  lemma {:induction false} SignatureStep(ts: seq<Token>, s: State, sig: Signature, next: State, named: State, open: State, close: State)
    requires ValidTokens(ts) && Inside(ts, s) && Inside(ts, next) && Inside(ts, named) && Inside(ts, open) && Inside(ts, close)
    requires KindAt(ts, s).FN? && Expect(ts, s, FN).state == next && Expect(ts, next, IDENT) == Out(Ident(sig.name), named)
    requires Expect(ts, named, LPAREN).state == open && TypedNamesAt(ts, open, RPAREN) == Out(sig.params, close)
    requires Inside(ts, Expect(ts, close, RPAREN).state) && Inside(ts, Expect(ts, Expect(ts, close, RPAREN).state, ARROW).state)
    requires TypeAt(ts, Expect(ts, Expect(ts, close, RPAREN).state, ARROW).state).value == sig.result
    ensures SignatureAt(ts, s) == Out(sig, TypeAt(ts, Expect(ts, Expect(ts, close, RPAREN).state, ARROW).state).state)
  {
    hide ValidTokens, Expect, TypedNamesAt, TypeAt;
  }

  lemma {:induction false} SignatureReads(ts: seq<Token>, s: State, sig: Signature)
    requires ValidTokens(ts) && ValidParams(sig.params) && ValidType(sig.result) && Here(ts, s.at, PrintSignature(sig))
    requires s.at + |PrintSignature(sig)| < |ts| && !ts[s.at + |PrintSignature(sig)|].kind.LT?
    ensures Inside(ts, s) && KindAt(ts, s).FN? && SignatureAt(ts, s) == Out(sig, Past(s, PrintSignature(sig)))
  {
    hide ValidTokens, Here, Expect, Advance, PrintParams, PrintType, TypedNamesAt, TypeAt, ValidParams, ValidType, IsNumeral,
      SignatureAt;
    var params, result := PrintParams(sig.params), PrintType(sig.result);
    var last := [Op(RPAREN)] + ([Op(ARROW)] + result);
    var next := Take(ts, s, Op(FN), [Ident(sig.name)] + ([Op(LPAREN)] + (params + last)));
    var named := Take(ts, next, Ident(sig.name), [Op(LPAREN)] + (params + last));
    var open := Take(ts, named, Op(LPAREN), params + last);
    HereConcat(ts, open.at, params, last);
    var close := Past(open, params);
    ResultReads(ts, close, sig.result);
    ParamsRead(ts, open, RPAREN, sig.params);
    SignatureStep(ts, s, sig, next, named, open, close);
  }

  /** From the closing parenthesis of the parameters on. */
  lemma {:induction false} ResultReads(ts: seq<Token>, s: State, result: TypeExpr)
    requires ValidTokens(ts) && ValidType(result) && Here(ts, s.at, [Op(RPAREN)] + ([Op(ARROW)] + PrintType(result)))
    requires s.at + 2 + |PrintType(result)| < |ts| && !ts[s.at + 2 + |PrintType(result)|].kind.LT?
    ensures Inside(ts, s) && KindAt(ts, s).RPAREN? && Inside(ts, Expect(ts, s, RPAREN).state)
    ensures Inside(ts, Expect(ts, Expect(ts, s, RPAREN).state, ARROW).state)
    ensures TypeAt(ts, Expect(ts, Expect(ts, s, RPAREN).state, ARROW).state) == Out(result, s.(at := s.at + 2 + |PrintType(result)|))
  {
    hide ValidTokens, Here, Expect, Advance, PrintType, TypeAt, ValidType, IsNumeral;
    var next := Take(ts, s, Op(RPAREN), [Op(ARROW)] + PrintType(result));
    next := Take(ts, next, Op(ARROW), PrintType(result));
    TypeReads(ts, next, result);
  }

  /** A function from its first keyword on. */
  lemma {:induction false} FunctionReads(ts: seq<Token>, s: State, item: Item)
    requires ValidTokens(ts) && item.FunctionDecl? && ValidItem(item) && ClearItem(item) && Here(ts, s.at, PrintDecl(item))
    ensures Inside(ts, s) && KindAt(ts, s).FN?
    ensures Gets(FunctionAt(ts, s, item.public), item, Past(s, PrintDecl(item)))
  {
    hide ValidTokens, Here, PrintSignature, PrintBlock, PrintAudit, SignatureAt, AuditAt, BlockAt, ValidBlock,
      ClearBlock, ValidParams, ValidType, FunctionAt, IsNumeral;
    var sig := Signature(item.name, item.params, item.result);
    var middle := Past(s, PrintSignature(sig));
    HereConcat(ts, s.at, PrintSignature(sig), PrintAudit(item.audit) + PrintBlock(item.body));
    HereConcat(ts, middle.at, PrintAudit(item.audit), PrintBlock(item.body));
    AuditAndBody(ts, middle, item.audit, item.body);
    SignatureReads(ts, s, sig);
    FunctionStep(ts, s, item, sig, middle);
  }

  lemma {:induction false} FunctionStep(ts: seq<Token>, s: State, item: Item, sig: Signature, middle: State)
    requires ValidTokens(ts) && Inside(ts, s) && KindAt(ts, s).FN? && Inside(ts, middle)
    requires item.FunctionDecl? && sig == Signature(item.name, item.params, item.result)
    requires SignatureAt(ts, s) == Out(sig, middle) && (item.audit.Some? <==> KindAt(ts, middle).AUDIT?)
    requires item.audit.Some? ==> AuditAt(ts, middle).value == item.audit.value
    requires var last := if item.audit.Some? then AuditAt(ts, middle).state else middle;
             Inside(ts, last) && BlockAt(ts, last).Got? && BlockAt(ts, last).value == item.body
    ensures var last := if item.audit.Some? then AuditAt(ts, middle).state else middle;
            Gets(FunctionAt(ts, s, item.public), item, BlockAt(ts, last).state)
  {
    hide ValidTokens, SignatureAt, AuditAt, BlockAt;
  }

  /** The audit block, if there is one, and the body. */
  lemma {:induction false} AuditAndBody(ts: seq<Token>, s: State, audit: Option<Audit>, body: Block)
    requires ValidTokens(ts) && ValidBlock(body) && ClearBlock(body)
    requires Here(ts, s.at, PrintAudit(audit)) && Here(ts, s.at + |PrintAudit(audit)|, PrintBlock(body))
    ensures Inside(ts, s) && KindAt(ts, s) == if audit.Some? then AUDIT else LBRACE
    ensures var last := Past(s, PrintAudit(audit));
      && (audit.Some? ==> AuditAt(ts, s) == Out(audit.value, last)) && (audit.None? ==> last == s)
      && Inside(ts, last) && Gets(BlockAt(ts, last), body, Past(last, PrintBlock(body)))
  {
    hide ValidTokens, Here, AuditAt, BlockAt, PrintBlock, ValidBlock, ClearBlock, IsNumeral;
    AuditOrBody(ts, s, audit, body);
    BlockReads(ts, Past(s, PrintAudit(audit)), body);
  }

  lemma {:induction false} BodyBegins(b: Block)
    ensures PrintBlock(b) != [] && PrintBlock(b)[0] == Op(LBRACE)
  {
  }

  lemma {:induction false} AuditOrBody(ts: seq<Token>, s: State, audit: Option<Audit>, body: Block)
    requires ValidTokens(ts) && Here(ts, s.at, PrintAudit(audit)) && Here(ts, s.at + |PrintAudit(audit)|, PrintBlock(body))
    ensures Inside(ts, s) && KindAt(ts, s) == if audit.Some? then AUDIT else LBRACE
    ensures audit.Some? ==> AuditAt(ts, s) == Out(audit.value, Past(s, PrintAudit(audit)))
  {
    hide ValidTokens, Here, AuditAt, PrintBlock, IsNumeral;
    if audit.Some? {
      AuditReads(ts, s, audit.value);
    } else {
      BodyBegins(body);
      FirstHere(ts, s.at, PrintBlock(body));
    }
  }

  lemma {:induction false} TypeDeclStep(ts: seq<Token>, s: State, item: Item, next: State, named: State, open: State, close: State, end: State)
    requires ValidTokens(ts) && Inside(ts, s) && Inside(ts, next) && Inside(ts, named) && Inside(ts, open) && Inside(ts, close)
    requires item.TypeDecl? && KindAt(ts, s).TYPE? && Expect(ts, s, TYPE).state == next
    requires Expect(ts, next, IDENT) == Out(Ident(item.name), named) && Expect(ts, named, LBRACE).state == open
    requires TypedNamesAt(ts, open, RBRACE) == Out(item.fields, close) && Expect(ts, close, RBRACE).state == end
    ensures TypeDeclAt(ts, s, item.public) == Out(item, end)
  {
    hide ValidTokens, Expect, TypedNamesAt;
  }

  lemma {:induction false} TypeDeclReads(ts: seq<Token>, s: State, item: Item)
    requires ValidTokens(ts) && item.TypeDecl? && ValidItem(item) && Here(ts, s.at, PrintDecl(item))
    ensures Inside(ts, s) && KindAt(ts, s).TYPE?
    ensures TypeDeclAt(ts, s, item.public) == Out(item, Past(s, PrintDecl(item)))
  {
    hide ValidTokens, Here, Expect, Advance, PrintParams, TypedNamesAt, ValidParams, IsNumeral, TypeDeclAt;
    var fields := PrintParams(item.fields);
    var next := Take(ts, s, Op(TYPE), [Ident(item.name)] + ([Op(LBRACE)] + (fields + [Op(RBRACE)])));
    var named := Take(ts, next, Ident(item.name), [Op(LBRACE)] + (fields + [Op(RBRACE)]));
    var open := Take(ts, named, Op(LBRACE), fields + [Op(RBRACE)]);
    HereConcat(ts, open.at, fields, [Op(RBRACE)]);
    var close := Past(open, fields);
    var end := TakeLast(ts, close, Op(RBRACE));
    ParamsRead(ts, open, RBRACE, item.fields);
    TypeDeclStep(ts, s, item, next, named, open, close, end);
  }

  lemma {:induction false} BareVariantStep(ts: seq<Token>, s: State, name: string, end: State)
    requires ValidTokens(ts) && Inside(ts, s) && Inside(ts, end)
    requires Expect(ts, s, IDENT) == Out(Ident(name), end) && !KindAt(ts, end).LPAREN?
    ensures VariantAt(ts, s) == Out(VariantDecl(name, []), end)
  {
    hide ValidTokens, Expect, PayloadsAt;
  }

  lemma {:induction false} VariantStep(ts: seq<Token>, s: State, v: VariantDecl, named: State, open: State, close: State, end: State)
    requires ValidTokens(ts) && Inside(ts, s) && Inside(ts, named) && Inside(ts, open) && Inside(ts, close)
    requires Expect(ts, s, IDENT) == Out(Ident(v.name), named) && KindAt(ts, named).LPAREN? && Advance(ts, named) == open
    requires !KindAt(ts, open).RPAREN? && PayloadsAt(ts, open, []) == Out(v.payloads, close)
    requires Expect(ts, close, RPAREN).state == end
    ensures VariantAt(ts, s) == Out(v, end)
  {
    hide ValidTokens, Expect, Advance, PayloadsAt;
  }

  lemma {:induction false} VariantReads(ts: seq<Token>, s: State, v: VariantDecl)
    requires ValidTokens(ts) && ValidTypes(v.payloads) && Here(ts, s.at, PrintVariant(v))
    requires s.at + |PrintVariant(v)| < |ts| && !ts[s.at + |PrintVariant(v)|].kind.LPAREN?
    ensures Inside(ts, s) && KindAt(ts, s).IDENT? && VariantAt(ts, s) == Out(v, Past(s, PrintVariant(v)))
  {
    hide ValidTokens, Here, Expect, Advance, PrintTypes, PayloadsAt, ValidTypes, IsNumeral, VariantAt;
    if v.payloads == [] {
      assert PrintVariant(v) == [Ident(v.name)];
      var next := TakeLast(ts, s, Ident(v.name));
      BareVariantStep(ts, s, v.name, next);
    } else {
      var payloads := PrintTypes(v.payloads);
      var named := Take(ts, s, Ident(v.name), [Op(LPAREN)] + (payloads + [Op(RPAREN)]));
      var open := Take(ts, named, Op(LPAREN), payloads + [Op(RPAREN)]);
      HereConcat(ts, open.at, payloads, [Op(RPAREN)]);
      var close := Past(open, payloads);
      var end := TakeLast(ts, close, Op(RPAREN));
      TypesBegin(v.payloads);
      FirstHere(ts, open.at, payloads);
      PayloadsRead(ts, open, v.payloads, []);
      assert [] + v.payloads == v.payloads;
      VariantStep(ts, s, v, named, open, close, end);
    }
  }

  lemma {:induction false} VariantsRead(ts: seq<Token>, s: State, vs: seq<VariantDecl>, done: seq<VariantDecl>)
    requires ValidTokens(ts) && vs != [] && (forall i | 0 <= i < |vs| :: ValidTypes(vs[i].payloads))
    requires Here(ts, s.at, PrintVariants(vs))
    requires s.at + |PrintVariants(vs)| < |ts| && ts[s.at + |PrintVariants(vs)|].kind.RBRACE?
    ensures Inside(ts, s) && KindAt(ts, s).IDENT?
    ensures VariantsAt(ts, s, done) == Out(done + vs, Past(s, PrintVariants(vs)))
    decreases vs
  {
    hide ValidTokens, Here, Advance, VariantAt, PrintVariant, ValidTypes, IsNumeral;
    if |vs| == 1 {
      VariantReads(ts, s, vs[0]);
      assert done + [vs[0]] == done + vs;
    } else {
      FirstOfMany(ts, s, PrintVariant(vs[0]), PrintVariants(vs[1..]));
      VariantReads(ts, s, vs[0]);
      VariantsRead(ts, s.(at := s.at + |PrintVariant(vs[0])| + 1), vs[1..], done + [vs[0]]);
      FirstOver(done, vs);
    }
  }

  lemma {:induction false} EnumStep(ts: seq<Token>, s: State, item: Item, next: State, named: State, open: State, close: State, end: State)
    requires ValidTokens(ts) && Inside(ts, s) && Inside(ts, next) && Inside(ts, named) && Inside(ts, open) && Inside(ts, close)
    requires item.EnumDecl? && KindAt(ts, s).ENUM? && Expect(ts, s, ENUM).state == next
    requires Expect(ts, next, IDENT) == Out(Ident(item.name), named) && Expect(ts, named, LBRACE).state == open
    requires AllVariantsAt(ts, open) == Out(item.variants, close) && Expect(ts, close, RBRACE).state == end
    ensures EnumDeclAt(ts, s, item.public) == Out(item, end)
  {
    hide ValidTokens, Expect, AllVariantsAt;
  }

  lemma {:induction false} AllVariantsRead(ts: seq<Token>, s: State, vs: seq<VariantDecl>)
    requires ValidTokens(ts) && (forall i | 0 <= i < |vs| :: ValidTypes(vs[i].payloads)) && Here(ts, s.at, PrintVariants(vs))
    requires s.at + |PrintVariants(vs)| < |ts| && ts[s.at + |PrintVariants(vs)|].kind.RBRACE?
    ensures Inside(ts, s) && AllVariantsAt(ts, s) == Out(vs, Past(s, PrintVariants(vs)))
  {
    hide ValidTokens, Here, PrintVariants, VariantsAt, ValidTypes, IsNumeral;
    if vs == [] {
      NoVariants();
      assert Past(s, []) == s;
    } else {
      VariantsRead(ts, s, vs, []);
      assert [] + vs == vs;
    }
  }

  lemma {:induction false} EnumShape(item: Item)
    requires item.EnumDecl? && ValidItem(item)
    ensures PrintDecl(item) ==
              [Op(ENUM)] + ([Ident(item.name)] + ([Op(LBRACE)] + (PrintVariants(item.variants) + [Op(RBRACE)])))
    ensures forall i | 0 <= i < |item.variants| :: ValidTypes(item.variants[i].payloads)
  {
    hide PrintVariants, ValidTypes;
  }

  lemma {:induction false} EnumReads(ts: seq<Token>, s: State, item: Item)
    requires ValidTokens(ts) && item.EnumDecl? && ValidItem(item) && Here(ts, s.at, PrintDecl(item))
    ensures Inside(ts, s) && KindAt(ts, s).ENUM?
    ensures EnumDeclAt(ts, s, item.public) == Out(item, Past(s, PrintDecl(item)))
  {
    hide ValidTokens, Here, Expect, Advance, PrintVariants, AllVariantsAt, ValidTypes, IsNumeral, EnumDeclAt, PrintDecl,
      ValidItem;
    EnumShape(item);
    var variants := PrintVariants(item.variants);
    var next := Take(ts, s, Op(ENUM), [Ident(item.name)] + ([Op(LBRACE)] + (variants + [Op(RBRACE)])));
    var named := Take(ts, next, Ident(item.name), [Op(LBRACE)] + (variants + [Op(RBRACE)]));
    var open := Take(ts, named, Op(LBRACE), variants + [Op(RBRACE)]);
    HereConcat(ts, open.at, variants, [Op(RBRACE)]);
    var close := Past(open, variants);
    var end := TakeLast(ts, close, Op(RBRACE));
    AllVariantsRead(ts, open, item.variants);
    EnumStep(ts, s, item, next, named, open, close, end);
  }

  lemma {:induction false} NoVariants()
    ensures PrintVariants([]) == []
  {
  }

  lemma {:induction false} DeclReads(ts: seq<Token>, s: State, item: Item)
    requires ValidTokens(ts) && ValidItem(item) && ClearItem(item) && Here(ts, s.at, PrintDecl(item))
    ensures Inside(ts, s) && KindAt(ts, s) in {FN, TYPE, ENUM, USE} && (KindAt(ts, s).USE? <==> item.UseDecl?)
    ensures Gets(ItemFrom(ts, s, Public(item)), Some(item), Past(s, PrintDecl(item)))
  {
    hide ValidTokens, Here, PrintDecl, FunctionAt, TypeDeclAt, EnumDeclAt, UseAt, ValidItem, IsNumeral;
    match item
    case UseDecl(_) => UseReads(ts, s, item);
    case FunctionDecl(_, _, _, _, _, _) => FunctionReads(ts, s, item);
    case TypeDecl(_, _, _) => TypeDeclReads(ts, s, item);
    case EnumDecl(_, _, _) => EnumReads(ts, s, item);
  }

  lemma {:induction false} ItemReads(ts: seq<Token>, s: State, item: Item)
    requires ValidTokens(ts) && ValidItem(item) && ClearItem(item) && Here(ts, s.at, PrintItem(item))
    ensures Inside(ts, s) && !KindAt(ts, s).EOF?
    ensures Gets(ItemAt(ts, s), Some(item), Past(s, PrintItem(item)))
  {
    hide ValidTokens, Here, PrintDecl, ItemFrom, ValidItem, ClearItem, IsNumeral;
    if Public(item) {
      var next := Take(ts, s, Op(PUB), PrintDecl(item));
      DeclReads(ts, next, item);
    } else {
      DeclReads(ts, s, item);
    }
  }

  /** The reports about imports that come late. */
  function Late(items: seq<Item>, seenNonUse: bool): seq<Code> {
    if items == [] then []
    else (if items[0].UseDecl? && seenNonUse then [LateUse] else []) + Late(items[1..], seenNonUse || !items[0].UseDecl?)
  }

  lemma {:induction false} LateNone(items: seq<Item>, seenNonUse: bool)
    ensures Late(items, seenNonUse) == [] <==>
              UsesFirst(items) && (seenNonUse ==> forall i | 0 <= i < |items| :: !items[i].UseDecl?)
  {
    if items != [] {
      LateNone(items[1..], seenNonUse || !items[0].UseDecl?);
      assert forall i | 0 <= i < |items[1..]| :: items[1..][i] == items[i + 1];
      if UsesFirst(items) {
        assert UsesFirst(items[1..]);
      }
      if Late(items, seenNonUse) == [] {
        assert UsesFirst(items[1..]);
        assert items[0].UseDecl? || forall i | 1 <= i < |items| :: !items[i].UseDecl? by {
          if !items[0].UseDecl? {
            forall i | 1 <= i < |items|
              ensures !items[i].UseDecl?
            {
              assert items[i] == items[1..][i - 1];
            }
          }
        }
      }
    }
  }

  lemma {:induction false} ItemsEnd(ts: seq<Token>, s: State, done: seq<Item>, seenNonUse: bool)
    requires ValidTokens(ts) && Inside(ts, s) && KindAt(ts, s).EOF?
    ensures Gets(ItemsAt(ts, s, done, seenNonUse), done, s)
  {
    hide ValidTokens, ItemAt, SyncItemAt;
  }

  lemma {:induction false} ItemsStep(ts: seq<Token>, s: State, item: Item, end: State, next: State, done: seq<Item>, seenNonUse: bool)
    requires ValidTokens(ts) && Inside(ts, s) && !KindAt(ts, s).EOF? && Gets(ItemAt(ts, s), Some(item), end) && Inside(ts, next)
    requires next == (if item.UseDecl? && seenNonUse then Report(end, LateUse) else end)
    requires ItemsAt(ts, next, done + [item], seenNonUse || !item.UseDecl?).Got?
    ensures var all := ItemsAt(ts, next, done + [item], seenNonUse || !item.UseDecl?);
      Gets(ItemsAt(ts, s, done, seenNonUse), all.value, all.state)
  {
    hide ValidTokens, ItemAt, SyncItemAt, Report;
  }

  lemma {:induction false} ItemsRead(ts: seq<Token>, s: State, items: seq<Item>, done: seq<Item>, seenNonUse: bool)
    requires ValidTokens(ts) && ValidProgram(items) && ClearProgram(items)
    requires Here(ts, s.at, PrintItems(items)) && s.at + |PrintItems(items)| == |ts| - 1
    ensures Inside(ts, s)
    ensures Gets(ItemsAt(ts, s, done, seenNonUse), done + items, State(|ts| - 1, s.diags + Late(items, seenNonUse)))
    decreases items
  {
    hide ValidTokens, Here, ItemAt, PrintItem, ValidItem, ClearItem, SyncItemAt, IsNumeral, ItemsAt;
    NotLast(ts, |ts| - 1);
    if items == [] {
      assert done + items == done && s.diags + [] == s.diags;
      ItemsEnd(ts, s, done, seenNonUse);
    } else {
      HereConcat(ts, s.at, PrintItem(items[0]), PrintItems(items[1..]));
      ItemReads(ts, s, items[0]);
      var late := if items[0].UseDecl? && seenNonUse then [LateUse] else [];
      var end := Past(s, PrintItem(items[0]));
      var next := State(end.at, s.diags + late);
      assert s.diags + [] == s.diags;
      ItemsRead(ts, next, items[1..], done + [items[0]], seenNonUse || !items[0].UseDecl?);
      FirstOver(done, items);
      assert s.diags + late + Late(items[1..], seenNonUse || !items[0].UseDecl?) == s.diags + Late(items, seenNonUse);
      ItemsStep(ts, s, items[0], end, next, done, seenNonUse);
    }
  }
}
