/** What is parsed without a report is written by the rules. For every form of the
    grammar: if reading it adds no report, each token that was expected was there, so
    the tokens from the old cursor to the new one are written for the tree, and the
    tree is one that can be printed. */
module ProgramAccepts {
  import opened Numerals
  import opened ParserSyntax
  import opened ExpressionGrammar
  import opened ExpressionRoundTrip
  import opened ProgramGrammar
  import opened ProgramPrint
  import opened ProgramRoundTrip
  import opened ProgramUnclear
  import opened ProgramRules

  /** Nothing was reported on the way. */
  ghost predicate Quiet(before: State, after: State) {
    |before.diags| == |after.diags|
  }

  // ----- taking tokens -----

  lemma {:induction false} Steps(ts: seq<Token>, s: State)
    requires ValidTokens(ts) && Inside(ts, s) && !KindAt(ts, s).EOF?
    ensures Advance(ts, s) == s.(at := s.at + 1) && s.at + 1 < |ts|
  {
    NotLast(ts, s.at);
  }

  /** A token that was expected without a report was there. */
  lemma {:induction false} Taken(ts: seq<Token>, s: State, kind: Kind)
    requires ValidTokens(ts) && Inside(ts, s) && !kind.EOF? && Quiet(s, Expect(ts, s, kind).state)
    ensures KindAt(ts, s) == kind && Expect(ts, s, kind) == Out(ts[s.at], s.(at := s.at + 1)) && s.at + 1 < |ts|
  {
    NotLast(ts, s.at);
  }

  // ----- expressions -----

  lemma {:induction false} ExprDerives(ts: seq<Token>, s: State)
    requires ValidTokens(ts) && Inside(ts, s) && Quiet(s, ExprAt(ts, s).state)
    ensures var o := ExprAt(ts, s); s.at <= o.state.at && ExprRule(ts, s.at, o.state.at, o.value, 0) && ValidExpr(o.value)
    decreases |ts| - s.at, 20
  {
    hide ValidTokens, BinaryAt, ExprRule, ValidExpr;
    BinaryDerives(ts, s, 0);
  }

  lemma {:induction false} BinaryDerives(ts: seq<Token>, s: State, level: nat)
    requires ValidTokens(ts) && Inside(ts, s) && level <= UNARY && Quiet(s, BinaryAt(ts, s, level).state)
    ensures var o := BinaryAt(ts, s, level);
      s.at <= o.state.at && ExprRule(ts, s.at, o.state.at, o.value, level) && ValidExpr(o.value)
    decreases |ts| - s.at, 18 - level
  {
    hide ValidTokens, UnaryAt, MoreOperands, UnaryRule, OperationRule, ValidExpr;
    if level == UNARY {
      UnaryDerives(ts, s);
    } else {
      BinaryDerives(ts, s, level + 1);
      var first := BinaryAt(ts, s, level + 1);
      OperandsDerive(ts, first.state, level, first.value, s.at);
    }
  }

  /** From an operand that began at a position on. */
  lemma {:induction false} OperandsDerive(ts: seq<Token>, s: State, level: nat, left: Expr, a: nat)
    requires ValidTokens(ts) && Inside(ts, s) && level < UNARY && Quiet(s, MoreOperands(ts, s, level, left).state)
    requires a <= s.at && ExprRule(ts, a, s.at, left, level) && ValidExpr(left)
    ensures var o := MoreOperands(ts, s, level, left);
      a <= o.state.at && ExprRule(ts, a, o.state.at, o.value, level) && ValidExpr(o.value)
    decreases |ts| - s.at, 1
  {
    hide ValidTokens, BinaryAt, ExprRule;
    if Rung(KindAt(ts, s)) == level {
      EofIsLast();
      Steps(ts, s);
      var next := Advance(ts, s);
      var right := BinaryAt(ts, next, level + 1);
      BinaryDerives(ts, next, level + 1);
      var e := Binary(left, KindAt(ts, s), right.value);
      Operation(ts, a, s.at, right.state.at, e, level);
      OperandsDerive(ts, right.state, level, e, a);
    }
  }

  lemma {:induction false} Operation(ts: seq<Token>, a: nat, m: nat, b: nat, e: Expr, level: nat)
    requires a <= m < b <= |ts| && level < UNARY && e.Binary? && Rung(e.op) == level && ts[m].kind == e.op
    requires ExprRule(ts, a, m, e.left, level) && ExprRule(ts, m + 1, b, e.right, level + 1)
    ensures ExprRule(ts, a, b, e, level)
  {
    assert OperationRule(ts, a, b, e, level);
  }

  lemma {:induction false} UnaryDerives(ts: seq<Token>, s: State)
    requires ValidTokens(ts) && Inside(ts, s) && Quiet(s, UnaryAt(ts, s).state)
    ensures var o := UnaryAt(ts, s); s.at <= o.state.at && UnaryRule(ts, s.at, o.state.at, o.value) && ValidExpr(o.value)
    decreases |ts| - s.at, 10
  {
    hide ValidTokens, PrimaryAt, MorePostfix, PrimaryRule, CallRule, Advance, Expect;
    var kind := KindAt(ts, s);
    if UnaryOp(kind) {
      Steps(ts, s);
      UnaryDerives(ts, Advance(ts, s));
    } else if kind.REF? || kind.MUTREF? {
      Steps(ts, s);
      Taken(ts, Advance(ts, s), IDENT);
    } else {
      var first := PrimaryAt(ts, s);
      PrimaryDerives(ts, s);
      PostfixDerives(ts, first.state, first.value, s.at);
    }
  }

  lemma {:induction false} PostfixDerives(ts: seq<Token>, s: State, e: Expr, a: nat)
    requires ValidTokens(ts) && Inside(ts, s) && Quiet(s, MorePostfix(ts, s, e).state)
    requires a <= s.at && PostfixRule(ts, a, s.at, e) && ValidExpr(e)
    ensures var o := MorePostfix(ts, s, e); a <= o.state.at && PostfixRule(ts, a, o.state.at, o.value) && ValidExpr(o.value)
    decreases |ts| - s.at, 1
  {
    hide ValidTokens, ArgsAt, PostfixRule, Advance, Expect;
    if KindAt(ts, s).LPAREN? {
      Steps(ts, s);
      var args := ArgsAt(ts, Advance(ts, s));
      ArgsDerive(ts, Advance(ts, s));
      Taken(ts, args.state, RPAREN);
      var close := Expect(ts, args.state, RPAREN);
      CallDerives(ts, a, s.at, close.state.at, Call(e, args.value));
      PostfixDerives(ts, close.state, Call(e, args.value), a);
    } else if KindAt(ts, s).DOT? {
      Steps(ts, s);
      Taken(ts, Advance(ts, s), IDENT);
      var name := Expect(ts, Advance(ts, s), IDENT);
      FieldDerives(ts, a, name.state.at, Field(e, name.value.text));
      PostfixDerives(ts, name.state, Field(e, name.value.text), a);
    }
  }

  lemma {:induction false} CallDerives(ts: seq<Token>, a: nat, m: nat, b: nat, e: Expr)
    requires a <= m < b - 1 && b <= |ts| && e.Call? && PostfixRule(ts, a, m, e.callee) && CallRule(ts, m, b, e.args)
    ensures PostfixRule(ts, a, b, e)
  {
    hide CallRule;
  }

  lemma {:induction false} FieldDerives(ts: seq<Token>, a: nat, b: nat, e: Expr)
    requires a + 2 <= b <= |ts| && e.Field? && ts[b - 2].kind.DOT? && Name(ts, b - 1, e.name)
    requires PostfixRule(ts, a, b - 2, e.base)
    ensures PostfixRule(ts, a, b, e)
  {
  }

  lemma {:induction false} ArgsDerive(ts: seq<Token>, s: State)
    requires ValidTokens(ts) && Inside(ts, s) && Quiet(s, ArgsAt(ts, s).state)
    ensures var o := ArgsAt(ts, s);
      && s.at <= o.state.at && ((o.value == [] && o.state == s) || ArgsRule(ts, s.at, o.state.at, o.value))
      && forall i | 0 <= i < |o.value| :: ValidExpr(o.value[i])
    decreases |ts| - s.at, 22
  {
    hide ValidTokens, MoreArgs, ArgsRule, ValidExpr;
    if !KindAt(ts, s).RPAREN? {
      var args := MoreArgsDerive(ts, s, []);
      assert [] + args == args;
    }
  }

  lemma {:induction false} MoreArgsDerive(ts: seq<Token>, s: State, done: seq<Expr>) returns (args: seq<Expr>)
    requires ValidTokens(ts) && Inside(ts, s) && Quiet(s, MoreArgs(ts, s, done).state)
    ensures var o := MoreArgs(ts, s, done);
      && o.value == done + args && s.at <= o.state.at && ArgsRule(ts, s.at, o.state.at, args)
      && forall i | 0 <= i < |args| :: ValidExpr(args[i])
    decreases |ts| - s.at, 21
  {
    hide ValidTokens, ExprAt, ExprRule, ValidExpr, Advance;
    var e := ExprAt(ts, s);
    ExprDerives(ts, s);
    args := [e.value];
    if KindAt(ts, e.state).COMMA? {
      Steps(ts, e.state);
      var next := Advance(ts, e.state);
      if !KindAt(ts, next).RPAREN? {
        var more := MoreArgsDerive(ts, next, done + [e.value]);
        args := [e.value] + more;
        assert args[1..] == more;
      }
    }
  }

  lemma {:induction false} PrimaryDerives(ts: seq<Token>, s: State)
    requires ValidTokens(ts) && Inside(ts, s) && Quiet(s, PrimaryAt(ts, s).state)
    ensures var o := PrimaryAt(ts, s); s.at <= o.state.at && PrimaryRule(ts, s.at, o.state.at, o.value) && ValidExpr(o.value)
    decreases |ts| - s.at, 9
  {
    hide ValidTokens, ExprAt, FieldsAt, LiteralAt, StructAhead, ExprRule, FieldsRule, Advance, Expect;
    if KindAt(ts, s).IDENT? {
      Steps(ts, s);
      var next := Advance(ts, s);
      if StructAhead(ts, next) {
        Braces(ts, next);
        Steps(ts, next);
        FieldsDerive(ts, Advance(ts, next));
        Taken(ts, FieldsAt(ts, Advance(ts, next)).state, RBRACE);
      }
    } else if KindAt(ts, s).LPAREN? {
      Steps(ts, s);
      ExprDerives(ts, Advance(ts, s));
      Taken(ts, ExprAt(ts, Advance(ts, s)).state, RPAREN);
    } else {
      LiteralDerives(ts, s);
    }
  }

  lemma {:induction false} Braces(ts: seq<Token>, s: State)
    requires Inside(ts, s) && StructAhead(ts, s)
    ensures KindAt(ts, s).LBRACE?
  {
  }

  lemma {:induction false} LiteralDerives(ts: seq<Token>, s: State)
    requires ValidTokens(ts) && Inside(ts, s) && Quiet(s, LiteralAt(ts, s).state)
    ensures var o := LiteralAt(ts, s);
      o.state.at == s.at + 1 && PrimaryRule(ts, s.at, o.state.at, o.value) && ValidExpr(o.value)
  {
    hide ExprRule, ValueOf;
    NotLast(ts, s.at);
  }

  lemma {:induction false} FieldsDerive(ts: seq<Token>, s: State)
    requires ValidTokens(ts) && Inside(ts, s) && Quiet(s, FieldsAt(ts, s).state)
    ensures var o := FieldsAt(ts, s);
      && s.at <= o.state.at && ((o.value == [] && o.state == s) || FieldsRule(ts, s.at, o.state.at, o.value))
      && forall i | 0 <= i < |o.value| :: ValidExpr(o.value[i].value)
    decreases |ts| - s.at, 22
  {
    hide ValidTokens, MoreFields, FieldsRule, ValidExpr;
    if !KindAt(ts, s).RBRACE? {
      var fields := MoreFieldsDerive(ts, s, []);
      assert [] + fields == fields;
    }
  }

  lemma {:induction false} MoreFieldsDerive(ts: seq<Token>, s: State, done: seq<FieldInit>) returns (fields: seq<FieldInit>)
    requires ValidTokens(ts) && Inside(ts, s) && Quiet(s, MoreFields(ts, s, done).state)
    ensures var o := MoreFields(ts, s, done);
      && o.value == done + fields && s.at <= o.state.at && FieldsRule(ts, s.at, o.state.at, fields)
      && forall i | 0 <= i < |fields| :: ValidExpr(fields[i].value)
    decreases |ts| - s.at, 21
  {
    hide ValidTokens, ExprAt, ExprRule, ValidExpr, Advance, Expect;
    var name := Expect(ts, s, IDENT);
    var colon := Expect(ts, name.state, COLON);
    var value := ExprAt(ts, colon.state);
    Taken(ts, s, IDENT);
    Taken(ts, name.state, COLON);
    ExprDerives(ts, colon.state);
    var field := FieldInit(name.value.text, value.value);
    fields := [field];
    if KindAt(ts, value.state).COMMA? {
      Steps(ts, value.state);
      var next := Advance(ts, value.state);
      if !KindAt(ts, next).RBRACE? {
        var more := MoreFieldsDerive(ts, next, done + [field]);
        fields := [field] + more;
        assert fields[1..] == more;
      }
    }
  }

  // ----- types and patterns -----

  lemma {:induction false} TypeDerives(ts: seq<Token>, s: State)
    requires ValidTokens(ts) && Inside(ts, s) && Quiet(s, TypeAt(ts, s).state)
    ensures var o := TypeAt(ts, s); s.at <= o.state.at && TypeRule(ts, s.at, o.state.at, o.value) && ValidType(o.value)
    decreases |ts| - s.at, 2
  {
    hide ValidTokens, NamedTypeAt, NamedTypeRule, Advance;
    if KindAt(ts, s).REF? || KindAt(ts, s).MUTREF? {
      Steps(ts, s);
      NamedTypeDerives(ts, Advance(ts, s));
    } else {
      NamedTypeDerives(ts, s);
    }
  }

  lemma {:induction false} NamedTypeDerives(ts: seq<Token>, s: State)
    requires ValidTokens(ts) && Inside(ts, s) && Quiet(s, NamedTypeAt(ts, s).state)
    ensures var o := NamedTypeAt(ts, s);
      s.at <= o.state.at && o.value.NamedType? && NamedTypeRule(ts, s.at, o.state.at, o.value) && ValidType(o.value)
    decreases |ts| - s.at, 1
  {
    hide ValidTokens, TypeArgsAt, TypesRule, Advance, Expect;
    Taken(ts, s, IDENT);
    var name := Expect(ts, s, IDENT);
    if KindAt(ts, name.state).LT? {
      Steps(ts, name.state);
      var open := Advance(ts, name.state);
      var args := TypeArgsDerive(ts, open, []);
      assert [] + args == args;
      Taken(ts, TypeArgsAt(ts, open, []).state, GT);
    }
  }

  lemma {:induction false} TypeArgsDerive(ts: seq<Token>, s: State, done: seq<TypeExpr>) returns (types: seq<TypeExpr>)
    requires ValidTokens(ts) && Inside(ts, s) && Quiet(s, TypeArgsAt(ts, s, done).state)
    ensures var o := TypeArgsAt(ts, s, done);
      o.value == done + types && s.at <= o.state.at && TypesRule(ts, s.at, o.state.at, types) && ValidTypes(types)
    decreases |ts| - s.at, 3
  {
    hide ValidTokens, TypeAt, TypeRule, ValidType, Advance;
    var t := TypeAt(ts, s);
    TypeDerives(ts, s);
    types := [t.value];
    if KindAt(ts, t.state).COMMA? {
      Steps(ts, t.state);
      var next := Advance(ts, t.state);
      if !KindAt(ts, next).GT? {
        var more := TypeArgsDerive(ts, next, done + [t.value]);
        types := [t.value] + more;
        assert types[1..] == more;
      }
    }
  }

  lemma {:induction false} PatternDerives(ts: seq<Token>, s: State)
    requires ValidTokens(ts) && Inside(ts, s) && PatternAt(ts, s).Got? && Quiet(s, PatternAt(ts, s).state)
    ensures var o := PatternAt(ts, s);
      s.at < o.state.at && PatternRule(ts, s.at, o.state.at, o.value) && ValidPattern(o.value)
    decreases |ts| - s.at, 1
  {
    hide ValidTokens, NamedPatternAt, Advance, PatternsRule, Expect, ValueOf, IsNumeral;
    if KindAt(ts, s).IDENT? && ts[s.at].text == "_" {
      Steps(ts, s);
    } else if KindAt(ts, s).MINUS? {
      Steps(ts, s);
      Taken(ts, Advance(ts, s), INT);
    } else if KindAt(ts, s).INT? {
      Steps(ts, s);
      Numeric(ts, s.at);
    } else {
      NamedPatternDerives(ts, s);
    }
  }

  lemma {:induction false} Numeric(ts: seq<Token>, i: nat)
    requires ValidTokens(ts) && i < |ts| && ts[i].kind.INT?
    ensures IsNumeral(ts[i].text)
  {
  }

  lemma {:induction false} NamedPatternDerives(ts: seq<Token>, s: State)
    requires ValidTokens(ts) && Inside(ts, s) && NamedPatternAt(ts, s).Got? && Quiet(s, NamedPatternAt(ts, s).state)
    requires !(KindAt(ts, s).IDENT? && ts[s.at].text == "_")
    ensures var o := NamedPatternAt(ts, s);
      s.at < o.state.at && PatternRule(ts, s.at, o.state.at, o.value) && ValidPattern(o.value)
    decreases |ts| - s.at, 0
  {
    hide ValidTokens, PatternArgsAt, Advance, PatternsRule, Expect;
    Taken(ts, s, IDENT);
    var name := Expect(ts, s, IDENT);
    if KindAt(ts, name.state).LPAREN? {
      Steps(ts, name.state);
      var open := Advance(ts, name.state);
      PatternArgsDerive(ts, open);
      Taken(ts, PatternArgsAt(ts, open).state, RPAREN);
    }
  }

  lemma {:induction false} PatternArgsDerive(ts: seq<Token>, s: State)
    requires ValidTokens(ts) && Inside(ts, s) && PatternArgsAt(ts, s).Got? && Quiet(s, PatternArgsAt(ts, s).state)
    ensures var o := PatternArgsAt(ts, s);
      && s.at <= o.state.at && ((o.value == [] && o.state == s) || PatternsRule(ts, s.at, o.state.at, o.value))
      && forall i | 0 <= i < |o.value| :: ValidPattern(o.value[i])
    decreases |ts| - s.at, 3
  {
    hide ValidTokens, PatternsAt, PatternsRule, ValidPattern;
    if !KindAt(ts, s).RPAREN? {
      var ps := PatternsDerive(ts, s, []);
      assert [] + ps == ps;
    }
  }

  lemma {:induction false} PatternsDerive(ts: seq<Token>, s: State, done: seq<Pattern>) returns (ps: seq<Pattern>)
    requires ValidTokens(ts) && Inside(ts, s) && PatternsAt(ts, s, done).Got? && Quiet(s, PatternsAt(ts, s, done).state)
    ensures var o := PatternsAt(ts, s, done);
      && o.value == done + ps && s.at <= o.state.at && PatternsRule(ts, s.at, o.state.at, ps)
      && forall i | 0 <= i < |ps| :: ValidPattern(ps[i])
    decreases |ts| - s.at, 2
  {
    hide ValidTokens, PatternAt, PatternRule, ValidPattern, Advance;
    var p := PatternAt(ts, s);
    PatternDerives(ts, s);
    ps := [p.value];
    if KindAt(ts, p.state).COMMA? {
      Steps(ts, p.state);
      var more := PatternsDerive(ts, Advance(ts, p.state), done + [p.value]);
      ps := [p.value] + more;
      assert ps[1..] == more;
    }
  }

  // ----- statements -----

  lemma {:induction false} InitializerDerives(ts: seq<Token>, s: State)
    requires ValidTokens(ts) && Inside(ts, s) && Quiet(s, InitializerAt(ts, s).state)
    ensures var o := InitializerAt(ts, s);
      s.at <= o.state.at && InitializerRule(ts, s.at, o.state.at, o.value) && ValidExpr(o.value)
  {
    hide ValidTokens, ExprAt, ExprRule, ValidExpr, Expect;
    Taken(ts, s, EQ);
    var next := Expect(ts, s, EQ).state;
    ExprDerives(ts, next);
    Taken(ts, ExprAt(ts, next).state, SEMI);
  }

  lemma {:induction false} AnnotationDerives(ts: seq<Token>, s: State)
    requires ValidTokens(ts) && Inside(ts, s) && Quiet(s, AnnotationAt(ts, s).state)
    ensures var o := AnnotationAt(ts, s);
      && s.at <= o.state.at && AnnotationRule(ts, s.at, o.state.at, o.value)
      && |o.value| <= 1 && ValidTypes(o.value)
  {
    hide ValidTokens, TypeAt, TypeRule, ValidType, Advance;
    if KindAt(ts, s).COLON? {
      Steps(ts, s);
      TypeDerives(ts, Advance(ts, s));
    }
  }

  lemma {:induction false} LetDerives(ts: seq<Token>, s: State)
    requires ValidTokens(ts) && Inside(ts, s) && KindAt(ts, s).LET? && Quiet(s, LetAt(ts, s).state)
    ensures var o := LetAt(ts, s); s.at < o.state.at && StmtRule(ts, s.at, o.state.at, o.value) && ValidStmt(o.value)
  {
    hide ValidTokens, AnnotationAt, InitializerAt, AnnotationRule, InitializerRule, ValidTypes, ValidExpr, Advance, Expect;
    Taken(ts, s, LET);
    var let := Expect(ts, s, LET).state;
    if KindAt(ts, let).MUT? {
      Steps(ts, let);
    }
    var next := if KindAt(ts, let).MUT? then Advance(ts, let) else let;
    Taken(ts, next, IDENT);
    var name := Expect(ts, next, IDENT).state;
    AnnotationDerives(ts, name);
    InitializerDerives(ts, AnnotationAt(ts, name).state);
  }

  lemma {:induction false} ReturnDerives(ts: seq<Token>, s: State)
    requires ValidTokens(ts) && Inside(ts, s) && KindAt(ts, s).RETURN? && Quiet(s, ReturnAt(ts, s).state)
    ensures var o := ReturnAt(ts, s); s.at < o.state.at && StmtRule(ts, s.at, o.state.at, o.value) && ValidStmt(o.value)
  {
    hide ValidTokens, ExprAt, ExprRule, ValidExpr, Expect;
    Taken(ts, s, RETURN);
    var next := Expect(ts, s, RETURN).state;
    if KindAt(ts, next).SEMI? {
      Taken(ts, next, SEMI);
    } else {
      ExprDerives(ts, next);
      Taken(ts, ExprAt(ts, next).state, SEMI);
    }
  }

  lemma {:induction false} FieldAssignDerives(ts: seq<Token>, s: State)
    requires ValidTokens(ts) && Inside(ts, s) && KindAt(ts, s).IDENT? && Quiet(s, FieldAssignAt(ts, s).state)
    ensures var o := FieldAssignAt(ts, s); s.at < o.state.at && StmtRule(ts, s.at, o.state.at, o.value) && ValidStmt(o.value)
  {
    hide ValidTokens, InitializerAt, InitializerRule, ValidExpr, Expect;
    Taken(ts, s, IDENT);
    var target := Expect(ts, s, IDENT).state;
    Taken(ts, target, DOT);
    var dot := Expect(ts, target, DOT).state;
    Taken(ts, dot, IDENT);
    InitializerDerives(ts, Expect(ts, dot, IDENT).state);
  }

  lemma {:induction false} AssignDerives(ts: seq<Token>, s: State)
    requires ValidTokens(ts) && Inside(ts, s) && KindAt(ts, s).IDENT? && Quiet(s, AssignAt(ts, s).state)
    ensures var o := AssignAt(ts, s); s.at < o.state.at && StmtRule(ts, s.at, o.state.at, o.value) && ValidStmt(o.value)
  {
    hide ValidTokens, InitializerAt, InitializerRule, ValidExpr, Expect;
    Taken(ts, s, IDENT);
    InitializerDerives(ts, Expect(ts, s, IDENT).state);
  }

  lemma {:induction false} ExprStmtDerives(ts: seq<Token>, s: State)
    requires ValidTokens(ts) && Inside(ts, s) && Quiet(s, ExprStmtAt(ts, s).state)
    ensures var o := ExprStmtAt(ts, s); s.at < o.state.at && StmtRule(ts, s.at, o.state.at, o.value) && ValidStmt(o.value)
  {
    hide ValidTokens, ExprAt, ExprRule, ValidExpr, Expect;
    ExprDerives(ts, s);
    Taken(ts, ExprAt(ts, s).state, SEMI);
  }

  lemma {:induction false} SimpleDerives(ts: seq<Token>, s: State)
    requires ValidTokens(ts) && Inside(ts, s) && Quiet(s, SimpleAt(ts, s).state)
    ensures var o := SimpleAt(ts, s); s.at < o.state.at && StmtRule(ts, s.at, o.state.at, o.value) && ValidStmt(o.value)
  {
    hide ValidTokens, LetAt, ReturnAt, FieldAssignAt, AssignAt, ExprStmtAt, StmtRule, ValidStmt, Peek;
    if KindAt(ts, s).LET? {
      LetDerives(ts, s);
    } else if KindAt(ts, s).RETURN? {
      ReturnDerives(ts, s);
    } else if KindAt(ts, s).IDENT? && Peek(ts, s, 1).kind.DOT? && Peek(ts, s, 2).kind.IDENT? && Peek(ts, s, 3).kind.EQ? {
      FieldAssignDerives(ts, s);
    } else if KindAt(ts, s).IDENT? && Peek(ts, s, 1).kind.EQ? {
      AssignDerives(ts, s);
    } else {
      ExprStmtDerives(ts, s);
    }
  }

  lemma {:induction false} BlockDerives(ts: seq<Token>, s: State)
    requires ValidTokens(ts) && Inside(ts, s) && BlockAt(ts, s).Got? && Quiet(s, BlockAt(ts, s).state)
    ensures var o := BlockAt(ts, s); s.at <= o.state.at && BlockRule(ts, s.at, o.state.at, o.value) && ValidBlock(o.value)
    decreases |ts| - s.at, 4
  {
    hide ValidTokens, StmtsAt, StmtsRule, ValidStmt, Expect;
    Taken(ts, s, LBRACE);
    var open := Expect(ts, s, LBRACE).state;
    var ss := StmtsDerive(ts, open, []);
    assert [] + ss == ss;
    Taken(ts, StmtsAt(ts, open, []).state, RBRACE);
  }

  lemma {:induction false} StmtsDerive(ts: seq<Token>, s: State, done: seq<Stmt>) returns (ss: seq<Stmt>)
    requires ValidTokens(ts) && Inside(ts, s) && StmtsAt(ts, s, done).Got? && Quiet(s, StmtsAt(ts, s, done).state)
    ensures var o := StmtsAt(ts, s, done);
      && o.value == done + ss && s.at <= o.state.at && StmtsRule(ts, s.at, o.state.at, ss)
      && forall i | 0 <= i < |ss| :: ValidStmt(ss[i])
    decreases |ts| - s.at, 3
  {
    hide ValidTokens, StmtAt, StmtRule, ValidStmt;
    ss := [];
    if !KindAt(ts, s).RBRACE? && !KindAt(ts, s).EOF? {
      NotLast(ts, s.at);
      var stmt := StmtAt(ts, s);
      StmtDerives(ts, s);
      var more := StmtsDerive(ts, stmt.state, done + [stmt.value]);
      ss := [stmt.value] + more;
      assert ss[1..] == more;
    }
  }

  lemma {:induction false} StmtDerives(ts: seq<Token>, s: State)
    requires ValidTokens(ts) && Inside(ts, s) && StmtAt(ts, s).Got? && Quiet(s, StmtAt(ts, s).state)
    ensures var o := StmtAt(ts, s); s.at < o.state.at && StmtRule(ts, s.at, o.state.at, o.value) && ValidStmt(o.value)
    decreases |ts| - s.at, 2
  {
    hide ValidTokens, IfAt, WhileAt, MatchAt, SimpleAt, StmtRule, ValidStmt;
    if KindAt(ts, s).IF? {
      IfDerives(ts, s);
    } else if KindAt(ts, s).WHILE? {
      WhileDerives(ts, s);
    } else if KindAt(ts, s).MATCH? {
      MatchDerives(ts, s);
    } else {
      SimpleDerives(ts, s);
    }
  }

  lemma {:induction false} IfDerives(ts: seq<Token>, s: State)
    requires ValidTokens(ts) && Inside(ts, s) && KindAt(ts, s).IF? && IfAt(ts, s).Got? && Quiet(s, IfAt(ts, s).state)
    ensures var o := IfAt(ts, s); s.at < o.state.at && StmtRule(ts, s.at, o.state.at, o.value) && ValidStmt(o.value)
    decreases |ts| - s.at, 1
  {
    hide ValidTokens, ExprAt, ExprRule, ValidExpr, BlockAt, BlockRule, ValidBlock, Expect, Advance;
    Taken(ts, s, IF);
    var next := Expect(ts, s, IF).state;
    var condition := ExprAt(ts, next);
    ExprDerives(ts, next);
    BlockDerives(ts, condition.state);
    var then' := BlockAt(ts, condition.state);
    if KindAt(ts, then'.state).ELSE? {
      Steps(ts, then'.state);
      BlockDerives(ts, Advance(ts, then'.state));
    }
  }

  lemma {:induction false} WhileDerives(ts: seq<Token>, s: State)
    requires ValidTokens(ts) && Inside(ts, s) && KindAt(ts, s).WHILE? && WhileAt(ts, s).Got? && Quiet(s, WhileAt(ts, s).state)
    ensures var o := WhileAt(ts, s); s.at < o.state.at && StmtRule(ts, s.at, o.state.at, o.value) && ValidStmt(o.value)
    decreases |ts| - s.at, 1
  {
    hide ValidTokens, ExprAt, ExprRule, ValidExpr, BlockAt, BlockRule, ValidBlock, Expect;
    Taken(ts, s, WHILE);
    var next := Expect(ts, s, WHILE).state;
    ExprDerives(ts, next);
    BlockDerives(ts, ExprAt(ts, next).state);
  }

  lemma {:induction false} MatchDerives(ts: seq<Token>, s: State)
    requires ValidTokens(ts) && Inside(ts, s) && KindAt(ts, s).MATCH? && MatchAt(ts, s).Got? && Quiet(s, MatchAt(ts, s).state)
    ensures var o := MatchAt(ts, s); s.at < o.state.at && StmtRule(ts, s.at, o.state.at, o.value) && ValidStmt(o.value)
    decreases |ts| - s.at, 1
  {
    hide ValidTokens, ExprAt, ExprRule, ValidExpr, ArmsAt, ArmsRule, ValidPattern, ValidBlock, Expect;
    Taken(ts, s, MATCH);
    var next := Expect(ts, s, MATCH).state;
    var scrutinee := ExprAt(ts, next);
    ExprDerives(ts, next);
    Taken(ts, scrutinee.state, LBRACE);
    var open := Expect(ts, scrutinee.state, LBRACE).state;
    var arms := ArmsDerive(ts, open, []);
    assert [] + arms == arms;
    Taken(ts, ArmsAt(ts, open, []).state, RBRACE);
  }

  /** A list of arms may be empty, and may end with a comma. */
  lemma {:induction false} ArmsDerive(ts: seq<Token>, s: State, done: seq<Arm>) returns (arms: seq<Arm>)
    requires ValidTokens(ts) && Inside(ts, s) && ArmsAt(ts, s, done).Got? && Quiet(s, ArmsAt(ts, s, done).state)
    ensures var o := ArmsAt(ts, s, done);
      && o.value == done + arms && s.at <= o.state.at
      && ((arms == [] && o.state == s) || ArmsRule(ts, s.at, o.state.at, arms))
      && forall i | 0 <= i < |arms| :: ValidPattern(arms[i].pattern) && ValidBlock(arms[i].block)
    decreases |ts| - s.at, 6
  {
    hide ValidTokens, ArmAt, ArmRule, ValidPattern, ValidBlock, Advance;
    arms := [];
    if !KindAt(ts, s).RBRACE? && !KindAt(ts, s).EOF? {
      var arm := ArmAt(ts, s);
      ArmDerives(ts, s);
      arms := [arm.value];
      if KindAt(ts, arm.state).COMMA? {
        Steps(ts, arm.state);
        var more := ArmsDerive(ts, Advance(ts, arm.state), done + [arm.value]);
        arms := [arm.value] + more;
        assert arms[1..] == more;
      }
    }
  }

  lemma {:induction false} ArmDerives(ts: seq<Token>, s: State)
    requires ValidTokens(ts) && Inside(ts, s) && ArmAt(ts, s).Got? && Quiet(s, ArmAt(ts, s).state)
    ensures var o := ArmAt(ts, s);
      && s.at <= o.state.at && ArmRule(ts, s.at, o.state.at, o.value)
      && ValidPattern(o.value.pattern) && ValidBlock(o.value.block)
    decreases |ts| - s.at, 5
  {
    hide ValidTokens, PatternAt, PatternRule, ValidPattern, BlockAt, BlockRule, ValidBlock, Expect;
    var pattern := PatternAt(ts, s);
    PatternDerives(ts, s);
    Taken(ts, pattern.state, FAT_ARROW);
    BlockDerives(ts, Expect(ts, pattern.state, FAT_ARROW).state);
  }

  // ----- audits -----

  lemma {:induction false} ClauseTaken(ts: seq<Token>, s: State, clause: string)
    requires ValidTokens(ts) && Inside(ts, s) && Quiet(s, ClauseNameAt(ts, s, clause).state)
    ensures ClauseNameAt(ts, s, clause) == Out(true, s.(at := s.at + 1)) && Name(ts, s.at, clause) && s.at + 1 < |ts|
  {
    hide SkipClauseAt;
    NotLast(ts, s.at);
  }

  lemma {:induction false} IntentDerives(ts: seq<Token>, s: State)
    requires ValidTokens(ts) && Inside(ts, s) && Quiet(s, IntentAt(ts, s).state)
    ensures var o := IntentAt(ts, s); s.at <= o.state.at && IntentRule(ts, s.at, o.state.at, o.value)
  {
    hide ValidTokens, ClauseNameAt, Expect;
    ClauseTaken(ts, s, "intent");
    var name := ClauseNameAt(ts, s, "intent").state;
    Taken(ts, name, LPAREN);
    var open := Expect(ts, name, LPAREN).state;
    Taken(ts, open, STRING);
    var text := Expect(ts, open, STRING).state;
    Taken(ts, text, RPAREN);
    Taken(ts, Expect(ts, text, RPAREN).state, SEMI);
  }

  lemma {:induction false} NamesDerive(ts: seq<Token>, s: State, done: seq<string>) returns (names: seq<string>)
    requires ValidTokens(ts) && Inside(ts, s) && Quiet(s, NamesAt(ts, s, done).state)
    ensures var o := NamesAt(ts, s, done);
      o.value == done + names && s.at <= o.state.at && NamesRule(ts, s.at, o.state.at, names)
    decreases |ts| - s.at
  {
    hide ValidTokens, Advance, Expect;
    Taken(ts, s, IDENT);
    var token := Expect(ts, s, IDENT);
    names := [token.value.text];
    if KindAt(ts, token.state).COMMA? {
      Steps(ts, token.state);
      var next := Advance(ts, token.state);
      if !KindAt(ts, next).RPAREN? {
        var more := NamesDerive(ts, next, done + [token.value.text]);
        names := [token.value.text] + more;
        assert names[1..] == more;
      }
    }
  }

  lemma {:induction false} NameListDerives(ts: seq<Token>, s: State, clause: string)
    requires ValidTokens(ts) && Inside(ts, s) && Quiet(s, NameListAt(ts, s, clause).state)
    ensures var o := NameListAt(ts, s, clause); s.at <= o.state.at && ClauseRule(ts, s.at, o.state.at, clause, o.value)
  {
    hide ValidTokens, ClauseNameAt, NamesAt, NamesRule, Expect;
    ClauseTaken(ts, s, clause);
    var name := ClauseNameAt(ts, s, clause).state;
    Taken(ts, name, LPAREN);
    var open := Expect(ts, name, LPAREN).state;
    if !KindAt(ts, open).RPAREN? {
      var names := NamesDerive(ts, open, []);
      assert [] + names == names;
    }
    var all := AllNamesAt(ts, open).state;
    Taken(ts, all, RPAREN);
    Taken(ts, Expect(ts, all, RPAREN).state, SEMI);
  }

  lemma {:induction false} AuditDerives(ts: seq<Token>, s: State)
    requires ValidTokens(ts) && Inside(ts, s) && Quiet(s, AuditAt(ts, s).state)
    ensures var o := AuditAt(ts, s); s.at <= o.state.at && AuditRule(ts, s.at, o.state.at, o.value)
  {
    hide ValidTokens, IntentAt, NameListAt, IntentRule, ClauseRule, Expect;
    Taken(ts, s, AUDIT);
    var next := Expect(ts, s, AUDIT).state;
    Taken(ts, next, LBRACE);
    var open := Expect(ts, next, LBRACE).state;
    IntentDerives(ts, open);
    var m := IntentAt(ts, open).state;
    NameListDerives(ts, m, "mutates");
    var n := NameListAt(ts, m, "mutates").state;
    NameListDerives(ts, n, "effects");
    Taken(ts, NameListAt(ts, n, "effects").state, RBRACE);
  }

  // ----- items -----

  lemma {:induction false} ParamDerives(ts: seq<Token>, s: State)
    requires ValidTokens(ts) && Inside(ts, s) && Quiet(s, TypedNameAt(ts, s).state)
    ensures var o := TypedNameAt(ts, s);
      s.at <= o.state.at && ParamRule(ts, s.at, o.state.at, o.value) && ValidType(o.value.typ)
  {
    hide ValidTokens, TypeAt, TypeRule, ValidType, Expect;
    Taken(ts, s, IDENT);
    var name := Expect(ts, s, IDENT).state;
    Taken(ts, name, COLON);
    TypeDerives(ts, Expect(ts, name, COLON).state);
  }

  lemma {:induction false} MoreParamsDerive(ts: seq<Token>, s: State, close: Kind, done: seq<Param>) returns (params: seq<Param>)
    requires ValidTokens(ts) && Inside(ts, s) && Quiet(s, MoreTypedNames(ts, s, close, done).state)
    ensures var o := MoreTypedNames(ts, s, close, done);
      o.value == done + params && s.at <= o.state.at && ParamsRule(ts, s.at, o.state.at, params) && ValidParams(params)
    decreases |ts| - s.at
  {
    hide ValidTokens, TypedNameAt, ParamRule, ValidType, Advance;
    var param := TypedNameAt(ts, s);
    ParamDerives(ts, s);
    params := [param.value];
    if KindAt(ts, param.state).COMMA? {
      Steps(ts, param.state);
      var next := Advance(ts, param.state);
      if KindAt(ts, next) != close {
        var more := MoreParamsDerive(ts, next, close, done + [param.value]);
        params := [param.value] + more;
        assert params[1..] == more;
      }
    }
  }

  lemma {:induction false} ParamsDerive(ts: seq<Token>, s: State, close: Kind)
    requires ValidTokens(ts) && Inside(ts, s) && Quiet(s, TypedNamesAt(ts, s, close).state)
    ensures var o := TypedNamesAt(ts, s, close);
      s.at <= o.state.at && AllParamsRule(ts, s.at, o.state.at, o.value) && ValidParams(o.value)
  {
    hide ValidTokens, MoreTypedNames, ParamsRule, ValidType;
    if KindAt(ts, s) != close {
      var params := MoreParamsDerive(ts, s, close, []);
      assert [] + params == params;
    }
  }

  lemma {:induction false} UseDerives(ts: seq<Token>, s: State)
    requires ValidTokens(ts) && Inside(ts, s) && KindAt(ts, s).USE? && Quiet(s, UseAt(ts, s).state)
    ensures var o := UseAt(ts, s); s.at <= o.state.at && DeclRule(ts, s.at, o.state.at, o.value)
  {
    hide ValidTokens, Expect;
    Taken(ts, s, USE);
    var next := Expect(ts, s, USE).state;
    Taken(ts, next, IDENT);
    Taken(ts, Expect(ts, next, IDENT).state, SEMI);
  }

  lemma {:induction false} SignatureDerives(ts: seq<Token>, s: State)
    requires ValidTokens(ts) && Inside(ts, s) && KindAt(ts, s).FN? && Quiet(s, SignatureAt(ts, s).state)
    ensures var o := SignatureAt(ts, s);
      && s.at <= o.state.at && SignatureRule(ts, s.at, o.state.at, o.value)
      && ValidParams(o.value.params) && ValidType(o.value.result)
  {
    hide ValidTokens, TypedNamesAt, TypeAt, AllParamsRule, TypeRule, ValidParams, ValidType, Expect;
    Taken(ts, s, FN);
    var next := Expect(ts, s, FN).state;
    Taken(ts, next, IDENT);
    var name := Expect(ts, next, IDENT).state;
    Taken(ts, name, LPAREN);
    var open := Expect(ts, name, LPAREN).state;
    ParamsDerive(ts, open, RPAREN);
    var params := TypedNamesAt(ts, open, RPAREN).state;
    Taken(ts, params, RPAREN);
    var close := Expect(ts, params, RPAREN).state;
    Taken(ts, close, ARROW);
    TypeDerives(ts, Expect(ts, close, ARROW).state);
  }

  lemma {:induction false} FunctionDerives(ts: seq<Token>, s: State, public: bool)
    requires ValidTokens(ts) && Inside(ts, s) && KindAt(ts, s).FN?
    requires FunctionAt(ts, s, public).Got? && Quiet(s, FunctionAt(ts, s, public).state)
    ensures var o := FunctionAt(ts, s, public);
      && s.at <= o.state.at && o.value.FunctionDecl? && o.value.public == public
      && FunctionRule(ts, s.at, o.state.at, o.value) && ValidItem(o.value)
  {
    hide ValidTokens, SignatureAt, AuditAt, BlockAt, SignatureRule, AuditRule, BlockRule, ValidParams, ValidType, ValidBlock;
    SignatureDerives(ts, s);
    var sig := SignatureAt(ts, s).state;
    if KindAt(ts, sig).AUDIT? {
      AuditDerives(ts, sig);
      BlockDerives(ts, AuditAt(ts, sig).state);
    } else {
      BlockDerives(ts, sig);
    }
  }

  lemma {:induction false} TypeDeclDerives(ts: seq<Token>, s: State, public: bool)
    requires ValidTokens(ts) && Inside(ts, s) && KindAt(ts, s).TYPE? && Quiet(s, TypeDeclAt(ts, s, public).state)
    ensures var o := TypeDeclAt(ts, s, public);
      s.at <= o.state.at && DeclRule(ts, s.at, o.state.at, o.value) && ValidItem(o.value)
  {
    hide ValidTokens, TypedNamesAt, AllParamsRule, ValidParams, Expect;
    Taken(ts, s, TYPE);
    var next := Expect(ts, s, TYPE).state;
    Taken(ts, next, IDENT);
    var name := Expect(ts, next, IDENT).state;
    Taken(ts, name, LBRACE);
    var open := Expect(ts, name, LBRACE).state;
    ParamsDerive(ts, open, RBRACE);
    Taken(ts, TypedNamesAt(ts, open, RBRACE).state, RBRACE);
  }

  lemma {:induction false} PayloadTypesDerive(ts: seq<Token>, s: State, done: seq<TypeExpr>) returns (types: seq<TypeExpr>)
    requires ValidTokens(ts) && Inside(ts, s) && Quiet(s, PayloadsAt(ts, s, done).state)
    ensures var o := PayloadsAt(ts, s, done);
      o.value == done + types && s.at <= o.state.at && TypesRule(ts, s.at, o.state.at, types) && ValidTypes(types)
    decreases |ts| - s.at
  {
    hide ValidTokens, TypeAt, TypeRule, ValidType, Advance;
    var t := TypeAt(ts, s);
    TypeDerives(ts, s);
    types := [t.value];
    if KindAt(ts, t.state).COMMA? {
      Steps(ts, t.state);
      var next := Advance(ts, t.state);
      if !KindAt(ts, next).RPAREN? {
        var more := PayloadTypesDerive(ts, next, done + [t.value]);
        types := [t.value] + more;
        assert types[1..] == more;
      }
    }
  }

  lemma {:induction false} VariantDerives(ts: seq<Token>, s: State)
    requires ValidTokens(ts) && Inside(ts, s) && Quiet(s, VariantAt(ts, s).state)
    ensures var o := VariantAt(ts, s);
      s.at <= o.state.at && VariantRule(ts, s.at, o.state.at, o.value) && ValidTypes(o.value.payloads)
  {
    hide ValidTokens, PayloadsAt, TypesRule, ValidType, Advance, Expect;
    Taken(ts, s, IDENT);
    var name := Expect(ts, s, IDENT).state;
    if KindAt(ts, name).LPAREN? {
      Steps(ts, name);
      var open := Advance(ts, name);
      if !KindAt(ts, open).RPAREN? {
        var types := PayloadTypesDerive(ts, open, []);
        assert [] + types == types;
      }
      Taken(ts, AllPayloadsAt(ts, open).state, RPAREN);
    }
  }

  lemma {:induction false} VariantsDerive(ts: seq<Token>, s: State, done: seq<VariantDecl>) returns (vs: seq<VariantDecl>)
    requires ValidTokens(ts) && Inside(ts, s) && Quiet(s, VariantsAt(ts, s, done).state)
    ensures var o := VariantsAt(ts, s, done);
      && o.value == done + vs && s.at <= o.state.at && VariantsRule(ts, s.at, o.state.at, vs)
      && forall i | 0 <= i < |vs| :: ValidTypes(vs[i].payloads)
    decreases |ts| - s.at
  {
    hide ValidTokens, VariantAt, VariantRule, ValidTypes, Advance;
    var v := VariantAt(ts, s);
    VariantDerives(ts, s);
    vs := [v.value];
    if KindAt(ts, v.state).COMMA? {
      Steps(ts, v.state);
      var next := Advance(ts, v.state);
      if !KindAt(ts, next).RBRACE? {
        var more := VariantsDerive(ts, next, done + [v.value]);
        vs := [v.value] + more;
        assert vs[1..] == more;
      }
    }
  }

  lemma {:induction false} EnumDerives(ts: seq<Token>, s: State, public: bool)
    requires ValidTokens(ts) && Inside(ts, s) && KindAt(ts, s).ENUM? && Quiet(s, EnumDeclAt(ts, s, public).state)
    ensures var o := EnumDeclAt(ts, s, public);
      s.at <= o.state.at && DeclRule(ts, s.at, o.state.at, o.value) && ValidItem(o.value)
  {
    hide ValidTokens, VariantsAt, VariantsRule, ValidTypes, Expect;
    Taken(ts, s, ENUM);
    var next := Expect(ts, s, ENUM).state;
    Taken(ts, next, IDENT);
    var name := Expect(ts, next, IDENT).state;
    Taken(ts, name, LBRACE);
    var open := Expect(ts, name, LBRACE).state;
    if !KindAt(ts, open).RBRACE? {
      var vs := VariantsDerive(ts, open, []);
      assert [] + vs == vs;
    }
    Taken(ts, AllVariantsAt(ts, open).state, RBRACE);
  }

  /** From the keyword of an item on. */
  lemma {:induction false} DeclDerives(ts: seq<Token>, s: State, public: bool)
    requires ValidTokens(ts) && Inside(ts, s) && ItemFrom(ts, s, public).Got? && Quiet(s, ItemFrom(ts, s, public).state)
    ensures var o := ItemFrom(ts, s, public);
      && o.value.Some? && s.at < o.state.at && DeclRule(ts, s.at, o.state.at, o.value.value) && ValidItem(o.value.value)
      && if KindAt(ts, s).USE? then o.value.value.UseDecl? else Public(o.value.value) == public
  {
    hide ValidTokens, FunctionAt, TypeDeclAt, EnumDeclAt, UseAt, FunctionRule, ValidParams, ValidType, ValidTypes, ValidBlock;
    if KindAt(ts, s).FN? {
      FunctionDerives(ts, s, public);
    } else if KindAt(ts, s).TYPE? {
      TypeDeclDerives(ts, s, public);
      IsTypeDecl(ts, s, public);
    } else if KindAt(ts, s).ENUM? {
      EnumDerives(ts, s, public);
      IsEnumDecl(ts, s, public);
    } else if KindAt(ts, s).USE? {
      UseDerives(ts, s);
      IsUse(ts, s);
    }
  }

  lemma {:induction false} IsTypeDecl(ts: seq<Token>, s: State, public: bool)
    requires ValidTokens(ts) && Inside(ts, s) && KindAt(ts, s).TYPE?
    ensures TypeDeclAt(ts, s, public).value.TypeDecl? && TypeDeclAt(ts, s, public).value.public == public
  {
    hide ValidTokens, TypedNamesAt, Expect;
  }

  lemma {:induction false} IsEnumDecl(ts: seq<Token>, s: State, public: bool)
    requires ValidTokens(ts) && Inside(ts, s) && KindAt(ts, s).ENUM?
    ensures EnumDeclAt(ts, s, public).value.EnumDecl? && EnumDeclAt(ts, s, public).value.public == public
  {
    hide ValidTokens, AllVariantsAt, Expect;
  }

  lemma {:induction false} IsUse(ts: seq<Token>, s: State)
    requires ValidTokens(ts) && Inside(ts, s) && KindAt(ts, s).USE?
    ensures UseAt(ts, s).value.UseDecl?
  {
    hide ValidTokens, Expect;
  }

  lemma {:induction false} ItemDerives(ts: seq<Token>, s: State)
    requires ValidTokens(ts) && Inside(ts, s) && ItemAt(ts, s).Got? && Quiet(s, ItemAt(ts, s).state)
    ensures var o := ItemAt(ts, s);
      && o.value.Some? && s.at < o.state.at && ItemRule(ts, s.at, o.state.at, o.value.value) && ValidItem(o.value.value)
  {
    hide ValidTokens, ItemFrom, DeclRule, ValidItem, Advance;
    if KindAt(ts, s).PUB? {
      Steps(ts, s);
      DeclDerives(ts, Advance(ts, s), true);
    } else {
      DeclDerives(ts, s, false);
    }
  }

  lemma {:induction false} ItemsDerive(ts: seq<Token>, s: State, done: seq<Item>, seenNonUse: bool) returns (items: seq<Item>)
    requires ValidTokens(ts) && Inside(ts, s)
    requires ItemsAt(ts, s, done, seenNonUse).Got? && Quiet(s, ItemsAt(ts, s, done, seenNonUse).state)
    ensures var o := ItemsAt(ts, s, done, seenNonUse);
      && o.value == done + items && s.at <= o.state.at && ItemsRule(ts, s.at, o.state.at, items) && ValidProgram(items)
      && Late(items, seenNonUse) == []
    decreases |ts| - s.at
  {
    hide ValidTokens, ItemAt, SyncItemAt, ItemRule, ValidItem;
    items := [];
    NotLast(ts, s.at);
    if !KindAt(ts, s).EOF? {
      var item := ItemAt(ts, s);
      ItemIsQuiet(ts, s, done, seenNonUse);
      ItemDerives(ts, s);
      var x := item.value.value;
      var more := ItemsDerive(ts, item.state, done + [x], seenNonUse || !x.UseDecl?);
      items := [x] + more;
      assert items[1..] == more;
    }
  }

  /** When nothing is reported in the end, nothing is reported for the first item. */
  lemma {:induction false} ItemIsQuiet(ts: seq<Token>, s: State, done: seq<Item>, seenNonUse: bool)
    requires ValidTokens(ts) && Inside(ts, s) && !KindAt(ts, s).EOF?
    requires ItemsAt(ts, s, done, seenNonUse).Got? && Quiet(s, ItemsAt(ts, s, done, seenNonUse).state)
    ensures ItemAt(ts, s).Got? && Quiet(s, ItemAt(ts, s).state)
    ensures ItemAt(ts, s).value.Some? ==> !(ItemAt(ts, s).value.value.UseDecl? && seenNonUse)
  {
    hide ValidTokens, ItemAt, SyncItemAt;
  }
}
