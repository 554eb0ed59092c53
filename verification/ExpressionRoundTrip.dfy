/** Printing an expression tree and parsing it back yields the same tree, at every
    rung of the ladder and whatever follows, as long as it does not continue the
    expression. A brace continues it only behind a bare name, and only if it looks
    like that of a struct literal. */
module ExpressionRoundTrip {
  import opened Numerals
  import opened ParserSyntax
  import opened ExpressionGrammar

  /** These tokens stand at this position. */
  ghost predicate Here(ts: seq<Token>, at: nat, p: seq<Token>) {
    at + |p| <= |ts| && ts[at..at + |p|] == p
  }

  lemma {:induction false} HereConcat(ts: seq<Token>, at: nat, a: seq<Token>, b: seq<Token>)
    requires Here(ts, at, a + b)
    ensures Here(ts, at, a) && Here(ts, at + |a|, b)
  {
    assert ts[at..at + |a|] == (a + b)[..|a|];
    assert ts[at + |a|..at + |a| + |b|] == (a + b)[|a|..];
  }

  /** The cursor behind something printed. */
  function Past(s: State, p: seq<Token>): State {
    s.(at := s.at + |p|)
  }

  lemma {:induction false} HereToken(ts: seq<Token>, at: nat, token: Token)
    requires Here(ts, at, [token])
    ensures at < |ts| && ts[at] == token
  {
    assert ts[at..at + 1][0] == token;
  }

  /** A token that cannot continue an expression parsed at this level. */
  predicate Stops(k: Kind, level: nat) {
    (Rung(k) < level || Rung(k) >= UNARY) && !k.LPAREN? && !k.DOT?
  }

  /** A printed expression ends with the bare name of a variable. */
  predicate EndsBare(e: Expr, level: nat) {
    LevelOf(e) >= level &&
    match e
    case Var(_) => true
    case Unary(_, operand) => EndsBare(operand, UNARY)
    case Binary(_, op, right) => EndsBare(right, Rung(op) + 1)
    case _ => false
  }

  /** What stands here does not make a struct literal of a bare name before it. */
  ghost predicate Closes(ts: seq<Token>, at: nat, bare: bool)
    requires at < |ts|
  {
    bare ==> !StructAhead(ts, State(at, []))
  }

  ghost predicate Follows(ts: seq<Token>, at: nat, level: nat, bare: bool) {
    at < |ts| && Stops(ts[at].kind, level) && Closes(ts, at, bare)
  }

  /** What a printed expression begins with. */
  predicate Begins(k: Kind) {
    k.IDENT? || k.INT? || k.STRING? || k.TRUE? || k.FALSE? || k.LPAREN? || k.REF? || k.MUTREF? || UnaryOp(k)
  }

  lemma {:induction false} FirstToken(e: Expr, level: nat)
    requires ValidExpr(e)
    ensures Print(e, level) != [] && Begins(Print(e, level)[0].kind)
    decreases e, 1
  {
    BareFirstToken(e);
  }

  lemma {:induction false} BareFirstToken(e: Expr)
    requires ValidExpr(e)
    ensures PrintBare(e) != [] && Begins(PrintBare(e)[0].kind)
    decreases e, 0
  {
    match e
    case Call(callee, _) => FirstToken(callee, POSTFIX);
    case Field(base, _) => FirstToken(base, POSTFIX);
    case Binary(left, op, _) => FirstToken(left, Rung(op));
    case _ =>
  }

  // ----- one step of each form -----

  lemma {:induction false} BinaryStep(ts: seq<Token>, s: State, level: nat, left: Expr)
    requires ValidTokens(ts) && Inside(ts, s) && level < UNARY
    ensures var first := BinaryAt(ts, s, level + 1);
            BinaryAt(ts, s, level) == MoreOperands(ts, first.state, level, first.value)
    ensures Rung(KindAt(ts, s)) == level && s.at + 1 < |ts| ==>
              var right := BinaryAt(ts, s.(at := s.at + 1), level + 1);
              MoreOperands(ts, s, level, left) == MoreOperands(ts, right.state, level, Binary(left, KindAt(ts, s), right.value))
  {
    hide ValidTokens;
  }

  lemma {:induction false} UnaryStep(ts: seq<Token>, s: State)
    requires ValidTokens(ts) && Inside(ts, s)
    ensures UnaryOp(KindAt(ts, s)) && s.at + 1 < |ts| ==>
              var operand := UnaryAt(ts, s.(at := s.at + 1));
              UnaryAt(ts, s) == Out(Unary(KindAt(ts, s), operand.value), operand.state)
    ensures (KindAt(ts, s).REF? || KindAt(ts, s).MUTREF?) && s.at + 2 < |ts| && ts[s.at + 1].kind.IDENT? ==>
              UnaryAt(ts, s) == Out(Borrow(KindAt(ts, s).MUTREF?, ts[s.at + 1].text), s.(at := s.at + 2))
    ensures !UnaryOp(KindAt(ts, s)) && !KindAt(ts, s).REF? && !KindAt(ts, s).MUTREF? ==>
              UnaryAt(ts, s) == MorePostfix(ts, PrimaryAt(ts, s).state, PrimaryAt(ts, s).value)
  {
    hide PrimaryAt, MorePostfix, ValidTokens;
  }

  lemma {:induction false} PostfixStep(ts: seq<Token>, s: State, e: Expr)
    requires ValidTokens(ts) && s.at + 1 < |ts|
    ensures KindAt(ts, s).LPAREN? && KindAt(ts, ArgsAt(ts, s.(at := s.at + 1)).state).RPAREN? ==>
              var args := ArgsAt(ts, s.(at := s.at + 1));
              MorePostfix(ts, s, e) == MorePostfix(ts, Advance(ts, args.state), Call(e, args.value))
    ensures KindAt(ts, s).DOT? && s.at + 2 < |ts| && ts[s.at + 1].kind.IDENT? ==>
              MorePostfix(ts, s, e) == MorePostfix(ts, s.(at := s.at + 2), Field(e, ts[s.at + 1].text))
  {
    hide ArgsAt, ValidTokens;
  }

  lemma {:induction false} PrimaryStep(ts: seq<Token>, s: State)
    requires ValidTokens(ts) && s.at + 1 < |ts|
    ensures KindAt(ts, s).LPAREN? && KindAt(ts, ExprAt(ts, s.(at := s.at + 1)).state).RPAREN? ==>
              var inner := ExprAt(ts, s.(at := s.at + 1));
              PrimaryAt(ts, s) == Out(inner.value, Advance(ts, inner.state))
    ensures KindAt(ts, s).IDENT? && StructAhead(ts, s.(at := s.at + 1)) && s.at + 2 < |ts| &&
              KindAt(ts, FieldsAt(ts, s.(at := s.at + 2)).state).RBRACE? ==>
              var fields := FieldsAt(ts, s.(at := s.at + 2));
              PrimaryAt(ts, s) == Out(Struct(ts[s.at].text, fields.value), Advance(ts, fields.state))
    ensures KindAt(ts, s).IDENT? && !StructAhead(ts, State(s.at + 1, [])) ==>
              PrimaryAt(ts, s) == Out(Var(ts[s.at].text), s.(at := s.at + 1))
    ensures !KindAt(ts, s).IDENT? && !KindAt(ts, s).LPAREN? ==> PrimaryAt(ts, s) == LiteralAt(ts, s)
  {
    hide FieldsAt, ExprAt, LiteralAt, ValidTokens;
  }

  lemma {:induction false} ArgStep(ts: seq<Token>, s: State, done: seq<Expr>)
    requires ValidTokens(ts) && Inside(ts, s)
    ensures var e := ExprAt(ts, s);
            && (!KindAt(ts, e.state).COMMA? ==> MoreArgs(ts, s, done) == Out(done + [e.value], e.state))
            && (KindAt(ts, e.state).COMMA? && !KindAt(ts, Advance(ts, e.state)).RPAREN? ==>
                  MoreArgs(ts, s, done) == MoreArgs(ts, Advance(ts, e.state), done + [e.value]))
  {
    hide ExprAt, ValidTokens;
  }

  lemma {:induction false} FieldInitStep(ts: seq<Token>, s: State, done: seq<FieldInit>)
    requires ValidTokens(ts) && s.at + 2 < |ts| && ts[s.at].kind.IDENT? && ts[s.at + 1].kind.COLON?
    ensures var value := ExprAt(ts, s.(at := s.at + 2));
            var fields := done + [FieldInit(ts[s.at].text, value.value)];
            && (!KindAt(ts, value.state).COMMA? ==> MoreFields(ts, s, done) == Out(fields, value.state))
            && (KindAt(ts, value.state).COMMA? && !KindAt(ts, Advance(ts, value.state)).RBRACE? ==>
                  MoreFields(ts, s, done) == MoreFields(ts, Advance(ts, value.state), fields))
  {
    hide ExprAt, ValidTokens;
  }

  /** How each form is printed. Only at its own rung does a tree print differently
      one rung up. */
  lemma {:induction false} PrintShapes(e: Expr, level: nat)
    requires ValidExpr(e)
    ensures LevelOf(e) != level ==> Print(e, level) == Print(e, level + 1)
    ensures LevelOf(e) < level ==> Print(e, level) == [Op(LPAREN)] + Print(e, 0) + [Op(RPAREN)]
    ensures LevelOf(e) >= level && e.Binary? ==>
              Print(e, level) == Print(e.left, Rung(e.op)) + [Op(e.op)] + Print(e.right, Rung(e.op) + 1)
    ensures LevelOf(e) >= level && e.Unary? ==> Print(e, level) == [Op(e.op)] + Print(e.operand, UNARY)
    ensures LevelOf(e) >= level && e.Borrow? ==>
              Print(e, level) == [Op(if e.mutable then MUTREF else REF)] + [Token(IDENT, e.name)]
    ensures LevelOf(e) >= level && e.Call? ==>
              Print(e, level) == Print(e.callee, POSTFIX) + [Op(LPAREN)] + PrintArgs(e.args) + [Op(RPAREN)]
    ensures LevelOf(e) >= level && e.Field? ==>
              Print(e, level) == Print(e.base, POSTFIX) + [Op(DOT)] + [Token(IDENT, e.name)]
    ensures LevelOf(e) >= level && e.Struct? ==>
              Print(e, level) == [Token(IDENT, e.name)] + [Op(LBRACE)] + PrintFields(e.fields) + [Op(RBRACE)]
    ensures LevelOf(e) == PRIMARY >= level && !e.Struct? ==> Print(e, level) == [LeafToken(e)]
  {
    hide PrintArgs, PrintFields, ValidExpr;
  }

  lemma {:induction false} ArgsShape(args: seq<Expr>)
    requires args != []
    ensures PrintArgs(args) == if |args| == 1 then Print(args[0], 0) else Print(args[0], 0) + [Op(COMMA)] + PrintArgs(args[1..])
  {
    hide Print;
  }

  lemma {:induction false} FieldsShape(fields: seq<FieldInit>)
    requires fields != []
    ensures PrintFields(fields) ==
            if |fields| == 1 then PrintField(fields[0]) else PrintField(fields[0]) + [Op(COMMA)] + PrintFields(fields[1..])
  {
    hide PrintField;
  }

  // ----- the ladder -----

  /** A printed tree at a level, followed by something that stops that level,
      parses to the tree. */
  lemma {:induction false} Parses(ts: seq<Token>, s: State, e: Expr, level: nat)
    requires ValidTokens(ts) && Inside(ts, s) && ValidExpr(e) && level <= UNARY
    requires Here(ts, s.at, Print(e, level)) && Follows(ts, s.at + |Print(e, level)|, level, EndsBare(e, level))
    ensures BinaryAt(ts, s, level) == Out(e, Past(s, Print(e, level)))
    decreases e, if LevelOf(e) < level then 1 else 0, 30 - level, 2
  {
    hide ValidTokens, ValidExpr, Print, Here, UnaryAt, MorePostfix;
    if level < UNARY {
      ParsesSpine(ts, s, e, level);
    } else {
      ParsesUnary(ts, s, e);
    }
  }

  /** The same, with the rest of the rung still to be looked at: operators of the
      level itself may follow, and take the tree as their left operand. */
  lemma {:induction false} ParsesSpine(ts: seq<Token>, s: State, e: Expr, level: nat)
    requires ValidTokens(ts) && Inside(ts, s) && ValidExpr(e) && level < UNARY
    requires Here(ts, s.at, Print(e, level)) && Follows(ts, s.at + |Print(e, level)|, level + 1, EndsBare(e, level))
    ensures BinaryAt(ts, s, level) == MoreOperands(ts, Past(s, Print(e, level)), level, e)
    decreases e, if LevelOf(e) < level then 1 else 0, 30 - level, 1
  {
    hide ValidTokens, Here, UnaryAt, MorePostfix, Print, BinaryAt, MoreOperands, ValidExpr;
    if e.Binary? && Rung(e.op) == level {
      ParsesOperation(ts, s, e, level);
    } else {
      PrintShapes(e, level);
      Parses(ts, s, e, level + 1);
      BinaryStep(ts, s, level, e);
    }
  }

  lemma {:induction false} ParsesOperation(ts: seq<Token>, s: State, e: Expr, level: nat)
    requires ValidTokens(ts) && Inside(ts, s) && ValidExpr(e) && level < UNARY && e.Binary? && Rung(e.op) == level
    requires Here(ts, s.at, Print(e, level)) && Follows(ts, s.at + |Print(e, level)|, level + 1, EndsBare(e, level))
    ensures BinaryAt(ts, s, level) == MoreOperands(ts, Past(s, Print(e, level)), level, e)
    decreases e, 0, 30 - level, 0
  {
    hide Here, Print, BinaryAt, MoreOperands, ValidTokens, ValidExpr;
    OperandsValid(e);
    OperationParts(ts, s, e, level);
    var mid := Past(s, Print(e.left, level));
    ParsesSpine(ts, s, e.left, level);
    BinaryStep(ts, mid, level, e.left);
    Parses(ts, mid.(at := mid.at + 1), e.right, level + 1);
  }

  lemma {:induction false} OperationParts(ts: seq<Token>, s: State, e: Expr, level: nat)
    requires ValidTokens(ts) && ValidExpr(e) && e.Binary? && Rung(e.op) == level < UNARY && Here(ts, s.at, Print(e, level))
    ensures var at := s.at + |Print(e.left, level)|;
            && s.at + |Print(e, level)| == at + 1 + |Print(e.right, level + 1)|
            && at + 1 < |ts| && ts[at] == Op(e.op)
            && Here(ts, s.at, Print(e.left, level)) && Here(ts, at + 1, Print(e.right, level + 1))
  {
    hide Here, Print, ValidTokens, ValidExpr;
    var left, right := Print(e.left, level), Print(e.right, level + 1);
    PrintShapes(e, level);
    HereConcat(ts, s.at, left + [Op(e.op)], right);
    HereConcat(ts, s.at, left, [Op(e.op)]);
    HereToken(ts, s.at + |left|, Op(e.op));
    NotLast(ts, s.at + |left|);
  }

  lemma {:induction false} OperandsValid(e: Expr)
    requires e.Binary? && ValidExpr(e)
    ensures ValidExpr(e.left) && ValidExpr(e.right)
  {
  }

  // ----- prefix, postfix, primary -----

  lemma {:induction false} ParsesUnary(ts: seq<Token>, s: State, e: Expr)
    requires ValidTokens(ts) && Inside(ts, s) && ValidExpr(e)
    requires Here(ts, s.at, Print(e, UNARY)) && Follows(ts, s.at + |Print(e, UNARY)|, UNARY, EndsBare(e, UNARY))
    ensures UnaryAt(ts, s) == Out(e, Past(s, Print(e, UNARY)))
    decreases e, if LevelOf(e) < UNARY then 1 else 0, 24, 1
  {
    hide Here, Print, UnaryAt, MorePostfix, ValidTokens, ValidExpr;
    if e.Unary? {
      ParsesPrefix(ts, s, e);
    } else if e.Borrow? {
      ParsesBorrow(ts, s, e);
    } else {
      PrintShapes(e, UNARY);
      ParsesPostfix(ts, s, e);
      PostfixEnds(ts, Past(s, Print(e, UNARY)), e);
    }
  }

  lemma {:induction false} PostfixEnds(ts: seq<Token>, s: State, e: Expr)
    requires ValidTokens(ts) && Inside(ts, s) && !KindAt(ts, s).LPAREN? && !KindAt(ts, s).DOT?
    ensures MorePostfix(ts, s, e) == Out(e, s)
  {
    hide ValidTokens;
  }

  lemma {:induction false} ParsesPrefix(ts: seq<Token>, s: State, e: Expr)
    requires ValidTokens(ts) && Inside(ts, s) && ValidExpr(e) && e.Unary?
    requires Here(ts, s.at, Print(e, UNARY)) && Follows(ts, s.at + |Print(e, UNARY)|, UNARY, EndsBare(e, UNARY))
    ensures UnaryAt(ts, s) == Out(e, Past(s, Print(e, UNARY)))
    decreases e, 0, 24, 0
  {
    hide Here, PrimaryAt, MorePostfix, Print, UnaryAt, ValidTokens;
    var operand := Print(e.operand, UNARY);
    PrintShapes(e, UNARY);
    HereConcat(ts, s.at, [Op(e.op)], operand);
    HereToken(ts, s.at, Op(e.op));
    NotLast(ts, s.at);
    UnaryStep(ts, s);
    ParsesUnary(ts, s.(at := s.at + 1), e.operand);
  }

  lemma {:induction false} ParsesBorrow(ts: seq<Token>, s: State, e: Expr)
    requires ValidTokens(ts) && Inside(ts, s) && e.Borrow?
    requires Here(ts, s.at, Print(e, UNARY)) && Follows(ts, s.at + |Print(e, UNARY)|, UNARY, EndsBare(e, UNARY))
    ensures UnaryAt(ts, s) == Out(e, Past(s, Print(e, UNARY)))
  {
    hide Here, UnaryAt, Print, ValidTokens;
    var op, name := Op(if e.mutable then MUTREF else REF), Token(IDENT, e.name);
    PrintShapes(e, UNARY);
    HereConcat(ts, s.at, [op], [name]);
    HereToken(ts, s.at, op);
    HereToken(ts, s.at + 1, name);
    UnaryStep(ts, s);
  }

  /** The chain of calls and fields up to here; more of them may follow. */
  lemma {:induction false} ParsesPostfix(ts: seq<Token>, s: State, e: Expr)
    requires ValidTokens(ts) && Inside(ts, s) && ValidExpr(e)
    requires Here(ts, s.at, Print(e, POSTFIX)) && s.at + |Print(e, POSTFIX)| < |ts|
    requires Closes(ts, s.at + |Print(e, POSTFIX)|, EndsBare(e, POSTFIX))
    ensures UnaryAt(ts, s) == MorePostfix(ts, Past(s, Print(e, POSTFIX)), e)
    decreases e, if LevelOf(e) < POSTFIX then 1 else 0, 22, 0
  {
    hide Here, PrintBare;
    if LevelOf(e) < POSTFIX {
      ParsesParens(ts, s, e);
      UnaryStep(ts, s);
    } else if e.Call? {
      ParsesCall(ts, s, e);
    } else if e.Field? {
      ParsesField(ts, s, e);
    } else {
      ParsesPrimary(ts, s, e);
    }
  }

  lemma {:induction false} ParsesParens(ts: seq<Token>, s: State, e: Expr)
    requires ValidTokens(ts) && Inside(ts, s) && ValidExpr(e) && LevelOf(e) < POSTFIX
    requires Here(ts, s.at, Print(e, POSTFIX)) && s.at + |Print(e, POSTFIX)| < |ts|
    ensures PrimaryAt(ts, s) == Out(e, Past(s, Print(e, POSTFIX))) && KindAt(ts, s).LPAREN?
    decreases e, 1, 0, 0
  {
    hide Here, PrintBare, BinaryAt, ValidExpr, PrimaryAt, ValidTokens;
    var inner := Print(e, 0);
    assert inner == PrintBare(e);
    assert Print(e, POSTFIX) == [Op(LPAREN)] + inner + [Op(RPAREN)];
    HereConcat(ts, s.at, [Op(LPAREN)] + inner, [Op(RPAREN)]);
    HereConcat(ts, s.at, [Op(LPAREN)], inner);
    HereToken(ts, s.at, Op(LPAREN));
    var next := s.(at := s.at + 1);
    HereToken(ts, next.at + |inner|, Op(RPAREN));
    Parses(ts, next, e, 0);
    PrimaryStep(ts, s);
  }

  lemma {:induction false} ParsesCall(ts: seq<Token>, s: State, e: Expr)
    requires ValidTokens(ts) && Inside(ts, s) && ValidExpr(e) && e.Call?
    requires Here(ts, s.at, Print(e, POSTFIX)) && s.at + |Print(e, POSTFIX)| < |ts|
    ensures UnaryAt(ts, s) == MorePostfix(ts, Past(s, Print(e, POSTFIX)), e)
    decreases e, 0, 21, 1
  {
    hide Here, UnaryAt, Print, PrintArgs, ArgsAt, MorePostfix, ValidTokens;
    CallParts(ts, s, e);
    var open := Past(s, Print(e.callee, POSTFIX));
    ParsesPostfix(ts, s, e.callee);
    ParsesArgs(ts, open.(at := open.at + 1), e.args);
    PostfixStep(ts, open, e.callee);
  }

  lemma {:induction false} CallParts(ts: seq<Token>, s: State, e: Expr)
    requires ValidExpr(e) && e.Call? && Here(ts, s.at, Print(e, POSTFIX)) && s.at + |Print(e, POSTFIX)| < |ts|
    ensures var at := s.at + |Print(e.callee, POSTFIX)|;
            && s.at + |Print(e, POSTFIX)| == at + 2 + |PrintArgs(e.args)|
            && Here(ts, s.at, Print(e.callee, POSTFIX)) && ts[at] == Op(LPAREN)
            && Here(ts, at + 1, PrintArgs(e.args)) && ts[at + 1 + |PrintArgs(e.args)|] == Op(RPAREN)
  {
    hide Here, Print, PrintArgs, ValidExpr;
    var head, args := Print(e.callee, POSTFIX), PrintArgs(e.args);
    PrintShapes(e, POSTFIX);
    HereConcat(ts, s.at, head + [Op(LPAREN)] + args, [Op(RPAREN)]);
    HereConcat(ts, s.at, head + [Op(LPAREN)], args);
    HereConcat(ts, s.at, head, [Op(LPAREN)]);
    HereToken(ts, s.at + |head|, Op(LPAREN));
    HereToken(ts, s.at + |head| + 1 + |args|, Op(RPAREN));
  }

  lemma {:induction false} ParsesField(ts: seq<Token>, s: State, e: Expr)
    requires ValidTokens(ts) && Inside(ts, s) && ValidExpr(e) && e.Field?
    requires Here(ts, s.at, Print(e, POSTFIX)) && s.at + |Print(e, POSTFIX)| < |ts|
    ensures UnaryAt(ts, s) == MorePostfix(ts, Past(s, Print(e, POSTFIX)), e)
    decreases e, 0, 21, 1
  {
    hide Here, UnaryAt, Print, MorePostfix, ValidTokens, ArgsAt;
    FieldParts(ts, s, e);
    ParsesPostfix(ts, s, e.base);
    PostfixStep(ts, Past(s, Print(e.base, POSTFIX)), e.base);
  }

  lemma {:induction false} FieldParts(ts: seq<Token>, s: State, e: Expr)
    requires ValidExpr(e) && e.Field? && Here(ts, s.at, Print(e, POSTFIX)) && s.at + |Print(e, POSTFIX)| < |ts|
    ensures var at := s.at + |Print(e.base, POSTFIX)|;
            && s.at + |Print(e, POSTFIX)| == at + 2 && Here(ts, s.at, Print(e.base, POSTFIX))
            && ts[at] == Op(DOT) && ts[at + 1] == Token(IDENT, e.name)
  {
    hide Here, Print, ValidExpr;
    var head, name := Print(e.base, POSTFIX), Token(IDENT, e.name);
    PrintShapes(e, POSTFIX);
    HereConcat(ts, s.at, head + [Op(DOT)], [name]);
    HereConcat(ts, s.at, head, [Op(DOT)]);
    HereToken(ts, s.at + |head|, Op(DOT));
    HereToken(ts, s.at + |head| + 1, name);
  }

  lemma {:induction false} ParsesPrimary(ts: seq<Token>, s: State, e: Expr)
    requires ValidTokens(ts) && Inside(ts, s) && ValidExpr(e) && LevelOf(e) == PRIMARY
    requires Here(ts, s.at, Print(e, POSTFIX)) && s.at + |Print(e, POSTFIX)| < |ts|
    requires Closes(ts, s.at + |Print(e, POSTFIX)|, EndsBare(e, POSTFIX))
    ensures UnaryAt(ts, s) == MorePostfix(ts, Past(s, Print(e, POSTFIX)), e)
    decreases e, 0, 21, 1
  {
    hide Here, UnaryAt, MorePostfix, PrimaryAt, PrintBare, ValidTokens;
    if e.Struct? {
      ParsesStruct(ts, s, e);
    } else {
      ParsesLeaf(ts, s, e);
    }
    UnaryStep(ts, s);
  }

  lemma {:induction false} ParsesLeaf(ts: seq<Token>, s: State, e: Expr)
    requires ValidTokens(ts) && Inside(ts, s) && LevelOf(e) == PRIMARY && !e.Struct?
    requires Here(ts, s.at, Print(e, POSTFIX)) && s.at + |Print(e, POSTFIX)| < |ts|
    requires Closes(ts, s.at + |Print(e, POSTFIX)|, EndsBare(e, POSTFIX))
    ensures PrimaryAt(ts, s) == Out(e, Past(s, Print(e, POSTFIX)))
    ensures !UnaryOp(KindAt(ts, s)) && !KindAt(ts, s).REF? && !KindAt(ts, s).MUTREF?
  {
    hide Here, PrimaryAt, LiteralAt, Print, ValidTokens, NumeralText, ValueOf, ExprAt, FieldsAt, StructAhead, Advance, IsNumeral;
    PrintShapes(e, POSTFIX);
    HereToken(ts, s.at, LeafToken(e));
    assert s.at + |Print(e, POSTFIX)| == s.at + 1;
    PrimaryStep(ts, s);
    if e.Var? {
      assert PrimaryAt(ts, s) == Out(e, s.(at := s.at + 1));
    } else {
      ReadsLiteral(ts, s, e);
    }
  }

  lemma {:induction false} ReadsLiteral(ts: seq<Token>, s: State, e: Expr)
    requires ValidTokens(ts) && s.at + 1 < |ts| && LevelOf(e) == PRIMARY && !e.Struct? && !e.Var?
    requires ts[s.at] == LeafToken(e)
    ensures LiteralAt(ts, s) == Out(e, s.(at := s.at + 1))
  {
    hide ValidTokens, NumeralText, ValueOf;
    if e.IntLit? {
      NumeralTextValue(e.value);
    }
  }

  function LeafToken(e: Expr): Token
    requires LevelOf(e) == PRIMARY && !e.Struct?
  {
    match e
    case IntLit(v) => Token(INT, NumeralText(v))
    case StringLit(text) => Token(STRING, text)
    case BoolLit(b) => Op(if b then TRUE else FALSE)
    case Var(name) => Token(IDENT, name)
  }

  lemma {:induction false} ParsesStruct(ts: seq<Token>, s: State, e: Expr)
    requires ValidTokens(ts) && Inside(ts, s) && ValidExpr(e) && e.Struct? && forall i | 0 <= i < |e.fields| :: ValidExpr(e.fields[i].value)
    requires Here(ts, s.at, Print(e, POSTFIX)) && s.at + |Print(e, POSTFIX)| < |ts|
    ensures PrimaryAt(ts, s) == Out(e, Past(s, Print(e, POSTFIX))) && KindAt(ts, s).IDENT?
    decreases e, 0, 21, 0
  {
    hide Here, Print, PrintFields, FieldsAt, ValidTokens, ValidExpr, PrimaryAt;
    StructParts(ts, s, e);
    var first := s.(at := s.at + 2);
    FieldsOpen(ts, first, e.fields);
    ParsesFields(ts, first, e.fields);
    PrimaryStep(ts, s);
  }

  lemma {:induction false} StructParts(ts: seq<Token>, s: State, e: Expr)
    requires ValidExpr(e) && e.Struct? && Here(ts, s.at, Print(e, POSTFIX)) && s.at + |Print(e, POSTFIX)| < |ts|
    ensures var at := s.at + 2 + |PrintFields(e.fields)|;
            && s.at + |Print(e, POSTFIX)| == at + 1
            && ts[s.at] == Token(IDENT, e.name) && ts[s.at + 1] == Op(LBRACE) && Here(ts, s.at + 2, PrintFields(e.fields))
            && ts[at] == Op(RBRACE)
  {
    hide Here, Print, PrintFields, ValidExpr;
    var name, fields := [Token(IDENT, e.name)], PrintFields(e.fields);
    PrintShapes(e, POSTFIX);
    HereConcat(ts, s.at, name + [Op(LBRACE)] + fields, [Op(RBRACE)]);
    HereConcat(ts, s.at, name + [Op(LBRACE)], fields);
    HereConcat(ts, s.at, name, [Op(LBRACE)]);
    HereToken(ts, s.at, name[0]);
    HereToken(ts, s.at + 1, Op(LBRACE));
    HereToken(ts, s.at + 2 + |fields|, Op(RBRACE));
  }

  /** The look-ahead recognises a printed struct literal. */
  lemma {:induction false} FieldsOpen(ts: seq<Token>, first: State, fields: seq<FieldInit>)
    requires Here(ts, first.at, PrintFields(fields)) && first.at + |PrintFields(fields)| < |ts|
    requires ts[first.at + |PrintFields(fields)|].kind.RBRACE?
    ensures fields == [] ==> ts[first.at].kind.RBRACE?
    ensures fields != [] ==> first.at + 1 < |ts| && ts[first.at].kind.IDENT? && ts[first.at + 1].kind.COLON?
  {
    if fields != [] {
      var tokens := PrintFields(fields);
      var one := PrintField(fields[0]);
      assert one[0].kind.IDENT? && one[1].kind.COLON?;
      assert tokens[0] == one[0] && tokens[1] == one[1];
      assert ts[first.at..first.at + |tokens|][0] == tokens[0] && ts[first.at..first.at + |tokens|][1] == tokens[1];
    }
  }

  lemma {:induction false} ParsesArgs(ts: seq<Token>, s: State, args: seq<Expr>)
    requires ValidTokens(ts) && Inside(ts, s) && forall i | 0 <= i < |args| :: ValidExpr(args[i])
    requires Here(ts, s.at, PrintArgs(args)) && s.at + |PrintArgs(args)| < |ts| && ts[s.at + |PrintArgs(args)|].kind.RPAREN?
    ensures ArgsAt(ts, s) == Out(args, Past(s, PrintArgs(args)))
    decreases args, 3, 0, 0
  {
    hide Here, ValidTokens, Print;
    if args != [] {
      FirstToken(args[0], 0);
      ArgsBegin(ts, s, args);
      ParsesMoreArgs(ts, s, args, []);
      assert [] + args == args;
    }
  }

  lemma {:induction false} ArgsBegin(ts: seq<Token>, s: State, args: seq<Expr>)
    requires args != [] && Inside(ts, s) && Here(ts, s.at, PrintArgs(args))
    requires Print(args[0], 0) != []
    ensures ts[s.at] == Print(args[0], 0)[0]
  {
    assert PrintArgs(args)[0] == Print(args[0], 0)[0];
    assert ts[s.at..s.at + |PrintArgs(args)|][0] == PrintArgs(args)[0];
  }

  lemma {:induction false} ParsesMoreArgs(ts: seq<Token>, s: State, args: seq<Expr>, done: seq<Expr>)
    requires ValidTokens(ts) && Inside(ts, s) && args != [] && forall i | 0 <= i < |args| :: ValidExpr(args[i])
    requires Here(ts, s.at, PrintArgs(args)) && s.at + |PrintArgs(args)| < |ts| && ts[s.at + |PrintArgs(args)|].kind.RPAREN?
    ensures MoreArgs(ts, s, done) == Out(done + args, Past(s, PrintArgs(args)))
    decreases args, 2, 0, 0
  {
    hide Here, ExprAt, BinaryAt, Print, MoreArgs, PrintArgs, ValidTokens, ValidExpr;
    ParsesFirstArg(ts, s, args);
    ArgsShape(args);
    if |args| == 1 {
      ArgStep(ts, s, done);
      assert done + args == done + [args[0]];
    } else {
      var next := s.(at := s.at + |Print(args[0], 0)| + 1);
      ArgsParts(ts, s, args);
      FirstToken(args[1], 0);
      ArgsBegin(ts, next, args[1..]);
      ArgStep(ts, s, done);
      ParsesMoreArgs(ts, next, args[1..], done + [args[0]]);
      FirstOver(done, args);
    }
  }

  lemma {:induction false} FirstOver<T>(done: seq<T>, rest: seq<T>)
    requires rest != []
    ensures done + [rest[0]] + rest[1..] == done + rest
  {
  }

  lemma {:induction false} ArgsParts(ts: seq<Token>, s: State, args: seq<Expr>)
    requires |args| > 1 && Here(ts, s.at, PrintArgs(args)) && s.at + |PrintArgs(args)| < |ts|
    ensures var at := s.at + |Print(args[0], 0)|;
            && Here(ts, s.at, Print(args[0], 0)) && ts[at] == Op(COMMA) && Here(ts, at + 1, PrintArgs(args[1..]))
            && s.at + |PrintArgs(args)| == at + 1 + |PrintArgs(args[1..])|
  {
    hide Here, Print, PrintArgs;
    var one, more := Print(args[0], 0), PrintArgs(args[1..]);
    ArgsShape(args);
    HereConcat(ts, s.at, one + [Op(COMMA)], more);
    HereConcat(ts, s.at, one, [Op(COMMA)]);
    HereToken(ts, s.at + |one|, Op(COMMA));
  }

  lemma {:induction false} ParsesFirstArg(ts: seq<Token>, s: State, args: seq<Expr>)
    requires ValidTokens(ts) && Inside(ts, s) && args != [] && ValidExpr(args[0])
    requires Here(ts, s.at, PrintArgs(args)) && s.at + |PrintArgs(args)| < |ts| && ts[s.at + |PrintArgs(args)|].kind.RPAREN?
    ensures ExprAt(ts, s) == Out(args[0], Past(s, Print(args[0], 0)))
    decreases args, 1, 0, 0
  {
    hide Here, BinaryAt, Print, ValidTokens, ValidExpr;
    if |args| > 1 {
      ArgsParts(ts, s, args);
    }
    Parses(ts, s, args[0], 0);
  }

  lemma {:induction false} ParsesFields(ts: seq<Token>, s: State, fields: seq<FieldInit>)
    requires ValidTokens(ts) && Inside(ts, s) && forall i | 0 <= i < |fields| :: ValidExpr(fields[i].value)
    requires Here(ts, s.at, PrintFields(fields)) && s.at + |PrintFields(fields)| < |ts|
    requires ts[s.at + |PrintFields(fields)|].kind.RBRACE?
    ensures FieldsAt(ts, s) == Out(fields, Past(s, PrintFields(fields)))
    decreases fields, 3, 0, 0
  {
    hide Here, ValidTokens, PrintField;
    FieldsOpen(ts, s, fields);
    if fields != [] {
      ParsesMoreFields(ts, s, fields, []);
      assert [] + fields == fields;
    }
  }

  lemma {:induction false} ParsesMoreFields(ts: seq<Token>, s: State, fields: seq<FieldInit>, done: seq<FieldInit>)
    requires ValidTokens(ts) && Inside(ts, s) && fields != [] && forall i | 0 <= i < |fields| :: ValidExpr(fields[i].value)
    requires Here(ts, s.at, PrintFields(fields)) && s.at + |PrintFields(fields)| < |ts|
    requires ts[s.at + |PrintFields(fields)|].kind.RBRACE?
    ensures MoreFields(ts, s, done) == Out(done + fields, Past(s, PrintFields(fields)))
    decreases fields, 2, 0, 0
  {
    hide Here, ExprAt, MoreFields, PrintField, PrintFields, ValidTokens, ValidExpr;
    FieldsShape(fields);
    if |fields| == 1 {
      ParsesOneField(ts, s, fields[0]);
      FieldInitStep(ts, s, done);
      assert done + fields == done + [fields[0]];
    } else {
      FieldsParts(ts, s, fields);
      ParsesOneField(ts, s, fields[0]);
      var next := s.(at := s.at + |PrintField(fields[0])| + 1);
      FieldsOpen(ts, next, fields[1..]);
      FieldInitStep(ts, s, done);
      ParsesMoreFields(ts, next, fields[1..], done + [fields[0]]);
      FirstOver(done, fields);
    }
  }

  lemma {:induction false} FieldsParts(ts: seq<Token>, s: State, fields: seq<FieldInit>)
    requires |fields| > 1 && Here(ts, s.at, PrintFields(fields)) && s.at + |PrintFields(fields)| < |ts|
    ensures var at := s.at + |PrintField(fields[0])|;
            && Here(ts, s.at, PrintField(fields[0])) && ts[at] == Op(COMMA) && Here(ts, at + 1, PrintFields(fields[1..]))
            && s.at + |PrintFields(fields)| == at + 1 + |PrintFields(fields[1..])|
  {
    hide Here, PrintField, PrintFields;
    var one, more := PrintField(fields[0]), PrintFields(fields[1..]);
    FieldsShape(fields);
    HereConcat(ts, s.at, one + [Op(COMMA)], more);
    HereConcat(ts, s.at, one, [Op(COMMA)]);
    HereToken(ts, s.at + |one|, Op(COMMA));
  }

  /** One name, colon and value, up to a comma or the closing brace. */
  lemma {:induction false} ParsesOneField(ts: seq<Token>, s: State, f: FieldInit)
    requires ValidTokens(ts) && Inside(ts, s) && ValidExpr(f.value)
    requires Here(ts, s.at, PrintField(f)) && s.at + |PrintField(f)| < |ts|
    requires ts[s.at + |PrintField(f)|].kind.COMMA? || ts[s.at + |PrintField(f)|].kind.RBRACE?
    ensures s.at + 2 < |ts| && ts[s.at] == Token(IDENT, f.name) && ts[s.at + 1].kind.COLON?
    ensures ExprAt(ts, s.(at := s.at + 2)) == Out(f.value, Past(s, PrintField(f)))
    decreases f, 1, 0, 0
  {
    hide Here, BinaryAt, Print, ValidTokens;
    var value := Print(f.value, 0);
    assert PrintField(f) == [Token(IDENT, f.name)] + [Op(COLON)] + value;
    HereConcat(ts, s.at, [Token(IDENT, f.name)] + [Op(COLON)], value);
    HereConcat(ts, s.at, [Token(IDENT, f.name)], [Op(COLON)]);
    HereToken(ts, s.at, Token(IDENT, f.name));
    HereToken(ts, s.at + 1, Op(COLON));
    Parses(ts, s.(at := s.at + 2), f.value, 0);
  }

  // ----- the result -----

  /** The printed tokens of an expression, as a statement, to the end of input. */
  function Statement(e: Expr): seq<Token> {
    Print(e, 0) + [Op(SEMI), Op(EOF)]
  }

  lemma {:induction false} PrintedTokensValid(e: Expr, level: nat)
    requires ValidExpr(e)
    ensures forall i | 0 <= i < |Print(e, level)| ::
              Print(e, level)[i].kind !in {EOF, EQ} && (Print(e, level)[i].kind.INT? ==> IsNumeral(Print(e, level)[i].text))
    decreases e, 1
  {
    BareTokensValid(e);
  }

  lemma {:induction false} BareTokensValid(e: Expr)
    requires ValidExpr(e)
    ensures forall i | 0 <= i < |PrintBare(e)| ::
              PrintBare(e)[i].kind !in {EOF, EQ} && (PrintBare(e)[i].kind.INT? ==> IsNumeral(PrintBare(e)[i].text))
    decreases e, 0
  {
    hide Print;
    match e
    case Call(callee, args) =>
      PrintedTokensValid(callee, POSTFIX);
      ArgTokensValid(args);
    case Field(base, _) => PrintedTokensValid(base, POSTFIX);
    case Unary(_, operand) => PrintedTokensValid(operand, UNARY);
    case Binary(left, op, right) =>
      PrintedTokensValid(left, Rung(op));
      PrintedTokensValid(right, Rung(op) + 1);
    case Struct(_, fields) => FieldTokensValid(fields);
    case _ =>
  }

  lemma {:induction false} ArgTokensValid(args: seq<Expr>)
    requires forall i | 0 <= i < |args| :: ValidExpr(args[i])
    ensures forall i | 0 <= i < |PrintArgs(args)| ::
              PrintArgs(args)[i].kind !in {EOF, EQ} && (PrintArgs(args)[i].kind.INT? ==> IsNumeral(PrintArgs(args)[i].text))
    decreases args, 2
  {
    hide Print;
    if args != [] {
      PrintedTokensValid(args[0], 0);
      ArgTokensValid(args[1..]);
    }
  }

  lemma {:induction false} FieldTokensValid(fields: seq<FieldInit>)
    requires forall i | 0 <= i < |fields| :: ValidExpr(fields[i].value)
    ensures forall i | 0 <= i < |PrintFields(fields)| ::
              PrintFields(fields)[i].kind !in {EOF, EQ} && (PrintFields(fields)[i].kind.INT? ==> IsNumeral(PrintFields(fields)[i].text))
    decreases fields, 2
  {
    hide Print;
    if fields != [] {
      PrintedTokensValid(fields[0].value, 0);
      FieldTokensValid(fields[1..]);
      var one, rest := PrintField(fields[0]), PrintFields(fields[1..]);
      assert one == [Token(IDENT, fields[0].name), Op(COLON)] + Print(fields[0].value, 0);
      assert |fields| == 1 || PrintFields(fields) == one + [Op(COMMA)] + rest;
    }
  }

  lemma {:induction false} StatementValid(e: Expr)
    requires ValidExpr(e)
    ensures ValidTokens(Statement(e))
  {
    hide Print;
    PrintedTokensValid(e, 0);
  }

  /** Parsing a printed expression gives it back, consumes exactly its tokens, and
      reports nothing. */
  lemma {:induction false} ParseInvertsPrint(e: Expr)
    requires ValidExpr(e)
    ensures ValidTokens(Statement(e))
    ensures ExprAt(Statement(e), State(0, [])) == Out(e, State(|Print(e, 0)|, []))
  {
    hide Print, BinaryAt, ValidTokens;
    StatementValid(e);
    var ts := Statement(e);
    assert ts[0..0 + |Print(e, 0)|] == Print(e, 0);
    assert ts[|Print(e, 0)|] == Op(SEMI);
    Parses(ts, State(0, []), e, 0);
  }

  /** Different trees print differently. */
  lemma {:induction false} PrintInjective(a: Expr, b: Expr)
    requires ValidExpr(a) && ValidExpr(b) && Print(a, 0) == Print(b, 0)
    ensures a == b
  {
    hide Print, ExprAt, ValidTokens;
    ParseInvertsPrint(a);
    ParseInvertsPrint(b);
  }
}
