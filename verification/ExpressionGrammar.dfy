/** What parsing an expression yields, as functions of the cursor: the ladder of
    binary operators, prefix and postfix forms, and primaries with recovery. Every
    function takes the tokens and where the cursor is, and gives the tree, the new
    cursor and what has been reported by then. A form that reads at least one token
    moves the cursor, unless it stands on the end marker, which is never passed; the
    ladder ends because of that, and so does the recovery from a malformed primary. */
module ExpressionGrammar {
  import opened Numerals
  import opened ParserSyntax

  datatype Code = Expected(kind: Kind) | NotAnExpression | NotAnItem | UseMarkedPublic | LateUse | WrongClause

  /** Where the cursor is and what has been reported. */
  datatype State = State(at: nat, diags: seq<Code>)

  datatype Out<T> = Out(value: T, state: State)

  predicate Inside(ts: seq<Token>, s: State) {
    s.at < |ts|
  }

  /** The cursor moves forward, and past any token but the end marker; reports are
      only added. */
  ghost predicate Moved(ts: seq<Token>, before: State, after: State) {
    Kept(ts, before, after) && (before.at < |ts| - 1 ==> before.at < after.at)
  }

  ghost predicate Kept(ts: seq<Token>, before: State, after: State) {
    before.at <= after.at < |ts| && |before.diags| <= |after.diags|
  }

  function Peek(ts: seq<Token>, s: State, offset: nat): Token
    requires Inside(ts, s)
  {
    ts[if s.at + offset < |ts| - 1 then s.at + offset else |ts| - 1]
  }

  function KindAt(ts: seq<Token>, s: State): Kind
    requires Inside(ts, s)
  {
    ts[s.at].kind
  }

  function Advance(ts: seq<Token>, s: State): (r: State)
    requires Inside(ts, s)
    ensures Inside(ts, r) && r.diags == s.diags
  {
    if s.at < |ts| - 1 then s.(at := s.at + 1) else s
  }

  /** A token of the expected kind is taken; any other stays and is reported. */
  function Expect(ts: seq<Token>, s: State, kind: Kind): (o: Out<Token>)
    requires Inside(ts, s)
    ensures Inside(ts, o.state) && s.at <= o.state.at && |s.diags| <= |o.state.diags|
  {
    if KindAt(ts, s) == kind then Out(ts[s.at], Advance(ts, s))
    else Out(ts[s.at], s.(diags := s.diags + [Expected(kind)]))
  }

  /** Two more tokens decide whether a brace opens a struct literal. */
  predicate StructAhead(ts: seq<Token>, s: State)
    requires Inside(ts, s)
  {
    KindAt(ts, s).LBRACE? &&
    (Peek(ts, s, 1).kind.RBRACE? || (Peek(ts, s, 1).kind.IDENT? && Peek(ts, s, 2).kind.COLON?))
  }

  function ExprAt(ts: seq<Token>, s: State): (o: Out<Expr>)
    requires ValidTokens(ts) && Inside(ts, s)
    ensures Moved(ts, s, o.state)
    decreases |ts| - s.at, 20
  {
    BinaryAt(ts, s, 0)
  }

  /** The rung of binary operators at this level, down to the prefix forms. */
  function BinaryAt(ts: seq<Token>, s: State, level: nat): (o: Out<Expr>)
    requires ValidTokens(ts) && Inside(ts, s) && level <= UNARY
    ensures Moved(ts, s, o.state)
    decreases |ts| - s.at, 18 - level
  {
    if level == UNARY then UnaryAt(ts, s)
    else
      var first := BinaryAt(ts, s, level + 1);
      MoreOperands(ts, first.state, level, first.value)
  }

  function MoreOperands(ts: seq<Token>, s: State, level: nat, left: Expr): (o: Out<Expr>)
    requires ValidTokens(ts) && Inside(ts, s) && level < UNARY
    ensures Kept(ts, s, o.state)
    decreases |ts| - s.at, 1
  {
    if Rung(KindAt(ts, s)) == level then
      var right := BinaryAt(ts, Advance(ts, s), level + 1);
      MoreOperands(ts, right.state, level, Binary(left, KindAt(ts, s), right.value))
    else Out(left, s)
  }

  function UnaryAt(ts: seq<Token>, s: State): (o: Out<Expr>)
    requires ValidTokens(ts) && Inside(ts, s)
    ensures Moved(ts, s, o.state)
    decreases |ts| - s.at, 10
  {
    var kind := KindAt(ts, s);
    if UnaryOp(kind) then
      var operand := UnaryAt(ts, Advance(ts, s));
      Out(Unary(kind, operand.value), operand.state)
    else if kind.REF? || kind.MUTREF? then
      var name := Expect(ts, Advance(ts, s), IDENT);
      Out(Borrow(kind.MUTREF?, name.value.text), name.state)
    else
      var first := PrimaryAt(ts, s);
      MorePostfix(ts, first.state, first.value)
  }

  /** Calls and field accesses after a primary, as many as there are. */
  function MorePostfix(ts: seq<Token>, s: State, e: Expr): (o: Out<Expr>)
    requires ValidTokens(ts) && Inside(ts, s)
    ensures Kept(ts, s, o.state)
    decreases |ts| - s.at, 1
  {
    if KindAt(ts, s).LPAREN? then
      var args := ArgsAt(ts, Advance(ts, s));
      var close := Expect(ts, args.state, RPAREN);
      MorePostfix(ts, close.state, Call(e, args.value))
    else if KindAt(ts, s).DOT? then
      var name := Expect(ts, Advance(ts, s), IDENT);
      MorePostfix(ts, name.state, Field(e, name.value.text))
    else Out(e, s)
  }

  function ArgsAt(ts: seq<Token>, s: State): (o: Out<seq<Expr>>)
    requires ValidTokens(ts) && Inside(ts, s)
    ensures Kept(ts, s, o.state)
    decreases |ts| - s.at, 22
  {
    if KindAt(ts, s).RPAREN? then Out([], s) else MoreArgs(ts, s, [])
  }

  function MoreArgs(ts: seq<Token>, s: State, args: seq<Expr>): (o: Out<seq<Expr>>)
    requires ValidTokens(ts) && Inside(ts, s)
    ensures Kept(ts, s, o.state)
    decreases |ts| - s.at, 21
  {
    var e := ExprAt(ts, s);
    if !KindAt(ts, e.state).COMMA? then Out(args + [e.value], e.state)
    else
      var next := Advance(ts, e.state);
      if KindAt(ts, next).RPAREN? then Out(args + [e.value], next) else MoreArgs(ts, next, args + [e.value])
  }

  function PrimaryAt(ts: seq<Token>, s: State): (o: Out<Expr>)
    requires ValidTokens(ts) && Inside(ts, s)
    ensures Moved(ts, s, o.state)
    decreases |ts| - s.at, 9
  {
    var token := ts[s.at];
    var next := Advance(ts, s);
    if token.kind.IDENT? then
      if StructAhead(ts, next) then
        var fields := FieldsAt(ts, Advance(ts, next));
        var close := Expect(ts, fields.state, RBRACE);
        Out(Struct(token.text, fields.value), close.state)
      else Out(Var(token.text), next)
    else if token.kind.LPAREN? then
      var inner := ExprAt(ts, next);
      var close := Expect(ts, inner.state, RPAREN);
      Out(inner.value, close.state)
    else LiteralAt(ts, s)
  }

  /** A literal; anything else is reported, skipped, and read as zero. */
  function LiteralAt(ts: seq<Token>, s: State): (o: Out<Expr>)
    requires ValidTokens(ts) && Inside(ts, s)
    ensures Moved(ts, s, o.state)
  {
    var token := ts[s.at];
    var next := Advance(ts, s);
    match token.kind
    case INT => Out(IntLit(ValueOf(token.text)), next)
    case STRING => Out(StringLit(token.text), next)
    case TRUE => Out(BoolLit(true), next)
    case FALSE => Out(BoolLit(false), next)
    case _ => Out(IntLit(0), Advance(ts, s.(diags := s.diags + [NotAnExpression])))
  }

  /** The end marker, and only that, is last. */
  lemma NotLast(ts: seq<Token>, i: nat)
    requires ValidTokens(ts) && i < |ts|
    ensures ts[i].kind.EOF? <==> i == |ts| - 1
  {
  }

  function FieldsAt(ts: seq<Token>, s: State): (o: Out<seq<FieldInit>>)
    requires ValidTokens(ts) && Inside(ts, s)
    ensures Kept(ts, s, o.state)
    decreases |ts| - s.at, 22
  {
    if KindAt(ts, s).RBRACE? then Out([], s) else MoreFields(ts, s, [])
  }

  function MoreFields(ts: seq<Token>, s: State, fields: seq<FieldInit>): (o: Out<seq<FieldInit>>)
    requires ValidTokens(ts) && Inside(ts, s)
    ensures Kept(ts, s, o.state)
    decreases |ts| - s.at, 21
  {
    var name := Expect(ts, s, IDENT);
    var colon := Expect(ts, name.state, COLON);
    var value := ExprAt(ts, colon.state);
    var field := FieldInit(name.value.text, value.value);
    if !KindAt(ts, value.state).COMMA? then Out(fields + [field], value.state)
    else
      var next := Advance(ts, value.state);
      if KindAt(ts, next).RBRACE? then Out(fields + [field], next) else MoreFields(ts, next, fields + [field])
  }
}
