/** Tokens, expression trees, and the printer that adds only the parentheses the
    precedence ladder requires. The ladder has a number for each rung: binary
    operators from the loosest upwards, then prefix forms, postfix forms, primaries.
    A tree is printed at a level, and is put in parentheses exactly when its own
    level is lower; a left operand is printed at the level of its operator and a
    right operand one above it, because operators of one rung associate to the left.
    A list of tokens is valid when the end marker is its last token and no other,
    and its integer tokens are digits. */
module ParserSyntax {
  import opened Numerals

  datatype Kind =
    | IDENT | INT | STRING | TRUE | FALSE | EOF
    | LPAREN | RPAREN | LBRACE | RBRACE | COMMA | SEMI | COLON | DOT | EQ | ARROW | FAT_ARROW
    | OR | AND | EQEQ | NOTEQ | LT | LTE | GT | GTE | PLUS | MINUS | STAR | SLASH | NOT
    | REF | MUTREF | LET | MUT | IF | ELSE | WHILE | MATCH | RETURN
    | FN | TYPE | ENUM | USE | PUB | AUDIT

  datatype Token = Token(kind: Kind, text: string)

  /** A token list as the lexer delivers it: digits in every number, and exactly
      one end marker, at the end. */
  ghost predicate ValidTokens(ts: seq<Token>) {
    && ts != [] && ts[|ts| - 1].kind.EOF?
    && (forall i | 0 <= i < |ts| - 1 :: !ts[i].kind.EOF?)
    && (forall i | 0 <= i < |ts| && ts[i].kind.INT? :: IsNumeral(ts[i].text))
  }

  predicate IsNumeral(s: string) {
    s != "" && AllDigits(s)
  }

  datatype Expr =
    | IntLit(value: nat)
    | StringLit(text: string)
    | BoolLit(b: bool)
    | Var(name: string)
    | Struct(name: string, fields: seq<FieldInit>)
    | Call(callee: Expr, args: seq<Expr>)
    | Field(base: Expr, name: string)
    | Borrow(mutable: bool, name: string)
    | Unary(op: Kind, operand: Expr)
    | Binary(left: Expr, op: Kind, right: Expr)

  datatype FieldInit = FieldInit(name: string, value: Expr)

  // ----- the ladder -----

  const UNARY: nat := 6
  const POSTFIX: nat := 7
  const PRIMARY: nat := 8

  /** The rung of a binary operator, loosest first; 9 for anything else. */
  function Rung(k: Kind): nat {
    match k
    case OR => 0
    case AND => 1
    case EQEQ => 2
    case NOTEQ => 2
    case LT => 3
    case LTE => 3
    case GT => 3
    case GTE => 3
    case PLUS => 4
    case MINUS => 4
    case STAR => 5
    case SLASH => 5
    case _ => 9
  }

  predicate UnaryOp(k: Kind) {
    k.MINUS? || k.NOT?
  }

  /** Trees the parser can build: only the ladder's operators. */
  predicate ValidExpr(e: Expr)
    decreases e
  {
    match e
    case Struct(_, fields) => forall i | 0 <= i < |fields| :: ValidExpr(fields[i].value)
    case Call(callee, args) => ValidExpr(callee) && forall i | 0 <= i < |args| :: ValidExpr(args[i])
    case Field(base, _) => ValidExpr(base)
    case Unary(op, operand) => UnaryOp(op) && ValidExpr(operand)
    case Binary(left, op, right) => Rung(op) < 6 && ValidExpr(left) && ValidExpr(right)
    case _ => true
  }

  function LevelOf(e: Expr): nat {
    match e
    case Binary(_, op, _) => Rung(op)
    case Unary(_, _) => UNARY
    case Borrow(_, _) => UNARY
    case Call(_, _) => POSTFIX
    case Field(_, _) => POSTFIX
    case _ => PRIMARY
  }

  // ----- printing -----

  function Op(k: Kind): Token {
    Token(k, "")
  }

  function NumeralText(v: nat): (s: string)
    ensures IsNumeral(s)
  {
    if v == 0 then "0" else NumeralNonEmpty(v); Numeral(v)
  }

  lemma NumeralNonEmpty(v: nat)
    requires v > 0
    ensures Numeral(v) != ""
  {
  }

  lemma NumeralTextValue(v: nat)
    ensures ValueOf(NumeralText(v)) == v
  {
    NumeralValue(v);
    if v == 0 {
      assert ValueOf("0") == 10 * ValueOf("0"[..0]) + DigitValue('0');
    }
  }

  /** An expression where at least this level is required. */
  function Print(e: Expr, level: nat): seq<Token>
    decreases e, 1
  {
    if LevelOf(e) < level then [Op(LPAREN)] + PrintBare(e) + [Op(RPAREN)] else PrintBare(e)
  }

  function PrintBare(e: Expr): seq<Token>
    decreases e, 0
  {
    match e
    case IntLit(v) => [Token(INT, NumeralText(v))]
    case StringLit(text) => [Token(STRING, text)]
    case BoolLit(b) => [Op(if b then TRUE else FALSE)]
    case Var(name) => [Token(IDENT, name)]
    case Struct(name, fields) => [Token(IDENT, name), Op(LBRACE)] + PrintFields(fields) + [Op(RBRACE)]
    case Call(callee, args) => Print(callee, POSTFIX) + [Op(LPAREN)] + PrintArgs(args) + [Op(RPAREN)]
    case Field(base, name) => Print(base, POSTFIX) + [Op(DOT), Token(IDENT, name)]
    case Borrow(mutable, name) => [Op(if mutable then MUTREF else REF), Token(IDENT, name)]
    case Unary(op, operand) => [Op(op)] + Print(operand, UNARY)
    case Binary(left, op, right) => Print(left, Rung(op)) + [Op(op)] + Print(right, Rung(op) + 1)
  }

  function PrintArgs(args: seq<Expr>): seq<Token>
    decreases args, 0
  {
    if args == [] then []
    else if |args| == 1 then Print(args[0], 0)
    else Print(args[0], 0) + [Op(COMMA)] + PrintArgs(args[1..])
  }

  function PrintFields(fields: seq<FieldInit>): seq<Token>
    decreases fields, 0
  {
    if fields == [] then []
    else if |fields| == 1 then PrintField(fields[0])
    else PrintField(fields[0]) + [Op(COMMA)] + PrintFields(fields[1..])
  }

  function PrintField(f: FieldInit): seq<Token>
    decreases f, 0
  {
    [Token(IDENT, f.name), Op(COLON)] + Print(f.value, 0)
  }
}
