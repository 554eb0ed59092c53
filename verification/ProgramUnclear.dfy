/** Parsing what a program is printed as gives it back: the exact condition. */
module ProgramUnclear {
  import opened Numerals
  import opened ParserSyntax
  import opened ExpressionGrammar
  import opened ExpressionRoundTrip
  import opened ProgramGrammar
  import opened ProgramPrint
  import opened ProgramRoundTrip
  import opened ProgramTokens

  // ----- expressions -----

  /** How many struct literals a tree holds. */
  function Structs(e: Expr): nat
    decreases e, 0
  {
    match e
    case Struct(_, fields) => 1 + FieldStructs(fields)
    case Call(callee, args) => Structs(callee) + ArgStructs(args)
    case Field(base, _) => Structs(base)
    case Unary(_, operand) => Structs(operand)
    case Binary(left, _, right) => Structs(left) + Structs(right)
    case _ => 0
  }

  function ArgStructs(args: seq<Expr>): nat
    decreases args, 0
  {
    if args == [] then 0 else Structs(args[0]) + ArgStructs(args[1..])
  }

  function FieldStructs(fields: seq<FieldInit>): nat
    decreases fields, 0
  {
    if fields == [] then 0 else Structs(fields[0].value) + FieldStructs(fields[1..])
  }

  lemma {:induction false} OperandsGrow(ts: seq<Token>, s: State, level: nat, left: Expr)
    requires ValidTokens(ts) && Inside(ts, s) && level < UNARY
    ensures Structs(MoreOperands(ts, s, level, left).value) >= Structs(left)
    decreases |ts| - s.at
  {
    hide ValidTokens, BinaryAt, Rung;
    if Rung(KindAt(ts, s)) == level {
      NotLast(ts, s.at);
      assert Rung(EOF) >= UNARY by { EofIsLast(); }
      var right := BinaryAt(ts, Advance(ts, s), level + 1);
      OperandsGrow(ts, right.state, level, Binary(left, KindAt(ts, s), right.value));
    }
  }

  lemma {:induction false} EofIsLast()
    ensures Rung(EOF) >= UNARY
  {
  }

  lemma {:induction false} PostfixGrows(ts: seq<Token>, s: State, e: Expr)
    requires ValidTokens(ts) && Inside(ts, s)
    ensures Structs(MorePostfix(ts, s, e).value) >= Structs(e)
    decreases |ts| - s.at
  {
    hide ValidTokens, ArgsAt, ArgStructs;
    if KindAt(ts, s).LPAREN? {
      NotLast(ts, s.at);
      var args := ArgsAt(ts, Advance(ts, s));
      PostfixGrows(ts, Expect(ts, args.state, RPAREN).state, Call(e, args.value));
    } else if KindAt(ts, s).DOT? {
      NotLast(ts, s.at);
      var name := Expect(ts, Advance(ts, s), IDENT);
      PostfixGrows(ts, name.state, Field(e, name.value.text));
    }
  }

  /** Whatever comes behind a printed expression, none of its struct literals is lost. */
  lemma {:induction false} Grows(ts: seq<Token>, s: State, e: Expr, level: nat)
    requires ValidTokens(ts) && Inside(ts, s) && ValidExpr(e) && level <= UNARY && !EndsBare(e, level)
    requires Here(ts, s.at, Print(e, level)) && s.at + |Print(e, level)| < |ts|
    ensures Structs(BinaryAt(ts, s, level).value) >= Structs(e)
    decreases e, 30 - level
  {
    hide ValidTokens, Here, Print, UnaryAt, MorePostfix, MoreOperands, BinaryAt, ValidExpr, IsNumeral;
    if level == UNARY {
      UnaryGrows(ts, s, e);
    } else if e.Binary? && Rung(e.op) == level {
      OperationGrows(ts, s, e, level);
    } else {
      PrintShapes(e, level);
      Grows(ts, s, e, level + 1);
      BinaryStep(ts, s, level, e);
      var first := BinaryAt(ts, s, level + 1);
      OperandsGrow(ts, first.state, level, first.value);
    }
  }

  lemma {:induction false} OperationGrows(ts: seq<Token>, s: State, e: Expr, level: nat)
    requires ValidTokens(ts) && Inside(ts, s) && ValidExpr(e) && level < UNARY && e.Binary? && Rung(e.op) == level
    requires !EndsBare(e, level)
    requires Here(ts, s.at, Print(e, level)) && s.at + |Print(e, level)| < |ts|
    ensures Structs(BinaryAt(ts, s, level).value) >= Structs(e)
    decreases e, 30 - level - 1
  {
    hide ValidTokens, Here, Print, UnaryAt, MorePostfix, MoreOperands, BinaryAt, ValidExpr, IsNumeral;
    OperandsValid(e);
    OperationParts(ts, s, e, level);
    var mid := Past(s, Print(e.left, level));
    ParsesSpine(ts, s, e.left, level);
    BinaryStep(ts, mid, level, e.left);
    Grows(ts, mid.(at := mid.at + 1), e.right, level + 1);
    var right := BinaryAt(ts, mid.(at := mid.at + 1), level + 1);
    OperandsGrow(ts, right.state, level, Binary(e.left, e.op, right.value));
  }

  lemma {:induction false} UnaryGrows(ts: seq<Token>, s: State, e: Expr)
    requires ValidTokens(ts) && Inside(ts, s) && ValidExpr(e) && !EndsBare(e, UNARY)
    requires Here(ts, s.at, Print(e, UNARY)) && s.at + |Print(e, UNARY)| < |ts|
    ensures Structs(BinaryAt(ts, s, UNARY).value) >= Structs(e)
    decreases e, 30 - UNARY - 1
  {
    hide ValidTokens, Here, Print, UnaryAt, MorePostfix, MoreOperands, IsNumeral;
    PrintShapes(e, UNARY);
    if e.Unary? {
      HereConcat(ts, s.at, [Op(e.op)], Print(e.operand, UNARY));
      HereToken(ts, s.at, Op(e.op));
      NotLast(ts, s.at);
      UnaryStep(ts, s);
      Grows(ts, s.(at := s.at + 1), e.operand, UNARY);
    } else if !e.Borrow? {
      ParsesPostfix(ts, s, e);
      PostfixGrows(ts, Past(s, Print(e, UNARY)), e);
    }
  }

  /** The tree with its last name read as a struct literal without fields. */
  function Opened(e: Expr, level: nat): (o: Expr)
    requires EndsBare(e, level)
    ensures LevelOf(o) == LevelOf(e) && Structs(o) == Structs(e) + 1
    ensures ValidExpr(e) ==> ValidExpr(o)
    ensures !EndsBare(o, level)
  {
    match e
    case Var(name) => Struct(name, [])
    case Unary(op, operand) => Unary(op, Opened(operand, UNARY))
    case Binary(left, op, right) => Binary(left, op, Opened(right, Rung(op) + 1))
  }

  lemma {:induction false} OpenedPrints(e: Expr, level: nat)
    requires EndsBare(e, level) && ValidExpr(e)
    ensures Print(Opened(e, level), level) == Print(e, level) + ([Op(LBRACE)] + [Op(RBRACE)])
    decreases e
  {
    hide Print;
    PrintShapes(e, level);
    PrintShapes(Opened(e, level), level);
    match e
    case Var(name) => assert PrintFields([]) == [];
    case Unary(_, operand) => OpenedPrints(operand, UNARY);
    case Binary(_, op, right) => OpenedPrints(right, Rung(op) + 1);
  }

  /** A bare name takes the empty braces behind it. */
  lemma {:induction false} Swallows(ts: seq<Token>, s: State, e: Expr)
    requires ValidTokens(ts) && ValidExpr(e) && EndsBare(e, 0) && Inside(ts, s)
    requires Here(ts, s.at, Print(e, 0) + ([Op(LBRACE)] + [Op(RBRACE)]))
    ensures ExprAt(ts, s).value != e
  {
    hide ValidTokens, Here, Print, BinaryAt, IsNumeral;
    var o := Opened(e, 0);
    OpenedPrints(e, 0);
    Braced(ts, s.at, Print(e, 0));
    Grows(ts, s, o, 0);
  }

  lemma {:induction false} Braced(ts: seq<Token>, at: nat, p: seq<Token>)
    requires ValidTokens(ts) && Here(ts, at, p + ([Op(LBRACE)] + [Op(RBRACE)]))
    ensures at + |p| + 2 < |ts|
  {
    hide ValidTokens, Here, IsNumeral;
    HereConcat(ts, at, p, [Op(LBRACE)] + [Op(RBRACE)]);
    HereConcat(ts, at + |p|, [Op(LBRACE)], [Op(RBRACE)]);
    HereToken(ts, at + |p| + 1, Op(RBRACE));
    NotLast(ts, at + |p| + 1);
  }

  // ----- statements -----

  /** This was not read. */
  ghost predicate Misses<T(!new)>(r: Reading<T>, x: T) {
    r.Got? ==> r.value != x
  }

  /** A condition with the braces behind it: read as it is, or with too many. */
  lemma {:induction false} Condition(ts: seq<Token>, s: State, e: Expr, inner: seq<Token>, rest: seq<Token>)
    requires ValidTokens(ts) && ValidExpr(e) && EndsBare(e, 0)
    requires Here(ts, s.at, Print(e, 0) + ([Op(LBRACE)] + ([] + ([Op(RBRACE)] + rest))))
    ensures Inside(ts, s) && ExprAt(ts, s).value != e
  {
    hide ValidTokens, Here, Print, ExprAt, IsNumeral;
    Reassociate(Print(e, 0), rest);
    HereConcat(ts, s.at, Print(e, 0) + ([Op(LBRACE)] + [Op(RBRACE)]), rest);
    Braced(ts, s.at, Print(e, 0));
    Swallows(ts, s, e);
  }

  lemma {:induction false} Reassociate(p: seq<Token>, rest: seq<Token>)
    ensures p + ([Op(LBRACE)] + ([] + ([Op(RBRACE)] + rest))) == p + ([Op(LBRACE)] + [Op(RBRACE)]) + rest
  {
  }

  lemma {:induction false} ConditionMisses(ts: seq<Token>, s: State, e: Expr, b: Block, rest: seq<Token>)
    requires ValidTokens(ts) && ValidExpr(e) && !Clear(e, b.statements == [])
    requires Here(ts, s.at, Print(e, 0) + (PrintBlock(b) + rest))
    ensures Inside(ts, s) && ExprAt(ts, s).value != e
  {
    hide ValidTokens, Here, Print, ExprAt, IsNumeral;
    NoStmts();
    assert PrintBlock(b) == [Op(LBRACE)] + ([] + [Op(RBRACE)]);
    Regroup([], rest);
    Condition(ts, s, e, [], rest);
  }

  lemma {:induction false} BlockMisses(ts: seq<Token>, s: State, b: Block)
    requires ValidTokens(ts) && ValidBlock(b) && !ClearBlock(b) && Here(ts, s.at, PrintBlock(b))
    ensures Inside(ts, s) && Misses(BlockAt(ts, s), b)
    decreases b, 2
  {
    hide ValidTokens, Here, StmtsAt, PrintStmts, Expect, Advance, IsNumeral;
    var inner := PrintStmts(b.statements);
    var next := Take(ts, s, Op(LBRACE), inner + [Op(RBRACE)]);
    HereConcat(ts, next.at, inner, [Op(RBRACE)]);
    var last := TakeLast(ts, Past(next, inner), Op(RBRACE));
    StmtsMiss(ts, next, b.statements, []);
    assert [] + b.statements == b.statements;
  }

  lemma {:induction false} StmtsKeep(ts: seq<Token>, s: State, done: seq<Stmt>)
    requires ValidTokens(ts) && Inside(ts, s)
    ensures StmtsAt(ts, s, done).Got? ==> done <= StmtsAt(ts, s, done).value
    decreases |ts| - s.at
  {
    hide ValidTokens, StmtAt;
    if !KindAt(ts, s).RBRACE? && !KindAt(ts, s).EOF? {
      NotLast(ts, s.at);
      var stmt := StmtAt(ts, s);
      if stmt.Got? {
        StmtsKeep(ts, stmt.state, done + [stmt.value]);
      }
    }
  }

  lemma {:induction false} StmtsMiss(ts: seq<Token>, s: State, ss: seq<Stmt>, done: seq<Stmt>)
    requires ValidTokens(ts) && (forall i | 0 <= i < |ss| :: ValidStmt(ss[i])) && (exists i | 0 <= i < |ss| :: !ClearStmt(ss[i]))
    requires Here(ts, s.at, PrintStmts(ss))
    requires s.at + |PrintStmts(ss)| < |ts| && ts[s.at + |PrintStmts(ss)|].kind.RBRACE?
    ensures Inside(ts, s) && Misses(StmtsAt(ts, s, done), done + ss)
    decreases ss, 1
  {
    hide ValidTokens, Here, StmtAt, PrintStmt, ValidStmt, ClearStmt, IsNumeral;
    var one, more := PrintStmt(ss[0]), PrintStmts(ss[1..]);
    var next := Past(s, one);
    HereConcat(ts, s.at, one, more);
    StmtBegins(ss[0]);
    FirstHere(ts, s.at, one);
    if |ss| > 1 {
      StmtsBegin(ss[1..]);
      FirstHere(ts, next.at, more);
    }
    if ClearStmt(ss[0]) {
      StmtReads(ts, s, ss[0]);
      assert exists i | 0 <= i < |ss[1..]| :: !ClearStmt(ss[1..][i]) by {
        var i :| 0 <= i < |ss| && !ClearStmt(ss[i]);
        assert ss[1..][i - 1] == ss[i];
      }
      StmtsMiss(ts, next, ss[1..], done + [ss[0]]);
      FirstOver(done, ss);
    } else {
      StmtMisses(ts, s, ss[0]);
      var stmt := StmtAt(ts, s);
      if stmt.Got? {
        StmtsKeep(ts, stmt.state, done + [stmt.value]);
        OtherFirst(done, stmt.value, ss, StmtsAt(ts, stmt.state, done + [stmt.value]));
      }
    }
  }

  /** What begins differently is not the same list. */
  lemma {:induction false} OtherFirst<T(!new)>(done: seq<T>, x: T, xs: seq<T>, r: Reading<seq<T>>)
    requires xs != [] && x != xs[0] && (r.Got? ==> done + [x] <= r.value)
    ensures Misses(r, done + xs)
  {
    if r.Got? {
      assert r.value[|done|] == (done + [x])[|done|] == x;
      assert (done + xs)[|done|] == xs[0];
    }
  }

  lemma {:induction false} StmtMisses(ts: seq<Token>, s: State, stmt: Stmt)
    requires ValidTokens(ts) && ValidStmt(stmt) && !ClearStmt(stmt) && Here(ts, s.at, PrintStmt(stmt))
    ensures Inside(ts, s) && Misses(StmtAt(ts, s), stmt)
    decreases stmt, 1
  {
    hide ValidTokens, Here, PrintStmt, ValidStmt, IfAt, WhileAt, MatchAt, IsNumeral;
    match stmt
    case IfStmt(_, _, _) => IfMisses(ts, s, stmt);
    case WhileStmt(_, _) => WhileMisses(ts, s, stmt);
    case MatchStmt(_, _) => MatchMisses(ts, s, stmt);
  }

  lemma {:induction false} WhileMisses(ts: seq<Token>, s: State, stmt: Stmt)
    requires ValidTokens(ts) && stmt.WhileStmt? && ValidStmt(stmt) && !ClearStmt(stmt) && Here(ts, s.at, PrintStmt(stmt))
    ensures Inside(ts, s) && KindAt(ts, s).WHILE? && Misses(WhileAt(ts, s), stmt)
    decreases stmt, 0
  {
    hide ValidTokens, Here, Print, PrintBlock, ExprAt, ValidBlock, ClearBlock, BlockAt, Expect, Advance, Clear,
      IsNumeral;
    var next := Take(ts, s, Op(WHILE), Print(stmt.condition, 0) + PrintBlock(stmt.body));
    assert PrintBlock(stmt.body) + [] == PrintBlock(stmt.body);
    if !Clear(stmt.condition, stmt.body.statements == []) {
      ConditionMisses(ts, next, stmt.condition, stmt.body, []);
    } else {
      var end := ConditionAndBlock(ts, next, stmt.condition, stmt.body, []);
      BlockMisses(ts, end, stmt.body);
    }
  }

  lemma {:induction false} IfParts(stmt: Stmt)
    requires stmt.IfStmt? && ValidStmt(stmt) && !ClearStmt(stmt)
    ensures PrintStmt(stmt) ==
              [Op(IF)] + (Print(stmt.condition, 0) + (PrintBlock(stmt.thenBlock) + PrintElse(stmt.elseBlock)))
    ensures ValidExpr(stmt.condition) && ValidBlock(stmt.thenBlock)
    ensures Clear(stmt.condition, stmt.thenBlock.statements == []) && ClearBlock(stmt.thenBlock) ==>
              stmt.elseBlock == [stmt.elseBlock[0]] && ValidBlock(stmt.elseBlock[0]) && !ClearBlock(stmt.elseBlock[0]) &&
              PrintElse(stmt.elseBlock) == [Op(ELSE)] + PrintBlock(stmt.elseBlock[0])
  {
    hide Print, PrintBlock, ValidExpr, ValidBlock, ClearBlock, Clear;
  }

  lemma {:induction false} IfMisses(ts: seq<Token>, s: State, stmt: Stmt)
    requires ValidTokens(ts) && stmt.IfStmt? && ValidStmt(stmt) && !ClearStmt(stmt) && Here(ts, s.at, PrintStmt(stmt))
    ensures Inside(ts, s) && KindAt(ts, s).IF? && Misses(IfAt(ts, s), stmt)
    decreases stmt, 0
  {
    hide ValidTokens, Here, Print, PrintBlock, ExprAt, ValidBlock, ClearBlock, BlockAt, Expect, Advance, Clear,
      PrintStmt, ValidStmt, ClearStmt, PrintElse, ValidExpr, IsNumeral;
    IfParts(stmt);
    var last := PrintElse(stmt.elseBlock);
    var next := Take(ts, s, Op(IF), Print(stmt.condition, 0) + (PrintBlock(stmt.thenBlock) + last));
    if !Clear(stmt.condition, stmt.thenBlock.statements == []) {
      ConditionMisses(ts, next, stmt.condition, stmt.thenBlock, last);
    } else {
      var end := ConditionAndBlock(ts, next, stmt.condition, stmt.thenBlock, last);
      if ClearBlock(stmt.thenBlock) {
        BlockReads(ts, end, stmt.thenBlock);
        var behind := Take(ts, Past(end, PrintBlock(stmt.thenBlock)), Op(ELSE), PrintBlock(stmt.elseBlock[0]));
        BlockMisses(ts, behind, stmt.elseBlock[0]);
      } else {
        BlockMisses(ts, end, stmt.thenBlock);
      }
    }
  }

  lemma {:induction false} MatchParts(stmt: Stmt)
    requires stmt.MatchStmt? && ValidStmt(stmt) && !ClearStmt(stmt)
    ensures PrintStmt(stmt) ==
              [Op(MATCH)] + (Print(stmt.scrutinee, 0) + ([Op(LBRACE)] + (PrintArms(stmt.arms) + [Op(RBRACE)])))
    ensures ValidExpr(stmt.scrutinee)
    ensures forall i | 0 <= i < |stmt.arms| :: ValidPattern(stmt.arms[i].pattern) && ValidBlock(stmt.arms[i].block)
    ensures Clear(stmt.scrutinee, stmt.arms == []) ==> exists i :: 0 <= i < |stmt.arms| && !ClearBlock(stmt.arms[i].block)
  {
    hide Print, PrintArms, ValidExpr, ValidBlock, ClearBlock, Clear, ValidPattern;
  }

  lemma {:induction false} MatchMisses(ts: seq<Token>, s: State, stmt: Stmt)
    requires ValidTokens(ts) && stmt.MatchStmt? && ValidStmt(stmt) && !ClearStmt(stmt) && Here(ts, s.at, PrintStmt(stmt))
    ensures Inside(ts, s) && KindAt(ts, s).MATCH? && Misses(MatchAt(ts, s), stmt)
    decreases stmt, 0
  {
    hide ValidTokens, Here, Print, PrintArms, ExprAt, ValidBlock, ClearBlock, ArmsAt, Expect, Advance, ValidPattern,
      PrintStmt, ValidStmt, ClearStmt, ValidExpr, IsNumeral;
    MatchParts(stmt);
    var arms := PrintArms(stmt.arms);
    var next := Take(ts, s, Op(MATCH), Print(stmt.scrutinee, 0) + ([Op(LBRACE)] + (arms + [Op(RBRACE)])));
    ArmsShape(stmt.arms);
    assert [Op(RBRACE)] + [] == [Op(RBRACE)];
    if !Clear(stmt.scrutinee, stmt.arms == []) {
      Condition(ts, next, stmt.scrutinee, arms, []);
    } else {
      var end := ConditionReads(ts, next, stmt.scrutinee, arms, []);
      var open := Take(ts, end, Op(LBRACE), arms + [Op(RBRACE)]);
      ArmsMissAll(ts, open, stmt.arms);
    }
  }

  /** From behind the opening brace on. */
  lemma {:induction false} ArmsMissAll(ts: seq<Token>, s: State, arms: seq<Arm>)
    requires ValidTokens(ts) && Here(ts, s.at, PrintArms(arms) + [Op(RBRACE)])
    requires forall i | 0 <= i < |arms| :: ValidPattern(arms[i].pattern) && ValidBlock(arms[i].block)
    requires exists i :: 0 <= i < |arms| && !ClearBlock(arms[i].block)
    ensures Inside(ts, s) && Misses(ArmsAt(ts, s, []), arms)
    decreases arms, 2
  {
    hide ValidTokens, Here, PrintArms, ArmsAt, ValidBlock, ClearBlock, ValidPattern, IsNumeral;
    HereConcat(ts, s.at, PrintArms(arms), [Op(RBRACE)]);
    HereToken(ts, s.at + |PrintArms(arms)|, Op(RBRACE));
    ArmsMiss(ts, s, arms, []);
    assert [] + arms == arms;
  }

  lemma {:induction false} ArmsKeep(ts: seq<Token>, s: State, done: seq<Arm>)
    requires ValidTokens(ts) && Inside(ts, s)
    ensures ArmsAt(ts, s, done).Got? ==> done <= ArmsAt(ts, s, done).value
    decreases |ts| - s.at
  {
    hide ValidTokens, ArmAt;
    if !KindAt(ts, s).RBRACE? && !KindAt(ts, s).EOF? {
      var arm := ArmAt(ts, s);
      if arm.Got? && KindAt(ts, arm.state).COMMA? {
        NotLast(ts, arm.state.at);
        ArmsKeep(ts, Advance(ts, arm.state), done + [arm.value]);
      }
    }
  }

  lemma {:induction false} ArmsMiss(ts: seq<Token>, s: State, arms: seq<Arm>, done: seq<Arm>)
    requires ValidTokens(ts) && Here(ts, s.at, PrintArms(arms))
    requires forall i | 0 <= i < |arms| :: ValidPattern(arms[i].pattern) && ValidBlock(arms[i].block)
    requires exists i :: 0 <= i < |arms| && !ClearBlock(arms[i].block)
    requires s.at + |PrintArms(arms)| < |ts| && ts[s.at + |PrintArms(arms)|].kind.RBRACE?
    ensures Inside(ts, s) && Misses(ArmsAt(ts, s, done), done + arms)
    decreases arms, 1
  {
    hide ValidTokens, Here, ArmAt, PrintArm, ValidPattern, ValidBlock, ClearBlock, Advance, IsNumeral;
    ArmsShape(arms);
    FirstHere(ts, s.at, PrintArms(arms));
    if |arms| > 1 {
      FirstOfMany(ts, s, PrintArm(arms[0]), PrintArms(arms[1..]));
    }
    if ClearBlock(arms[0].block) {
      ArmReads(ts, s, arms[0]);
      assert exists i :: 0 <= i < |arms[1..]| && !ClearBlock(arms[1..][i].block) by {
        var i :| 0 <= i < |arms| && !ClearBlock(arms[i].block);
        assert arms[1..][i - 1] == arms[i];
      }
      ArmsMiss(ts, s.(at := s.at + |PrintArm(arms[0])| + 1), arms[1..], done + [arms[0]]);
      FirstOver(done, arms);
    } else {
      ArmMisses(ts, s, arms[0]);
      ArmsOther(ts, s, arms, done);
    }
  }

  lemma {:induction false} ArmsOther(ts: seq<Token>, s: State, arms: seq<Arm>, done: seq<Arm>)
    requires ValidTokens(ts) && Inside(ts, s) && arms != [] && !KindAt(ts, s).RBRACE? && !KindAt(ts, s).EOF?
    requires Misses(ArmAt(ts, s), arms[0])
    ensures Misses(ArmsAt(ts, s, done), done + arms)
  {
    hide ValidTokens, ArmAt;
    var arm := ArmAt(ts, s);
    if arm.Got? {
      if KindAt(ts, arm.state).COMMA? {
        ArmsKeep(ts, Advance(ts, arm.state), done + [arm.value]);
      }
      OtherFirst(done, arm.value, arms, ArmsAt(ts, s, done));
    }
  }

  lemma {:induction false} ArmMisses(ts: seq<Token>, s: State, arm: Arm)
    requires ValidTokens(ts) && Here(ts, s.at, PrintArm(arm))
    requires ValidPattern(arm.pattern) && ValidBlock(arm.block) && !ClearBlock(arm.block)
    ensures Inside(ts, s) && Misses(ArmAt(ts, s), arm)
    decreases arm, 0
  {
    hide ValidTokens, Here, PatternAt, BlockAt, PrintPattern, PrintBlock, ValidPattern, ValidBlock, ClearBlock, Expect,
      Advance, IsNumeral;
    HereConcat(ts, s.at, PrintPattern(arm.pattern), [Op(FAT_ARROW)] + PrintBlock(arm.block));
    var next := Take(ts, Past(s, PrintPattern(arm.pattern)), Op(FAT_ARROW), PrintBlock(arm.block));
    PatternReads(ts, s, arm.pattern);
    BlockMisses(ts, next, arm.block);
  }

  // ----- items -----

  lemma {:induction false} FunctionMisses(ts: seq<Token>, s: State, item: Item)
    requires ValidTokens(ts) && item.FunctionDecl? && ValidItem(item) && !ClearItem(item) && Here(ts, s.at, PrintDecl(item))
    ensures Inside(ts, s) && KindAt(ts, s).FN? && Misses(FunctionAt(ts, s, item.public), item)
  {
    hide ValidTokens, Here, PrintSignature, PrintBlock, PrintAudit, SignatureAt, AuditAt, BlockAt, ValidBlock,
      ClearBlock, ValidParams, ValidType, FunctionAt, IsNumeral;
    var sig := Signature(item.name, item.params, item.result);
    var middle := Past(s, PrintSignature(sig));
    HereConcat(ts, s.at, PrintSignature(sig), PrintAudit(item.audit) + PrintBlock(item.body));
    HereConcat(ts, middle.at, PrintAudit(item.audit), PrintBlock(item.body));
    AuditOrBody(ts, middle, item.audit, item.body);
    var last := Past(middle, PrintAudit(item.audit));
    BlockMisses(ts, last, item.body);
    NoAudit();
    SignatureReads(ts, s, sig);
    BodyMisses(ts, s, item, sig, middle, last);
  }

  lemma {:induction false} NoAudit()
    ensures PrintAudit(None) == []
  {
  }

  lemma {:induction false} BodyMisses(ts: seq<Token>, s: State, item: Item, sig: Signature, middle: State, last: State)
    requires ValidTokens(ts) && Inside(ts, s) && KindAt(ts, s).FN? && Inside(ts, middle) && item.FunctionDecl?
    requires SignatureAt(ts, s) == Out(sig, middle) && (item.audit.Some? <==> KindAt(ts, middle).AUDIT?)
    requires last == (if item.audit.Some? then AuditAt(ts, middle).state else middle)
    requires Inside(ts, last) && Misses(BlockAt(ts, last), item.body)
    ensures Misses(FunctionAt(ts, s, item.public), item)
  {
    hide ValidTokens, SignatureAt, AuditAt, BlockAt;
  }

  lemma {:induction false} ItemMisses(ts: seq<Token>, s: State, item: Item)
    requires ValidTokens(ts) && ValidItem(item) && !ClearItem(item) && Here(ts, s.at, PrintItem(item))
    ensures Inside(ts, s) && !KindAt(ts, s).EOF? && Misses(ItemAt(ts, s), Some(item))
    ensures ItemAt(ts, s).Got? ==> ItemAt(ts, s).value.Some?
  {
    hide ValidTokens, Here, PrintDecl, FunctionAt, ValidItem, IsNumeral;
    if Public(item) {
      var next := Take(ts, s, Op(PUB), PrintDecl(item));
      FunctionMisses(ts, next, item);
    } else {
      FunctionMisses(ts, s, item);
    }
  }

  lemma {:induction false} ItemsKeep(ts: seq<Token>, s: State, done: seq<Item>, seenNonUse: bool)
    requires ValidTokens(ts) && Inside(ts, s)
    ensures ItemsAt(ts, s, done, seenNonUse).Got? ==> done <= ItemsAt(ts, s, done, seenNonUse).value
    decreases |ts| - s.at
  {
    hide ValidTokens, ItemAt, SyncItemAt;
    NotLast(ts, s.at);
    if !KindAt(ts, s).EOF? {
      var item := ItemAt(ts, s);
      if item.Got? {
        if item.value.None? {
          ItemsKeep(ts, SyncItemAt(ts, item.state), done, seenNonUse);
        } else {
          var late := item.value.value.UseDecl? && seenNonUse;
          ItemsKeep(ts, if late then Report(item.state, LateUse) else item.state, done + [item.value.value],
            seenNonUse || !item.value.value.UseDecl?);
        }
      }
    }
  }

  lemma {:induction false} OtherItem(ts: seq<Token>, s: State, items: seq<Item>, done: seq<Item>, seenNonUse: bool)
    requires ValidTokens(ts) && Inside(ts, s) && !KindAt(ts, s).EOF? && items != []
    requires Misses(ItemAt(ts, s), Some(items[0])) && (ItemAt(ts, s).Got? ==> ItemAt(ts, s).value.Some?)
    ensures Misses(ItemsAt(ts, s, done, seenNonUse), done + items)
  {
    hide ValidTokens, ItemAt, SyncItemAt;
    var item := ItemAt(ts, s);
    if item.Got? {
      var x := item.value.value;
      ItemsKeep(ts, if x.UseDecl? && seenNonUse then Report(item.state, LateUse) else item.state, done + [x],
        seenNonUse || !x.UseDecl?);
      OtherFirst(done, x, items, ItemsAt(ts, s, done, seenNonUse));
    }
  }

  lemma {:induction false} ItemsMiss(ts: seq<Token>, s: State, items: seq<Item>, done: seq<Item>, seenNonUse: bool)
    requires ValidTokens(ts) && ValidProgram(items) && !ClearProgram(items) && Here(ts, s.at, PrintItems(items))
    ensures Inside(ts, s) && Misses(ItemsAt(ts, s, done, seenNonUse), done + items)
    decreases items
  {
    hide ValidTokens, Here, ItemAt, PrintItem, ValidItem, ClearItem, SyncItemAt, IsNumeral;
    HereConcat(ts, s.at, PrintItem(items[0]), PrintItems(items[1..]));
    if ClearItem(items[0]) {
      ItemReads(ts, s, items[0]);
      assert !ClearProgram(items[1..]) by {
        var i :| 0 <= i < |items| && !ClearItem(items[i]);
        assert items[1..][i - 1] == items[i];
      }
      var late := if items[0].UseDecl? && seenNonUse then [LateUse] else [];
      assert s.diags + [] == s.diags;
      ItemsMiss(ts, State(s.at + |PrintItem(items[0])|, s.diags + late), items[1..], done + [items[0]],
        seenNonUse || !items[0].UseDecl?);
      FirstOver(done, items);
    } else {
      ItemMisses(ts, s, items[0]);
      OtherItem(ts, s, items, done, seenNonUse);
    }
  }

  // ----- programs -----

  /** A printed program is read to its end, with a report for every import that comes
      after something else. */
  lemma {:induction false} ProgramReads(items: seq<Item>)
    requires ValidProgram(items) && ClearProgram(items)
    ensures ValidTokens(PrintProgram(items))
    ensures Gets(ProgramAt(PrintProgram(items)), items, State(|PrintItems(items)|, Late(items, false)))
  {
    hide ValidTokens, Here, PrintItems, ValidProgram, ClearProgram, ItemsAt, Late, IsNumeral;
    ProgramTokensValid(items);
    Whole(items);
    ItemsRead(PrintProgram(items), State(0, []), items, [], false);
    assert [] + items == items && [] + Late(items, false) == Late(items, false);
  }

  lemma {:induction false} Whole(items: seq<Item>)
    ensures Here(PrintProgram(items), 0, PrintItems(items)) && |PrintProgram(items)| == |PrintItems(items)| + 1
  {
    hide PrintItems;
    assert PrintProgram(items)[0..|PrintItems(items)|] == PrintItems(items);
  }

  /** Parsing what was printed gives the program back, with nothing to report, if and
      only if no condition and no scrutinee ends with a bare name before empty braces
      and imports come first. */
  lemma {:induction false} RoundTripIff(items: seq<Item>)
    requires ValidProgram(items)
    ensures ValidTokens(PrintProgram(items))
    ensures Gets(ProgramAt(PrintProgram(items)), items, State(|PrintItems(items)|, [])) <==>
              ClearProgram(items) && UsesFirst(items)
  {
    hide ValidTokens, Here, PrintItems, ValidProgram, ClearProgram, ItemsAt, Late, UsesFirst, PrintProgram, IsNumeral;
    ProgramTokensValid(items);
    if ClearProgram(items) {
      ProgramReads(items);
      LateNone(items, false);
    } else {
      ReadsNothingElse(items);
    }
  }

  /** With a bare name before empty braces the program is not read back at all. */
  lemma {:induction false} ReadsNothingElse(items: seq<Item>)
    requires ValidProgram(items) && !ClearProgram(items)
    ensures ValidTokens(PrintProgram(items)) && Misses(ProgramAt(PrintProgram(items)), items)
  {
    hide ValidTokens, Here, PrintItems, ValidProgram, ClearProgram, ItemsAt, PrintProgram, IsNumeral;
    ProgramTokensValid(items);
    Whole(items);
    ItemsMiss(PrintProgram(items), State(0, []), items, [], false);
    assert [] + items == items;
  }

  /** A function that decides on a bare name and then does nothing is not read back. */
  lemma {:induction false} EmptyBranchUnread(f: string, x: string, result: string)
    ensures var branch := IfStmt(Var(x), Block([]), []);
      var program := [FunctionDecl(f, [], NamedType(result, []), None, Block([branch]), false)];
      && ValidProgram(program) && ValidTokens(PrintProgram(program)) && Misses(ProgramAt(PrintProgram(program)), program)
  {
    hide ValidTokens, PrintProgram, ProgramAt;
    var branch := IfStmt(Var(x), Block([]), []);
    var body := Block([branch]);
    assert EndsBare(Var(x), 0) && !Clear(Var(x), Block([]).statements == []);
    assert ValidExpr(Var(x)) && ValidBlock(Block([])) && ValidStmt(branch) && !ClearStmt(branch);
    assert body.statements[0] == branch && ValidBlock(body) && !ClearBlock(body);
    var program := [FunctionDecl(f, [], NamedType(result, []), None, body, false)];
    assert ValidType(NamedType(result, [])) && ValidItem(program[0]) && !ClearItem(program[0]);
    ReadsNothingElse(program);
  }
}
