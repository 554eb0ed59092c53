/** What a program is printed as is a valid token list: no end marker before the
    end, and digits in every number. Shown for every kind of type, pattern, statement,
    audit block and item, and for what is put between them. */
module ProgramTokens {
  import opened Numerals
  import opened ParserSyntax
  import opened ExpressionRoundTrip
  import opened ProgramGrammar
  import opened ProgramPrint

  /** No end marker, and digits in every number. */
  ghost predicate Fine(p: seq<Token>) {
    forall i | 0 <= i < |p| :: !p[i].kind.EOF? && (p[i].kind.INT? ==> IsNumeral(p[i].text))
  }

  lemma {:induction false} FineJoin(a: seq<Token>, b: seq<Token>)
    requires Fine(a) && Fine(b)
    ensures Fine(a + b)
  {
  }

  lemma {:induction false} FineExpr(e: Expr)
    requires ValidExpr(e)
    ensures Fine(Print(e, 0))
  {
    hide Print;
    PrintedTokensValid(e, 0);
  }

  lemma {:induction false} FineInitializer(value: Expr)
    requires ValidExpr(value)
    ensures Fine(PrintInitializer(value))
  {
    hide Print;
    FineExpr(value);
  }

  lemma {:induction false} FineType(t: TypeExpr)
    ensures Fine(PrintType(t))
    decreases t
  {
    match t
    case NamedType(_, args) => FineTypes(args);
    case BorrowType(_, inner) => FineType(inner);
  }

  lemma {:induction false} FineTypes(types: seq<TypeExpr>)
    ensures Fine(PrintTypes(types))
    decreases types
  {
    if types != [] {
      FineType(types[0]);
      FineTypes(types[1..]);
    }
  }

  lemma {:induction false} FinePattern(p: Pattern)
    ensures Fine(PrintPattern(p))
    decreases p
  {
    hide NumeralText;
    if p.VariantPattern? {
      FinePatterns(p.args);
    }
  }

  lemma {:induction false} FinePatterns(ps: seq<Pattern>)
    ensures Fine(PrintPatterns(ps))
    decreases ps
  {
    if ps != [] {
      FinePattern(ps[0]);
      FinePatterns(ps[1..]);
    }
  }

  lemma {:induction false} FineBlock(b: Block)
    requires ValidBlock(b)
    ensures Fine(PrintBlock(b))
    decreases b
  {
    FineStmts(b.statements);
  }

  lemma {:induction false} FineStmts(ss: seq<Stmt>)
    requires forall i | 0 <= i < |ss| :: ValidStmt(ss[i])
    ensures Fine(PrintStmts(ss))
    decreases ss
  {
    if ss != [] {
      FineStmt(ss[0]);
      FineStmts(ss[1..]);
    }
  }

  lemma {:induction false} FineStmt(s: Stmt)
    requires ValidStmt(s)
    ensures Fine(PrintStmt(s))
    decreases s
  {
    hide Print, PrintBlock, PrintArms, PrintElse, PrintAnnotation, PrintInitializer, ValidExpr, ValidBlock, ValidPattern;
    match s
    case LetStmt(_, _, annotation, value) => FineLet(annotation, value);
    case AssignStmt(_, value) => FineInitializer(value);
    case FieldAssignStmt(_, _, value) => FineInitializer(value);
    case IfStmt(condition, thenBlock, elseBlock) =>
      FineExpr(condition);
      FineBlock(thenBlock);
      FineElse(elseBlock);
      FineJoin(PrintBlock(thenBlock), PrintElse(elseBlock));
      FineJoin(Print(condition, 0), PrintBlock(thenBlock) + PrintElse(elseBlock));
    case WhileStmt(condition, body) =>
      FineExpr(condition);
      FineBlock(body);
    case MatchStmt(scrutinee, arms) =>
      FineExpr(scrutinee);
      FineArms(arms);
    case ReturnStmt(result) => FineResult(result);
    case ExprStmt(e) => FineExpr(e);
  }

  lemma {:induction false} FineElse(elseBlock: seq<Block>)
    requires forall i | 0 <= i < |elseBlock| :: ValidBlock(elseBlock[i])
    ensures Fine(PrintElse(elseBlock))
    decreases elseBlock
  {
    hide PrintBlock, ValidBlock;
    if elseBlock != [] {
      FineBlock(elseBlock[0]);
    }
  }

  lemma {:induction false} FineLet(annotation: seq<TypeExpr>, value: Expr)
    requires ValidExpr(value)
    ensures Fine(PrintAnnotation(annotation) + PrintInitializer(value))
  {
    hide PrintType, PrintInitializer, ValidExpr;
    FineInitializer(value);
    if annotation != [] {
      FineType(annotation[0]);
    }
  }

  lemma {:induction false} FineResult(result: seq<Expr>)
    requires forall i | 0 <= i < |result| :: ValidExpr(result[i])
    ensures Fine(PrintResult(result))
  {
    hide Print, ValidExpr;
    if result != [] {
      FineExpr(result[0]);
    }
  }

  lemma {:induction false} FineArms(arms: seq<Arm>)
    requires forall i | 0 <= i < |arms| :: ValidBlock(arms[i].block)
    ensures Fine(PrintArms(arms))
    decreases arms
  {
    hide PrintArm, ValidBlock;
    if arms != [] {
      FineArm(arms[0]);
      FineArms(arms[1..]);
    }
  }

  lemma {:induction false} FineArm(arm: Arm)
    requires ValidBlock(arm.block)
    ensures Fine(PrintArm(arm))
    decreases arm
  {
    hide PrintPattern, PrintBlock, ValidBlock;
    FinePattern(arm.pattern);
    FineBlock(arm.block);
  }

  lemma {:induction false} FineNames(names: seq<string>)
    ensures Fine(PrintNames(names))
  {
    if names != [] {
      FineNames(names[1..]);
    }
  }

  lemma {:induction false} FineAudit(audit: Option<Audit>)
    ensures Fine(PrintAudit(audit))
  {
    hide PrintNames;
    if audit.Some? {
      FineNames(audit.value.mutates);
      FineNames(audit.value.effects);
      assert Fine(PrintClause("mutates", audit.value.mutates)) && Fine(PrintClause("effects", audit.value.effects));
      assert Fine(PrintIntent(audit.value.intent));
      hide PrintClause, PrintIntent;
    }
  }

  lemma {:induction false} FineParams(params: seq<Param>)
    ensures Fine(PrintParams(params))
  {
    hide PrintType;
    if params != [] {
      FineType(params[0].typ);
      FineParams(params[1..]);
    }
  }

  lemma {:induction false} FineVariants(vs: seq<VariantDecl>)
    ensures Fine(PrintVariants(vs))
  {
    hide PrintTypes;
    if vs != [] {
      FineTypes(vs[0].payloads);
      FineVariants(vs[1..]);
    }
  }

  lemma {:induction false} FineSignature(sig: Signature)
    ensures Fine(PrintSignature(sig))
  {
    hide PrintParams, PrintType;
    FineParams(sig.params);
    FineType(sig.result);
  }

  lemma {:induction false} FineDecl(item: Item)
    requires ValidItem(item)
    ensures Fine(PrintDecl(item))
  {
    hide PrintParams, PrintSignature, PrintBlock, PrintVariants, PrintAudit, ValidBlock, ValidParams, ValidType, ValidTypes;
    match item
    case UseDecl(_) =>
    case FunctionDecl(name, params, result, audit, body, _) =>
      FineSignature(Signature(name, params, result));
      FineAudit(audit);
      FineBlock(body);
      FineJoin(PrintAudit(audit), PrintBlock(body));
    case TypeDecl(_, fields, _) => FineParams(fields);
    case EnumDecl(_, variants, _) => FineVariants(variants);
  }

  lemma {:induction false} FineItem(item: Item)
    requires ValidItem(item)
    ensures Fine(PrintItem(item))
  {
    hide PrintDecl, ValidItem;
    FineDecl(item);
  }

  lemma {:induction false} FineItems(items: seq<Item>)
    requires ValidProgram(items)
    ensures Fine(PrintItems(items))
  {
    hide PrintItem, ValidItem;
    if items != [] {
      FineItem(items[0]);
      FineItems(items[1..]);
    }
  }

  lemma {:induction false} ProgramTokensValid(items: seq<Item>)
    requires ValidProgram(items)
    ensures ValidTokens(PrintProgram(items))
  {
    hide PrintItems, ValidProgram;
    FineItems(items);
  }
}
