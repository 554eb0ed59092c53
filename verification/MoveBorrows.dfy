/** When the move checker reports a clash of borrows: exactly at a call that clashes. */
module MoveBorrows {
  import opened MoveSyntax
  import opened MoveAnalysis

  predicate Borrows(e: Expr, s: Sym) {
    e.Borrow? && e.sym == Some(s)
  }

  /** Two reference arguments borrow s, one of them mutably. */
  predicate TwoBorrows(args: seq<Expr>, refParams: seq<bool>, s: Sym)
    requires |args| == |refParams|
  {
    exists i, j | 0 <= i < j < |args| && refParams[i] && refParams[j] ::
      Borrows(args[i], s) && Borrows(args[j], s) && (args[i].mutable || args[j].mutable)
  }

  /** One argument borrows s and another, before or after it, is s by value. */
  predicate BorrowAndValue(args: seq<Expr>, refParams: seq<bool>, s: Sym)
    requires |args| == |refParams|
  {
    exists i, j | 0 <= i < |args| && 0 <= j < |args| && refParams[i] && !refParams[j] ::
      Borrows(args[i], s) && ExprSymbol(args[j]) == Some(s)
  }

  datatype Clash = Exclusive | Mixed

  predicate ClashesHere(c: Clash, args: seq<Expr>, refParams: seq<bool>, s: Sym)
    requires |args| == |refParams|
  {
    if c.Exclusive? then TwoBorrows(args, refParams, s) else BorrowAndValue(args, refParams, s)
  }

  function ReportOf(c: Clash, s: Sym): Diagnostic {
    if c.Exclusive? then ConflictingBorrows(s) else MoveAndBorrow(s)
  }

  /** Some call in e clashes over s. What is called must be a name. */
  predicate Clashes(c: Clash, e: Expr, s: Sym)
    decreases e
  {
    match e
    case Unary(x) => Clashes(c, x, s)
    case Binary(_, l, r) => Clashes(c, l, s) || Clashes(c, r, s)
    case Field(x, _) => Clashes(c, x, s)
    case Struct(fs) => exists i | 0 <= i < |fs| :: Clashes(c, fs[i], s)
    case Call(f, kind, args) =>
      f.Name? &&
      ((kind.FunctionCall? && |args| == |kind.refParams| && ClashesHere(c, args, kind.refParams, s))
       || exists i | 0 <= i < |args| :: Clashes(c, args[i], s))
    case _ => false
  }

  lemma {:induction false} ExprClashes(b: Bindings, e: Expr, m: set<Sym>, consume: bool, inCall: bool, c: Clash, s: Sym)
    requires WellTyped(e)
    ensures ReportOf(c, s) in Diags(b, e, m, consume, inCall) <==> Clashes(c, e, s)
    decreases e
  {
    hide Gen, DiagsAll, DiagsArgs, ArgumentsFit, ClashesHere;
    match e
    case Unary(x) => ExprClashes(b, x, m, false, false, c, s);
    case Binary(_, l, r) =>
      ExprClashes(b, l, m, false, false, c, s);
      ExprClashes(b, r, m + Gen(b, l, false), false, false, c, s);
    case Field(x, _) => ExprClashes(b, x, m, false, false, c, s);
    case Struct(fs) => AllClash(b, fs, m, true, false, c, s);
    case Call(f, kind, args) =>
      match kind {
        case FunctionCall(refParams) => if f.Name? { CallClashes(b, e, m, c, s); }
        case VariantCall => AllClash(b, args, m, true, true, c, s);
        case UnresolvedCall => AllClash(b, args, m + Gen(b, f, false), false, true, c, s);
      }
    case _ =>
  }

  lemma {:induction false} AllClash(b: Bindings, es: seq<Expr>, m: set<Sym>, consume: bool, inCall: bool, c: Clash, s: Sym)
    requires forall i | 0 <= i < |es| :: WellTyped(es[i])
    ensures ReportOf(c, s) in DiagsAll(b, es, m, consume, inCall) <==> exists i | 0 <= i < |es| :: Clashes(c, es[i], s)
    decreases es
  {
    hide WellTyped, Clashes, Diags, ReportOf;
    if es != [] {
      ExprClashes(b, es[0], m, consume, inCall, c, s);
      AllClash(b, es[1..], m + Gen(b, es[0], consume), consume, inCall, c, s);
      assert forall i | 0 <= i < |es[1..]| :: es[1..][i] == es[i + 1];
    }
  }

  lemma {:induction false} CallClashes(b: Bindings, e: Expr, m: set<Sym>, c: Clash, s: Sym)
    requires WellTyped(e) && e.Call? && e.kind.FunctionCall? && e.callee.Name?
    ensures ReportOf(c, s) in DiagsArgs(b, e.args, e.kind.refParams, m, map[], {}) <==> Clashes(c, e, s)
    decreases e, 0
  {
    hide ReportOf, DiagsArgs;
    ArgsClash(b, e.args, e.kind.refParams, m, map[], {}, c, s);
  }

  /** An argument clashes with what came before it in the call. */
  predicate ClashesBefore(c: Clash, args: seq<Expr>, refParams: seq<bool>, borrowed: map<Sym, bool>, consumed: set<Sym>, s: Sym)
    requires |args| == |refParams|
  {
    if c.Exclusive? then
      s in borrowed && exists j | 0 <= j < |args| && refParams[j] :: Borrows(args[j], s) && (borrowed[s] || args[j].mutable)
    else
      (s in borrowed && exists j | 0 <= j < |args| && !refParams[j] :: ExprSymbol(args[j]) == Some(s))
      || (s in consumed && exists j | 0 <= j < |args| && refParams[j] :: Borrows(args[j], s))
  }

  lemma {:induction false} ArgsClash(b: Bindings, args: seq<Expr>, refParams: seq<bool>, m: set<Sym>,
                                     borrowed: map<Sym, bool>, consumed: set<Sym>, c: Clash, s: Sym)
    requires (forall i | 0 <= i < |args| :: WellTyped(args[i])) && ArgumentsFit(args, refParams)
    ensures ReportOf(c, s) in DiagsArgs(b, args, refParams, m, borrowed, consumed) <==>
              ClashesBefore(c, args, refParams, borrowed, consumed, s) || ClashesHere(c, args, refParams, s)
              || exists i | 0 <= i < |args| :: Clashes(c, args[i], s)
    decreases args, 0
  {
    hide WellTyped, Clashes, Diags, DiagsArgs, ClashesBefore, ClashesHere;
    if args == [] {
      NoArguments(b, args, refParams, m, borrowed, consumed);
      assert !ClashesBefore(c, args, refParams, borrowed, consumed, s) && !ClashesHere(c, args, refParams, s) by {
        NothingClashes(c, args, refParams, borrowed, consumed, s);
      }
    } else {
      var arg := args[0];
      var sym := ExprSymbol(arg);
      ArgumentStep(b, args, refParams, m, borrowed, consumed);
      FirstClash(c, args, refParams, borrowed, consumed, s);
      assert forall i | 0 <= i < |args[1..]| :: args[1..][i] == args[i + 1];
      ExprClashes(b, arg, m, !refParams[0], true, c, s);
      if refParams[0] {
        ArgsClash(b, args[1..], refParams[1..], m, borrowed[arg.sym.value := arg.mutable], consumed, c, s);
      } else {
        ArgsClash(b, args[1..], refParams[1..], m + Gen(b, arg, true), borrowed,
          if sym.Some? then consumed + {sym.value} else consumed, c, s);
      }
    }
  }

  lemma NothingClashes(c: Clash, args: seq<Expr>, refParams: seq<bool>, borrowed: map<Sym, bool>, consumed: set<Sym>, s: Sym)
    requires args == [] && refParams == []
    ensures !ClashesBefore(c, args, refParams, borrowed, consumed, s) && !ClashesHere(c, args, refParams, s)
  {
  }

  /** The first argument clashes at once, or is remembered for those that follow. */
  lemma FirstClash(c: Clash, args: seq<Expr>, refParams: seq<bool>, borrowed: map<Sym, bool>, consumed: set<Sym>, s: Sym)
    requires args != [] && ArgumentsFit(args, refParams)
    ensures var arg := args[0];
      var sym := ExprSymbol(arg);
      (ClashesBefore(c, args, refParams, borrowed, consumed, s) || ClashesHere(c, args, refParams, s)) <==>
        ((if refParams[0] then
            arg.sym == Some(s) && if c.Exclusive? then Conflicts(borrowed, s, arg.mutable) else s in consumed
          else c.Mixed? && sym == Some(s) && s in borrowed)
         || ClashesBefore(c, args[1..], refParams[1..],
              if refParams[0] then borrowed[arg.sym.value := arg.mutable] else borrowed,
              if !refParams[0] && sym.Some? then consumed + {sym.value} else consumed, s)
         || ClashesHere(c, args[1..], refParams[1..], s))
  {
    assert forall i | 0 <= i < |args[1..]| :: args[1..][i] == args[i + 1] && refParams[1..][i] == refParams[i + 1];
  }

  // ----- bodies -----

  /** Some call in s clashes over x. */
  predicate StmtClashes(c: Clash, s: Stmt, x: Sym)
    decreases s
  {
    match s
    case Let(_, e) => Clashes(c, e, x)
    case Assign(_, e) => Clashes(c, e, x)
    case FieldAssign(_, e) => Clashes(c, e, x)
    case If(e, t, f) => Clashes(c, e, x) || BlockClashes(c, t, x) || BlockClashes(c, f, x)
    case While(e, body) => Clashes(c, e, x) || BlockClashes(c, body, x)
    case Match(e, arms) => Clashes(c, e, x) || exists i | 0 <= i < |arms| :: BlockClashes(c, arms[i].block, x)
    case Return(e) => e.Some? && Clashes(c, e.value, x)
    case ExprStmt(e) => Clashes(c, e, x)
  }

  predicate BlockClashes(c: Clash, block: seq<Stmt>, x: Sym)
    decreases block
  {
    exists i | 0 <= i < |block| :: StmtClashes(c, block[i], x)
  }

  lemma {:induction false} StmtReports(b: Bindings, s: Stmt, m: set<Sym>, c: Clash, x: Sym)
    requires WellTypedStmt(s)
    ensures ReportOf(c, x) in DiagsStmt(b, s, m) <==> StmtClashes(c, s, x)
    decreases s
  {
    hide WellTyped, Clashes, Diags, Gen, BlockClashes, EffectOfBlock;
    match s
    case Let(_, e) => ExprClashes(b, e, m, true, false, c, x);
    case Assign(_, e) => ExprClashes(b, e, m, true, false, c, x);
    case FieldAssign(_, e) => ExprClashes(b, e, m, true, false, c, x);
    case If(e, t, f) =>
      ExprClashes(b, e, m, false, false, c, x);
      BlockReports(b, t, m + Gen(b, e, false), c, x);
      BlockReports(b, f, m + Gen(b, e, false), c, x);
    case While(e, body) =>
      var entry := m + LoopGen(b, e, body);
      ExprClashes(b, e, entry, false, false, c, x);
      BlockReports(b, body, entry + Gen(b, e, false), c, x);
    case Match(e, arms) =>
      ExprClashes(b, e, m, false, false, c, x);
      ArmsReport(b, arms, m + Gen(b, e, false), c, x);
    case Return(e) => if e.Some? { ExprClashes(b, e.value, m, true, false, c, x); }
    case ExprStmt(e) => ExprClashes(b, e, m, false, false, c, x);
  }

  lemma {:induction false} ArmsReport(b: Bindings, arms: seq<Arm>, m: set<Sym>, c: Clash, x: Sym)
    requires forall i | 0 <= i < |arms| :: WellTypedBlock(arms[i].block)
    ensures ReportOf(c, x) in DiagsArms(b, arms, m) <==> exists i | 0 <= i < |arms| :: BlockClashes(c, arms[i].block, x)
    decreases arms
  {
    hide WellTypedBlock, BlockClashes, DiagsBlock, ReportOf;
    if arms != [] {
      BlockReports(b, arms[0].block, m, c, x);
      ArmsReport(b, arms[1..], m, c, x);
      assert forall i | 0 <= i < |arms[1..]| :: arms[1..][i] == arms[i + 1];
    }
  }

  /** The checker reports that s is borrowed twice in one call, once mutably, or is
      borrowed and moved in one call, if and only if some call in the block does that:
      two reference arguments that borrow s, one of them mutably, in either order, or
      one that borrows it and one that is s by value, in either order. */
  lemma {:induction false} BlockReports(b: Bindings, block: seq<Stmt>, m: set<Sym>, c: Clash, x: Sym)
    requires WellTypedBlock(block)
    ensures ReportOf(c, x) in DiagsBlock(b, block, m) <==> BlockClashes(c, block, x)
    decreases block
  {
    hide WellTypedStmt, StmtClashes, DiagsStmt, ReportOf, EffectOf, Apply;
    if block != [] {
      StmtReports(b, block[0], m, c, x);
      BlockReports(b, block[1..], Apply(EffectOf(b, block[0]), m), c, x);
      assert forall i | 0 <= i < |block[1..]| :: block[1..][i] == block[i + 1];
    }
  }

  // ----- where things may stand -----

  datatype Rule = StrayBorrow | FieldMoved | OddCallee

  function Breach(r: Rule): Diagnostic {
    match r
    case StrayBorrow => BorrowOutsideCall
    case FieldMoved => MoveOutOfField
    case OddCallee => UnsupportedCallee
  }

  /** Some borrow in e is no argument of a call, some field that cannot be copied is
      given away, or something is called that is not a name. The arguments of what is
      not a name are not looked at. */
  predicate Breaks(r: Rule, e: Expr, consume: bool, inCall: bool)
    decreases e
  {
    match e
    case Borrow(_, _) => r.StrayBorrow? && !inCall
    case Unary(x) => Breaks(r, x, false, false)
    case Binary(_, left, right) => Breaks(r, left, false, false) || Breaks(r, right, false, false)
    case Field(x, copyField) => (r.FieldMoved? && consume && copyField == Some(false)) || Breaks(r, x, false, false)
    case Struct(fs) => exists i | 0 <= i < |fs| :: Breaks(r, fs[i], true, false)
    case Call(f, kind, args) =>
      if f.Name? then exists i | 0 <= i < |args| :: Breaks(r, args[i], !kind.UnresolvedCall?, true) else r.OddCallee?
    case _ => false
  }

  lemma {:induction false} ExprBreaches(b: Bindings, e: Expr, m: set<Sym>, consume: bool, inCall: bool, r: Rule)
    requires WellTyped(e)
    ensures Breach(r) in Diags(b, e, m, consume, inCall) <==> Breaks(r, e, consume, inCall)
    decreases e
  {
    hide Gen, DiagsAll, DiagsArgs, ArgumentsFit;
    match e
    case Unary(x) => ExprBreaches(b, x, m, false, false, r);
    case Binary(_, left, right) =>
      ExprBreaches(b, left, m, false, false, r);
      ExprBreaches(b, right, m + Gen(b, left, false), false, false, r);
    case Field(x, _) => ExprBreaches(b, x, m, false, false, r);
    case Struct(fs) => AllBreach(b, fs, m, true, false, r);
    case Call(f, kind, args) =>
      match kind {
        case FunctionCall(refParams) => if f.Name? { ArgsBreach(b, args, refParams, m, map[], {}, r); }
        case VariantCall => AllBreach(b, args, m, true, true, r);
        case UnresolvedCall => AllBreach(b, args, m + Gen(b, f, false), false, true, r);
      }
    case _ =>
  }

  lemma {:induction false} AllBreach(b: Bindings, es: seq<Expr>, m: set<Sym>, consume: bool, inCall: bool, r: Rule)
    requires forall i | 0 <= i < |es| :: WellTyped(es[i])
    ensures Breach(r) in DiagsAll(b, es, m, consume, inCall) <==> exists i | 0 <= i < |es| :: Breaks(r, es[i], consume, inCall)
    decreases es
  {
    hide WellTyped, Breaks, Diags, Breach;
    if es != [] {
      ExprBreaches(b, es[0], m, consume, inCall, r);
      AllBreach(b, es[1..], m + Gen(b, es[0], consume), consume, inCall, r);
      assert forall i | 0 <= i < |es[1..]| :: es[1..][i] == es[i + 1];
    }
  }

  lemma {:induction false} ArgsBreach(b: Bindings, args: seq<Expr>, refParams: seq<bool>, m: set<Sym>,
                                      borrowed: map<Sym, bool>, consumed: set<Sym>, r: Rule)
    requires (forall i | 0 <= i < |args| :: WellTyped(args[i])) && ArgumentsFit(args, refParams)
    ensures Breach(r) in DiagsArgs(b, args, refParams, m, borrowed, consumed) <==>
              exists i | 0 <= i < |args| :: Breaks(r, args[i], true, true)
    decreases args
  {
    hide WellTyped, Breaks, Diags, DiagsArgs;
    if args == [] {
      NoArguments(b, args, refParams, m, borrowed, consumed);
    } else {
      var arg, sym := args[0], ExprSymbol(args[0]);
      ArgumentStep(b, args, refParams, m, borrowed, consumed);
      assert forall i | 0 <= i < |args[1..]| :: args[1..][i] == args[i + 1];
      ExprBreaches(b, arg, m, !refParams[0], true, r);
      if refParams[0] {
        BorrowedAsArgument(r, arg);
        ArgsBreach(b, args[1..], refParams[1..], m, borrowed[arg.sym.value := arg.mutable], consumed, r);
      } else {
        ArgsBreach(b, args[1..], refParams[1..], m + Gen(b, arg, true), borrowed,
          if sym.Some? then consumed + {sym.value} else consumed, r);
      }
    }
  }

  lemma BorrowedAsArgument(r: Rule, arg: Expr)
    requires arg.Borrow?
    ensures !Breaks(r, arg, true, true) && !Breaks(r, arg, false, true)
  {
  }

  predicate StmtBreaks(r: Rule, s: Stmt)
    decreases s
  {
    match s
    case Let(_, e) => Breaks(r, e, true, false)
    case Assign(_, e) => Breaks(r, e, true, false)
    case FieldAssign(_, e) => Breaks(r, e, true, false)
    case If(e, t, f) => Breaks(r, e, false, false) || BlockBreaks(r, t) || BlockBreaks(r, f)
    case While(e, body) => Breaks(r, e, false, false) || BlockBreaks(r, body)
    case Match(e, arms) => Breaks(r, e, false, false) || exists i | 0 <= i < |arms| :: BlockBreaks(r, arms[i].block)
    case Return(e) => e.Some? && Breaks(r, e.value, true, false)
    case ExprStmt(e) => Breaks(r, e, false, false)
  }

  predicate BlockBreaks(r: Rule, block: seq<Stmt>)
    decreases block
  {
    exists i | 0 <= i < |block| :: StmtBreaks(r, block[i])
  }

  lemma {:induction false} StmtBreaches(b: Bindings, s: Stmt, m: set<Sym>, r: Rule)
    requires WellTypedStmt(s)
    ensures Breach(r) in DiagsStmt(b, s, m) <==> StmtBreaks(r, s)
    decreases s
  {
    hide WellTyped, Breaks, Diags, Gen, BlockBreaks, EffectOfBlock;
    match s
    case Let(_, e) => ExprBreaches(b, e, m, true, false, r);
    case Assign(_, e) => ExprBreaches(b, e, m, true, false, r);
    case FieldAssign(_, e) => ExprBreaches(b, e, m, true, false, r);
    case If(e, t, f) =>
      ExprBreaches(b, e, m, false, false, r);
      BlockBreaches(b, t, m + Gen(b, e, false), r);
      BlockBreaches(b, f, m + Gen(b, e, false), r);
    case While(e, body) =>
      var entry := m + LoopGen(b, e, body);
      ExprBreaches(b, e, entry, false, false, r);
      BlockBreaches(b, body, entry + Gen(b, e, false), r);
    case Match(e, arms) =>
      ExprBreaches(b, e, m, false, false, r);
      ArmsBreach(b, arms, m + Gen(b, e, false), r);
    case Return(e) => if e.Some? { ExprBreaches(b, e.value, m, true, false, r); }
    case ExprStmt(e) => ExprBreaches(b, e, m, false, false, r);
  }

  lemma {:induction false} ArmsBreach(b: Bindings, arms: seq<Arm>, m: set<Sym>, r: Rule)
    requires forall i | 0 <= i < |arms| :: WellTypedBlock(arms[i].block)
    ensures Breach(r) in DiagsArms(b, arms, m) <==> exists i | 0 <= i < |arms| :: BlockBreaks(r, arms[i].block)
    decreases arms
  {
    hide WellTypedBlock, BlockBreaks, DiagsBlock, Breach;
    if arms != [] {
      BlockBreaches(b, arms[0].block, m, r);
      ArmsBreach(b, arms[1..], m, r);
      assert forall i | 0 <= i < |arms[1..]| :: arms[1..][i] == arms[i + 1];
    }
  }

  /** The other reports about where things stand are exact too. */
  lemma {:induction false} BlockBreaches(b: Bindings, block: seq<Stmt>, m: set<Sym>, r: Rule)
    requires WellTypedBlock(block)
    ensures Breach(r) in DiagsBlock(b, block, m) <==> BlockBreaks(r, block)
    decreases block
  {
    hide WellTypedStmt, StmtBreaks, DiagsStmt, Breach, EffectOf, Apply;
    if block != [] {
      StmtBreaches(b, block[0], m, r);
      BlockBreaches(b, block[1..], Apply(EffectOf(b, block[0]), m), r);
      assert forall i | 0 <= i < |block[1..]| :: block[1..][i] == block[i + 1];
    }
  }
}
