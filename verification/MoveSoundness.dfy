/** A body the checker accepts is safe on every path; how strictly "safe" can be
    read, and under which guard exactly. */
module MoveSoundness {
  import opened MoveSyntax
  import opened MovePaths
  import opened MoveAnalysis
  import opened MoveOutcomes
  import opened MoveBodies

  // ----- expressions: the checker is exact -----

  /** These diagnostics name x as used or borrowed after it was given up. */
  predicate Complains(ds: seq<Diagnostic>, x: Sym) {
    UseOfMoved(x) in ds || BorrowOfMoved(x) in ds
  }

  /** What is called is always named. */
  predicate Supported(e: Expr)
    decreases e
  {
    match e
    case Unary(o) => Supported(o)
    case Binary(_, l, r) => Supported(l) && Supported(r)
    case Field(o, _) => Supported(o)
    case Struct(fs) => forall i | 0 <= i < |fs| :: Supported(fs[i])
    case Call(f, _, args) => f.Name? && forall i | 0 <= i < |args| :: Supported(args[i])
    case _ => true
  }

  /** The checker marks x exactly when some run of the expression gives it up, and
      complains about x exactly when some run touches it while it is given up. */
  lemma {:induction false} ExprExact(b: Bindings, e: Expr, consume: bool, inCall: bool, m: set<Sym>, x: Sym)
    requires WellTyped(e) && Supported(e)
    ensures x in Gen(b, e, consume) <==> Takes(b, e, consume, x)
    ensures Owned(b, x) ==> (Complains(Diags(b, e, m, consume, inCall), x) <==> Trips(b, e, consume, x, x in m))
    decreases e
  {
    match e
    case Unary(o) => ExprExact(b, o, false, false, m, x);
    case Binary(_, l, r) =>
      ExprExact(b, l, false, false, m, x);
      ExprExact(b, r, false, false, m + Gen(b, l, false), x);
    case Field(o, _) => ExprExact(b, o, false, false, m, x);
    case Struct(fs) => AllExact(b, fs, true, false, m, x);
    case Call(f, kind, args) =>
      match kind {
        case FunctionCall(refParams) => ArgsExact(b, args, refParams, m, map[], {}, x);
        case VariantCall => AllExact(b, args, true, true, m, x);
        case UnresolvedCall =>
          ExprExact(b, f, false, false, m, x);
          AllExact(b, args, false, true, m + Gen(b, f, false), x);
      }
    case _ =>
  }

  lemma {:induction false} AllExact(b: Bindings, es: seq<Expr>, consume: bool, inCall: bool, m: set<Sym>, x: Sym)
    requires forall i | 0 <= i < |es| :: WellTyped(es[i]) && Supported(es[i])
    ensures x in GenAll(b, es, consume) <==> TakesAll(b, es, consume, x)
    ensures Owned(b, x) ==> (Complains(DiagsAll(b, es, m, consume, inCall), x) <==> TripsAll(b, es, consume, x, x in m))
    decreases es
  {
    hide WellTyped, Supported, Gen, Diags, Takes, Trips;
    if es != [] {
      ExprExact(b, es[0], consume, inCall, m, x);
      AllExact(b, es[1..], consume, inCall, m + Gen(b, es[0], consume), x);
    }
  }

  lemma {:induction false} ArgsExact(b: Bindings, args: seq<Expr>, refParams: seq<bool>, m: set<Sym>,
                                     borrowed: map<Sym, bool>, consumed: set<Sym>, x: Sym)
    requires (forall i | 0 <= i < |args| :: WellTyped(args[i]) && Supported(args[i])) && ArgumentsFit(args, refParams)
    ensures x in GenArgs(b, args, refParams) <==> TakesArgs(b, args, refParams, x)
    ensures Owned(b, x) ==>
              (Complains(DiagsArgs(b, args, refParams, m, borrowed, consumed), x) <==> TripsArgs(b, args, refParams, x, x in m))
    decreases args
  {
    hide WellTyped, Supported, Gen, Diags, Takes, Trips, DiagsArgs, GenArgs;
    if args == [] {
      NoArguments(b, args, refParams, m, borrowed, consumed);
    } else {
      var arg, s := args[0], ExprSymbol(args[0]);
      ArgumentStep(b, args, refParams, m, borrowed, consumed);
      ExprExact(b, arg, ByValue(refParams), true, m, x);
      if refParams[0] {
        BorrowTakesNothing(b, arg, m);
        ArgsExact(b, args[1..], refParams[1..], m, borrowed[arg.sym.value := arg.mutable], consumed, x);
      } else {
        ArgsExact(b, args[1..], refParams[1..], m + Gen(b, arg, true), borrowed,
          if s.Some? then consumed + {s.value} else consumed, x);
      }
    }
  }

  lemma BorrowTakesNothing(b: Bindings, arg: Expr, m: set<Sym>)
    requires arg.Borrow?
    ensures forall x :: !Takes(b, arg, false, x)
  {
  }

  lemma {:induction false} AcceptedSupported(b: Bindings, e: Expr, consume: bool, inCall: bool, m: set<Sym>)
    requires WellTyped(e) && Diags(b, e, m, consume, inCall) == []
    ensures Supported(e)
    decreases e
  {
    match e
    case Unary(o) => AcceptedSupported(b, o, false, false, m);
    case Binary(_, l, r) =>
      AcceptedSupported(b, l, false, false, m);
      AcceptedSupported(b, r, false, false, m + Gen(b, l, false));
    case Field(o, _) => AcceptedSupported(b, o, false, false, m);
    case Struct(fs) => AllSupported(b, fs, true, false, m);
    case Call(f, kind, args) =>
      match kind {
        case FunctionCall(refParams) => ArgsSupported(b, args, refParams, m, map[], {});
        case VariantCall => AllSupported(b, args, true, true, m);
        case UnresolvedCall => AllSupported(b, args, false, true, m + Gen(b, f, false));
      }
    case _ =>
  }

  lemma {:induction false} AllSupported(b: Bindings, es: seq<Expr>, consume: bool, inCall: bool, m: set<Sym>)
    requires (forall i | 0 <= i < |es| :: WellTyped(es[i])) && DiagsAll(b, es, m, consume, inCall) == []
    ensures forall i | 0 <= i < |es| :: Supported(es[i])
    decreases es
  {
    hide WellTyped, Supported, Gen, Diags;
    if es != [] {
      AcceptedSupported(b, es[0], consume, inCall, m);
      AllSupported(b, es[1..], consume, inCall, m + Gen(b, es[0], consume));
      assert forall i | 1 <= i < |es| :: es[i] == es[1..][i - 1];
    }
  }

  lemma {:induction false} ArgsSupported(b: Bindings, args: seq<Expr>, refParams: seq<bool>, m: set<Sym>,
                                         borrowed: map<Sym, bool>, consumed: set<Sym>)
    requires (forall i | 0 <= i < |args| :: WellTyped(args[i])) && ArgumentsFit(args, refParams)
    requires DiagsArgs(b, args, refParams, m, borrowed, consumed) == []
    ensures forall i | 0 <= i < |args| :: Supported(args[i])
    decreases args
  {
    hide WellTyped, Gen, Diags, DiagsArgs, GenArgs;
    if args != [] {
      var arg, s := args[0], ExprSymbol(args[0]);
      ArgumentStep(b, args, refParams, m, borrowed, consumed);
      if refParams[0] {
        ArgsSupported(b, args[1..], refParams[1..], m, borrowed[arg.sym.value := arg.mutable], consumed);
      } else {
        AcceptedSupported(b, arg, true, true, m);
        ArgsSupported(b, args[1..], refParams[1..], m + Gen(b, arg, true), borrowed,
          if s.Some? then consumed + {s.value} else consumed);
      }
      assert forall i | 1 <= i < |args| :: args[i] == args[1..][i - 1];
    }
  }

  /** An expression that earns no diagnostic. */
  lemma ExprAccepted(b: Bindings, e: Expr, consume: bool, inCall: bool, mc: set<Sym>, x: Sym, moved: bool)
    requires WellTyped(e) && Diags(b, e, mc, consume, inCall) == [] && (moved ==> x in mc)
    ensures Takes(b, e, consume, x) <==> x in Gen(b, e, consume)
    ensures Owned(b, x) ==> !Trips(b, e, consume, x, moved)
  {
    hide WellTyped, Supported, Gen, Diags, Takes, Trips;
    AcceptedSupported(b, e, consume, inCall, mc);
    ExprExact(b, e, consume, inCall, mc, x);
    TripsMonotone(b, e, consume, x);
  }

  lemma TripsMonotone(b: Bindings, e: Expr, consume: bool, x: Sym)
    ensures Trips(b, e, consume, x, false) ==> Trips(b, e, consume, x, true)
  {
    hide Takes, Trips;
    FullDoes(b, Plain, e, consume, x, false, []);
    AnyExpr(b, Plain, e, consume, x, false, true, Full(e, []));
  }

  lemma LeftMonotone(b: Bindings, block: seq<Stmt>, x: Sym)
    requires !BlockReturns(block) && LeftBlock(b, block, x, false)
    ensures LeftBlock(b, block, x, true)
  {
    hide LeftBlock, NowAfter, SafeFor;
    var ch := LeavingBlock(b, block, x, false, []);
    AnyBlock(b, Plain, block, x, false, true, ch);
  }

  // ----- statements -----

  /** No completing run of the arm leaves an owned local given up that the match is
      on. */
  predicate Spares(b: Bindings, e: Expr, arm: Arm) {
    forall x | x in MatchedLocal(b, e) && Owned(b, x) :: BlockReturns(arm.block) || !LeftBlock(b, arm.block, x, false)
  }

  /** What a caller can check beforehand for the stricter readings of "access":
      a stored value does not consume the local it is stored into, and no arm
      that completes leaves the local being matched given up. Statements that
      cannot be reached are exempt. */
  predicate Guarded(b: Bindings, level: Strictness, s: Stmt)
    decreases s
  {
    match s
    case FieldAssign(sym, e) =>
      !level.Plain? && sym.Some? && Owned(b, sym.value) ==> !Takes(b, e, true, sym.value)
    case If(_, t, e) => GuardedBlock(b, level, t) && GuardedBlock(b, level, e)
    case While(_, body) => GuardedBlock(b, level, body)
    case Match(e, arms) =>
      forall i | 0 <= i < |arms| :: GuardedBlock(b, level, arms[i].block) && (level.Completions? ==> Spares(b, e, arms[i]))
    case _ => true
  }

  predicate GuardedBlock(b: Bindings, level: Strictness, block: seq<Stmt>)
    decreases block
  {
    block == [] ||
    (Guarded(b, level, block[0]) && (AlwaysReturns(block[0]) || GuardedBlock(b, level, block[1..])))
  }

  lemma {:induction false} GuardedPlainly(b: Bindings, s: Stmt)
    ensures Guarded(b, Plain, s)
    decreases s
  {
    match s
    case If(_, t, e) =>
      BlockGuardedPlainly(b, t);
      BlockGuardedPlainly(b, e);
    case While(_, body) => BlockGuardedPlainly(b, body);
    case Match(e, arms) =>
      forall i | 0 <= i < |arms|
        ensures GuardedBlock(b, Plain, arms[i].block)
      {
        BlockGuardedPlainly(b, arms[i].block);
      }
    case _ =>
  }

  lemma {:induction false} BlockGuardedPlainly(b: Bindings, block: seq<Stmt>)
    ensures GuardedBlock(b, Plain, block)
    decreases block
  {
    if block != [] {
      GuardedPlainly(b, block[0]);
      BlockGuardedPlainly(b, block[1..]);
    }
  }

  /** A statement that earns no diagnostic from mc, for a local that may have been
      given up only if mc says so: no run touches it while it is given up, and none
      leaves it given up without a mark. */
  lemma {:induction false} StmtAccepted(b: Bindings, level: Strictness, s: Stmt, mc: set<Sym>, x: Sym, moved: bool)
    requires (moved ==> x in mc) && WellTypedStmt(s) && DiagsStmt(b, s, mc) == [] && Guarded(b, level, s)
    ensures Owned(b, x) ==> !Bad(b, level, s, x, moved)
    ensures Left(b, s, x, moved) ==> x in Apply(EffectOf(b, s), mc)
    decreases s
  {
    hide WellTyped, Gen, Diags, Takes, Trips;
    match s
    case Let(sym, e) =>
      ExprAccepted(b, e, true, false, mc, x, moved);
      RebindingEffect(b, s, sym, e, mc);
    case Assign(sym, e) =>
      ExprAccepted(b, e, true, false, mc, x, moved);
      RebindingEffect(b, s, sym, e, mc);
    case FieldAssign(sym, e) => ExprAccepted(b, e, true, false, mc, x, moved);
    case If(c, t, e) =>
      var mc1, m1 := mc + Gen(b, c, false), moved || Takes(b, c, false, x);
      ExprAccepted(b, c, false, false, mc, x, moved);
      BlockAccepted(b, level, t, mc1, x, m1);
      BlockAccepted(b, level, e, mc1, x, m1);
    case While(c, body) => LoopAccepted(b, level, s, mc, x, moved);
    case Match(e, arms) => MatchAccepted(b, level, s, mc, x, moved);
    case Return(e) =>
      if e.Some? {
        ExprAccepted(b, e.value, true, false, mc, x, moved);
      }
    case ExprStmt(e) => ExprAccepted(b, e, false, false, mc, x, moved);
  }

  lemma {:induction false} LoopAccepted(b: Bindings, level: Strictness, s: Stmt, mc: set<Sym>, x: Sym, moved: bool)
    requires s.While? && (moved ==> x in mc) && WellTypedStmt(s) && DiagsStmt(b, s, mc) == [] && Guarded(b, level, s)
    ensures Owned(b, x) ==> !Bad(b, level, s, x, moved)
    ensures Left(b, s, x, moved) ==> x in Apply(EffectOf(b, s), mc)
    decreases s, 0
  {
    hide WellTyped, Gen, Diags, Takes, Trips, BadBlock, LeftBlock, EffectOfBlock, DiagsBlock, GuardedBlock, WellTypedBlock, BlockReturns;
    var c, body := s.condition, s.body;
    var entry := mc + LoopGen(b, c, body);
    var mc1 := entry + Gen(b, c, false);
    var may := LoopEntry(b, c, body, x, moved);
    LoopEntryIsLeast(b, c, body, mc);
    ExprAccepted(b, c, false, false, entry, x, false);
    BlockAccepted(b, level, body, mc1, x, Takes(b, c, false, x));
    assert Apply(EffectOfBlock(b, body), mc1) <= entry;
    ExprAccepted(b, c, false, false, entry, x, may);
    BlockAccepted(b, level, body, mc1, x, may || Takes(b, c, false, x));
    BlockAccepted(b, level, body, mc1, x, moved || Takes(b, c, false, x));
  }

  lemma {:induction false} ArmDiags(b: Bindings, arms: seq<Arm>, i: nat, m: set<Sym>)
    requires i < |arms|
    ensures DiagsArms(b, arms, m) == [] ==> DiagsBlock(b, arms[i].block, m) == []
    ensures EffectOfBlock(b, arms[i].block).gen <= ArmsGen(b, arms)
    decreases arms
  {
    hide DiagsBlock, EffectOfBlock;
    if i > 0 {
      ArmDiags(b, arms[1..], i - 1, m);
    }
  }

  lemma {:induction false} MatchAccepted(b: Bindings, level: Strictness, s: Stmt, mc: set<Sym>, x: Sym, moved: bool)
    requires s.Match? && (moved ==> x in mc) && WellTypedStmt(s) && DiagsStmt(b, s, mc) == [] && Guarded(b, level, s)
    ensures Owned(b, x) ==> !Bad(b, level, s, x, moved)
    ensures Left(b, s, x, moved) ==> x in Apply(EffectOf(b, s), mc)
    decreases s, 0
  {
    hide WellTyped, Gen, Diags, Takes, Trips, BadBlock, LeftBlock, EffectOfBlock, DiagsBlock, DiagsArms, ArmsGen,
      GuardedBlock, WellTypedBlock, BlockReturns, PatternSymbols;
    var e, arms := s.scrutinee, s.arms;
    var mc1, m1 := mc + Gen(b, e, false), moved || Takes(b, e, false, x);
    ExprAccepted(b, e, false, false, mc, x, moved);
    if Retires(b, e, x) && Owned(b, x) {
      MatchedUnmoved(b, e, mc, x, moved);
    }
    forall i | 0 <= i < |arms|
      ensures Owned(b, x) ==> !BadArm(b, level, e, arms[i], x, m1)
      ensures !BlockReturns(arms[i].block) && LeftBlock(b, arms[i].block, x, Kept(arms[i].pattern, x, m1)) ==>
                x in mc1 + ArmsGen(b, arms)
    {
      ArmDiags(b, arms, i, mc1);
      BlockAccepted(b, level, arms[i].block, mc1, x, Kept(arms[i].pattern, x, m1));
    }
  }

  /** Reading the scrutinee was checked, so it is not given up when arms begin. */
  lemma MatchedUnmoved(b: Bindings, e: Expr, mc: set<Sym>, x: Sym, moved: bool)
    requires Retires(b, e, x) && Owned(b, x) && Diags(b, e, mc, false, false) == [] && (moved ==> x in mc)
    ensures !moved && !Takes(b, e, false, x)
  {
  }

  lemma {:induction false} BlockAccepted(b: Bindings, level: Strictness, block: seq<Stmt>, mc: set<Sym>, x: Sym, moved: bool)
    requires (moved ==> x in mc) && WellTypedBlock(block) && DiagsBlock(b, block, mc) == [] && GuardedBlock(b, level, block)
    ensures Owned(b, x) ==> !BadBlock(b, level, block, x, moved)
    ensures !BlockReturns(block) && LeftBlock(b, block, x, moved) ==> x in Apply(EffectOfBlock(b, block), mc)
    decreases block
  {
    hide Bad, Left, EffectOf, DiagsStmt, WellTypedStmt, Guarded, AlwaysReturns, Apply;
    EmptyEffect(b, mc);
    if block != [] {
      StmtAccepted(b, level, block[0], mc, x, moved);
      ComposeApplies(EffectOf(b, block[0]), EffectOfBlock(b, block[1..]), mc);
      if !AlwaysReturns(block[0]) {
        BlockAccepted(b, level, block[1..], Apply(EffectOf(b, block[0]), mc), x, Left(b, block[0], x, moved));
      }
    }
  }

  lemma EmptyEffect(b: Bindings, m: set<Sym>)
    ensures Apply(EffectOfBlock(b, []), m) == m
  {
  }

  // ----- without the guard some path is unsafe -----

  lemma {:induction false} UnguardedBad(b: Bindings, level: Strictness, s: Stmt) returns (x: Sym)
    requires !Guarded(b, level, s)
    ensures Owned(b, x) && forall moved: bool :: Bad(b, level, s, x, moved)
    decreases s
  {
    match s
    case FieldAssign(sym, e) => x := sym.value;
    case If(c, t, e) => x := BlockUnguardedBad(b, level, if GuardedBlock(b, level, t) then e else t);
    case While(c, body) => x := BlockUnguardedBad(b, level, body);
    case Match(e, arms) =>
      var i :| 0 <= i < |arms| && !(GuardedBlock(b, level, arms[i].block) && (level.Completions? ==> Spares(b, e, arms[i])));
      if GuardedBlock(b, level, arms[i].block) {
        x :| x in MatchedLocal(b, e) && Owned(b, x) && !BlockReturns(arms[i].block) && LeftBlock(b, arms[i].block, x, false);
        LeftMonotone(b, arms[i].block, x);
      } else {
        x := BlockUnguardedBad(b, level, arms[i].block);
      }
      forall moved: bool
        ensures Bad(b, level, s, x, moved)
      {
        assert BadArm(b, level, e, arms[i], x, moved || Takes(b, e, false, x));
      }
  }

  lemma {:induction false} BlockUnguardedBad(b: Bindings, level: Strictness, block: seq<Stmt>) returns (x: Sym)
    requires !GuardedBlock(b, level, block)
    ensures Owned(b, x) && forall moved: bool :: BadBlock(b, level, block, x, moved)
    decreases block
  {
    if Guarded(b, level, block[0]) {
      x := BlockUnguardedBad(b, level, block[1..]);
    } else {
      x := UnguardedBad(b, level, block[0]);
    }
  }

  // ----- the theorems -----

  ghost predicate Accepts(b: Bindings, body: seq<Stmt>) {
    DiagsBlock(b, body, {}) == []
  }

  /** For an accepted body, every path is safe in the given reading of "access" if
      and only if the body meets the guard of that reading. Reading, borrowing and
      consuming need no guard. */
  lemma StrictnessExact(b: Bindings, level: Strictness, body: seq<Stmt>)
    requires WellTypedBlock(body) && Accepts(b, body)
    ensures SafeBody(b, level, body) <==> GuardedBlock(b, level, body)
    ensures level.Plain? ==> GuardedBlock(b, level, body)
  {
    hide SafeBody, BadBlock, GuardedBlock;
    PathsExact(b, level, body);
    if GuardedBlock(b, level, body) {
      forall x | Owned(b, x)
        ensures !BadBlock(b, level, body, x, false)
      {
        BlockAccepted(b, level, body, {}, x, false);
      }
    } else {
      var x := BlockUnguardedBad(b, level, body);
      assert BadBlock(b, level, body, x, false);
    }
    BlockGuardedPlainly(b, body);
  }

  /** What the checker's verdict and final state promise of one path. */
  ghost predicate Sound(b: Bindings, body: seq<Stmt>, r: Run) {
    && SafeTrace(b, Plain, r.events)
    && (r.flow == Running ==>
          forall x | MovedAt(r.events, |r.events|, x) :: x in EffectOfBlock(b, body).gen)
  }

  /** If the checker reports nothing for a well-typed body, then on every path no
      owned local is read, borrowed or consumed after it was given up and before
      it is bound again; and a path that runs to the end leaves moved only
      locals that the checker's final state marks. */
  lemma MoveSoundness(b: Bindings, body: seq<Stmt>, ch: seq<nat>)
    requires WellTypedBlock(body) && Accepts(b, body)
    ensures Sound(b, body, ExecBlock(b, body, ch))
  {
    hide SafeTrace, MovedAt, LeftBlock, BlockReturns, BadBlock;
    StrictnessExact(b, Plain, body);
    var r := ExecBlock(b, body, ch);
    if r.flow == Running {
      forall x | MovedAt(r.events, |r.events|, x)
        ensures x in EffectOfBlock(b, body).gen
      {
        LeftUpper(b, body, x, ch);
        BlockAccepted(b, Plain, body, {}, x, false);
      }
    }
  }
}
