/** How tight the move checker is, and concrete bodies that show what it misses and
    what it refuses needlessly. */
module MoveExactness {
  import opened MoveSyntax
  import opened MovePaths
  import opened MoveAnalysis
  import opened MoveOutcomes
  import opened MoveBodies
  import opened MoveSoundness

  /** Marking is exact for expressions: a local is marked when, and only when,
      some path through the expression gives it up. */
  lemma MarkIffConsumed(b: Bindings, e: Expr, consume: bool, x: Sym)
    requires WellTyped(e) && Supported(e)
    ensures x in Gen(b, e, consume) <==>
            exists ch :: var r := EvalExpr(b, e, consume, ch); r.flow == Running && MovedAt(r.events, |r.events|, x)
  {
    hide SafeFor, NowAfter, After, MovedAt, Takes, Trips, Gen, Does;
    ExprExact(b, e, consume, false, {}, x);
    if Takes(b, e, consume, x) {
      var r := EvalExpr(b, e, consume, Full(e, []));
      FullDoes(b, Plain, e, consume, x, false, []);
      DoesFlow(Plain, x, false, r, [], true, Trips(b, e, consume, x, false));
      AfterIsMovedAt(r.events, x);
      Pointwise(b, Plain, {}, r.events);
    }
    forall ch | var r := EvalExpr(b, e, consume, ch); r.flow == Running && MovedAt(r.events, |r.events|, x)
      ensures Takes(b, e, consume, x)
    {
      var r := EvalExpr(b, e, consume, ch);
      AnyExpr(b, Plain, e, consume, x, false, false, ch);
      AfterIsMovedAt(r.events, x);
      Pointwise(b, Plain, {}, r.events);
    }
  }

  // ----- bodies on which every complaint is justified -----

  predicate SupportedStmt(s: Stmt)
    decreases s
  {
    match s
    case Let(_, e) => Supported(e)
    case Assign(_, e) => Supported(e)
    case FieldAssign(_, e) => Supported(e)
    case If(c, t, e) => Supported(c) && SupportedBlock(t) && SupportedBlock(e)
    case While(c, body) => Supported(c) && SupportedBlock(body)
    case Match(e, arms) => Supported(e) && forall i | 0 <= i < |arms| :: SupportedBlock(arms[i].block)
    case Return(e) => e.Some? ==> Supported(e.value)
    case ExprStmt(e) => Supported(e)
  }

  predicate SupportedBlock(block: seq<Stmt>)
    decreases block
  {
    forall i | 0 <= i < |block| :: SupportedStmt(block[i])
  }

  /** Nothing the checker joins or keeps differs from what some path does: nothing
      follows a return; no arm's pattern binds a local that is marked when the arm is
      entered, as it is when a loop comes back to an arm that gave its own local up;
      and what is marked before a match that something follows is not bound again in
      all of its arms. */
  predicate Direct(b: Bindings, s: Stmt, m: set<Sym>, last: bool)
    decreases s
  {
    match s
    case If(c, t, e) => DirectBlock(b, t, m + Gen(b, c, false), last) && DirectBlock(b, e, m + Gen(b, c, false), last)
    case While(c, body) => DirectBlock(b, body, m + LoopGen(b, c, body) + Gen(b, c, false), false)
    case Match(e, arms) =>
      var m1 := m + Gen(b, e, false);
      && (forall i | 0 <= i < |arms| :: Unmarked(arms[i].pattern, m1) && DirectBlock(b, arms[i].block, m1, last))
      && (last || arms == [] || forall x | x in m1 :: x in MatchedLocal(b, e) || StaysMarked(b, arms, x))
    case Return(_) => last
    case _ => true
  }

  predicate DirectBlock(b: Bindings, block: seq<Stmt>, m: set<Sym>, last: bool)
    decreases block
  {
    block == [] ||
    (Direct(b, block[0], m, last && |block| == 1) && DirectBlock(b, block[1..], Apply(EffectOf(b, block[0]), m), last))
  }

  predicate Unmarked(p: Pattern, m: set<Sym>) {
    forall x | x in PatternSymbols(p) :: x !in m
  }

  /** Some arm does not bind x again. */
  predicate StaysMarked(b: Bindings, arms: seq<Arm>, x: Sym) {
    exists i :: 0 <= i < |arms| && x in Apply(EffectOfBlock(b, arms[i].block), {x})
  }

  lemma {:induction false} ArmsTogether(b: Bindings, arms: seq<Arm>, m: set<Sym>, x: Sym)
    ensures x in ArmsGen(b, arms) <==> exists i :: 0 <= i < |arms| && x in EffectOfBlock(b, arms[i].block).gen
    ensures Complains(DiagsArms(b, arms, m), x) <==>
            exists i :: 0 <= i < |arms| && Complains(DiagsBlock(b, arms[i].block, m), x)
    decreases arms
  {
    hide EffectOfBlock, DiagsBlock;
    if arms != [] {
      ArmsTogether(b, arms[1..], m, x);
      assert forall i | 1 <= i < |arms| :: arms[i] == arms[1..][i - 1];
      assert forall i | 0 <= i < |arms| - 1 :: arms[1..][i] == arms[i + 1];
    }
  }

  /** On a direct statement the checker's marks and complaints are those of the
      paths, from any state that is marked no more than m. */
  lemma {:induction false} StmtDirect(b: Bindings, s: Stmt, m: set<Sym>, last: bool, n: set<Sym>, x: Sym)
    requires Direct(b, s, m, last) && n <= m && WellTypedStmt(s) && SupportedStmt(s) && Guarded(b, Writes, s)
    ensures !last ==> !AlwaysReturns(s) && (Left(b, s, x, x in n) <==> x in Apply(EffectOf(b, s), n))
    ensures Owned(b, x) ==> (Complains(DiagsStmt(b, s, n), x) <==> Bad(b, Writes, s, x, x in n))
    decreases s
  {
    hide WellTyped, Supported, Gen, Diags, Takes, Trips;
    match s
    case Let(sym, e) =>
      ExprExact(b, e, true, false, n, x);
      RebindingEffect(b, s, sym, e, n);
    case Assign(sym, e) =>
      ExprExact(b, e, true, false, n, x);
      RebindingEffect(b, s, sym, e, n);
    case FieldAssign(sym, e) =>
      ExprExact(b, e, true, false, n, x);
      PlainEffect(b, s, n);
    case If(c, t, e) => IfDirect(b, s, m, last, n, x);
    case While(c, body) => WhileDirect(b, s, m, n, x);
    case Match(e, arms) => MatchDirect(b, s, m, last, n, x);
    case Return(e) =>
      if e.Some? {
        ExprExact(b, e.value, true, false, n, x);
      }
    case ExprStmt(e) =>
      ExprExact(b, e, false, false, n, x);
      PlainEffect(b, s, n);
  }

  lemma {:induction false} IfDirect(b: Bindings, s: Stmt, m: set<Sym>, last: bool, n: set<Sym>, x: Sym)
    requires s.If? && Direct(b, s, m, last) && n <= m && WellTypedStmt(s) && SupportedStmt(s) && Guarded(b, Writes, s)
    ensures !last ==> !AlwaysReturns(s) && (Left(b, s, x, x in n) <==> x in Apply(EffectOf(b, s), n))
    ensures Owned(b, x) ==> (Complains(DiagsStmt(b, s, n), x) <==> Bad(b, Writes, s, x, x in n))
    decreases s, 0
  {
    hide WellTyped, Supported, Gen, Diags, Takes, Trips, WellTypedBlock, SupportedBlock, DirectBlock, GuardedBlock,
      DiagsBlock, EffectOfBlock, LeftBlock, BadBlock, BlockReturns;
    var g := Gen(b, s.condition, false);
    ExprExact(b, s.condition, false, false, n, x);
    BlockDirect(b, s.thenBlock, m + g, last, n + g, x);
    BlockDirect(b, s.elseBlock, m + g, last, n + g, x);
  }

  lemma {:induction false} WhileDirect(b: Bindings, s: Stmt, m: set<Sym>, n: set<Sym>, x: Sym)
    requires s.While? && Direct(b, s, m, false) && n <= m && WellTypedStmt(s) && SupportedStmt(s) && Guarded(b, Writes, s)
    ensures Left(b, s, x, x in n) <==> x in Apply(EffectOf(b, s), n)
    ensures Owned(b, x) ==> (Complains(DiagsStmt(b, s, n), x) <==> Bad(b, Writes, s, x, x in n))
    decreases s, 0
  {
    hide WellTyped, Supported, Gen, Diags, Takes, Trips, WellTypedBlock, SupportedBlock, DirectBlock, GuardedBlock,
      DiagsBlock, EffectOfBlock, LeftBlock, BadBlock, BlockReturns;
    var c, body := s.condition, s.body;
    var g, entry := Gen(b, c, false), n + LoopGen(b, c, body);
    var all := m + LoopGen(b, c, body) + g;
    ExprExact(b, c, false, false, entry, x);
    BlockDirect(b, body, all, false, g, x);
    BlockDirect(b, body, all, false, n + g, x);
    BlockDirect(b, body, all, false, entry + g, x);
    assert LoopEntry(b, c, body, x, x in n) <==> x in entry;
  }

  lemma {:induction false} MatchDirect(b: Bindings, s: Stmt, m: set<Sym>, last: bool, n: set<Sym>, x: Sym)
    requires s.Match? && Direct(b, s, m, last) && n <= m && WellTypedStmt(s) && SupportedStmt(s) && Guarded(b, Writes, s)
    ensures !last ==> !AlwaysReturns(s) && (Left(b, s, x, x in n) <==> x in Apply(EffectOf(b, s), n))
    ensures Owned(b, x) ==> (Complains(DiagsStmt(b, s, n), x) <==> Bad(b, Writes, s, x, x in n))
    decreases s, 0
  {
    hide WellTyped, Supported, Gen, Diags, Takes, Trips, WellTypedBlock, SupportedBlock, DirectBlock, GuardedBlock,
      DiagsBlock, DiagsArms, EffectOfBlock, ArmsGen, LeftBlock, BadBlock, BlockReturns, PatternSymbols;
    var e, arms := s.scrutinee, s.arms;
    var n1, m1 := n + Gen(b, e, false), m + Gen(b, e, false);
    ExprExact(b, e, false, false, n, x);
    ArmsTogether(b, arms, n1, x);
    forall i | 0 <= i < |arms|
      ensures !last ==> !BlockReturns(arms[i].block) &&
                        (LeftBlock(b, arms[i].block, x, Kept(arms[i].pattern, x, x in n1)) <==> x in Apply(EffectOfBlock(b, arms[i].block), n1))
      ensures Owned(b, x) ==> (Complains(DiagsBlock(b, arms[i].block, n1), x) <==> BadArm(b, Writes, e, arms[i], x, x in n1))
    {
      BlockDirect(b, arms[i].block, m1, last, n1, x);
      assert Unmarked(arms[i].pattern, m1);
    }
    if !last && arms != [] {
      assert !BlockReturns(arms[0].block);
      MatchJoinDirect(b, s, m1, n1, x);
    }
  }

  lemma MatchJoinDirect(b: Bindings, s: Stmt, m1: set<Sym>, n1: set<Sym>, x: Sym)
    requires s.Match? && s.arms != [] && n1 <= m1
    requires forall y | y in m1 :: y in MatchedLocal(b, s.scrutinee) || StaysMarked(b, s.arms, y)
    ensures Retires(b, s.scrutinee, x) || (exists i :: 0 <= i < |s.arms| && x in Apply(EffectOfBlock(b, s.arms[i].block), n1))
            <==> x in n1 + MatchedLocal(b, s.scrutinee) + ArmsGen(b, s.arms)
  {
    hide EffectOfBlock, ArmsGen, DiagsArms, DiagsBlock;
    ArmsTogether(b, s.arms, {}, x);
    if x in n1 && !Retires(b, s.scrutinee, x) {
      var i :| 0 <= i < |s.arms| && x in Apply(EffectOfBlock(b, s.arms[i].block), {x});
      assert x in Apply(EffectOfBlock(b, s.arms[i].block), n1);
    }
    if x in ArmsGen(b, s.arms) {
      var i :| 0 <= i < |s.arms| && x in EffectOfBlock(b, s.arms[i].block).gen;
      assert x in Apply(EffectOfBlock(b, s.arms[i].block), n1);
    }
  }

  lemma {:induction false} BlockDirect(b: Bindings, block: seq<Stmt>, m: set<Sym>, last: bool, n: set<Sym>, x: Sym)
    requires DirectBlock(b, block, m, last) && n <= m && WellTypedBlock(block) && SupportedBlock(block) && GuardedBlock(b, Writes, block)
    ensures !last ==> !BlockReturns(block) && (LeftBlock(b, block, x, x in n) <==> x in Apply(EffectOfBlock(b, block), n))
    ensures Owned(b, x) ==> (Complains(DiagsBlock(b, block, n), x) <==> BadBlock(b, Writes, block, x, x in n))
    decreases block
  {
    hide Bad, Left, EffectOf, DiagsStmt, WellTypedStmt, SupportedStmt, Guarded, AlwaysReturns, Direct;
    EmptyEffect(b, n);
    if block != [] {
      var n1 := Apply(EffectOf(b, block[0]), n);
      StmtDirect(b, block[0], m, last && |block| == 1, n, x);
      ComposeApplies(EffectOf(b, block[0]), EffectOfBlock(b, block[1..]), n);
      if |block| > 1 {
        BlockDirect(b, block[1..], Apply(EffectOf(b, block[0]), m), last, n1, x);
      }
    }
  }

  /** On a direct body, with stored values that do not consume the local they are
      stored into, the checker complains about an owned local if and only if some
      path touches that local after it was given up. */
  lemma ComplaintsExact(b: Bindings, body: seq<Stmt>, x: Sym)
    requires WellTypedBlock(body) && SupportedBlock(body) && GuardedBlock(b, Writes, body) && DirectBlock(b, body, {}, true)
    requires Owned(b, x)
    ensures Complains(DiagsBlock(b, body, {}), x) <==>
            exists ch: seq<nat> :: Touched(Writes, ExecBlock(b, body, ch).events, x)
  {
    hide BadBlock, DirectBlock, DiagsBlock, Touched, GuardedBlock;
    BlockDirect(b, body, {}, true, {}, x);
    LocalExact(b, Writes, body, x);
  }

  // ----- concrete bodies -----

  const ONE_LOCAL: Bindings := map[0 := Binding(false, false)]

  /** take(x), for the local x that is numbered 0. */
  function Take(): Expr {
    Call(Name(false, None), FunctionCall([false]), [Name(true, Some(0))])
  }

  lemma TakeFacts(m: set<Sym>, consume: bool)
    ensures Gen(ONE_LOCAL, Take(), consume) == {0} && WellTyped(Take())
    ensures Diags(ONE_LOCAL, Take(), m, consume, false) == if 0 in m then [UseOfMoved(0)] else []
    ensures Takes(ONE_LOCAL, Take(), consume, 0)
    ensures forall moved: bool :: Trips(ONE_LOCAL, Take(), consume, 0, moved) <==> moved
  {
    var args, kinds := [Name(true, Some(0))], [false];
    assert args[1..] == [];
    ArgumentStep(ONE_LOCAL, args, kinds, m, map[], {});
    NoArguments(ONE_LOCAL, args[1..], kinds[1..], m + {0}, map[], {0});
    assert Gen(ONE_LOCAL, args[0], true) == {0};
    assert !TakesArgs(ONE_LOCAL, args[1..], kinds[1..], 0);
    assert forall moved: bool :: !TripsArgs(ONE_LOCAL, args[1..], kinds[1..], 0, moved);
    assert TakesArgs(ONE_LOCAL, args, kinds, 0);
    assert forall moved: bool :: TripsArgs(ONE_LOCAL, args, kinds, 0, moved) <==> moved;
  }

  /** The statement take(x); */
  lemma TakeStmt(level: Strictness, m: set<Sym>, moved: bool)
    ensures var s := ExprStmt(Take());
      && WellTypedStmt(s) && !AlwaysReturns(s) && EffectOf(ONE_LOCAL, s) == Effect({}, {0})
      && DiagsStmt(ONE_LOCAL, s, m) == (if 0 in m then [UseOfMoved(0)] else [])
      && Left(ONE_LOCAL, s, 0, moved) && (Bad(ONE_LOCAL, level, s, 0, moved) <==> moved)
  {
    TakeFacts(m, false);
    hide Take, Gen, Diags, Takes, Trips;
  }

  lemma SafeOnIff(level: Strictness, body: seq<Stmt>)
    ensures SafeBody(ONE_LOCAL, level, body) <==> !BadBlock(ONE_LOCAL, level, body, 0, false)
  {
    hide SafeBody, BadBlock;
    PathsExact(ONE_LOCAL, level, body);
    assert Owned(ONE_LOCAL, 0);
    assert forall x | Owned(ONE_LOCAL, x) :: x == 0;
  }

  /** The expression x. */
  lemma NameFacts(m: set<Sym>)
    ensures var e := Name(true, Some(0));
      && Gen(ONE_LOCAL, e, false) == {} && WellTyped(e) && ExprSymbol(e) == Some(0)
      && Diags(ONE_LOCAL, e, m, false, false) == (if 0 in m then [UseOfMoved(0)] else [])
      && !Takes(ONE_LOCAL, e, false, 0)
      && forall moved: bool :: Trips(ONE_LOCAL, e, false, 0, moved) <==> moved
  {
  }

  lemma OneStatement(level: Strictness, s: Stmt, m: set<Sym>, moved: bool)
    ensures DiagsBlock(ONE_LOCAL, [s], m) == DiagsStmt(ONE_LOCAL, s, m)
    ensures EffectOfBlock(ONE_LOCAL, [s]) == EffectOf(ONE_LOCAL, s)
    ensures BadBlock(ONE_LOCAL, level, [s], 0, moved) <==> Bad(ONE_LOCAL, level, s, 0, moved)
    ensures LeftBlock(ONE_LOCAL, [s], 0, moved) <==> Left(ONE_LOCAL, s, 0, moved)
    ensures BlockReturns([s]) <==> AlwaysReturns(s)
  {
    hide DiagsStmt, EffectOf, Bad, Left, AlwaysReturns;
    assert [s][1..] == [];
    assert DiagsBlock(ONE_LOCAL, [], Apply(EffectOf(ONE_LOCAL, s), m)) == [];
    assert EffectOfBlock(ONE_LOCAL, []) == Effect({}, {});
    assert Compose(EffectOf(ONE_LOCAL, s), Effect({}, {})) == EffectOf(ONE_LOCAL, s);
  }

  lemma TwoStatements(level: Strictness, s: Stmt, t: Stmt, m: set<Sym>, moved: bool)
    ensures DiagsBlock(ONE_LOCAL, [s, t], m) == DiagsStmt(ONE_LOCAL, s, m) + DiagsStmt(ONE_LOCAL, t, Apply(EffectOf(ONE_LOCAL, s), m))
    ensures EffectOfBlock(ONE_LOCAL, [s, t]) == Compose(EffectOf(ONE_LOCAL, s), EffectOf(ONE_LOCAL, t))
    ensures BadBlock(ONE_LOCAL, level, [s, t], 0, moved) <==>
            Bad(ONE_LOCAL, level, s, 0, moved) || (!AlwaysReturns(s) && Bad(ONE_LOCAL, level, t, 0, Left(ONE_LOCAL, s, 0, moved)))
    ensures BlockReturns([s, t]) <==> AlwaysReturns(s) || AlwaysReturns(t)
  {
    hide DiagsStmt, EffectOf, Bad, Left, AlwaysReturns;
    assert [s, t][1..] == [t];
    OneStatement(level, t, Apply(EffectOf(ONE_LOCAL, s), m), Left(ONE_LOCAL, s, 0, moved));
  }

  lemma OneArm(level: Strictness, e: Expr, arm: Arm, m: set<Sym>, moved: bool)
    ensures DiagsArms(ONE_LOCAL, [arm], m) == DiagsBlock(ONE_LOCAL, arm.block, m)
    ensures ArmsGen(ONE_LOCAL, [arm]) == EffectOfBlock(ONE_LOCAL, arm.block).gen
    ensures var m1 := moved || Takes(ONE_LOCAL, e, false, 0);
      && (Bad(ONE_LOCAL, level, Match(e, [arm]), 0, moved) <==>
            Trips(ONE_LOCAL, e, false, 0, moved) || BadArm(ONE_LOCAL, level, e, arm, 0, m1))
      && (Left(ONE_LOCAL, Match(e, [arm]), 0, moved) <==>
            !BlockReturns(arm.block) && (Retires(ONE_LOCAL, e, 0) || LeftBlock(ONE_LOCAL, arm.block, 0, Kept(arm.pattern, 0, m1))))
  {
    hide DiagsBlock, EffectOfBlock, BadArm, LeftBlock, BlockReturns, Takes, Trips, PatternSymbols;
    assert [arm][1..] == [];
    assert DiagsArms(ONE_LOCAL, [], m) == [] && ArmsGen(ONE_LOCAL, []) == {};
    assert [arm][0] == arm;
  }

  /** x.f = take(x) is accepted, yet stores into a local that was given up. */
  lemma SelfConsumingWrite()
    ensures var body := [FieldAssign(Some(0), Take())];
      WellTypedBlock(body) && Accepts(ONE_LOCAL, body) && !SafeBody(ONE_LOCAL, Writes, body)
  {
    var s := FieldAssign(Some(0), Take());
    TakeFacts({}, true);
    OneStatement(Writes, s, {}, false);
    SafeOnIff(Writes, [s]);
  }

  /** match x { _ => block } */
  function MatchOn(block: seq<Stmt>): Stmt {
    Match(Name(true, Some(0)), [Arm(Wildcard, block)])
  }

  /** match x { _ => { take(x); } } is accepted, yet its arm has given x up when the
      match completes and gives it up again. An arm that returns never completes. */
  lemma SelfConsumingMatch()
    ensures var body := [MatchOn([ExprStmt(Take())])];
      WellTypedBlock(body) && Accepts(ONE_LOCAL, body) && !SafeBody(ONE_LOCAL, Completions, body)
    ensures var body := [MatchOn([ExprStmt(Take()), Return(None)])];
      WellTypedBlock(body) && Accepts(ONE_LOCAL, body) && SafeBody(ONE_LOCAL, Completions, body)
  {
    var take, leave := ExprStmt(Take()), Return(None);
    TakeStmt(Completions, {}, false);
    assert WellTypedStmt(leave) && DiagsStmt(ONE_LOCAL, leave, {0}) == [] && !Bad(ONE_LOCAL, Completions, leave, 0, true);
    assert AlwaysReturns(leave) && Apply(Effect({}, {0}), {}) == {0};
    hide Take, WellTypedStmt, AlwaysReturns, EffectOf, DiagsStmt, Left, Bad, BadBlock, LeftBlock, BlockReturns, DiagsBlock, SafeBody;
    OneStatement(Completions, take, {}, false);
    MatchOnFacts([take]);
    TwoStatements(Completions, take, leave, {}, false);
    MatchOnFacts([take, leave]);
  }

  lemma MatchOnFacts(block: seq<Stmt>)
    requires WellTypedBlock(block)
    ensures WellTypedBlock([MatchOn(block)])
    ensures DiagsBlock(ONE_LOCAL, [MatchOn(block)], {}) == DiagsBlock(ONE_LOCAL, block, {})
    ensures SafeBody(ONE_LOCAL, Completions, [MatchOn(block)]) <==>
            !BadBlock(ONE_LOCAL, Completions, block, 0, false) && (BlockReturns(block) || !LeftBlock(ONE_LOCAL, block, 0, false))
  {
    NameFacts({});
    hide Gen, Diags, Takes, Trips, DiagsBlock, EffectOfBlock, BadBlock, LeftBlock, BlockReturns, SafeBody;
    var s := MatchOn(block);
    OneArm(Completions, s.scrutinee, s.arms[0], {}, false);
    assert {} + Gen(ONE_LOCAL, s.scrutinee, false) == {};
    OneStatement(Completions, s, {}, false);
    SafeOnIff(Completions, [s]);
  }

  /** Three ways to be refused although every path is safe: a loop that comes back to
      an arm which gave its own local up, a local given up on a branch that returns,
      and a local bound again in every arm of a match. */
  lemma NeedlessRefusals()
    ensures Complains(DiagsBlock(ONE_LOCAL, [DrainLoop()], {}), 0) && SafeBody(ONE_LOCAL, Completions, [DrainLoop()])
    ensures Complains(DiagsBlock(ONE_LOCAL, EarlyReturn(), {}), 0) && SafeBody(ONE_LOCAL, Completions, EarlyReturn())
    ensures Complains(DiagsBlock(ONE_LOCAL, BoundAgain(), {}), 0) && SafeBody(ONE_LOCAL, Completions, BoundAgain())
  {
    DrainNeedless();
    ReturnNeedless();
    BoundNeedless();
  }

  /** while true { match fresh() { Some(v) => { take(v); } } } */
  function DrainLoop(): Stmt {
    While(Literal, [DrainMatch()])
  }

  function DrainMatch(): Stmt {
    Match(Literal, [Arm(VariantPattern([NamePattern(Some(0))]), [ExprStmt(Take())])])
  }

  /** if c { take(x); return; } take(x); */
  function EarlyReturn(): seq<Stmt> {
    [If(Literal, [ExprStmt(Take()), Return(None)], []), ExprStmt(Take())]
  }

  /** take(x); match 0 { _ => { x = fresh(); } } take(x); */
  function BoundAgain(): seq<Stmt> {
    [ExprStmt(Take()), Match(Literal, [Arm(Wildcard, [Assign(Some(0), Literal)])]), ExprStmt(Take())]
  }

  lemma DrainNeedless()
    ensures Complains(DiagsBlock(ONE_LOCAL, [DrainLoop()], {}), 0) && SafeBody(ONE_LOCAL, Completions, [DrainLoop()])
  {
    DrainInner(false);
    DrainInner(true);
    LiteralFacts({0});
    var s := DrainLoop();
    hide DrainMatch, Gen, Diags, Takes, Trips, DiagsBlock, EffectOfBlock, BadBlock, LeftBlock, BlockReturns, SafeBody;
    assert {} + LoopGen(ONE_LOCAL, Literal, [DrainMatch()]) == {0} && {0} + Gen(ONE_LOCAL, Literal, false) == {0};
    OneStatement(Completions, s, {}, false);
    SafeOnIff(Completions, [s]);
  }

  lemma DrainInner(moved: bool)
    ensures DiagsBlock(ONE_LOCAL, [DrainMatch()], {0}) == [UseOfMoved(0)]
    ensures EffectOfBlock(ONE_LOCAL, [DrainMatch()]).gen == {0} && EffectOfBlock(ONE_LOCAL, [DrainMatch()]).kill == {}
    ensures !BadBlock(ONE_LOCAL, Completions, [DrainMatch()], 0, moved)
  {
    TakeStmt(Completions, {0}, false);
    LiteralFacts({0});
    DrainBinds();
    var take, s := ExprStmt(Take()), DrainMatch();
    assert s.arms[0].block == [take] && s == Match(Literal, [s.arms[0]]);
    hide Take, DrainMatch, Gen, Diags, Takes, Trips, DiagsBlock, EffectOfBlock, BadBlock, LeftBlock, BlockReturns, PatternSymbols, Left;
    OneStatement(Completions, take, {0}, false);
    OneArm(Completions, Literal, s.arms[0], {0}, moved);
    OneStatement(Completions, s, {0}, moved);
    assert {0} + Gen(ONE_LOCAL, Literal, false) == {0};
  }

  lemma DrainBinds()
    ensures PatternSymbols(DrainMatch().arms[0].pattern) == [0]
  {
    assert [NamePattern(Some(0))][1..] == [];
  }

  lemma LiteralFacts(m: set<Sym>)
    ensures Gen(ONE_LOCAL, Literal, false) == {} && Diags(ONE_LOCAL, Literal, m, false, false) == []
    ensures !Takes(ONE_LOCAL, Literal, false, 0) && forall moved: bool :: !Trips(ONE_LOCAL, Literal, false, 0, moved)
  {
  }

  lemma ReturnNeedless()
    ensures Complains(DiagsBlock(ONE_LOCAL, EarlyReturn(), {}), 0) && SafeBody(ONE_LOCAL, Completions, EarlyReturn())
  {
    TakeStmt(Completions, {0}, false);
    ReturnBranch();
    var take, s := ExprStmt(Take()), EarlyReturn()[0];
    assert EarlyReturn() == [s, take];
    hide Take, EarlyReturn, EffectOf, Left, Bad, AlwaysReturns, DiagsStmt, DiagsBlock, BadBlock, SafeBody;
    TwoStatements(Completions, s, take, {}, false);
    SafeOnIff(Completions, EarlyReturn());
  }

  lemma ReturnBranch()
    ensures var s := EarlyReturn()[0];
      && Apply(EffectOf(ONE_LOCAL, s), {}) == {0}
      && !Left(ONE_LOCAL, s, 0, false) && !Bad(ONE_LOCAL, Completions, s, 0, false)
  {
    TakeStmt(Completions, {}, false);
    LiteralFacts({});
    hide Take, Gen, Diags, Takes, Trips, BadBlock, LeftBlock, BlockReturns, EffectOfBlock;
    TwoStatements(Completions, ExprStmt(Take()), Return(None), {}, false);
    NothingLeft();
    assert EffectOf(ONE_LOCAL, EarlyReturn()[0]).gen == {0};
  }

  lemma NothingLeft()
    ensures !LeftBlock(ONE_LOCAL, [], 0, false) && !BadBlock(ONE_LOCAL, Completions, [], 0, false)
    ensures !BlockReturns([]) && EffectOfBlock(ONE_LOCAL, []) == Effect({}, {})
  {
  }

  lemma BoundNeedless()
    ensures Complains(DiagsBlock(ONE_LOCAL, BoundAgain(), {}), 0) && SafeBody(ONE_LOCAL, Completions, BoundAgain())
  {
    TakeStmt(Completions, {}, false);
    TakeStmt(Completions, {0}, false);
    BoundMatch();
    var take, s := ExprStmt(Take()), BoundAgain()[1];
    assert BoundAgain() == [take, s, take] && BoundAgain()[1..] == [s, take];
    hide Take, BoundAgain, EffectOf, Left, Bad, AlwaysReturns, DiagsStmt, SafeBody, LeftBlock, EffectOfBlock, BlockReturns;
    assert Apply(EffectOf(ONE_LOCAL, take), {}) == {0};
    TwoStatements(Completions, s, take, {0}, true);
    assert Complains(DiagsStmt(ONE_LOCAL, take, {0}), 0);
    assert !BadBlock(ONE_LOCAL, Completions, [s, take], 0, true);
    SafeOnIff(Completions, BoundAgain());
  }

  lemma BoundMatch()
    ensures var s := BoundAgain()[1];
      && Apply(EffectOf(ONE_LOCAL, s), {0}) == {0}
      && !Left(ONE_LOCAL, s, 0, true) && !Bad(ONE_LOCAL, Completions, s, 0, true) && !AlwaysReturns(s)
  {
    LiteralFacts({0});
    var bind, s := Assign(Some(0), Literal), BoundAgain()[1];
    OneStatement(Completions, bind, {0}, true);
    OneArm(Completions, Literal, s.arms[0], {0}, true);
  }
}
