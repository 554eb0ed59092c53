/** What whole bodies can do to one local, from their text, exactly. */
module MoveBodies {
  import opened MoveSyntax
  import opened MovePaths
  import opened MoveOutcomes

  /** No path falls out of the end of s. */
  predicate AlwaysReturns(s: Stmt)
    decreases s
  {
    match s
    case Return(_) => true
    case If(_, t, e) => BlockReturns(t) && BlockReturns(e)
    case Match(_, arms) => arms != [] && forall i | 0 <= i < |arms| :: BlockReturns(arms[i].block)
    case _ => false
  }

  predicate BlockReturns(block: seq<Stmt>)
    decreases block
  {
    block != [] && (AlwaysReturns(block[0]) || BlockReturns(block[1..]))
  }

  /** Completing a match on e ends x. */
  predicate Retires(b: Bindings, e: Expr, x: Sym) {
    ExprSymbol(e) == Some(x) && x in b && !b[x].copy
  }

  /** Entering an arm binds what its pattern names. */
  predicate Kept(p: Pattern, x: Sym, moved: bool) {
    moved && x !in PatternSymbols(p)
  }

  /** Some run through s leaves x given up. */
  predicate Left(b: Bindings, s: Stmt, x: Sym, moved: bool)
    decreases s
  {
    match s
    case Let(sym, e) => sym != Some(x) && (moved || Takes(b, e, true, x))
    case Assign(sym, e) => sym != Some(x) && (moved || Takes(b, e, true, x))
    case FieldAssign(_, e) => moved || Takes(b, e, true, x)
    case If(c, t, e) =>
      var m1 := moved || Takes(b, c, false, x);
      (!BlockReturns(t) && LeftBlock(b, t, x, m1)) || (!BlockReturns(e) && LeftBlock(b, e, x, m1))
    case While(c, body) =>
      var m1 := moved || Takes(b, c, false, x);
      m1 || (!BlockReturns(body) && LeftBlock(b, body, x, m1))
    case Match(e, arms) =>
      var m1 := moved || Takes(b, e, false, x);
      if arms == [] then m1 || Retires(b, e, x)
      else exists i :: 0 <= i < |arms| && !BlockReturns(arms[i].block) &&
             (Retires(b, e, x) || LeftBlock(b, arms[i].block, x, Kept(arms[i].pattern, x, m1)))
    case Return(_) => false
    case ExprStmt(e) => moved || Takes(b, e, false, x)
  }

  predicate LeftBlock(b: Bindings, block: seq<Stmt>, x: Sym, moved: bool)
    decreases block
  {
    if block == [] then moved else LeftBlock(b, block[1..], x, Left(b, block[0], x, moved))
  }

  /** Whether x may be given up when a loop's condition is evaluated. */
  predicate LoopEntry(b: Bindings, c: Expr, body: seq<Stmt>, x: Sym, moved: bool) {
    moved || (!BlockReturns(body) && LeftBlock(b, body, x, Takes(b, c, false, x)))
  }

  /** Some run of s touches x while x is given up. */
  predicate Bad(b: Bindings, level: Strictness, s: Stmt, x: Sym, moved: bool)
    decreases s
  {
    match s
    case Let(_, e) => Trips(b, e, true, x, moved)
    case Assign(_, e) => Trips(b, e, true, x, moved)
    case FieldAssign(sym, e) =>
      Trips(b, e, true, x, moved) || (!level.Plain? && sym == Some(x) && (moved || Takes(b, e, true, x)))
    case If(c, t, e) =>
      var m1 := moved || Takes(b, c, false, x);
      Trips(b, c, false, x, moved) || BadBlock(b, level, t, x, m1) || BadBlock(b, level, e, x, m1)
    case While(c, body) =>
      var entry := LoopEntry(b, c, body, x, moved);
      Trips(b, c, false, x, entry) || BadBlock(b, level, body, x, entry || Takes(b, c, false, x))
    case Match(e, arms) =>
      var m1 := moved || Takes(b, e, false, x);
      || Trips(b, e, false, x, moved)
      || (arms == [] && level.Completions? && Retires(b, e, x) && m1)
      || exists i :: 0 <= i < |arms| && BadArm(b, level, e, arms[i], x, m1)
    case Return(e) => e.Some? && Trips(b, e.value, true, x, moved)
    case ExprStmt(e) => Trips(b, e, false, x, moved)
  }

  predicate BadArm(b: Bindings, level: Strictness, e: Expr, arm: Arm, x: Sym, moved: bool)
    decreases arm
  {
    var m1 := Kept(arm.pattern, x, moved);
    || BadBlock(b, level, arm.block, x, m1)
    || (level.Completions? && Retires(b, e, x) && !BlockReturns(arm.block) && LeftBlock(b, arm.block, x, m1))
  }

  predicate BadBlock(b: Bindings, level: Strictness, block: seq<Stmt>, x: Sym, moved: bool)
    decreases block
  {
    block != [] &&
    (Bad(b, level, block[0], x, moved) ||
     (!AlwaysReturns(block[0]) && BadBlock(b, level, block[1..], x, Left(b, block[0], x, moved))))
  }

  // ----- runs that do not go through -----

  lemma {:induction false} ReturnsStop(b: Bindings, s: Stmt, ch: seq<nat>)
    requires AlwaysReturns(s)
    ensures ExecStmt(b, s, ch).flow != Running
    decreases |ch|, s
  {
    match s
    case Return(_) =>
    case If(c, t, e) =>
      var r := EvalExpr(b, c, false, ch);
      if r.flow == Running && r.rest != [] {
        BlockReturnsStop(b, if r.rest[0] % 2 == 1 then t else e, r.rest[1..]);
      }
    case Match(e, arms) =>
      var r := EvalExpr(b, e, false, ch);
      if r.flow == Running && r.rest != [] {
        BlockReturnsStop(b, arms[r.rest[0] % |arms|].block, r.rest[1..]);
      }
  }

  lemma {:induction false} BlockReturnsStop(b: Bindings, block: seq<Stmt>, ch: seq<nat>)
    requires BlockReturns(block)
    ensures ExecBlock(b, block, ch).flow != Running
    decreases |ch|, block
  {
    var first := ExecStmt(b, block[0], ch);
    if AlwaysReturns(block[0]) {
      ReturnsStop(b, block[0], ch);
    } else if first.flow == Running {
      BlockReturnsStop(b, block[1..], first.rest);
    }
  }

  // ----- every run stays within what the text says -----

  lemma {:induction false} AnyStmt(b: Bindings, level: Strictness, s: Stmt, x: Sym, moved: bool, may: bool, ch: seq<nat>)
    requires moved ==> may
    ensures Within(level, x, moved, ExecStmt(b, s, ch), Left(b, s, x, may), Bad(b, level, s, x, may))
    decreases |ch|, s, 2
  {
    hide Within, Takes, Trips, NowAfter, SafeFor;
    match s
    case Let(sym, e) => AnyThenOne(b, level, e, BindTo(sym), x, moved, may, ch);
    case Assign(sym, e) => AnyThenOne(b, level, e, BindTo(sym), x, moved, may, ch);
    case FieldAssign(sym, e) =>
      AnyThenOne(b, level, e, if sym.Some? then [WriteField(sym.value)] else [], x, moved, may, ch);
    case If(_, _, _) => AnyIf(b, level, s, x, moved, may, ch);
    case While(_, _) => AnyWhile(b, level, s, x, moved, may, ch);
    case Match(_, _) => AnyMatch(b, level, s, x, moved, may, ch);
    case Return(e) =>
      if e.Some? {
        AnyExpr(b, level, e.value, true, x, moved, may, ch);
        WithinFlow(level, x, moved, EvalExpr(b, e.value, true, ch), may || Takes(b, e.value, true, x),
          Trips(b, e.value, true, x, may), true, Bad(b, level, s, x, may));
      } else {
        NoEventWithin(level, x, moved, may, ch);
        WithinFlow(level, x, moved, Emit([], ch), may, false, true, false);
      }
    case ExprStmt(e) => AnyExpr(b, level, e, false, x, moved, may, ch);
  }

  /** A consuming expression, then at most one event. */
  lemma AnyThenOne(b: Bindings, level: Strictness, e: Expr, evs: seq<Event>, x: Sym, moved: bool, may: bool, ch: seq<nat>)
    requires moved ==> may
    requires |evs| <= 1
    ensures var m1 := may || Takes(b, e, true, x);
      var r := EvalExpr(b, e, true, ch);
      Within(level, x, moved, if r.flow != Running then r else Then(r, Emit(evs, r.rest)),
             if evs == [] then m1 else Now(x, m1, evs[0]),
             Trips(b, e, true, x, may) || (evs != [] && Counts(level, evs[0]) && evs[0].sym == x && m1))
  {
    hide Within, Takes, Trips, NowAfter, SafeFor;
    var m1 := may || Takes(b, e, true, x);
    var r := EvalExpr(b, e, true, ch);
    var after := if evs == [] then m1 else Now(x, m1, evs[0]);
    var one := evs != [] && Counts(level, evs[0]) && evs[0].sym == x && m1;
    var bad := Trips(b, e, true, x, may) || one;
    AnyExpr(b, level, e, true, x, moved, may, ch);
    WithinFlow(level, x, moved, r, m1, Trips(b, e, true, x, may), true, bad);
    if r.flow == Running {
      var now := NowAfter(x, moved, r.events);
      if evs == [] {
        NoEventWithin(level, x, now, m1, r.rest);
        WithinFlow(level, x, now, Emit(evs, r.rest), m1, false, after, bad);
      } else {
        assert evs == [evs[0]];
        OneEventWithin(level, x, now, m1, evs[0], r.rest);
        WithinFlow(level, x, now, Emit(evs, r.rest), after, one, after, bad);
      }
      WithinThen(level, x, moved, r, m1, Trips(b, e, true, x, may), Emit(evs, r.rest), after, bad);
    }
  }

  lemma AnyIf(b: Bindings, level: Strictness, s: Stmt, x: Sym, moved: bool, may: bool, ch: seq<nat>)
    requires s.If? && (moved ==> may)
    ensures Within(level, x, moved, ExecStmt(b, s, ch), Left(b, s, x, may), Bad(b, level, s, x, may))
    decreases |ch|, s, 1
  {
    hide Within, Takes, Trips, NowAfter, SafeFor, LeftBlock, BadBlock, BlockReturns;
    var m1, bad1 := may || Takes(b, s.condition, false, x), Trips(b, s.condition, false, x, may);
    var after, bad := Left(b, s, x, may), Bad(b, level, s, x, may);
    var r := EvalExpr(b, s.condition, false, ch);
    AnyExpr(b, level, s.condition, false, x, moved, may, ch);
    WithinFlow(level, x, moved, r, m1, bad1, true, bad);
    if r.flow == Running && r.rest != [] {
      var branch := if r.rest[0] % 2 == 1 then s.thenBlock else s.elseBlock;
      var now, next := NowAfter(x, moved, r.events), ExecBlock(b, branch, r.rest[1..]);
      AnyBlock(b, level, branch, x, now, m1, r.rest[1..]);
      WithinFlow(level, x, now, next, !BlockReturns(branch) && LeftBlock(b, branch, x, m1), BadBlock(b, level, branch, x, m1), after, bad);
      WithinThen(level, x, moved, r, m1, bad1, next, after, bad);
    }
  }

  lemma {:induction false} AnyWhile(b: Bindings, level: Strictness, s: Stmt, x: Sym, moved: bool, may: bool, ch: seq<nat>)
    requires s.While? && (moved ==> LoopEntry(b, s.condition, s.body, x, may))
    ensures Within(level, x, moved, ExecStmt(b, s, ch), Left(b, s, x, may), Bad(b, level, s, x, may))
    decreases |ch|, s, 1
  {
    hide Within, Takes, Trips, NowAfter, SafeFor, LeftBlock, BadBlock, BlockReturns;
    var c, body := s.condition, s.body;
    var entry := LoopEntry(b, c, body, x, may);
    var m1, bad1 := entry || Takes(b, c, false, x), Trips(b, c, false, x, entry);
    var after, bad := Left(b, s, x, may), Bad(b, level, s, x, may);
    var r := EvalExpr(b, c, false, ch);
    AnyExpr(b, level, c, false, x, moved, entry, ch);
    LoopLeaves(b, s, x, may);
    WithinFlow(level, x, moved, r, m1, bad1, after, bad);
    if r.flow == Running && r.rest != [] && r.rest[0] % 2 == 1 {
      var now, next := NowAfter(x, moved, r.events), ExecBlock(b, body, r.rest[1..]);
      AnyBlock(b, level, body, x, now, m1, r.rest[1..]);
      WithinFlow(level, x, now, next, !BlockReturns(body) && LeftBlock(b, body, x, m1), BadBlock(b, level, body, x, m1), entry, bad);
      WithinThen(level, x, moved, r, m1, bad1, next, entry, bad);
      var once := Then(r, next);
      WithinFlow(level, x, moved, once, entry, bad, true, bad);
      if once.flow == Running {
        AnyWhile(b, level, s, x, NowAfter(x, moved, once.events), may, once.rest);
        WithinThen(level, x, moved, once, entry, bad, ExecStmt(b, s, once.rest), after, bad);
      }
    }
  }

  /** The entry of a loop is closed under its turns, and is left when it is. */
  lemma LoopLeaves(b: Bindings, s: Stmt, x: Sym, may: bool)
    requires s.While?
    ensures var entry := LoopEntry(b, s.condition, s.body, x, may);
      var m1 := entry || Takes(b, s.condition, false, x);
      && (m1 ==> Left(b, s, x, may))
      && (!BlockReturns(s.body) && LeftBlock(b, s.body, x, m1) ==> entry)
  {
    hide Takes, LeftBlock, BlockReturns;
  }

  lemma AnyMatch(b: Bindings, level: Strictness, s: Stmt, x: Sym, moved: bool, may: bool, ch: seq<nat>)
    requires s.Match? && (moved ==> may)
    ensures Within(level, x, moved, ExecStmt(b, s, ch), Left(b, s, x, may), Bad(b, level, s, x, may))
    decreases |ch|, s, 1
  {
    hide Within, Takes, Trips, NowAfter, SafeFor, LeftBlock, BlockReturns, BadArm, Scrutinised, Retires;
    var e, arms := s.scrutinee, s.arms;
    var m1, bad1 := may || Takes(b, e, false, x), Trips(b, e, false, x, may);
    var after, bad := Left(b, s, x, may), Bad(b, level, s, x, may);
    var r := EvalExpr(b, e, false, ch);
    AnyExpr(b, level, e, false, x, moved, may, ch);
    WithinFlow(level, x, moved, r, m1, bad1, true, bad);
    if r.flow != Running || (arms != [] && r.rest == []) {
      return;
    }
    var now := NowAfter(x, moved, r.events);
    if arms == [] {
      ScrutinisedWithin(b, level, e, x, now, m1, r.rest);
      WithinFlow(level, x, now, Emit(Scrutinised(b, e), r.rest), m1 || Retires(b, e, x),
        level.Completions? && Retires(b, e, x) && m1, after, bad);
      WithinThen(level, x, moved, r, m1, bad1, Emit(Scrutinised(b, e), r.rest), after, bad);
    } else {
      var i := r.rest[0] % |arms|;
      AnyArm(b, level, s, arms[i], x, now, m1, r, ch);
      var arm := ArmRun(b, e, arms[i], r.rest[1..]);
      WithinFlow(level, x, now, arm, !BlockReturns(arms[i].block) &&
        (Retires(b, e, x) || LeftBlock(b, arms[i].block, x, Kept(arms[i].pattern, x, m1))),
        BadArm(b, level, e, arms[i], x, m1), after, bad);
      WithinThen(level, x, moved, r, m1, bad1, arm, after, bad);
      ArmUnfolds(b, s, ch);
    }
  }

  /** One arm: its pattern's locals are bound, its block runs, the match completes. */
  function ArmRun(b: Bindings, e: Expr, arm: Arm, ch: seq<nat>): Run {
    var block := Then(Emit(Binds(PatternSymbols(arm.pattern)), ch), ExecBlock(b, arm.block, ch));
    if block.flow != Running then block else Then(block, Emit(Scrutinised(b, e), block.rest))
  }

  lemma ArmUnfolds(b: Bindings, s: Stmt, ch: seq<nat>)
    requires s.Match? && s.arms != []
    requires var r := EvalExpr(b, s.scrutinee, false, ch); r.flow == Running && r.rest != []
    ensures var r := EvalExpr(b, s.scrutinee, false, ch);
      ExecStmt(b, s, ch) == Then(r, ArmRun(b, s.scrutinee, s.arms[r.rest[0] % |s.arms|], r.rest[1..]))
  {
    hide Binds, PatternSymbols, Scrutinised;
    var r := EvalExpr(b, s.scrutinee, false, ch);
    var arm := s.arms[r.rest[0] % |s.arms|];
    var binds, block := Binds(PatternSymbols(arm.pattern)), ExecBlock(b, arm.block, r.rest[1..]);
    assert (r.events + binds) + block.events == r.events + (binds + block.events);
    assert ((r.events + binds) + block.events) + Scrutinised(b, s.scrutinee)
        == r.events + ((binds + block.events) + Scrutinised(b, s.scrutinee));
  }

  lemma AnyArm(b: Bindings, level: Strictness, s: Stmt, arm: Arm, x: Sym, moved: bool, may: bool, r: Run, ch: seq<nat>)
    requires s.Match? && arm in s.arms && r.rest != [] && |r.rest| <= |ch| && (moved ==> may)
    ensures Within(level, x, moved, ArmRun(b, s.scrutinee, arm, r.rest[1..]),
                   !BlockReturns(arm.block) && (Retires(b, s.scrutinee, x) || LeftBlock(b, arm.block, x, Kept(arm.pattern, x, may))),
                   BadArm(b, level, s.scrutinee, arm, x, may))
    decreases |ch|, s, 0
  {
    hide Within, NowAfter, SafeFor, LeftBlock, BadBlock, BlockReturns, Scrutinised, Retires, Binds, PatternSymbols;
    var tail := r.rest[1..];
    var binds := Emit(Binds(PatternSymbols(arm.pattern)), tail);
    var m1 := Kept(arm.pattern, x, may);
    var bad := BadArm(b, level, s.scrutinee, arm, x, may);
    BindsWithin(level, x, moved, may, arm.pattern, tail);
    WithinFlow(level, x, moved, binds, m1, false, true, bad);
    var now, next := NowAfter(x, moved, binds.events), ExecBlock(b, arm.block, tail);
    AnyBlock(b, level, arm.block, x, now, m1, tail);
    var m2 := !BlockReturns(arm.block) && LeftBlock(b, arm.block, x, m1);
    if next.flow == Running && BlockReturns(arm.block) {
      BlockReturnsStop(b, arm.block, tail);
    }
    WithinFlow(level, x, now, next, m2, BadBlock(b, level, arm.block, x, m1), m2, bad);
    WithinThen(level, x, moved, binds, m1, false, next, m2, bad);
    var block := Then(binds, next);
    WithinFlow(level, x, moved, block, m2, bad, true, bad);
    if block.flow == Running {
      var then' := NowAfter(x, moved, block.events);
      var end := Emit(Scrutinised(b, s.scrutinee), block.rest);
      var after := !BlockReturns(arm.block) && (Retires(b, s.scrutinee, x) || LeftBlock(b, arm.block, x, m1));
      ScrutinisedWithin(b, level, s.scrutinee, x, then', m2, block.rest);
      WithinFlow(level, x, then', end, m2 || Retires(b, s.scrutinee, x), level.Completions? && Retires(b, s.scrutinee, x) && m2, after, bad);
      WithinThen(level, x, moved, block, m2, bad, end, after, bad);
    }
  }

  lemma ScrutinisedWithin(b: Bindings, level: Strictness, e: Expr, x: Sym, moved: bool, may: bool, ch: seq<nat>)
    requires moved ==> may
    ensures Within(level, x, moved, Emit(Scrutinised(b, e), ch), may || Retires(b, e, x),
                   level.Completions? && Retires(b, e, x) && may)
  {
    hide Within;
    if Scrutinised(b, e) == [] {
      NoEventWithin(level, x, moved, may, ch);
    } else {
      OneEventWithin(level, x, moved, may, Retire(ExprSymbol(e).value), ch);
    }
  }

  lemma {:induction false} BindsTrack(level: Strictness, x: Sym, moved: bool, syms: seq<Sym>)
    ensures NowAfter(x, moved, Binds(syms)) == (moved && x !in syms)
    ensures SafeFor(level, x, moved, Binds(syms))
    decreases syms
  {
    if syms != [] {
      assert Binds(syms)[1..] == Binds(syms[1..]);
      assert Binds(syms)[0] == Bind(syms[0]);
      BindsTrack(level, x, Now(x, moved, Bind(syms[0])), syms[1..]);
    }
  }

  lemma BindsWithin(level: Strictness, x: Sym, moved: bool, may: bool, p: Pattern, ch: seq<nat>)
    requires moved ==> may
    ensures Within(level, x, moved, Emit(Binds(PatternSymbols(p)), ch), Kept(p, x, may), false)
  {
    BindsTrack(level, x, moved, PatternSymbols(p));
  }

  lemma {:induction false} AnyBlock(b: Bindings, level: Strictness, block: seq<Stmt>, x: Sym, moved: bool, may: bool, ch: seq<nat>)
    requires moved ==> may
    ensures Within(level, x, moved, ExecBlock(b, block, ch), !BlockReturns(block) && LeftBlock(b, block, x, may),
                   BadBlock(b, level, block, x, may))
    decreases |ch|, block, 0
  {
    hide Within, NowAfter, SafeFor, Left, Bad, AlwaysReturns;
    if block == [] {
      NoEventWithin(level, x, moved, may, ch);
    } else {
      var first := ExecStmt(b, block[0], ch);
      var m1, bad1 := Left(b, block[0], x, may), Bad(b, level, block[0], x, may);
      var after, bad := !BlockReturns(block) && LeftBlock(b, block, x, may), BadBlock(b, level, block, x, may);
      AnyStmt(b, level, block[0], x, moved, may, ch);
      WithinFlow(level, x, moved, first, m1, bad1, true, bad);
      if first.flow == Running {
        if AlwaysReturns(block[0]) {
          ReturnsStop(b, block[0], ch);
        }
        var now, next := NowAfter(x, moved, first.events), ExecBlock(b, block[1..], first.rest);
        AnyBlock(b, level, block[1..], x, now, m1, first.rest);
        WithinFlow(level, x, now, next, !BlockReturns(block[1..]) && LeftBlock(b, block[1..], x, m1),
          BadBlock(b, level, block[1..], x, m1), after, bad);
        WithinThen(level, x, moved, first, m1, bad1, next, after, bad);
      }
    }
  }

  // ----- and some run does it -----

  /** A run through s that ends on these choices, and leaves x given up if any run
      through s does. */
  lemma {:induction false} Leaving(b: Bindings, s: Stmt, x: Sym, moved: bool, tail: seq<nat>) returns (ch: seq<nat>)
    requires !AlwaysReturns(s)
    ensures var r := ExecStmt(b, s, ch);
      r.flow == Running && r.rest == tail && NowAfter(x, moved, r.events) == Left(b, s, x, moved)
    decreases s
  {
    hide Takes, Trips, NowAfter, SafeFor, Does, Within;
    match s
    case Let(sym, e) => ch := Full(e, tail); FullThenOne(b, Plain, e, BindTo(sym), x, moved, tail);
    case Assign(sym, e) => ch := Full(e, tail); FullThenOne(b, Plain, e, BindTo(sym), x, moved, tail);
    case FieldAssign(sym, e) =>
      ch := Full(e, tail);
      FullThenOne(b, Plain, e, if sym.Some? then [WriteField(sym.value)] else [], x, moved, tail);
    case If(_, _, _) => ch := LeavingIf(b, s, x, moved, tail);
    case While(_, _) => ch := LeavingWhile(b, s, x, moved, tail);
    case Match(e, arms) => ch := LeavingMatch(b, s, x, moved, tail);
    case ExprStmt(e) =>
      ch := Full(e, tail);
      FullDoes(b, Plain, e, false, x, moved, tail);
      DoesFlow(Plain, x, moved, EvalExpr(b, e, false, ch), tail, moved || Takes(b, e, false, x), Trips(b, e, false, x, moved));
  }

  lemma {:induction false} LeavingIf(b: Bindings, s: Stmt, x: Sym, moved: bool, tail: seq<nat>) returns (ch: seq<nat>)
    requires s.If? && !AlwaysReturns(s)
    ensures var r := ExecStmt(b, s, ch);
      r.flow == Running && r.rest == tail && NowAfter(x, moved, r.events) == Left(b, s, x, moved)
    decreases s, 0
  {
    hide Takes, Trips, NowAfter, SafeFor, LeftBlock, BlockReturns;
    var c, t, e := s.condition, s.thenBlock, s.elseBlock;
    var m1 := moved || Takes(b, c, false, x);
    var other := BlockReturns(t) || (!BlockReturns(e) && LeftBlock(b, e, x, m1));
    var branch, pick: nat := if other then e else t, if other then 0 else 1;
    var rest := LeavingBlock(b, branch, x, m1, tail);
    ch := Full(c, [pick] + rest);
    FullFirst(b, Plain, c, x, moved, pick, rest);
    TrackConcat(Plain, x, moved, EvalExpr(b, c, false, ch).events, ExecBlock(b, branch, rest).events);
  }

  lemma {:induction false} LeavingWhile(b: Bindings, s: Stmt, x: Sym, moved: bool, tail: seq<nat>) returns (ch: seq<nat>)
    requires s.While?
    ensures var r := ExecStmt(b, s, ch);
      r.flow == Running && r.rest == tail && NowAfter(x, moved, r.events) == Left(b, s, x, moved)
    decreases s, 0
  {
    hide Takes, Trips, NowAfter, SafeFor, LeftBlock, BlockReturns;
    var c, body := s.condition, s.body;
    var m1 := moved || Takes(b, c, false, x);
    if m1 || BlockReturns(body) || !LeftBlock(b, body, x, m1) {
      ch := Full(c, [0] + tail);
      FullFirst(b, Plain, c, x, moved, 0, tail);
    } else {
      var last := Full(c, [0] + tail);
      FullFirst(b, Plain, c, x, true, 0, tail);
      var rest := LeavingBlock(b, body, x, m1, last);
      ch := OneTurn(b, Plain, s, x, moved, rest, last);
    }
  }

  /** A condition in full, and then a choice. */
  lemma FullFirst(b: Bindings, level: Strictness, c: Expr, x: Sym, moved: bool, pick: nat, rest: seq<nat>)
    ensures var r := EvalExpr(b, c, false, Full(c, [pick] + rest));
      && r.flow == Running && r.rest == [pick] + rest && r.rest[0] == pick && r.rest[1..] == rest
      && NowAfter(x, moved, r.events) == (moved || Takes(b, c, false, x))
      && (SafeFor(level, x, moved, r.events) <==> !Trips(b, c, false, x, moved))
  {
    hide Takes, Trips, NowAfter, SafeFor, Does;
    FullDoes(b, level, c, false, x, moved, [pick] + rest);
    DoesFlow(level, x, moved, EvalExpr(b, c, false, Full(c, [pick] + rest)), [pick] + rest,
      moved || Takes(b, c, false, x), Trips(b, c, false, x, moved));
    assert ([pick] + rest)[1..] == rest;
  }

  lemma FullThenOne(b: Bindings, level: Strictness, e: Expr, evs: seq<Event>, x: Sym, moved: bool, tail: seq<nat>)
    requires |evs| <= 1
    ensures var m1 := moved || Takes(b, e, true, x);
      var r := EvalExpr(b, e, true, Full(e, tail));
      && r.flow == Running && r.rest == tail
      && NowAfter(x, moved, Then(r, Emit(evs, tail)).events) == (if evs == [] then m1 else Now(x, m1, evs[0]))
      && (SafeFor(level, x, moved, Then(r, Emit(evs, tail)).events) <==>
           !(Trips(b, e, true, x, moved) || (evs != [] && Counts(level, evs[0]) && evs[0].sym == x && m1)))
  {
    hide Takes, Trips, NowAfter, SafeFor, Does;
    var m1 := moved || Takes(b, e, true, x);
    var r := EvalExpr(b, e, true, Full(e, tail));
    FullDoes(b, level, e, true, x, moved, tail);
    DoesFlow(level, x, moved, r, tail, m1, Trips(b, e, true, x, moved));
    TrackConcat(level, x, moved, r.events, evs);
    NothingTracked(level, x, m1);
    if evs != [] {
      assert evs == [evs[0]];
      OneEvent(level, x, m1, evs[0]);
    }
  }

  lemma NothingTracked(level: Strictness, x: Sym, moved: bool)
    ensures NowAfter(x, moved, []) == moved && SafeFor(level, x, moved, [])
  {
  }

  /** One turn of a loop before these choices. */
  lemma OneTurn(b: Bindings, level: Strictness, s: Stmt, x: Sym, moved: bool, rest: seq<nat>, last: seq<nat>) returns (ch: seq<nat>)
    requires s.While?
    requires var r := ExecBlock(b, s.body, rest); r.flow == Running && r.rest == last
    ensures var m1 := moved || Takes(b, s.condition, false, x);
      var r, turn, go := ExecStmt(b, s, ch), ExecBlock(b, s.body, rest).events, ExecStmt(b, s, last);
      && r.flow == go.flow && r.rest == go.rest
      && NowAfter(x, moved, r.events) == NowAfter(x, NowAfter(x, m1, turn), go.events)
      && (SafeFor(level, x, moved, r.events) ==> SafeFor(level, x, NowAfter(x, m1, turn), go.events))
  {
    hide Takes, Trips, NowAfter, SafeFor;
    ch := Full(s.condition, [1] + rest);
    var c, turn, go := EvalExpr(b, s.condition, false, ch), ExecBlock(b, s.body, rest), ExecStmt(b, s, last);
    FullFirst(b, level, s.condition, x, moved, 1, rest);
    var once := Then(c, turn);
    assert ExecStmt(b, s, ch) == Then(once, go);
    TrackConcat(level, x, moved, c.events, turn.events);
    TrackConcat(level, x, moved, once.events, go.events);
  }

  lemma {:induction false} LeavingMatch(b: Bindings, s: Stmt, x: Sym, moved: bool, tail: seq<nat>) returns (ch: seq<nat>)
    requires s.Match? && !AlwaysReturns(s)
    ensures var r := ExecStmt(b, s, ch);
      r.flow == Running && r.rest == tail && NowAfter(x, moved, r.events) == Left(b, s, x, moved)
    decreases s, 0
  {
    hide Takes, Trips, NowAfter, SafeFor, LeftBlock, BlockReturns, Scrutinised, Retires, ExecStmt, EvalExpr, ArmRun;
    var e, arms := s.scrutinee, s.arms;
    var m1 := moved || Takes(b, e, false, x);
    if arms == [] {
      ch := Full(e, tail);
      NoArmsRun(b, Plain, s, x, moved, tail);
    } else {
      var i :| 0 <= i < |arms| && !BlockReturns(arms[i].block) &&
               (Left(b, s, x, moved) ==> Retires(b, e, x) || LeftBlock(b, arms[i].block, x, Kept(arms[i].pattern, x, m1)));
      var rest := LeavingArm(b, e, arms[i], x, m1, tail);
      ch := Full(e, [i] + rest);
      OneArmRun(b, Plain, s, i, x, moved, rest);
    }
  }

  /** A match without arms. */
  lemma NoArmsRun(b: Bindings, level: Strictness, s: Stmt, x: Sym, moved: bool, tail: seq<nat>)
    requires s.Match? && s.arms == []
    ensures var m1 := moved || Takes(b, s.scrutinee, false, x);
      var r := ExecStmt(b, s, Full(s.scrutinee, tail));
      && r.flow == Running && r.rest == tail
      && NowAfter(x, moved, r.events) == (m1 || Retires(b, s.scrutinee, x))
      && (SafeFor(level, x, moved, r.events) <==>
            !Trips(b, s.scrutinee, false, x, moved) && !(level.Completions? && Retires(b, s.scrutinee, x) && m1))
  {
    hide Takes, Trips, NowAfter, SafeFor, Scrutinised, Retires;
    var e, m1 := s.scrutinee, moved || Takes(b, s.scrutinee, false, x);
    FullDoes(b, level, e, false, x, moved, tail);
    var r := EvalExpr(b, e, false, Full(e, tail));
    DoesFlow(level, x, moved, r, tail, m1, Trips(b, e, false, x, moved));
    TrackConcat(level, x, moved, r.events, Scrutinised(b, e));
    ScrutinisedTrack(b, level, e, x, m1);
  }

  /** A match that goes into one of its arms. */
  lemma OneArmRun(b: Bindings, level: Strictness, s: Stmt, i: nat, x: Sym, moved: bool, rest: seq<nat>)
    requires s.Match? && i < |s.arms|
    ensures var m1 := moved || Takes(b, s.scrutinee, false, x);
      var r, arm := ExecStmt(b, s, Full(s.scrutinee, [i] + rest)), ArmRun(b, s.scrutinee, s.arms[i], rest);
      && r.flow == arm.flow && r.rest == arm.rest
      && NowAfter(x, moved, r.events) == NowAfter(x, m1, arm.events)
      && (SafeFor(level, x, moved, r.events) <==>
            !Trips(b, s.scrutinee, false, x, moved) && SafeFor(level, x, m1, arm.events))
  {
    hide Takes, Trips, NowAfter, SafeFor, ArmRun, ExecStmt, EvalExpr;
    var ch := Full(s.scrutinee, [i] + rest);
    FullFirst(b, level, s.scrutinee, x, moved, i, rest);
    assert i % |s.arms| == i;
    ArmUnfolds(b, s, ch);
    TrackConcat(level, x, moved, EvalExpr(b, s.scrutinee, false, ch).events, ArmRun(b, s.scrutinee, s.arms[i], rest).events);
  }

  lemma ScrutinisedTrack(b: Bindings, level: Strictness, e: Expr, x: Sym, moved: bool)
    ensures NowAfter(x, moved, Scrutinised(b, e)) == (moved || Retires(b, e, x))
    ensures SafeFor(level, x, moved, Scrutinised(b, e)) <==> !(level.Completions? && Retires(b, e, x) && moved)
  {
    NothingTracked(level, x, moved);
    if Scrutinised(b, e) != [] {
      OneEvent(level, x, moved, Retire(ExprSymbol(e).value));
    }
  }

  lemma {:induction false} LeavingArm(b: Bindings, e: Expr, arm: Arm, x: Sym, moved: bool, tail: seq<nat>) returns (ch: seq<nat>)
    requires !BlockReturns(arm.block)
    ensures var r := ArmRun(b, e, arm, ch);
      && r.flow == Running && r.rest == tail
      && NowAfter(x, moved, r.events) == (Retires(b, e, x) || LeftBlock(b, arm.block, x, Kept(arm.pattern, x, moved)))
    ensures Retires(b, e, x) && LeftBlock(b, arm.block, x, Kept(arm.pattern, x, moved)) ==>
              !SafeFor(Completions, x, moved, ArmRun(b, e, arm, ch).events)
    decreases arm
  {
    hide NowAfter, SafeFor, LeftBlock, BlockReturns, Scrutinised, Retires, Binds, PatternSymbols;
    var m1 := Kept(arm.pattern, x, moved);
    ch := LeavingBlock(b, arm.block, x, m1, tail);
    var binds, block := Binds(PatternSymbols(arm.pattern)), ExecBlock(b, arm.block, ch);
    BindsTrack(Completions, x, moved, PatternSymbols(arm.pattern));
    assert Kept(arm.pattern, x, moved) == (moved && x !in PatternSymbols(arm.pattern));
    TrackConcat(Completions, x, moved, binds, block.events);
    TrackConcat(Completions, x, moved, binds + block.events, Scrutinised(b, e));
    ScrutinisedTrack(b, Completions, e, x, NowAfter(x, moved, binds + block.events));
  }

  lemma {:induction false} LeavingBlock(b: Bindings, block: seq<Stmt>, x: Sym, moved: bool, tail: seq<nat>) returns (ch: seq<nat>)
    requires !BlockReturns(block)
    ensures var r := ExecBlock(b, block, ch);
      r.flow == Running && r.rest == tail && NowAfter(x, moved, r.events) == LeftBlock(b, block, x, moved)
    decreases block
  {
    hide NowAfter, SafeFor, Left, AlwaysReturns;
    if block == [] {
      ch := tail;
      NothingTracked(Plain, x, moved);
    } else {
      var rest := LeavingBlock(b, block[1..], x, Left(b, block[0], x, moved), tail);
      ch := Leaving(b, block[0], x, moved, rest);
      TrackConcat(Plain, x, moved, ExecStmt(b, block[0], ch).events, ExecBlock(b, block[1..], rest).events);
    }
  }

  /** A run that touches x while x is given up, if the text says there is one. */
  lemma {:induction false} Tripping(b: Bindings, level: Strictness, s: Stmt, x: Sym, moved: bool) returns (ch: seq<nat>)
    requires Bad(b, level, s, x, moved)
    ensures !SafeFor(level, x, moved, ExecStmt(b, s, ch).events)
    decreases s
  {
    hide Takes, Trips, NowAfter, SafeFor, Does, Within;
    match s
    case Let(sym, e) => ch := Full(e, []); FullThenOne(b, level, e, BindTo(sym), x, moved, []);
    case Assign(sym, e) => ch := Full(e, []); FullThenOne(b, level, e, BindTo(sym), x, moved, []);
    case FieldAssign(sym, e) =>
      ch := Full(e, []);
      FullThenOne(b, level, e, if sym.Some? then [WriteField(sym.value)] else [], x, moved, []);
    case If(_, _, _) => ch := TrippingIf(b, level, s, x, moved);
    case While(_, _) => ch := TrippingWhile(b, level, s, x, moved);
    case Match(e, arms) => ch := TrippingMatch(b, level, s, x, moved);
    case Return(e) =>
      ch := Full(e.value, []);
      FullDoes(b, level, e.value, true, x, moved, []);
      DoesFlow(level, x, moved, EvalExpr(b, e.value, true, ch), [], moved || Takes(b, e.value, true, x), Trips(b, e.value, true, x, moved));
    case ExprStmt(e) =>
      ch := Full(e, []);
      FullDoes(b, level, e, false, x, moved, []);
      DoesFlow(level, x, moved, EvalExpr(b, e, false, ch), [], moved || Takes(b, e, false, x), Trips(b, e, false, x, moved));
  }

  lemma {:induction false} TrippingIf(b: Bindings, level: Strictness, s: Stmt, x: Sym, moved: bool) returns (ch: seq<nat>)
    requires s.If? && Bad(b, level, s, x, moved)
    ensures !SafeFor(level, x, moved, ExecStmt(b, s, ch).events)
    decreases s, 0
  {
    hide Takes, Trips, NowAfter, SafeFor, BadBlock;
    var c, t, e := s.condition, s.thenBlock, s.elseBlock;
    var m1 := moved || Takes(b, c, false, x);
    var branch, pick: nat := if BadBlock(b, level, t, x, m1) then t else e, if BadBlock(b, level, t, x, m1) then 1 else 0;
    var rest: seq<nat> := [];
    if BadBlock(b, level, branch, x, m1) {
      rest := TrippingBlock(b, level, branch, x, m1);
    }
    ch := Full(c, [pick] + rest);
    FullFirst(b, level, c, x, moved, pick, rest);
    TrackConcat(level, x, moved, EvalExpr(b, c, false, ch).events, ExecBlock(b, branch, rest).events);
  }

  lemma {:induction false} TrippingWhile(b: Bindings, level: Strictness, s: Stmt, x: Sym, moved: bool) returns (ch: seq<nat>)
    requires s.While? && Bad(b, level, s, x, moved)
    ensures !SafeFor(level, x, moved, ExecStmt(b, s, ch).events)
    decreases s, 1
  {
    hide Takes, Trips, NowAfter, SafeFor, LeftBlock, BadBlock, BlockReturns, ExecStmt;
    var c, body := s.condition, s.body;
    if LoopEntry(b, c, body, x, moved) && !moved {
      ch := TrippingAt(b, level, s, x, true);
      var rest := LeavingBlock(b, body, x, Takes(b, c, false, x), ch);
      ch := OneTurn(b, level, s, x, moved, rest, ch);
    } else {
      ch := TrippingAt(b, level, s, x, moved);
    }
  }

  /** The same for a loop whose entry state is the present one. */
  lemma {:induction false} TrippingAt(b: Bindings, level: Strictness, s: Stmt, x: Sym, entry: bool) returns (ch: seq<nat>)
    requires s.While?
    requires Trips(b, s.condition, false, x, entry) || BadBlock(b, level, s.body, x, entry || Takes(b, s.condition, false, x))
    ensures !SafeFor(level, x, entry, ExecStmt(b, s, ch).events)
    decreases s, 0
  {
    hide Takes, Trips, NowAfter, SafeFor;
    var c, body := s.condition, s.body;
    var m1 := entry || Takes(b, c, false, x);
    var rest: seq<nat> := [];
    if BadBlock(b, level, body, x, m1) {
      rest := TrippingBlock(b, level, body, x, m1);
    }
    ch := Full(c, [1] + rest);
    FullFirst(b, level, c, x, entry, 1, rest);
    var r, turn := EvalExpr(b, c, false, ch), ExecBlock(b, body, rest);
    TrackConcat(level, x, entry, r.events, turn.events);
    var once := Then(r, turn);
    if once.flow == Running {
      TrackConcat(level, x, entry, once.events, ExecStmt(b, s, once.rest).events);
    }
  }

  lemma {:induction false} TrippingMatch(b: Bindings, level: Strictness, s: Stmt, x: Sym, moved: bool) returns (ch: seq<nat>)
    requires s.Match? && Bad(b, level, s, x, moved)
    ensures !SafeFor(level, x, moved, ExecStmt(b, s, ch).events)
    decreases s, 0
  {
    hide Takes, Trips, NowAfter, SafeFor, BadArm, Scrutinised, Retires, ExecStmt, EvalExpr, ArmRun;
    var e, arms := s.scrutinee, s.arms;
    var m1 := moved || Takes(b, e, false, x);
    if arms == [] {
      ch := Full(e, []);
      NoArmsRun(b, level, s, x, moved, []);
    } else {
      var i: nat, rest: seq<nat> := 0, [];
      if j :| 0 <= j < |arms| && BadArm(b, level, e, arms[j], x, m1) {
        i := j;
        rest := TrippingArm(b, level, e, arms[i], x, m1);
      }
      ch := Full(e, [i] + rest);
      OneArmRun(b, level, s, i, x, moved, rest);
    }
  }

  lemma {:induction false} TrippingArm(b: Bindings, level: Strictness, e: Expr, arm: Arm, x: Sym, moved: bool) returns (ch: seq<nat>)
    requires BadArm(b, level, e, arm, x, moved)
    ensures !SafeFor(level, x, moved, ArmRun(b, e, arm, ch).events)
    decreases arm
  {
    hide NowAfter, SafeFor, LeftBlock, BadBlock, BlockReturns, Scrutinised, Retires, Binds, PatternSymbols;
    var m1 := Kept(arm.pattern, x, moved);
    if BadBlock(b, level, arm.block, x, m1) {
      ch := TrippingBlock(b, level, arm.block, x, m1);
      var binds, block := Binds(PatternSymbols(arm.pattern)), ExecBlock(b, arm.block, ch);
      BindsTrack(level, x, moved, PatternSymbols(arm.pattern));
      assert Kept(arm.pattern, x, moved) == (moved && x !in PatternSymbols(arm.pattern));
      TrackConcat(level, x, moved, binds, block.events);
      TrackConcat(level, x, moved, binds + block.events, Scrutinised(b, e));
    } else {
      ch := LeavingArm(b, e, arm, x, moved, []);
    }
  }

  lemma {:induction false} TrippingBlock(b: Bindings, level: Strictness, block: seq<Stmt>, x: Sym, moved: bool) returns (ch: seq<nat>)
    requires BadBlock(b, level, block, x, moved)
    ensures !SafeFor(level, x, moved, ExecBlock(b, block, ch).events)
    decreases block
  {
    hide NowAfter, SafeFor, Left, Bad, AlwaysReturns;
    if Bad(b, level, block[0], x, moved) {
      ch := Tripping(b, level, block[0], x, moved);
      var first := ExecStmt(b, block[0], ch);
      if first.flow == Running {
        TrackConcat(level, x, moved, first.events, ExecBlock(b, block[1..], first.rest).events);
      }
    } else {
      var rest := TrippingBlock(b, level, block[1..], x, Left(b, block[0], x, moved));
      ch := Leaving(b, block[0], x, moved, rest);
      TrackConcat(level, x, moved, ExecStmt(b, block[0], ch).events, ExecBlock(b, block[1..], rest).events);
    }
  }

  // ----- the result -----

  /** Somewhere in the trace x is touched after it was given up and before it is
      bound again. */
  ghost predicate Touched(level: Strictness, tr: seq<Event>, x: Sym) {
    exists j :: 0 <= j < |tr| && Counts(level, tr[j]) && tr[j].sym == x && MovedAt(tr, j, x)
  }

  lemma TouchedTracked(level: Strictness, tr: seq<Event>, x: Sym)
    ensures Touched(level, tr, x) <==> !SafeFor(level, x, false, tr)
  {
    hide SafeFrom, SafeFor, MovedAt;
    var only: Bindings := map[x := Binding(false, false)];
    Pointwise(only, level, {}, tr);
    SafeFromIffSafe(only, level, tr);
    assert Owned(only, x);
  }

  /** Some path touches x while x is given up exactly when the text says so. */
  lemma LocalExact(b: Bindings, level: Strictness, body: seq<Stmt>, x: Sym)
    ensures (exists ch: seq<nat> :: Touched(level, ExecBlock(b, body, ch).events, x)) <==> BadBlock(b, level, body, x, false)
  {
    hide SafeFor, NowAfter, BadBlock, Touched;
    forall ch: seq<nat> | Touched(level, ExecBlock(b, body, ch).events, x)
      ensures BadBlock(b, level, body, x, false)
    {
      TouchedTracked(level, ExecBlock(b, body, ch).events, x);
      AnyBlock(b, level, body, x, false, false, ch);
    }
    if BadBlock(b, level, body, x, false) {
      var ch := TrippingBlock(b, level, body, x, false);
      TouchedTracked(level, ExecBlock(b, body, ch).events, x);
    }
  }

  /** No path touches an owned local after it was given up. */
  ghost predicate SafeBody(b: Bindings, level: Strictness, body: seq<Stmt>) {
    forall ch: seq<nat> :: SafeTrace(b, level, ExecBlock(b, body, ch).events)
  }

  /** Every path is safe exactly when the text shows no owned local that some run
      touches while it is given up. */
  lemma PathsExact(b: Bindings, level: Strictness, body: seq<Stmt>)
    ensures SafeBody(b, level, body) <==> forall x | Owned(b, x) :: !BadBlock(b, level, body, x, false)
  {
    hide MovedAt, BadBlock;
    if forall x | Owned(b, x) :: !BadBlock(b, level, body, x, false) {
      forall ch: seq<nat>
        ensures SafeTrace(b, level, ExecBlock(b, body, ch).events)
      {
        var tr := ExecBlock(b, body, ch).events;
        forall j | 0 <= j < |tr| && Counts(level, tr[j]) && Owned(b, tr[j].sym)
          ensures !MovedAt(tr, j, tr[j].sym)
        {
          LocalExact(b, level, body, tr[j].sym);
          assert !Touched(level, tr, tr[j].sym);
        }
      }
    } else {
      var x :| Owned(b, x) && BadBlock(b, level, body, x, false);
      LocalExact(b, level, body, x);
      var ch: seq<nat> :| Touched(level, ExecBlock(b, body, ch).events, x);
      assert !SafeTrace(b, level, ExecBlock(b, body, ch).events);
    }
  }

  lemma LeftUpper(b: Bindings, body: seq<Stmt>, x: Sym, ch: seq<nat>)
    requires var r := ExecBlock(b, body, ch); r.flow == Running && MovedAt(r.events, |r.events|, x)
    ensures !BlockReturns(body) && LeftBlock(b, body, x, false)
  {
    hide SafeFor, NowAfter, LeftBlock, BlockReturns, After, MovedAt;
    var tr := ExecBlock(b, body, ch).events;
    AnyBlock(b, Plain, body, x, false, false, ch);
    AfterIsMovedAt(tr, x);
    Pointwise(b, Plain, {}, tr);
  }

  /** A local is given up at the end of some completed path exactly when the text
      says that it can be. */
  lemma LeftExact(b: Bindings, body: seq<Stmt>, x: Sym)
    ensures (exists ch: seq<nat> :: var r := ExecBlock(b, body, ch); r.flow == Running && MovedAt(r.events, |r.events|, x))
            <==> !BlockReturns(body) && LeftBlock(b, body, x, false)
  {
    hide SafeFor, NowAfter, LeftBlock, BlockReturns, After, MovedAt;
    forall ch: seq<nat> | var r := ExecBlock(b, body, ch); r.flow == Running && MovedAt(r.events, |r.events|, x)
      ensures !BlockReturns(body) && LeftBlock(b, body, x, false)
    {
      LeftUpper(b, body, x, ch);
    }
    if !BlockReturns(body) && LeftBlock(b, body, x, false) {
      var ch := LeavingBlock(b, body, x, false, []);
      var tr := ExecBlock(b, body, ch).events;
      AfterIsMovedAt(tr, x);
      Pointwise(b, Plain, {}, tr);
    }
  }
}
