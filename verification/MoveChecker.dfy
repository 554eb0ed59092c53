/** The move checker itself: it updates a dictionary of moved flags in place,
    clones it at branches, and searches for a loop's entry state by iteration. */
module MoveChecker {
  import opened MoveSyntax
  import opened MoveAnalysis

  /** The locals whose flag is set. */
  function Moved(m: map<Sym, bool>): set<Sym> {
    set s | s in m && m[s]
  }

  function Flag(m: map<Sym, bool>, s: Sym): bool {
    s in m && m[s]
  }

  class MoveState {
    var moved: map<Sym, bool>

    constructor (moved: map<Sym, bool>)
      ensures this.moved == moved
    {
      this.moved := moved;
    }

    method Clone() returns (copy: MoveState)
      ensures fresh(copy) && copy.moved == moved
    {
      copy := new MoveState(moved);
    }
  }

  /** Two dictionaries with the same keys and the same flags set are equal. */
  lemma SameMoved(x: map<Sym, bool>, y: map<Sym, bool>)
    requires x.Keys == y.Keys
    ensures x == y <==> Moved(x) == Moved(y)
  {
    if Moved(x) == Moved(y) {
      forall s | s in x
        ensures x[s] == y[s]
      {
        assert s in Moved(x) <==> s in Moved(y);
      }
    }
  }

  lemma ArmEnd(f: Effect, m: set<Sym>)
    ensures m + Apply(f, m) == m + f.gen
  {
  }

  lemma EmptyBlock(b: Bindings, m: set<Sym>)
    ensures Apply(EffectOfBlock(b, []), m) == m && DiagsBlock(b, [], m) == []
  {
  }

  /** What reaches the diagnostics bag. */
  function Emitted(emit: bool, ds: seq<Diagnostic>): seq<Diagnostic> {
    if emit then ds else []
  }

  lemma EmittedTwice(log: seq<Diagnostic>, emit: bool, first: seq<Diagnostic>, second: seq<Diagnostic>)
    ensures (log + Emitted(emit, first)) + Emitted(emit, second) == log + Emitted(emit, first + second)
  {
  }

  lemma EmittedNothing(log: seq<Diagnostic>, emit: bool)
    ensures log + Emitted(emit, []) == log
  {
  }

  lemma MarkedMoved(m: map<Sym, bool>, s: Sym)
    ensures Moved(m[s := true]) == Moved(m) + {s}
  {
  }

  lemma FlagIsMoved(m: map<Sym, bool>)
    ensures forall s :: Flag(m, s) <==> s in Moved(m)
  {
  }

  lemma MovedInKeys(m: map<Sym, bool>)
    ensures Moved(m) <= m.Keys
  {
  }

  class BorrowChecker {
    var diagnostics: seq<Diagnostic>

    constructor ()
      ensures diagnostics == []
    {
      diagnostics := [];
    }

    method Report(d: Diagnostic)
      modifies this
      ensures diagnostics == old(diagnostics) + [d]
    {
      diagnostics := diagnostics + [d];
    }

    /** Reports d when the check failed and diagnostics are wanted. */
    method ReportWhen(emit: bool, wrong: bool, d: Diagnostic)
      modifies this
      ensures diagnostics == old(diagnostics) + Emitted(emit, if wrong then [d] else [])
    {
      if wrong && emit {
        Report(d);
      }
    }

    // ----- joining states, key by key -----

    /** The candidate's flags on the base's keys. */
    method ProjectState(base: MoveState, candidate: MoveState) returns (projected: MoveState)
      ensures fresh(projected) && projected.moved.Keys == base.moved.Keys
      ensures Moved(projected.moved) == Moved(candidate.moved) * base.moved.Keys
    {
      projected := base.Clone();
      var todo := projected.moved.Keys;
      while todo != {}
        invariant fresh(projected) && todo <= projected.moved.Keys == base.moved.Keys
        invariant forall s | s in base.moved :: projected.moved[s] ==
                    if s in todo then base.moved[s] else Flag(candidate.moved, s)
      {
        var s :| s in todo;
        projected.moved := projected.moved[s := Flag(candidate.moved, s)];
        todo := todo - {s};
      }
    }

    /** Flags set in either state, on the base's keys. */
    method MergeVisibleStates(base: MoveState, candidate: MoveState) returns (merged: MoveState)
      ensures fresh(merged) && merged.moved.Keys == base.moved.Keys
      ensures Moved(merged.moved) == Moved(base.moved) + Moved(candidate.moved) * base.moved.Keys
    {
      merged := base.Clone();
      var todo := merged.moved.Keys;
      while todo != {}
        invariant fresh(merged) && todo <= merged.moved.Keys == base.moved.Keys
        invariant forall s | s in base.moved :: merged.moved[s] ==
                    if s in todo then base.moved[s] else base.moved[s] || Flag(candidate.moved, s)
      {
        var s :| s in todo;
        merged.moved := merged.moved[s := Flag(base.moved, s) || Flag(candidate.moved, s)];
        todo := todo - {s};
      }
    }

    /** Flags set on either branch, on the base's keys. */
    method MergeStates(base: MoveState, left: MoveState, right: MoveState) returns (merged: MoveState)
      ensures fresh(merged) && merged.moved.Keys == base.moved.Keys
      ensures Moved(merged.moved) == (Moved(left.moved) + Moved(right.moved)) * base.moved.Keys
    {
      merged := base.Clone();
      var todo := merged.moved.Keys;
      while todo != {}
        invariant fresh(merged) && todo <= merged.moved.Keys == base.moved.Keys
        invariant forall s | s in base.moved :: merged.moved[s] ==
                    if s in todo then base.moved[s] else Flag(left.moved, s) || Flag(right.moved, s)
      {
        var s :| s in todo;
        merged.moved := merged.moved[s := Flag(left.moved, s) || Flag(right.moved, s)];
        todo := todo - {s};
      }
    }

    /** Flags set in either state, on the keys of both. */
    method MergeTwoStates(left: MoveState, right: MoveState) returns (merged: MoveState)
      ensures fresh(merged) && merged.moved.Keys == left.moved.Keys + right.moved.Keys
      ensures Moved(merged.moved) == Moved(left.moved) + Moved(right.moved)
    {
      merged := left.Clone();
      var todo := left.moved.Keys + right.moved.Keys;
      while todo != {}
        invariant fresh(merged) && todo <= left.moved.Keys + right.moved.Keys
        invariant merged.moved.Keys + todo == left.moved.Keys + right.moved.Keys
        invariant forall s | s in merged.moved && s in todo :: s in left.moved && merged.moved[s] == left.moved[s]
        invariant forall s | s in merged.moved && s !in todo ::
                    merged.moved[s] == (Flag(left.moved, s) || Flag(right.moved, s))
      {
        var s :| s in todo;
        merged.moved := merged.moved[s := Flag(left.moved, s) || Flag(right.moved, s)];
        todo := todo - {s};
      }
    }

    // ----- expressions -----

    method WalkName(b: Bindings, sym: Sym, state: MoveState, consume: bool, emit: bool)
      requires b.Keys <= state.moved.Keys
      modifies this, state
      ensures state.moved.Keys == old(state.moved.Keys)
      ensures Moved(state.moved) == Moved(old(state.moved)) + Gen(b, Name(true, Some(sym)), consume)
      ensures diagnostics == old(diagnostics) + Emitted(emit, Diags(b, Name(true, Some(sym)), Moved(old(state.moved)), consume, false))
    {
      EmittedNothing(diagnostics, emit);
      if sym !in b {
        return;
      }
      var binding := b[sym];
      if Flag(state.moved, sym) && !binding.refParam {
        if emit {
          Report(UseOfMoved(sym));
        }
        return;
      }
      if consume && !binding.copy && !binding.refParam {
        state.moved := state.moved[sym := true];
      }
    }

    method WalkBorrow(b: Bindings, e: Expr, state: MoveState, inCallArg: bool, emit: bool)
      requires e.Borrow?
      modifies this
      ensures diagnostics == old(diagnostics) + Emitted(emit, Diags(b, e, Moved(state.moved), false, inCallArg))
    {
      hide Emitted;
      ghost var log := diagnostics;
      EmittedNothing(log, emit);
      ReportWhen(emit, !inCallArg, BorrowOutsideCall);
      ghost var first := if !inCallArg then [BorrowOutsideCall] else [];
      EmittedNothing(diagnostics, emit);
      if e.sym.Some? {
        var s := e.sym.value;
        ReportWhen(emit, Flag(state.moved, s), BorrowOfMoved(s));
        EmittedTwice(log, emit, first, if Flag(state.moved, s) then [BorrowOfMoved(s)] else []);
        assert Flag(state.moved, s) <==> s in Moved(state.moved);
      } else {
        assert first + [] == first;
      }
    }

    /** Walks an expression, marking what it consumes. */
    method WalkExpr(b: Bindings, e: Expr, state: MoveState, consume: bool, inCallArg: bool, emit: bool)
      requires b.Keys <= state.moved.Keys
      modifies this, state
      ensures state.moved.Keys == old(state.moved.Keys)
      ensures Moved(state.moved) == Moved(old(state.moved)) + Gen(b, e, consume)
      ensures diagnostics == old(diagnostics) + Emitted(emit, Diags(b, e, Moved(old(state.moved)), consume, inCallArg))
      decreases e, 1
    {
      hide Moved, Emitted;
      ghost var log, m := diagnostics, Moved(state.moved);
      EmittedNothing(log, emit);
      match e
      case Literal =>
      case Name(local, sym) =>
        if local && sym.Some? {
          WalkName(b, sym.value, state, consume, emit);
        }
      case Borrow(_, _) =>
        WalkBorrow(b, e, state, inCallArg, emit);
      case Unary(x) =>
        WalkExpr(b, x, state, false, false, emit);
      case Binary(_, l, r) =>
        WalkExpr(b, l, state, false, false, emit);
        WalkExpr(b, r, state, false, false, emit);
        EmittedTwice(log, emit, Diags(b, l, m, false, false), Diags(b, r, m + Gen(b, l, false), false, false));
      case Field(x, copyField) =>
        WalkExpr(b, x, state, false, false, emit);
        var movesOut := consume && copyField == Some(false);
        ReportWhen(emit, movesOut, MoveOutOfField);
        EmittedTwice(log, emit, Diags(b, x, m, false, false), if movesOut then [MoveOutOfField] else []);
      case Struct(fields) =>
        WalkAll(b, fields, state, true, false, emit);
      case Call(_, _, _) =>
        WalkCall(b, e, state, consume, inCallArg, emit);
    }

    method WalkCall(b: Bindings, e: Expr, state: MoveState, consume: bool, inCallArg: bool, emit: bool)
      requires e.Call? && b.Keys <= state.moved.Keys
      modifies this, state
      ensures state.moved.Keys == old(state.moved.Keys)
      ensures Moved(state.moved) == Moved(old(state.moved)) + Gen(b, e, consume)
      ensures diagnostics == old(diagnostics) + Emitted(emit, Diags(b, e, Moved(old(state.moved)), consume, inCallArg))
      decreases e, 0
    {
      hide Moved, Emitted;
      ghost var log, m := diagnostics, Moved(state.moved);
      if !e.callee.Name? {
        ReportWhen(emit, true, UnsupportedCallee);
        return;
      }
      match e.kind
      case FunctionCall(refParams) =>
        WalkArguments(b, e.args, refParams, state, emit);
      case VariantCall =>
        WalkAll(b, e.args, state, true, true, emit);
      case UnresolvedCall =>
        WalkExpr(b, e.callee, state, false, false, emit);
        WalkAll(b, e.args, state, false, true, emit);
        EmittedTwice(log, emit, Diags(b, e.callee, m, false, false),
          DiagsAll(b, e.args, m + Gen(b, e.callee, false), false, true));
    }

    /** The loop over struct fields or constructor arguments. */
    method WalkAll(b: Bindings, es: seq<Expr>, state: MoveState, consume: bool, inCallArg: bool, emit: bool)
      requires b.Keys <= state.moved.Keys
      modifies this, state
      ensures state.moved.Keys == old(state.moved.Keys)
      ensures Moved(state.moved) == Moved(old(state.moved)) + GenAll(b, es, consume)
      ensures diagnostics == old(diagnostics) + Emitted(emit, DiagsAll(b, es, Moved(old(state.moved)), consume, inCallArg))
      decreases es
    {
      hide Moved, Emitted, Gen, Diags;
      ghost var m0 := Moved(state.moved);
      var i := 0;
      assert es[0..] == es;
      while i < |es|
        invariant 0 <= i <= |es|
        invariant state.moved.Keys == old(state.moved.Keys)
        invariant Moved(state.moved) + GenAll(b, es[i..], consume) == m0 + GenAll(b, es, consume)
        invariant diagnostics + Emitted(emit, DiagsAll(b, es[i..], Moved(state.moved), consume, inCallArg))
               == old(diagnostics) + Emitted(emit, DiagsAll(b, es, m0, consume, inCallArg))
      {
        assert es[i..][1..] == es[i + 1..];
        ghost var m := Moved(state.moved);
        EmittedTwice(diagnostics, emit, Diags(b, es[i], m, consume, inCallArg),
          DiagsAll(b, es[i + 1..], m + Gen(b, es[i], consume), consume, inCallArg));
        WalkExpr(b, es[i], state, consume, inCallArg, emit);
        i := i + 1;
      }
      EmittedNothing(diagnostics, emit);
    }

    /** A reference parameter's argument: a borrow is checked against the locals
        borrowed and moved so far in this call; anything else is skipped. */
    method WalkRefArgument(b: Bindings, arg: Expr, state: MoveState, borrowed: map<Sym, bool>, consumed: set<Sym>, emit: bool)
      requires arg.Borrow? && arg.sym.Some?
      modifies this
      ensures diagnostics == old(diagnostics) + Emitted(emit, RefArgumentDiags(b, arg, Moved(state.moved), borrowed, consumed))
    {
      hide Moved, Diags, Emitted;
      var s := arg.sym.value;
      ghost var log := diagnostics;
      var conflict := s in borrowed && (borrowed[s] || arg.mutable);
      ghost var first := if conflict then [ConflictingBorrows(s)] else [];
      ghost var second := if s in consumed then [MoveAndBorrow(s)] else [];
      ReportWhen(emit, conflict, ConflictingBorrows(s));
      ReportWhen(emit, s in consumed, MoveAndBorrow(s));
      EmittedTwice(log, emit, first, second);
      WalkBorrow(b, arg, state, true, emit);
      EmittedTwice(log, emit, first + second, Diags(b, arg, Moved(state.moved), false, true));
    }

    /** The loop over a call's arguments and parameters, with its record of the
        locals borrowed and moved so far in this call. */
    method WalkArguments(b: Bindings, args: seq<Expr>, refParams: seq<bool>, state: MoveState, emit: bool)
      requires b.Keys <= state.moved.Keys
      modifies this, state
      ensures state.moved.Keys == old(state.moved.Keys)
      ensures Moved(state.moved) == Moved(old(state.moved)) + GenArgs(b, args, refParams)
      ensures diagnostics == old(diagnostics) + Emitted(emit, DiagsArgs(b, args, refParams, Moved(old(state.moved)), map[], {}))
      decreases args
    {
      hide Moved, Diags, Gen, Conflicts, ExprSymbol, GenArgs, DiagsArgs, RefArgumentDiags, Emitted;
      ghost var m0 := Moved(state.moved);
      var borrowed: map<Sym, bool> := map[];
      var consumed: set<Sym> := {};
      var i := 0;
      assert args[0..] == args && refParams[0..] == refParams;
      while i < |args| && i < |refParams|
        invariant 0 <= i <= |args| && i <= |refParams|
        invariant state.moved.Keys == old(state.moved.Keys)
        invariant Moved(state.moved) + GenArgs(b, args[i..], refParams[i..]) == m0 + GenArgs(b, args, refParams)
        invariant diagnostics
               + Emitted(emit, DiagsArgs(b, args[i..], refParams[i..], Moved(state.moved), borrowed, consumed))
               == old(diagnostics) + Emitted(emit, DiagsArgs(b, args, refParams, m0, map[], {}))
        decreases |args| - i
      {
        assert args[i..][1..] == args[i + 1..] && refParams[i..][1..] == refParams[i + 1..];
        var arg := args[i];
        ArgumentStep(b, args[i..], refParams[i..], Moved(state.moved), borrowed, consumed);
        ghost var log, m := diagnostics, Moved(state.moved);
        ghost var before := DiagsArgs(b, args[i..], refParams[i..], m, borrowed, consumed);
        ghost var here: seq<Diagnostic> := [];
        EmittedNothing(log, emit);
        if refParams[i] {
          if arg.Borrow? && arg.sym.Some? {
            here := RefArgumentDiags(b, arg, m, borrowed, consumed);
            WalkRefArgument(b, arg, state, borrowed, consumed, emit);
            borrowed := borrowed[arg.sym.value := arg.mutable];
          }
        } else {
          var s := ExprSymbol(arg);
          if s.Some? {
            var again := s.value in borrowed;
            ReportWhen(emit, again, MoveAndBorrow(s.value));
            here := if again then [MoveAndBorrow(s.value)] else [];
            consumed := consumed + {s.value};
          }
          WalkExpr(b, arg, state, true, true, emit);
          EmittedTwice(log, emit, here, Diags(b, arg, m, true, true));
          here := here + Diags(b, arg, m, true, true);
        }
        i := i + 1;
        ghost var after := DiagsArgs(b, args[i..], refParams[i..], Moved(state.moved), borrowed, consumed);
        assert before == here + after;
        EmittedTwice(log, emit, here, after);
      }
      EmittedNothing(diagnostics, emit);
      NoArguments(b, args[i..], refParams[i..], Moved(state.moved), borrowed, consumed);
    }

    // ----- statements -----

    /** Checks a block from a state it leaves alone. The result's flags are the
        block's fixed effect, whether or not diagnostics are emitted. */
    method CheckBlock(b: Bindings, block: seq<Stmt>, state: MoveState, emit: bool) returns (current: MoveState)
      requires b.Keys <= state.moved.Keys
      modifies this
      ensures fresh(current) && state.moved.Keys <= current.moved.Keys
      ensures Moved(current.moved) == Apply(EffectOfBlock(b, block), Moved(state.moved))
      ensures diagnostics == old(diagnostics) + Emitted(emit, DiagsBlock(b, block, Moved(state.moved)))
      decreases block, 1
    {
      hide Moved, Emitted, DiagsStmt, EffectOf, Apply;
      EmptyBlock(b, Moved(state.moved));
      current := state.Clone();
      ghost var m0 := Moved(state.moved);
      var i := 0;
      assert block[0..] == block;
      while i < |block|
        invariant 0 <= i <= |block|
        invariant fresh(current) && state.moved.Keys <= current.moved.Keys
        invariant Apply(EffectOfBlock(b, block[i..]), Moved(current.moved)) == Apply(EffectOfBlock(b, block), m0)
        invariant diagnostics + Emitted(emit, DiagsBlock(b, block[i..], Moved(current.moved)))
               == old(diagnostics) + Emitted(emit, DiagsBlock(b, block, m0))
      {
        assert block[i..][1..] == block[i + 1..];
        ghost var m := Moved(current.moved);
        ComposeApplies(EffectOf(b, block[i]), EffectOfBlock(b, block[i + 1..]), m);
        EmittedTwice(diagnostics, emit, DiagsStmt(b, block[i], m),
          DiagsBlock(b, block[i + 1..], Apply(EffectOf(b, block[i]), m)));
        current := CheckStmt(b, block[i], current, emit);
        i := i + 1;
      }
      EmptyBlock(b, Moved(current.moved));
      EmittedNothing(diagnostics, emit);
    }

    method CheckStmt(b: Bindings, s: Stmt, state: MoveState, emit: bool) returns (current: MoveState)
      requires b.Keys <= state.moved.Keys
      modifies this
      ensures fresh(current) && state.moved.Keys <= current.moved.Keys
      ensures Moved(current.moved) == Apply(EffectOf(b, s), Moved(state.moved))
      ensures diagnostics == old(diagnostics) + Emitted(emit, DiagsStmt(b, s, Moved(state.moved)))
      decreases s, 3
    {
      hide Moved, Gen, Diags, Apply, EffectOf, Emitted;
      ghost var log := diagnostics;
      EmittedNothing(log, emit);
      match s
      case Let(sym, e) =>
        RebindingEffect(b, s, sym, e, Moved(state.moved));
        current := CheckRebinding(b, sym, e, state, emit);
      case Assign(sym, e) =>
        RebindingEffect(b, s, sym, e, Moved(state.moved));
        current := CheckRebinding(b, sym, e, state, emit);
      case FieldAssign(sym, e) =>
        PlainEffect(b, s, Moved(state.moved));
        current := state.Clone();
        FlagIsMoved(current.moved);
        ghost var first: seq<Diagnostic> := [];
        if sym.Some? {
          var wrong := sym.value in b && Flag(current.moved, sym.value);
          ReportWhen(emit, wrong, UseOfMoved(sym.value));
          first := if wrong then [UseOfMoved(sym.value)] else [];
        }
        WalkExpr(b, e, current, true, false, emit);
        EmittedTwice(log, emit, first, Diags(b, e, Moved(state.moved), true, false));
      case If(_, _, _) =>
        current := CheckIf(b, s, state, emit);
      case While(_, _) =>
        current := CheckWhile(b, s, state, emit);
      case Match(_, _) =>
        current := CheckMatch(b, s, state, emit);
      case Return(e) =>
        PlainEffect(b, s, Moved(state.moved));
        current := state.Clone();
        if e.Some? {
          WalkExpr(b, e.value, current, true, false, emit);
        }
      case ExprStmt(e) =>
        PlainEffect(b, s, Moved(state.moved));
        current := state.Clone();
        WalkExpr(b, e, current, false, false, emit);
    }

    /** A let or an assignment: the value is consumed, then the target is fresh. */
    method CheckRebinding(b: Bindings, sym: Option<Sym>, e: Expr, state: MoveState, emit: bool)
      returns (current: MoveState)
      requires b.Keys <= state.moved.Keys
      modifies this
      ensures fresh(current) && state.moved.Keys <= current.moved.Keys
      ensures Moved(current.moved) == (Moved(state.moved) + Gen(b, e, true)) - Syms(sym)
      ensures diagnostics == old(diagnostics) + Emitted(emit, Diags(b, e, Moved(state.moved), true, false))
    {
      hide Gen, Diags, Emitted;
      current := state.Clone();
      WalkExpr(b, e, current, true, false, emit);
      if sym.Some? {
        ghost var before := Moved(current.moved);
        current.moved := current.moved[sym.value := false];
        assert Moved(current.moved) == before - {sym.value};
      }
    }

    method CheckIf(b: Bindings, s: Stmt, state: MoveState, emit: bool) returns (current: MoveState)
      requires s.If? && b.Keys <= state.moved.Keys
      modifies this
      ensures fresh(current) && state.moved.Keys <= current.moved.Keys
      ensures Moved(current.moved) == Apply(EffectOf(b, s), Moved(state.moved))
      ensures diagnostics == old(diagnostics) + Emitted(emit, DiagsStmt(b, s, Moved(state.moved)))
      decreases s, 2
    {
      MovedInKeys(state.moved);
      IfJoins(b, s, Moved(state.moved), state.moved.Keys);
      hide Moved, Gen, Diags, DiagsBlock, DiagsStmt, EffectOf, EffectOfBlock, Apply, Emitted;
      ghost var log, m := diagnostics, Moved(state.moved);
      ghost var m1 := m + Gen(b, s.condition, false);
      ghost var d0, d1, d2 := Diags(b, s.condition, m, false, false), DiagsBlock(b, s.thenBlock, m1), DiagsBlock(b, s.elseBlock, m1);
      EmittedTwice(log, emit, d0, d1);
      EmittedTwice(log, emit, d0 + d1, d2);
      current := state.Clone();
      WalkExpr(b, s.condition, current, false, false, emit);
      var thenState := CheckBlock(b, s.thenBlock, current, emit);
      var elseState := CheckBlock(b, s.elseBlock, current, emit);
      current := MergeStates(current, thenState, elseState);
    }

    method CheckWhile(b: Bindings, s: Stmt, state: MoveState, emit: bool) returns (current: MoveState)
      requires s.While? && b.Keys <= state.moved.Keys
      modifies this
      ensures fresh(current) && state.moved.Keys <= current.moved.Keys
      ensures Moved(current.moved) == Apply(EffectOf(b, s), Moved(state.moved))
      ensures diagnostics == old(diagnostics) + Emitted(emit, DiagsStmt(b, s, Moved(state.moved)))
      decreases s, 2
    {
      MovedInKeys(state.moved);
      WhileProjects(b, s, Moved(state.moved), state.moved.Keys);
      hide Moved, Gen, Diags, DiagsBlock, DiagsStmt, EffectOf, EffectOfBlock, Apply, LoopGen, Emitted;
      ghost var entry := Moved(state.moved) + LoopGen(b, s.condition, s.body);
      EmittedTwice(diagnostics, emit, Diags(b, s.condition, entry, false, false),
        DiagsBlock(b, s.body, entry + Gen(b, s.condition, false)));
      current := state.Clone();
      var conditionEntry, rounds := LoopConditionEntryState(b, s, s.condition, s.body, current);
      var afterCondition := conditionEntry.Clone();
      WalkExpr(b, s.condition, afterCondition, false, false, emit);
      var discarded := CheckBlock(b, s.body, afterCondition, emit);
      current := ProjectState(current, afterCondition);
    }

    method CheckMatch(b: Bindings, s: Stmt, state: MoveState, emit: bool) returns (merged: MoveState)
      requires s.Match? && b.Keys <= state.moved.Keys
      modifies this
      ensures fresh(merged) && state.moved.Keys <= merged.moved.Keys
      ensures Moved(merged.moved) == Apply(EffectOf(b, s), Moved(state.moved))
      ensures diagnostics == old(diagnostics) + Emitted(emit, DiagsStmt(b, s, Moved(state.moved)))
      decreases s, 2
    {
      hide Moved, Gen, Diags, DiagsArms, DiagsStmt, EffectOf, ArmsGen, Apply, UnionMoved, Emitted;
      ghost var m := Moved(state.moved);
      EmittedTwice(diagnostics, emit, Diags(b, s.scrutinee, m, false, false),
        DiagsArms(b, s.arms, m + Gen(b, s.scrutinee, false)));
      var current := state.Clone();
      WalkExpr(b, s.scrutinee, current, false, false, emit);
      var armStates := CheckArms(b, s, current, emit);
      MatchJoins(b, s, Moved(state.moved), UnionMoved(armStates));
      var scrutinee := ExprSymbol(s.scrutinee);
      label Before:
      if scrutinee.Some? && scrutinee.value in b && !b[scrutinee.value].copy {
        MarkedMoved(current.moved, scrutinee.value);
        current.moved := current.moved[scrutinee.value := true];
      }
      assert UnionMoved(armStates) == old@Before(UnionMoved(armStates));
      merged := MergeAll(current, armStates);
    }

    method MergeAll(current: MoveState, armStates: seq<MoveState>) returns (merged: MoveState)
      ensures merged == current || fresh(merged)
      ensures current.moved.Keys <= merged.moved.Keys
      ensures Moved(merged.moved) == Moved(current.moved) + UnionMoved(armStates)
    {
      hide Moved;
      merged := current;
      var i := 0;
      assert armStates[..0] == [];
      while i < |armStates|
        invariant 0 <= i <= |armStates|
        invariant merged == current || fresh(merged)
        invariant current.moved.Keys <= merged.moved.Keys
        invariant Moved(merged.moved) == Moved(current.moved) + UnionMoved(armStates[..i])
      {
        assert armStates[..i + 1][..i] == armStates[..i];
        merged := MergeTwoStates(merged, armStates[i]);
        i := i + 1;
      }
      assert armStates[..|armStates|] == armStates;
    }

    ghost function UnionMoved(states: seq<MoveState>): set<Sym>
      reads states
    {
      if states == [] then {} else UnionMoved(states[..|states| - 1]) + Moved(states[|states| - 1].moved)
    }

    /** Every arm starts from the state after the scrutinee, with its pattern's
        locals present. */
    method CheckArms(b: Bindings, s: Stmt, current: MoveState, emit: bool) returns (armStates: seq<MoveState>)
      requires s.Match? && b.Keys <= current.moved.Keys
      modifies this
      ensures forall i | 0 <= i < |armStates| :: fresh(armStates[i])
      ensures current !in armStates
      ensures Moved(current.moved) + UnionMoved(armStates) == Moved(current.moved) + ArmsGen(b, s.arms)
      ensures diagnostics == old(diagnostics) + Emitted(emit, DiagsArms(b, s.arms, Moved(current.moved)))
      decreases s, 1
    {
      hide Moved, DiagsBlock, EffectOfBlock, Emitted, Apply;
      armStates := [];
      ghost var m := Moved(current.moved);
      var i := 0;
      assert s.arms[0..] == s.arms;
      while i < |s.arms|
        invariant 0 <= i <= |s.arms|
        invariant forall j | 0 <= j < |armStates| :: fresh(armStates[j])
        invariant current !in armStates
        invariant m + UnionMoved(armStates) + ArmsGen(b, s.arms[i..]) == m + ArmsGen(b, s.arms)
        invariant diagnostics + Emitted(emit, DiagsArms(b, s.arms[i..], m))
               == old(diagnostics) + Emitted(emit, DiagsArms(b, s.arms, m))
      {
        assert s.arms[i..][1..] == s.arms[i + 1..];
        EmittedTwice(diagnostics, emit, DiagsBlock(b, s.arms[i].block, m), DiagsArms(b, s.arms[i + 1..], m));
        var checked := CheckArm(b, s, s.arms[i], current, emit);
        assert (armStates + [checked])[..|armStates|] == armStates;
        armStates := armStates + [checked];
        i := i + 1;
      }
      EmittedNothing(diagnostics, emit);
    }

    method CheckArm(b: Bindings, ghost s: Stmt, arm: Arm, current: MoveState, emit: bool) returns (checked: MoveState)
      requires s.Match? && arm in s.arms && b.Keys <= current.moved.Keys
      modifies this
      ensures fresh(checked)
      ensures Moved(current.moved) + Moved(checked.moved) == Moved(current.moved) + EffectOfBlock(b, arm.block).gen
      ensures diagnostics == old(diagnostics) + Emitted(emit, DiagsBlock(b, arm.block, Moved(current.moved)))
      decreases s, 0
    {
      hide Moved, DiagsBlock, EffectOfBlock, Emitted, Apply;
      var armState := current.Clone();
      AddMissing(armState, PatternSymbols(arm.pattern));
      checked := CheckBlock(b, arm.block, armState, emit);
      ArmEnd(EffectOfBlock(b, arm.block), Moved(current.moved));
    }

    /** Gives each symbol an unset flag unless it has one already. */
    method AddMissing(state: MoveState, syms: seq<Sym>)
      modifies state
      ensures old(state.moved.Keys) <= state.moved.Keys
      ensures Moved(state.moved) == Moved(old(state.moved))
    {
      var i := 0;
      while i < |syms|
        invariant old(state.moved.Keys) <= state.moved.Keys
        invariant Moved(state.moved) == Moved(old(state.moved))
      {
        if syms[i] !in state.moved {
          state.moved := state.moved[syms[i] := false];
        }
        i := i + 1;
      }
    }

    /** Iterates condition and body from the loop's start until the state at the
        condition repeats. It stops at the least state closed under a turn, after
        at most two turns. */
    method LoopConditionEntryState(b: Bindings, ghost s: Stmt, c: Expr, body: seq<Stmt>, start: MoveState)
      returns (conditionEntry: MoveState, ghost rounds: nat)
      requires s == While(c, body)
      requires b.Keys <= start.moved.Keys
      modifies this
      ensures fresh(conditionEntry) && conditionEntry.moved.Keys == start.moved.Keys
      ensures Moved(conditionEntry.moved) == Moved(start.moved) + LoopGen(b, c, body)
      ensures diagnostics == old(diagnostics)
      ensures rounds <= 2
      decreases s, 1
    {
      hide Moved, Gen, EffectOfBlock;
      ghost var m := Moved(start.moved);
      ghost var entry := m + LoopGen(b, c, body);
      LoopEntryIsLeast(b, c, body, m);
      ProjectedIsSame(start);
      conditionEntry := ProjectState(start, start);
      rounds := 0;
      while true
        invariant fresh(conditionEntry) && conditionEntry.moved.Keys == start.moved.Keys
        invariant Moved(conditionEntry.moved) == if rounds == 0 then m else entry
        invariant diagnostics == old(diagnostics)
        invariant rounds <= 1
        decreases 1 - rounds
      {
        var nextEntry := OneTurn(b, s, c, body, start, conditionEntry);
        SameMoved(nextEntry.moved, conditionEntry.moved);
        rounds := rounds + 1;
        if nextEntry.moved == conditionEntry.moved {
          return;
        }
        conditionEntry := nextEntry;
      }
    }

    /** Condition and body once from a state, joined with the state the loop starts
        in. */
    method OneTurn(b: Bindings, ghost s: Stmt, c: Expr, body: seq<Stmt>, start: MoveState, from: MoveState) returns (next: MoveState)
      requires s == While(c, body)
      requires b.Keys <= start.moved.Keys == from.moved.Keys
      modifies this
      ensures fresh(next) && next.moved.Keys == start.moved.Keys
      ensures Moved(next.moved) == Turn(b, c, body, Moved(start.moved), Moved(from.moved))
      ensures diagnostics == old(diagnostics)
      decreases s, 0
    {
      GenInBindings(b, c, false);
      BlockEffectInBindings(b, body);
      hide Gen, EffectOfBlock;
      var afterCondition := from.Clone();
      WalkExpr(b, c, afterCondition, false, false, false);
      var bodyEnd := CheckBlock(b, body, afterCondition, false);
      next := MergeVisibleStates(start, bodyEnd);
    }

    lemma ProjectedIsSame(state: MoveState)
      ensures Moved(state.moved) * state.moved.Keys == Moved(state.moved)
    {
    }

    /** Checks one function body: every local starts unmoved. */
    method Check(b: Bindings, body: seq<Stmt>) returns (final: MoveState)
      modifies this
      ensures Moved(final.moved) == EffectOfBlock(b, body).gen
      ensures diagnostics == old(diagnostics) + DiagsBlock(b, body, {})
    {
      var state := new MoveState(map s | s in b :: false);
      assert Moved(state.moved) == {};
      final := CheckBlock(b, body, state, true);
    }
  }
}
