/** The move analysis as a function on the set of moved locals, and its diagnostics. */
module MoveAnalysis {
  import opened MoveSyntax

  datatype Diagnostic =
    | UseOfMoved(sym: Sym)
    | BorrowOutsideCall
    | BorrowOfMoved(sym: Sym)
    | MoveOutOfField
    | UnsupportedCallee
    | ConflictingBorrows(sym: Sym)
    | MoveAndBorrow(sym: Sym)

  // ----- expressions only add -----

  function Gen(b: Bindings, e: Expr, consume: bool): (g: set<Sym>)
    decreases e
  {
    match e
    case Literal => {}
    case Name(local, sym) =>
      if consume && local && sym.Some? && Moves(b, sym.value) then {sym.value} else {}
    case Borrow(_, _) => {}
    case Unary(x) => Gen(b, x, false)
    case Binary(_, l, r) => Gen(b, l, false) + Gen(b, r, false)
    case Field(x, _) => Gen(b, x, false)
    case Struct(fs) => GenAll(b, fs, true)
    case Call(f, kind, args) =>
      if !f.Name? then {}
      else match kind
           case FunctionCall(refParams) => GenArgs(b, args, refParams)
           case VariantCall => GenAll(b, args, true)
           case UnresolvedCall => Gen(b, f, false) + GenAll(b, args, false)
  }

  function GenAll(b: Bindings, es: seq<Expr>, consume: bool): set<Sym>
    decreases es
  {
    if es == [] then {} else Gen(b, es[0], consume) + GenAll(b, es[1..], consume)
  }

  /** Arguments paired with parameters; a reference parameter whose argument is
      not a borrow is skipped. */
  function GenArgs(b: Bindings, args: seq<Expr>, refParams: seq<bool>): set<Sym>
    decreases args
  {
    if args == [] || refParams == [] then {}
    else (if refParams[0] then {} else Gen(b, args[0], true)) + GenArgs(b, args[1..], refParams[1..])
  }

  function Diags(b: Bindings, e: Expr, m: set<Sym>, consume: bool, inCall: bool): seq<Diagnostic>
    decreases e
  {
    match e
    case Literal => []
    case Name(local, sym) =>
      if local && sym.Some? && sym.value in b && sym.value in m && !b[sym.value].refParam
      then [UseOfMoved(sym.value)] else []
    case Borrow(_, sym) =>
      (if inCall then [] else [BorrowOutsideCall])
      + (if sym.Some? && sym.value in m then [BorrowOfMoved(sym.value)] else [])
    case Unary(x) => Diags(b, x, m, false, false)
    case Binary(_, l, r) => Diags(b, l, m, false, false) + Diags(b, r, m + Gen(b, l, false), false, false)
    case Field(x, copyField) =>
      Diags(b, x, m, false, false) + (if consume && copyField == Some(false) then [MoveOutOfField] else [])
    case Struct(fs) => DiagsAll(b, fs, m, true, false)
    case Call(f, kind, args) =>
      if !f.Name? then [UnsupportedCallee]
      else match kind
           case FunctionCall(refParams) => DiagsArgs(b, args, refParams, m, map[], {})
           case VariantCall => DiagsAll(b, args, m, true, true)
           case UnresolvedCall =>
             Diags(b, f, m, false, false) + DiagsAll(b, args, m + Gen(b, f, false), false, true)
  }

  function DiagsAll(b: Bindings, es: seq<Expr>, m: set<Sym>, consume: bool, inCall: bool): seq<Diagnostic>
    decreases es
  {
    if es == [] then []
    else Diags(b, es[0], m, consume, inCall) + DiagsAll(b, es[1..], m + Gen(b, es[0], consume), consume, inCall)
  }

  predicate Conflicts(borrowed: map<Sym, bool>, s: Sym, mutable: bool) {
    s in borrowed && (borrowed[s] || mutable)
  }

  /** borrowed maps the locals borrowed so far in this call to the mutability of
      the latest borrow; consumed holds the bare locals passed by value. */
  function DiagsArgs(b: Bindings, args: seq<Expr>, refParams: seq<bool>, m: set<Sym>,
                     borrowed: map<Sym, bool>, consumed: set<Sym>): seq<Diagnostic>
    decreases args
  {
    if args == [] || refParams == [] then []
    else
      var arg := args[0];
      if refParams[0] then
        if !arg.Borrow? || arg.sym.None? then DiagsArgs(b, args[1..], refParams[1..], m, borrowed, consumed)
        else
          var s := arg.sym.value;
          (if Conflicts(borrowed, s, arg.mutable) then [ConflictingBorrows(s)] else [])
          + (if s in consumed then [MoveAndBorrow(s)] else [])
          + Diags(b, arg, m, false, true)
          + DiagsArgs(b, args[1..], refParams[1..], m, borrowed[s := arg.mutable], consumed)
      else
        var s := ExprSymbol(arg);
        (if s.Some? && s.value in borrowed then [MoveAndBorrow(s.value)] else [])
        + Diags(b, arg, m, true, true)
        + DiagsArgs(b, args[1..], refParams[1..], m + Gen(b, arg, true), borrowed,
                    if s.Some? then consumed + {s.value} else consumed)
  }

  // ----- statements remove a fixed set, then add a fixed set -----

  datatype Effect = Effect(kill: set<Sym>, gen: set<Sym>)

  function Apply(f: Effect, m: set<Sym>): set<Sym> {
    (m - f.kill) + f.gen
  }

  function Compose(f: Effect, g: Effect): Effect {
    Effect(f.kill + g.kill, (f.gen - g.kill) + g.gen)
  }

  function Syms(o: Option<Sym>): set<Sym> {
    if o.Some? then {o.value} else {}
  }

  /** The non-copy local a match is on. */
  function MatchedLocal(b: Bindings, e: Expr): set<Sym> {
    var s := ExprSymbol(e);
    if s.Some? && s.value in b && !b[s.value].copy then {s.value} else {}
  }

  function EffectOf(b: Bindings, s: Stmt): Effect
    decreases s
  {
    match s
    case Let(sym, e) => Effect(Syms(sym), Gen(b, e, true) - Syms(sym))
    case Assign(sym, e) => Effect(Syms(sym), Gen(b, e, true) - Syms(sym))
    case FieldAssign(_, e) => Effect({}, Gen(b, e, true))
    case If(c, t, e) =>
      var ft, fe := EffectOfBlock(b, t), EffectOfBlock(b, e);
      var kill := ft.kill * fe.kill;
      Effect(kill, (Gen(b, c, false) - kill) + ft.gen + fe.gen)
    case While(c, body) => Effect({}, Gen(b, c, false) + EffectOfBlock(b, body).gen)
    case Match(e, arms) => Effect({}, Gen(b, e, false) + MatchedLocal(b, e) + ArmsGen(b, arms))
    case Return(e) => Effect({}, if e.Some? then Gen(b, e.value, true) else {})
    case ExprStmt(e) => Effect({}, Gen(b, e, false))
  }

  function EffectOfBlock(b: Bindings, block: seq<Stmt>): Effect
    decreases block
  {
    if block == [] then Effect({}, {})
    else Compose(EffectOf(b, block[0]), EffectOfBlock(b, block[1..]))
  }

  function ArmsGen(b: Bindings, arms: seq<Arm>): set<Sym>
    decreases arms
  {
    if arms == [] then {} else EffectOfBlock(b, arms[0].block).gen + ArmsGen(b, arms[1..])
  }

  /** What a loop's condition and body can add to the state they start from. */
  function LoopGen(b: Bindings, c: Expr, body: seq<Stmt>): set<Sym> {
    var f := EffectOfBlock(b, body);
    (Gen(b, c, false) - f.kill) + f.gen
  }

  function DiagsStmt(b: Bindings, s: Stmt, m: set<Sym>): seq<Diagnostic>
    decreases s
  {
    match s
    case Let(_, e) => Diags(b, e, m, true, false)
    case Assign(_, e) => Diags(b, e, m, true, false)
    case FieldAssign(sym, e) =>
      (if sym.Some? && sym.value in b && sym.value in m then [UseOfMoved(sym.value)] else [])
      + Diags(b, e, m, true, false)
    case If(c, t, e) =>
      var m1 := m + Gen(b, c, false);
      Diags(b, c, m, false, false) + DiagsBlock(b, t, m1) + DiagsBlock(b, e, m1)
    case While(c, body) =>
      var entry := m + LoopGen(b, c, body);
      Diags(b, c, entry, false, false) + DiagsBlock(b, body, entry + Gen(b, c, false))
    case Match(e, arms) =>
      Diags(b, e, m, false, false) + DiagsArms(b, arms, m + Gen(b, e, false))
    case Return(e) => if e.Some? then Diags(b, e.value, m, true, false) else []
    case ExprStmt(e) => Diags(b, e, m, false, false)
  }

  function DiagsBlock(b: Bindings, block: seq<Stmt>, m: set<Sym>): seq<Diagnostic>
    decreases block
  {
    if block == [] then []
    else DiagsStmt(b, block[0], m) + DiagsBlock(b, block[1..], Apply(EffectOf(b, block[0]), m))
  }

  function DiagsArms(b: Bindings, arms: seq<Arm>, m: set<Sym>): seq<Diagnostic>
    decreases arms
  {
    if arms == [] then [] else DiagsBlock(b, arms[0].block, m) + DiagsArms(b, arms[1..], m)
  }

  // ----- the loop's entry state -----

  /** One turn of the loop search: condition and body from x, joined with the
      state the loop is entered in. */
  function Turn(b: Bindings, c: Expr, body: seq<Stmt>, start: set<Sym>, x: set<Sym>): set<Sym> {
    start + Apply(EffectOfBlock(b, body), x + Gen(b, c, false))
  }

  /** The entry state is a fixed point of the turn and the least set that is
      closed under it; two turns from the start reach it. */
  lemma LoopEntryIsLeast(b: Bindings, c: Expr, body: seq<Stmt>, start: set<Sym>)
    ensures var entry := start + LoopGen(b, c, body);
      && Turn(b, c, body, start, entry) == entry
      && Turn(b, c, body, start, start) == entry
      && forall x: set<Sym> | Turn(b, c, body, start, x) <= x :: entry <= x
  {
  }

  lemma ComposeApplies(f: Effect, g: Effect, m: set<Sym>)
    ensures Apply(Compose(f, g), m) == Apply(g, Apply(f, m))
  {
  }

  /** Everything an expression marks is a local that can move. */
  lemma {:induction false} GenMoves(b: Bindings, e: Expr, consume: bool, s: Sym)
    requires s in Gen(b, e, consume)
    ensures Moves(b, s)
    decreases e
  {
    match e
    case Literal =>
    case Name(_, _) =>
    case Borrow(_, _) =>
    case Unary(x) => GenMoves(b, x, false, s);
    case Binary(_, l, r) =>
      if s in Gen(b, l, false) { GenMoves(b, l, false, s); } else { GenMoves(b, r, false, s); }
    case Field(x, _) => GenMoves(b, x, false, s);
    case Struct(fs) => GenAllMoves(b, fs, true, s);
    case Call(f, kind, args) =>
      match kind {
        case FunctionCall(refParams) => GenArgsMoves(b, args, refParams, s);
        case VariantCall => GenAllMoves(b, args, true, s);
        case UnresolvedCall =>
          GenAllMoves(b, args, false, s);
      }
  }

  lemma {:induction false} GenAllMoves(b: Bindings, es: seq<Expr>, consume: bool, s: Sym)
    requires s in GenAll(b, es, consume)
    ensures Moves(b, s)
    decreases es
  {
    if s in Gen(b, es[0], consume) { GenMoves(b, es[0], consume, s); } else { GenAllMoves(b, es[1..], consume, s); }
  }

  lemma {:induction false} GenArgsMoves(b: Bindings, args: seq<Expr>, refParams: seq<bool>, s: Sym)
    requires s in GenArgs(b, args, refParams)
    ensures Moves(b, s)
    decreases args
  {
    if !refParams[0] && s in Gen(b, args[0], true) {
      GenMoves(b, args[0], true, s);
    } else {
      GenArgsMoves(b, args[1..], refParams[1..], s);
    }
  }

  /** Only bound locals are ever marked. */
  lemma {:induction false} EffectInBindings(b: Bindings, s: Stmt)
    ensures EffectOf(b, s).gen <= b.Keys
    decreases s
  {
    match s
    case Let(_, e) => GenInBindings(b, e, true);
    case Assign(_, e) => GenInBindings(b, e, true);
    case FieldAssign(_, e) => GenInBindings(b, e, true);
    case If(c, t, e) =>
      GenInBindings(b, c, false);
      BlockEffectInBindings(b, t);
      BlockEffectInBindings(b, e);
    case While(c, body) =>
      GenInBindings(b, c, false);
      BlockEffectInBindings(b, body);
    case Match(e, arms) =>
      GenInBindings(b, e, false);
      ArmsGenInBindings(b, arms);
    case Return(e) => if e.Some? { GenInBindings(b, e.value, true); }
    case ExprStmt(e) => GenInBindings(b, e, false);
  }

  lemma {:induction false} BlockEffectInBindings(b: Bindings, block: seq<Stmt>)
    ensures EffectOfBlock(b, block).gen <= b.Keys
    decreases block
  {
    if block != [] {
      EffectInBindings(b, block[0]);
      BlockEffectInBindings(b, block[1..]);
    }
  }

  lemma {:induction false} ArmsGenInBindings(b: Bindings, arms: seq<Arm>)
    ensures ArmsGen(b, arms) <= b.Keys
    decreases arms
  {
    if arms != [] {
      BlockEffectInBindings(b, arms[0].block);
      ArmsGenInBindings(b, arms[1..]);
    }
  }

  lemma GenInBindings(b: Bindings, e: Expr, consume: bool)
    ensures Gen(b, e, consume) <= b.Keys
  {
    forall s | s in Gen(b, e, consume)
      ensures s in b.Keys
    {
      GenMoves(b, e, consume, s);
    }
  }

  // ----- joining branches key by key computes the statement's effect -----

  lemma IfJoins(b: Bindings, s: Stmt, m: set<Sym>, keys: set<Sym>)
    requires s.If? && m <= keys && b.Keys <= keys
    ensures var m1 := m + Gen(b, s.condition, false);
      && (Apply(EffectOfBlock(b, s.thenBlock), m1) + Apply(EffectOfBlock(b, s.elseBlock), m1)) * keys
           == Apply(EffectOf(b, s), m)
      && DiagsStmt(b, s, m) ==
           Diags(b, s.condition, m, false, false) + DiagsBlock(b, s.thenBlock, m1) + DiagsBlock(b, s.elseBlock, m1)
  {
    GenInBindings(b, s.condition, false);
    BlockEffectInBindings(b, s.thenBlock);
    BlockEffectInBindings(b, s.elseBlock);
    hide Gen, EffectOfBlock, Diags, DiagsBlock;
  }

  lemma WhileProjects(b: Bindings, s: Stmt, m: set<Sym>, keys: set<Sym>)
    requires s.While? && m <= keys && b.Keys <= keys
    ensures var entry := m + LoopGen(b, s.condition, s.body);
      var after := entry + Gen(b, s.condition, false);
      && after * keys == Apply(EffectOf(b, s), m)
      && DiagsStmt(b, s, m) == Diags(b, s.condition, entry, false, false) + DiagsBlock(b, s.body, after)
  {
    GenInBindings(b, s.condition, false);
    BlockEffectInBindings(b, s.body);
    hide Gen, EffectOfBlock, Diags, DiagsBlock;
  }

  lemma MatchJoins(b: Bindings, s: Stmt, m: set<Sym>, ends: set<Sym>)
    requires s.Match?
    requires var m1 := m + Gen(b, s.scrutinee, false); m1 + ends == m1 + ArmsGen(b, s.arms)
    ensures var m1 := m + Gen(b, s.scrutinee, false);
      && m1 + MatchedLocal(b, s.scrutinee) + ends == Apply(EffectOf(b, s), m)
      && DiagsStmt(b, s, m) == Diags(b, s.scrutinee, m, false, false) + DiagsArms(b, s.arms, m1)
  {
    hide Gen, ArmsGen, MatchedLocal, Diags, DiagsArms;
    var m1 := m + Gen(b, s.scrutinee, false);
    forall x
      ensures x in m1 + MatchedLocal(b, s.scrutinee) + ends <==> x in Apply(EffectOf(b, s), m)
    {
      assert x in m1 + ends <==> x in m1 + ArmsGen(b, s.arms);
    }
  }

  lemma RebindingEffect(b: Bindings, s: Stmt, sym: Option<Sym>, e: Expr, m: set<Sym>)
    requires s == Let(sym, e) || s == Assign(sym, e)
    ensures Apply(EffectOf(b, s), m) == (m + Gen(b, e, true)) - Syms(sym)
    ensures DiagsStmt(b, s, m) == Diags(b, e, m, true, false)
  {
    hide Gen, Diags;
  }

  lemma PlainEffect(b: Bindings, s: Stmt, m: set<Sym>)
    ensures s.FieldAssign? ==> Apply(EffectOf(b, s), m) == m + Gen(b, s.value, true)
    ensures s.Return? && s.result.Some? ==> Apply(EffectOf(b, s), m) == m + Gen(b, s.result.value, true)
    ensures s.Return? && s.result.None? ==> Apply(EffectOf(b, s), m) == m
    ensures s.ExprStmt? ==> Apply(EffectOf(b, s), m) == m + Gen(b, s.expr, false)
  {
    hide Gen;
  }

  lemma NoArguments(b: Bindings, args: seq<Expr>, refParams: seq<bool>, m: set<Sym>,
                    borrowed: map<Sym, bool>, consumed: set<Sym>)
    requires args == [] || refParams == []
    ensures GenArgs(b, args, refParams) == {}
    ensures DiagsArgs(b, args, refParams, m, borrowed, consumed) == []
  {
  }

  function RefArgumentDiags(b: Bindings, arg: Expr, m: set<Sym>, borrowed: map<Sym, bool>, consumed: set<Sym>): seq<Diagnostic>
    requires arg.Borrow? && arg.sym.Some?
  {
    (if Conflicts(borrowed, arg.sym.value, arg.mutable) then [ConflictingBorrows(arg.sym.value)] else [])
    + (if arg.sym.value in consumed then [MoveAndBorrow(arg.sym.value)] else [])
    + Diags(b, arg, m, false, true)
  }

  /** One argument's share of the effect and the diagnostics of a call. */
  lemma ArgumentStep(b: Bindings, args: seq<Expr>, refParams: seq<bool>, m: set<Sym>,
                     borrowed: map<Sym, bool>, consumed: set<Sym>)
    requires args != [] && refParams != []
    ensures var arg := args[0]; var s := ExprSymbol(arg);
      if refParams[0] then
        && GenArgs(b, args, refParams) == GenArgs(b, args[1..], refParams[1..])
        && (arg.Borrow? && arg.sym.Some? ==>
              DiagsArgs(b, args, refParams, m, borrowed, consumed) ==
              RefArgumentDiags(b, arg, m, borrowed, consumed) +
              DiagsArgs(b, args[1..], refParams[1..], m, borrowed[arg.sym.value := arg.mutable], consumed))
        && (!(arg.Borrow? && arg.sym.Some?) ==>
              DiagsArgs(b, args, refParams, m, borrowed, consumed) ==
              DiagsArgs(b, args[1..], refParams[1..], m, borrowed, consumed))
      else
        && GenArgs(b, args, refParams) == Gen(b, arg, true) + GenArgs(b, args[1..], refParams[1..])
        && DiagsArgs(b, args, refParams, m, borrowed, consumed) ==
           (if s.Some? && s.value in borrowed then [MoveAndBorrow(s.value)] else []) + Diags(b, arg, m, true, true) +
           DiagsArgs(b, args[1..], refParams[1..], m + Gen(b, arg, true), borrowed,
                     if s.Some? then consumed + {s.value} else consumed)
  {
    hide Gen, Diags, Conflicts;
  }
}
