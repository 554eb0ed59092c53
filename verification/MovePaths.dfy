/** What a body can do when it runs: a path is the run picked by a sequence of
    choices. */
module MovePaths {
  import opened MoveSyntax

  /** Use, BorrowOf and Consume access the value of a local. Bind gives it a new
      value. Retire marks the end of a match on it; WriteField stores into it. */
  datatype Event =
    | Use(sym: Sym)
    | BorrowOf(sym: Sym)
    | Consume(sym: Sym)
    | Bind(sym: Sym)
    | Retire(sym: Sym)
    | WriteField(sym: Sym)

  /** Choices: branch taken, loop continued, arm selected, right operand evaluated. A
      run whose choices give out is cut short, so prefixes of endless runs are covered. */
  datatype Flow = Running | Returned | Cut

  datatype Run = Run(events: seq<Event>, rest: seq<nat>, flow: Flow)

  function Then(r: Run, next: Run): Run
    requires r.flow == Running
  {
    Run(r.events + next.events, next.rest, next.flow)
  }

  function Emit(es: seq<Event>, ch: seq<nat>): Run {
    Run(es, ch, Running)
  }

  // ----- expressions -----

  function EvalExpr(b: Bindings, e: Expr, consume: bool, ch: seq<nat>): (r: Run)
    ensures |r.rest| <= |ch|
    decreases e, |ch|
  {
    match e
    case Literal => Emit([], ch)
    case Name(local, sym) =>
      if local && sym.Some? && sym.value in b then
        Emit([if consume && Moves(b, sym.value) then Consume(sym.value) else Use(sym.value)], ch)
      else Emit([], ch)
    case Borrow(_, sym) => Emit(if sym.Some? then [BorrowOf(sym.value)] else [], ch)
    case Unary(x) => EvalExpr(b, x, false, ch)
    case Binary(logical, l, r) =>
      var left := EvalExpr(b, l, false, ch);
      if left.flow != Running then left
      else if !logical then Then(left, EvalExpr(b, r, false, left.rest))
      else if left.rest == [] then left.(flow := Cut)
      else if left.rest[0] % 2 == 0 then left.(rest := left.rest[1..])
      else Then(left, EvalExpr(b, r, false, left.rest[1..]))
    case Field(x, _) => EvalExpr(b, x, false, ch)
    case Struct(fs) => EvalAll(b, fs, true, ch)
    case Call(f, kind, args) =>
      if f.Name? && kind.FunctionCall? then EvalArgs(b, args, kind.refParams, ch)
      else if f.Name? && kind.VariantCall? then EvalAll(b, args, true, ch)
      else
        var callee := EvalExpr(b, f, false, ch);
        if callee.flow != Running then callee
        else Then(callee, EvalAll(b, args, false, callee.rest))
  }

  function EvalAll(b: Bindings, es: seq<Expr>, consume: bool, ch: seq<nat>): (r: Run)
    ensures |r.rest| <= |ch|
    decreases es, |ch|
  {
    if es == [] then Emit([], ch)
    else
      var first := EvalExpr(b, es[0], consume, ch);
      if first.flow != Running then first
      else Then(first, EvalAll(b, es[1..], consume, first.rest))
  }

  /** Arguments left to right, each consumed unless its parameter is a reference. */
  function EvalArgs(b: Bindings, args: seq<Expr>, refParams: seq<bool>, ch: seq<nat>): (r: Run)
    ensures |r.rest| <= |ch|
    decreases args, |ch|
  {
    if args == [] then Emit([], ch)
    else
      var byRef := refParams != [] && refParams[0];
      var first := EvalExpr(b, args[0], !byRef, ch);
      if first.flow != Running then first
      else Then(first, EvalArgs(b, args[1..], if refParams == [] then [] else refParams[1..], first.rest))
  }

  // ----- statements -----

  function Binds(syms: seq<Sym>): seq<Event> {
    seq(|syms|, i requires 0 <= i < |syms| => Bind(syms[i]))
  }

  function BindTo(sym: Option<Sym>): seq<Event> {
    if sym.Some? then [Bind(sym.value)] else []
  }

  /** A completed match on a bare non-copy local ends that local. */
  function Scrutinised(b: Bindings, e: Expr): seq<Event> {
    var s := ExprSymbol(e);
    if s.Some? && s.value in b && !b[s.value].copy then [Retire(s.value)] else []
  }

  function ExecStmt(b: Bindings, s: Stmt, ch: seq<nat>): (r: Run)
    ensures |r.rest| <= |ch|
    decreases |ch|, s
  {
    match s
    case Let(sym, e) =>
      var r := EvalExpr(b, e, true, ch);
      if r.flow != Running then r else Then(r, Emit(BindTo(sym), r.rest))
    case Assign(sym, e) =>
      var r := EvalExpr(b, e, true, ch);
      if r.flow != Running then r else Then(r, Emit(BindTo(sym), r.rest))
    case FieldAssign(sym, e) =>
      var r := EvalExpr(b, e, true, ch);
      if r.flow != Running then r
      else Then(r, Emit(if sym.Some? then [WriteField(sym.value)] else [], r.rest))
    case If(c, t, e) =>
      var r := EvalExpr(b, c, false, ch);
      if r.flow != Running then r
      else if r.rest == [] then r.(flow := Cut)
      else if r.rest[0] % 2 == 1 then Then(r, ExecBlock(b, t, r.rest[1..]))
      else Then(r, ExecBlock(b, e, r.rest[1..]))
    case While(c, body) =>
      var r := EvalExpr(b, c, false, ch);
      if r.flow != Running then r
      else if r.rest == [] then r.(flow := Cut)
      else if r.rest[0] % 2 == 0 then r.(rest := r.rest[1..])
      else
        var once := Then(r, ExecBlock(b, body, r.rest[1..]));
        if once.flow != Running then once
        else Then(once, ExecStmt(b, s, once.rest))
    case Match(e, arms) =>
      var r := EvalExpr(b, e, false, ch);
      if r.flow != Running then r
      else if arms == [] then Then(r, Emit(Scrutinised(b, e), r.rest))
      else if r.rest == [] then r.(flow := Cut)
      else
        var arm := arms[r.rest[0] % |arms|];
        var entered := Then(r, Emit(Binds(PatternSymbols(arm.pattern)), r.rest[1..]));
        var done := Then(entered, ExecBlock(b, arm.block, entered.rest));
        if done.flow != Running then done
        else Then(done, Emit(Scrutinised(b, e), done.rest))
    case Return(e) =>
      if e.None? then Run([], ch, Returned)
      else
        var r := EvalExpr(b, e.value, true, ch);
        if r.flow != Running then r else r.(flow := Returned)
    case ExprStmt(e) => EvalExpr(b, e, false, ch)
  }

  function ExecBlock(b: Bindings, block: seq<Stmt>, ch: seq<nat>): (r: Run)
    ensures |r.rest| <= |ch|
    decreases |ch|, block
  {
    if block == [] then Emit([], ch)
    else
      var first := ExecStmt(b, block[0], ch);
      if first.flow != Running then first
      else Then(first, ExecBlock(b, block[1..], first.rest))
  }

  // ----- safety of a trace -----

  predicate Ends(ev: Event, s: Sym) {
    ev == Consume(s) || ev == Retire(s)
  }

  /** At position j, s has been given up and not bound again. */
  ghost predicate MovedAt(tr: seq<Event>, j: nat, s: Sym)
    requires j <= |tr|
  {
    exists i :: 0 <= i < j && Ends(tr[i], s) && forall k | i < k < j :: tr[k] != Bind(s)
  }

  predicate Owned(b: Bindings, s: Sym) {
    s in b && !b[s].refParam
  }

  predicate Accesses(ev: Event) {
    ev.Use? || ev.BorrowOf? || ev.Consume?
  }

  /** How strict a reading of "access" is: reading, borrowing and consuming;
      storing into a field as well; completing a match on a local as well. */
  datatype Strictness = Plain | Writes | Completions

  predicate Counts(level: Strictness, ev: Event) {
    Accesses(ev) || (!level.Plain? && ev.WriteField?) || (level.Completions? && ev.Retire?)
  }

  /** No owned local is accessed after it was given up and before it is bound
      again. */
  ghost predicate SafeTrace(b: Bindings, level: Strictness, tr: seq<Event>) {
    forall j | 0 <= j < |tr| && Counts(level, tr[j]) && Owned(b, tr[j].sym) :: !MovedAt(tr, j, tr[j].sym)
  }

  // ----- the same by running along the trace -----

  function Step(m: set<Sym>, ev: Event): set<Sym> {
    match ev
    case Consume(s) => m + {s}
    case Retire(s) => m + {s}
    case Bind(s) => m - {s}
    case _ => m
  }

  function After(m: set<Sym>, tr: seq<Event>): set<Sym>
    decreases tr
  {
    if tr == [] then m else After(Step(m, tr[0]), tr[1..])
  }

  predicate SafeFrom(b: Bindings, level: Strictness, m: set<Sym>, tr: seq<Event>)
    decreases tr
  {
    tr == [] ||
    (!(Counts(level, tr[0]) && Owned(b, tr[0].sym) && tr[0].sym in m)
     && SafeFrom(b, level, Step(m, tr[0]), tr[1..]))
  }

  lemma {:induction false} AfterConcat(m: set<Sym>, x: seq<Event>, y: seq<Event>)
    ensures After(m, x + y) == After(After(m, x), y)
    decreases x
  {
    if x == [] {
      assert x + y == y;
    } else {
      assert (x + y)[1..] == x[1..] + y;
      AfterConcat(Step(m, x[0]), x[1..], y);
    }
  }

  lemma {:induction false} SafeConcat(b: Bindings, level: Strictness, m: set<Sym>, x: seq<Event>, y: seq<Event>)
    ensures SafeFrom(b, level, m, x + y) <==>
            SafeFrom(b, level, m, x) && SafeFrom(b, level, After(m, x), y)
    decreases x
  {
    if x == [] {
      assert x + y == y;
    } else {
      assert (x + y)[1..] == x[1..] + y;
      SafeConcat(b, level, Step(m, x[0]), x[1..], y);
    }
  }

  /** The running set is exactly the positional notion. */
  lemma {:induction false} AfterIsMovedAt(tr: seq<Event>, s: Sym)
    ensures s in After({}, tr) <==> MovedAt(tr, |tr|, s)
  {
    if tr != [] {
      var n := |tr| - 1;
      var prefix := tr[..n];
      assert tr == prefix + [tr[n]];
      AfterConcat({}, prefix, [tr[n]]);
      assert After(After({}, prefix), [tr[n]]) == Step(After({}, prefix), tr[n]);
      AfterIsMovedAt(prefix, s);
      MovedAtLast(tr, s);
    }
  }

  lemma MovedAtLast(tr: seq<Event>, s: Sym)
    requires tr != []
    ensures MovedAt(tr, |tr|, s) <==>
              Ends(tr[|tr| - 1], s) || (tr[|tr| - 1] != Bind(s) && MovedAt(tr[..|tr| - 1], |tr| - 1, s))
  {
    var n := |tr| - 1;
    if MovedAt(tr, |tr|, s) && !Ends(tr[n], s) {
      var i :| 0 <= i < |tr| && Ends(tr[i], s) && forall k | i < k < |tr| :: tr[k] != Bind(s);
      assert Ends(tr[..n][i], s);
    }
    if tr[n] != Bind(s) && MovedAt(tr[..n], n, s) {
      var i :| 0 <= i < n && Ends(tr[..n][i], s) && forall k | i < k < n :: tr[..n][k] != Bind(s);
      assert Ends(tr[i], s);
      assert forall k | i < k < |tr| :: tr[k] != Bind(s) by {
        assert forall k | i < k < n :: tr[k] == tr[..n][k];
      }
    }
    if Ends(tr[n], s) {
      assert MovedAt(tr, |tr|, s);
    }
  }

  lemma MovedAtPrefix(tr: seq<Event>, j: nat, s: Sym)
    requires j <= |tr|
    ensures MovedAt(tr, j, s) <==> MovedAt(tr[..j], j, s)
  {
    assert forall i | 0 <= i < j :: tr[..j][i] == tr[i];
    if MovedAt(tr, j, s) {
      var i :| 0 <= i < j && Ends(tr[i], s) && forall k | i < k < j :: tr[k] != Bind(s);
      assert Ends(tr[..j][i], s);
    }
    if MovedAt(tr[..j], j, s) {
      var i :| 0 <= i < j && Ends(tr[..j][i], s) && forall k | i < k < j :: tr[..j][k] != Bind(s);
      assert Ends(tr[i], s);
      assert forall k | i < k < j :: tr[k] == tr[..j][k];
    }
  }

  lemma {:induction false} SafeFromIffSafe(b: Bindings, level: Strictness, tr: seq<Event>)
    ensures SafeFrom(b, level, {}, tr) <==> SafeTrace(b, level, tr)
  {
    if tr != [] {
      var n := |tr| - 1;
      var prefix := tr[..n];
      assert tr == prefix + [tr[n]];
      SafeFromIffSafe(b, level, prefix);
      SafeConcat(b, level, {}, prefix, [tr[n]]);
      AfterIsMovedAt(prefix, tr[n].sym);
      MovedAtPrefix(tr, n, tr[n].sym);
      forall j | 0 <= j < n
        ensures MovedAt(tr, j, tr[j].sym) <==> MovedAt(prefix, j, prefix[j].sym)
      {
        MovedAtPrefix(tr, j, tr[j].sym);
        MovedAtPrefix(prefix, j, tr[j].sym);
        assert tr[..j] == prefix[..j];
      }
      SafeLast(b, level, tr);
    }
  }

  ghost predicate LastSafe(b: Bindings, level: Strictness, tr: seq<Event>)
    requires tr != []
  {
    var n := |tr| - 1;
    !(Counts(level, tr[n]) && Owned(b, tr[n].sym) && MovedAt(tr, n, tr[n].sym))
  }

  lemma SafeLast(b: Bindings, level: Strictness, tr: seq<Event>)
    requires tr != []
    requires forall j | 0 <= j < |tr| - 1 ::
               MovedAt(tr, j, tr[j].sym) <==> MovedAt(tr[..|tr| - 1], j, tr[..|tr| - 1][j].sym)
    ensures SafeTrace(b, level, tr) <==> LastSafe(b, level, tr) && SafeTrace(b, level, tr[..|tr| - 1])
  {
    hide MovedAt;
    var p := tr[..|tr| - 1];
    assert forall j | 0 <= j < |p| :: p[j] == tr[j];
  }
}
