/** One local at a time: can a body leave it given up, and can it touch it while it
    is given up? Both are answered from the text of the body, and exactly: the
    answer is yes when, and only when, some path does it. */
module MoveOutcomes {
  import opened MoveSyntax
  import opened MovePaths

  // ----- a trace as one local sees it -----

  function Now(x: Sym, moved: bool, ev: Event): bool {
    Ends(ev, x) || (moved && ev != Bind(x))
  }

  function NowAfter(x: Sym, moved: bool, tr: seq<Event>): bool
    decreases tr
  {
    if tr == [] then moved else NowAfter(x, Now(x, moved, tr[0]), tr[1..])
  }

  predicate SafeFor(level: Strictness, x: Sym, moved: bool, tr: seq<Event>)
    decreases tr
  {
    tr == [] ||
    (!(Counts(level, tr[0]) && tr[0].sym == x && moved) && SafeFor(level, x, Now(x, moved, tr[0]), tr[1..]))
  }

  lemma {:induction false} TrackConcat(level: Strictness, x: Sym, moved: bool, s: seq<Event>, t: seq<Event>)
    ensures NowAfter(x, moved, s + t) == NowAfter(x, NowAfter(x, moved, s), t)
    ensures SafeFor(level, x, moved, s + t) <==>
            SafeFor(level, x, moved, s) && SafeFor(level, x, NowAfter(x, moved, s), t)
    decreases s
  {
    if s == [] {
      assert s + t == t;
    } else {
      assert (s + t)[1..] == s[1..] + t;
      TrackConcat(level, x, Now(x, moved, s[0]), s[1..], t);
    }
  }

  /** Locals do not get in each other's way. */
  lemma {:induction false} Pointwise(b: Bindings, level: Strictness, m: set<Sym>, tr: seq<Event>)
    ensures forall x :: x in After(m, tr) <==> NowAfter(x, x in m, tr)
    ensures SafeFrom(b, level, m, tr) <==> forall x | Owned(b, x) :: SafeFor(level, x, x in m, tr)
    decreases tr
  {
    if tr != [] {
      Pointwise(b, level, Step(m, tr[0]), tr[1..]);
      assert forall x :: x in Step(m, tr[0]) <==> Now(x, x in m, tr[0]);
      if SafeFrom(b, level, m, tr) {
        forall x | Owned(b, x)
          ensures SafeFor(level, x, x in m, tr)
        {
          assert SafeFor(level, x, x in Step(m, tr[0]), tr[1..]);
        }
      }
      if forall x | Owned(b, x) :: SafeFor(level, x, x in m, tr) {
        forall x | Owned(b, x)
          ensures SafeFor(level, x, x in Step(m, tr[0]), tr[1..])
        {
          assert SafeFor(level, x, x in m, tr);
        }
        assert Owned(b, tr[0].sym) ==> SafeFor(level, tr[0].sym, tr[0].sym in m, tr);
      }
    }
  }

  /** No run does worse than this. */
  ghost predicate Within(level: Strictness, x: Sym, moved: bool, r: Run, after: bool, bad: bool) {
    && (r.flow == Running && NowAfter(x, moved, r.events) ==> after)
    && (!SafeFor(level, x, moved, r.events) ==> bad)
  }

  /** This run does just this, and goes on with these choices. */
  ghost predicate Does(level: Strictness, x: Sym, moved: bool, r: Run, tail: seq<nat>, after: bool, bad: bool) {
    && r.flow == Running && r.rest == tail
    && NowAfter(x, moved, r.events) == after
    && (SafeFor(level, x, moved, r.events) <==> !bad)
  }

  lemma WithinThen(level: Strictness, x: Sym, moved: bool, r: Run, mid: bool, bad: bool, next: Run, after: bool, worse: bool)
    requires r.flow == Running && Within(level, x, moved, r, mid, bad) && (bad ==> worse)
    requires Within(level, x, NowAfter(x, moved, r.events), next, after, worse)
    ensures Within(level, x, moved, Then(r, next), after, worse)
  {
    TrackConcat(level, x, moved, r.events, next.events);
  }

  lemma DoesThen(level: Strictness, x: Sym, moved: bool, r: Run, mid: seq<nat>, m1: bool, bad: bool,
                 next: Run, tail: seq<nat>, m2: bool, worse: bool)
    requires Does(level, x, moved, r, mid, m1, bad) && Does(level, x, m1, next, tail, m2, worse)
    ensures Does(level, x, moved, Then(r, next), tail, m2, bad || worse)
  {
    TrackConcat(level, x, moved, r.events, next.events);
  }

  lemma OneEvent(level: Strictness, x: Sym, moved: bool, ev: Event)
    ensures NowAfter(x, moved, [ev]) == Now(x, moved, ev)
    ensures SafeFor(level, x, moved, [ev]) <==> !(Counts(level, ev) && ev.sym == x && moved)
  {
    assert [ev][1..] == [];
    assert NowAfter(x, moved, [ev]) == NowAfter(x, Now(x, moved, ev), []);
    assert SafeFor(level, x, Now(x, moved, ev), []);
  }

  // ----- expressions -----

  /** Some run of the expression gives x up. */
  predicate Takes(b: Bindings, e: Expr, consume: bool, x: Sym)
    decreases e
  {
    match e
    case Literal => false
    case Name(local, sym) => local && sym == Some(x) && consume && Moves(b, x)
    case Borrow(_, _) => false
    case Unary(o) => Takes(b, o, false, x)
    case Binary(_, l, r) => Takes(b, l, false, x) || Takes(b, r, false, x)
    case Field(o, _) => Takes(b, o, false, x)
    case Struct(fs) => TakesAll(b, fs, true, x)
    case Call(f, kind, args) =>
      if f.Name? && kind.FunctionCall? then TakesArgs(b, args, kind.refParams, x)
      else if f.Name? && kind.VariantCall? then TakesAll(b, args, true, x)
      else Takes(b, f, false, x) || TakesAll(b, args, false, x)
  }

  predicate TakesAll(b: Bindings, es: seq<Expr>, consume: bool, x: Sym)
    decreases es
  {
    es != [] && (Takes(b, es[0], consume, x) || TakesAll(b, es[1..], consume, x))
  }

  predicate TakesArgs(b: Bindings, args: seq<Expr>, refParams: seq<bool>, x: Sym)
    decreases args
  {
    args != [] &&
    (Takes(b, args[0], ByValue(refParams), x) || TakesArgs(b, args[1..], Others(refParams), x))
  }

  /** The first parameter, and the ones after it; a missing one is by value. */
  predicate ByValue(refParams: seq<bool>) {
    refParams == [] || !refParams[0]
  }

  function Others(refParams: seq<bool>): seq<bool> {
    if refParams == [] then [] else refParams[1..]
  }

  /** Some run of the expression touches x while x is given up. */
  predicate Trips(b: Bindings, e: Expr, consume: bool, x: Sym, moved: bool)
    decreases e
  {
    match e
    case Literal => false
    case Name(local, sym) => local && sym == Some(x) && x in b && moved
    case Borrow(_, sym) => sym == Some(x) && moved
    case Unary(o) => Trips(b, o, false, x, moved)
    case Binary(_, l, r) => Trips(b, l, false, x, moved) || Trips(b, r, false, x, moved || Takes(b, l, false, x))
    case Field(o, _) => Trips(b, o, false, x, moved)
    case Struct(fs) => TripsAll(b, fs, true, x, moved)
    case Call(f, kind, args) =>
      if f.Name? && kind.FunctionCall? then TripsArgs(b, args, kind.refParams, x, moved)
      else if f.Name? && kind.VariantCall? then TripsAll(b, args, true, x, moved)
      else Trips(b, f, false, x, moved) || TripsAll(b, args, false, x, moved || Takes(b, f, false, x))
  }

  predicate TripsAll(b: Bindings, es: seq<Expr>, consume: bool, x: Sym, moved: bool)
    decreases es
  {
    es != [] &&
    (Trips(b, es[0], consume, x, moved) || TripsAll(b, es[1..], consume, x, moved || Takes(b, es[0], consume, x)))
  }

  predicate TripsArgs(b: Bindings, args: seq<Expr>, refParams: seq<bool>, x: Sym, moved: bool)
    decreases args
  {
    args != [] &&
    (Trips(b, args[0], ByValue(refParams), x, moved) ||
     TripsArgs(b, args[1..], Others(refParams), x, moved || Takes(b, args[0], ByValue(refParams), x)))
  }

  /** The choices that evaluate every operand. */
  function Full(e: Expr, tail: seq<nat>): seq<nat>
    decreases e
  {
    match e
    case Unary(o) => Full(o, tail)
    case Binary(logical, l, r) => Full(l, if logical then [1] + Full(r, tail) else Full(r, tail))
    case Field(o, _) => Full(o, tail)
    case Struct(fs) => FullAll(fs, tail)
    case Call(f, kind, args) =>
      if f.Name? && !kind.UnresolvedCall? then FullAll(args, tail) else Full(f, FullAll(args, tail))
    case _ => tail
  }

  function FullAll(es: seq<Expr>, tail: seq<nat>): seq<nat>
    decreases es
  {
    if es == [] then tail else Full(es[0], FullAll(es[1..], tail))
  }

  /** On those choices the expression does all it can do. */
  lemma {:induction false} FullDoes(b: Bindings, level: Strictness, e: Expr, consume: bool, x: Sym, moved: bool, tail: seq<nat>)
    ensures Does(level, x, moved, EvalExpr(b, e, consume, Full(e, tail)), tail,
                 moved || Takes(b, e, consume, x), Trips(b, e, consume, x, moved))
    decreases e
  {
    hide Does, SafeFor, NowAfter;
    match e
    case Literal => NoEventDoes(level, x, moved, tail);
    case Name(local, sym) => NameDoes(b, level, e, consume, x, moved, tail);
    case Borrow(_, sym) =>
      if sym.Some? {
        OneEventDoes(level, x, moved, BorrowOf(sym.value), tail);
      } else {
        NoEventDoes(level, x, moved, tail);
      }
    case Unary(o) => FullDoes(b, level, o, false, x, moved, tail);
    case Binary(_, _, _) => FullBinaryDoes(b, level, e, consume, x, moved, tail);
    case Field(o, _) => FullDoes(b, level, o, false, x, moved, tail);
    case Struct(fs) => FullAllDoes(b, level, fs, true, x, moved, tail);
    case Call(f, kind, args) =>
      if f.Name? && kind.FunctionCall? {
        FullArgsDoes(b, level, args, kind.refParams, x, moved, tail);
      } else if f.Name? && kind.VariantCall? {
        FullAllDoes(b, level, args, true, x, moved, tail);
      } else {
        FullCalleeDoes(b, level, e, consume, x, moved, tail);
      }
  }

  lemma {:induction false} FullBinaryDoes(b: Bindings, level: Strictness, e: Expr, consume: bool, x: Sym, moved: bool, tail: seq<nat>)
    requires e.Binary?
    ensures Does(level, x, moved, EvalExpr(b, e, consume, Full(e, tail)), tail,
                 moved || Takes(b, e, consume, x), Trips(b, e, consume, x, moved))
    decreases e, 0
  {
    hide Does, SafeFor, NowAfter;
    var l, r := e.left, e.right;
    var right := Full(r, tail);
    var mid := if e.logical then [1] + right else right;
    var m1 := moved || Takes(b, l, false, x);
    FullDoes(b, level, l, false, x, moved, mid);
    FullDoes(b, level, r, false, x, m1, tail);
    var left := EvalExpr(b, l, false, Full(e, tail));
    DoesFlow(level, x, moved, left, mid, m1, Trips(b, l, false, x, moved));
    if e.logical {
      assert mid[1..] == right;
    }
    DoesThen(level, x, moved, left, mid, m1, Trips(b, l, false, x, moved),
      EvalExpr(b, r, false, right), tail, moved || Takes(b, e, consume, x), Trips(b, r, false, x, m1));
  }

  /** A call whose callee is evaluated like any expression. */
  lemma {:induction false} FullCalleeDoes(b: Bindings, level: Strictness, e: Expr, consume: bool, x: Sym, moved: bool, tail: seq<nat>)
    requires e.Call? && !(e.callee.Name? && (e.kind.FunctionCall? || e.kind.VariantCall?))
    ensures Does(level, x, moved, EvalExpr(b, e, consume, Full(e, tail)), tail,
                 moved || Takes(b, e, consume, x), Trips(b, e, consume, x, moved))
    decreases e, 0
  {
    hide Does, SafeFor, NowAfter;
    var f, args, rest := e.callee, e.args, FullAll(e.args, tail);
    var m1 := moved || Takes(b, f, false, x);
    FullDoes(b, level, f, false, x, moved, rest);
    FullAllDoes(b, level, args, false, x, m1, tail);
    var callee := EvalExpr(b, f, false, Full(e, tail));
    DoesFlow(level, x, moved, callee, rest, m1, Trips(b, f, false, x, moved));
    DoesThen(level, x, moved, callee, rest, m1, Trips(b, f, false, x, moved),
      EvalAll(b, args, false, rest), tail, moved || Takes(b, e, consume, x), TripsAll(b, args, false, x, m1));
  }

  lemma DoesFlow(level: Strictness, x: Sym, moved: bool, r: Run, tail: seq<nat>, after: bool, bad: bool)
    requires Does(level, x, moved, r, tail, after, bad)
    ensures r.flow == Running && r.rest == tail && NowAfter(x, moved, r.events) == after
    ensures SafeFor(level, x, moved, r.events) <==> !bad
  {
  }

  lemma NoEventDoes(level: Strictness, x: Sym, moved: bool, tail: seq<nat>)
    ensures Does(level, x, moved, Emit([], tail), tail, moved, false)
  {
  }

  lemma OneEventDoes(level: Strictness, x: Sym, moved: bool, ev: Event, tail: seq<nat>)
    ensures Does(level, x, moved, Emit([ev], tail), tail, Now(x, moved, ev), Counts(level, ev) && ev.sym == x && moved)
  {
    OneEvent(level, x, moved, ev);
  }

  lemma NameDoes(b: Bindings, level: Strictness, e: Expr, consume: bool, x: Sym, moved: bool, tail: seq<nat>)
    requires e.Name?
    ensures Does(level, x, moved, EvalExpr(b, e, consume, tail), tail,
                 moved || Takes(b, e, consume, x), Trips(b, e, consume, x, moved))
  {
    hide Does;
    if e.local && e.sym.Some? && e.sym.value in b {
      OneEventDoes(level, x, moved, if consume && Moves(b, e.sym.value) then Consume(e.sym.value) else Use(e.sym.value), tail);
    } else {
      NoEventDoes(level, x, moved, tail);
    }
  }

  lemma {:induction false} FullAllDoes(b: Bindings, level: Strictness, es: seq<Expr>, consume: bool, x: Sym, moved: bool, tail: seq<nat>)
    ensures Does(level, x, moved, EvalAll(b, es, consume, FullAll(es, tail)), tail,
                 moved || TakesAll(b, es, consume, x), TripsAll(b, es, consume, x, moved))
    decreases es
  {
    hide Does, SafeFor, NowAfter, Takes, Trips;
    if es == [] {
      NoEventDoes(level, x, moved, tail);
    } else {
      var rest := FullAll(es[1..], tail);
      var m1 := moved || Takes(b, es[0], consume, x);
      FullDoes(b, level, es[0], consume, x, moved, rest);
      FullAllDoes(b, level, es[1..], consume, x, m1, tail);
      var first := EvalExpr(b, es[0], consume, FullAll(es, tail));
      DoesFlow(level, x, moved, first, rest, m1, Trips(b, es[0], consume, x, moved));
      DoesThen(level, x, moved, first, rest, m1, Trips(b, es[0], consume, x, moved),
        EvalAll(b, es[1..], consume, rest), tail, moved || TakesAll(b, es, consume, x), TripsAll(b, es[1..], consume, x, m1));
    }
  }

  lemma {:induction false} FullArgsDoes(b: Bindings, level: Strictness, args: seq<Expr>, refParams: seq<bool>, x: Sym, moved: bool, tail: seq<nat>)
    ensures Does(level, x, moved, EvalArgs(b, args, refParams, FullAll(args, tail)), tail,
                 moved || TakesArgs(b, args, refParams, x), TripsArgs(b, args, refParams, x, moved))
    decreases args
  {
    hide Does, SafeFor, NowAfter, Takes, Trips;
    if args == [] {
      NoEventDoes(level, x, moved, tail);
    } else {
      var rest, value := FullAll(args[1..], tail), ByValue(refParams);
      var m1 := moved || Takes(b, args[0], value, x);
      FullDoes(b, level, args[0], value, x, moved, rest);
      FullArgsDoes(b, level, args[1..], Others(refParams), x, m1, tail);
      var first := EvalExpr(b, args[0], value, FullAll(args, tail));
      DoesFlow(level, x, moved, first, rest, m1, Trips(b, args[0], value, x, moved));
      DoesThen(level, x, moved, first, rest, m1, Trips(b, args[0], value, x, moved),
        EvalArgs(b, args[1..], Others(refParams), rest), tail,
        moved || TakesArgs(b, args, refParams, x), TripsArgs(b, args[1..], Others(refParams), x, m1));
    }
  }

  /** On any choices it does no more. */
  lemma {:induction false} AnyExpr(b: Bindings, level: Strictness, e: Expr, consume: bool, x: Sym, moved: bool, may: bool, ch: seq<nat>)
    requires moved ==> may
    ensures Within(level, x, moved, EvalExpr(b, e, consume, ch), may || Takes(b, e, consume, x), Trips(b, e, consume, x, may))
    decreases e
  {
    hide Within, SafeFor, NowAfter;
    match e
    case Literal => NoEventWithin(level, x, moved, may, ch);
    case Name(_, _) => NameWithin(b, level, e, consume, x, moved, may, ch);
    case Borrow(_, sym) =>
      if sym.Some? {
        OneEventWithin(level, x, moved, may, BorrowOf(sym.value), ch);
      } else {
        NoEventWithin(level, x, moved, may, ch);
      }
    case Unary(o) => AnyExpr(b, level, o, false, x, moved, may, ch);
    case Binary(_, _, _) => AnyBinary(b, level, e, consume, x, moved, may, ch);
    case Field(o, _) => AnyExpr(b, level, o, false, x, moved, may, ch);
    case Struct(fs) => AnyAll(b, level, fs, true, x, moved, may, ch);
    case Call(f, kind, args) =>
      if f.Name? && kind.FunctionCall? {
        AnyArgs(b, level, args, kind.refParams, x, moved, may, ch);
      } else if f.Name? && kind.VariantCall? {
        AnyAll(b, level, args, true, x, moved, may, ch);
      } else {
        AnyCallee(b, level, e, consume, x, moved, may, ch);
      }
  }

  lemma {:induction false} AnyBinary(b: Bindings, level: Strictness, e: Expr, consume: bool, x: Sym, moved: bool, may: bool, ch: seq<nat>)
    requires e.Binary? && (moved ==> may)
    ensures Within(level, x, moved, EvalExpr(b, e, consume, ch), may || Takes(b, e, consume, x), Trips(b, e, consume, x, may))
    decreases e, 0
  {
    hide Within, SafeFor, NowAfter;
    var l, r, left := e.left, e.right, EvalExpr(b, e.left, false, ch);
    var m1, bad1 := may || Takes(b, l, false, x), Trips(b, l, false, x, may);
    var after, bad := may || Takes(b, e, consume, x), Trips(b, e, consume, x, may);
    AnyExpr(b, level, l, false, x, moved, may, ch);
    WithinFlow(level, x, moved, left, m1, bad1, after, bad);
    if left.flow == Running && (!e.logical || left.rest != []) {
      var now, rest := NowAfter(x, moved, left.events), if e.logical then left.rest[1..] else left.rest;
      var next := EvalExpr(b, r, false, rest);
      AnyExpr(b, level, r, false, x, now, m1, rest);
      WithinFlow(level, x, now, next, m1 || Takes(b, r, false, x), Trips(b, r, false, x, m1), after, bad);
      WithinThen(level, x, moved, left, m1, bad1, next, after, bad);
    }
  }

  lemma {:induction false} AnyCallee(b: Bindings, level: Strictness, e: Expr, consume: bool, x: Sym, moved: bool, may: bool, ch: seq<nat>)
    requires e.Call? && !(e.callee.Name? && (e.kind.FunctionCall? || e.kind.VariantCall?)) && (moved ==> may)
    ensures Within(level, x, moved, EvalExpr(b, e, consume, ch), may || Takes(b, e, consume, x), Trips(b, e, consume, x, may))
    decreases e, 0
  {
    hide Within, SafeFor, NowAfter;
    var f, args, callee := e.callee, e.args, EvalExpr(b, e.callee, false, ch);
    var m1, bad1 := may || Takes(b, f, false, x), Trips(b, f, false, x, may);
    var after, bad := may || Takes(b, e, consume, x), Trips(b, e, consume, x, may);
    AnyExpr(b, level, f, false, x, moved, may, ch);
    WithinFlow(level, x, moved, callee, m1, bad1, after, bad);
    if callee.flow == Running {
      var now, next := NowAfter(x, moved, callee.events), EvalAll(b, args, false, callee.rest);
      AnyAll(b, level, args, false, x, now, m1, callee.rest);
      WithinFlow(level, x, now, next, m1 || TakesAll(b, args, false, x), TripsAll(b, args, false, x, m1), after, bad);
      WithinThen(level, x, moved, callee, m1, bad1, next, after, bad);
    }
  }

  /** What is within a bound is within a wider one; and stays so when the run stops
      here, or skips a choice. */
  lemma WithinFlow(level: Strictness, x: Sym, moved: bool, r: Run, after: bool, bad: bool, more: bool, worse: bool)
    requires Within(level, x, moved, r, after, bad) && (after ==> more) && (bad ==> worse)
    ensures r.flow == Running && NowAfter(x, moved, r.events) ==> after
    ensures Within(level, x, moved, r, more, worse)
    ensures forall any: bool :: Within(level, x, moved, r.(flow := Cut), any, worse)
    ensures forall any: bool :: Within(level, x, moved, r.(flow := Returned), any, worse)
    ensures r.flow != Running ==> forall any: bool :: Within(level, x, moved, r, any, worse)
    ensures r.rest != [] ==> Within(level, x, moved, r.(rest := r.rest[1..]), more, worse)
  {
  }

  lemma NoEventWithin(level: Strictness, x: Sym, moved: bool, may: bool, ch: seq<nat>)
    requires moved ==> may
    ensures Within(level, x, moved, Emit([], ch), may, false)
  {
  }

  lemma OneEventWithin(level: Strictness, x: Sym, moved: bool, may: bool, ev: Event, ch: seq<nat>)
    requires moved ==> may
    ensures Within(level, x, moved, Emit([ev], ch), Now(x, may, ev), Counts(level, ev) && ev.sym == x && may)
  {
    OneEvent(level, x, moved, ev);
  }

  lemma NameWithin(b: Bindings, level: Strictness, e: Expr, consume: bool, x: Sym, moved: bool, may: bool, ch: seq<nat>)
    requires e.Name? && (moved ==> may)
    ensures Within(level, x, moved, EvalExpr(b, e, consume, ch), may || Takes(b, e, consume, x), Trips(b, e, consume, x, may))
  {
    hide Within;
    if e.local && e.sym.Some? && e.sym.value in b {
      OneEventWithin(level, x, moved, may, if consume && Moves(b, e.sym.value) then Consume(e.sym.value) else Use(e.sym.value), ch);
    } else {
      NoEventWithin(level, x, moved, may, ch);
    }
  }

  lemma {:induction false} AnyAll(b: Bindings, level: Strictness, es: seq<Expr>, consume: bool, x: Sym, moved: bool, may: bool, ch: seq<nat>)
    requires moved ==> may
    ensures Within(level, x, moved, EvalAll(b, es, consume, ch), may || TakesAll(b, es, consume, x), TripsAll(b, es, consume, x, may))
    decreases es
  {
    hide Within, SafeFor, NowAfter, Takes, Trips;
    if es == [] {
      NoEventWithin(level, x, moved, may, ch);
    } else {
      var first := EvalExpr(b, es[0], consume, ch);
      var m1, bad1 := may || Takes(b, es[0], consume, x), Trips(b, es[0], consume, x, may);
      var after, bad := may || TakesAll(b, es, consume, x), TripsAll(b, es, consume, x, may);
      AnyExpr(b, level, es[0], consume, x, moved, may, ch);
      WithinFlow(level, x, moved, first, m1, bad1, after, bad);
      if first.flow == Running {
        var now, next := NowAfter(x, moved, first.events), EvalAll(b, es[1..], consume, first.rest);
        AnyAll(b, level, es[1..], consume, x, now, m1, first.rest);
        WithinFlow(level, x, now, next, m1 || TakesAll(b, es[1..], consume, x), TripsAll(b, es[1..], consume, x, m1), after, bad);
        WithinThen(level, x, moved, first, m1, bad1, next, after, bad);
      }
    }
  }

  lemma {:induction false} AnyArgs(b: Bindings, level: Strictness, args: seq<Expr>, refParams: seq<bool>, x: Sym, moved: bool, may: bool, ch: seq<nat>)
    requires moved ==> may
    ensures Within(level, x, moved, EvalArgs(b, args, refParams, ch), may || TakesArgs(b, args, refParams, x), TripsArgs(b, args, refParams, x, may))
    decreases args
  {
    hide Within, SafeFor, NowAfter, Takes, Trips;
    if args == [] {
      NoEventWithin(level, x, moved, may, ch);
    } else {
      var value, others := ByValue(refParams), Others(refParams);
      var first := EvalExpr(b, args[0], value, ch);
      var m1, bad1 := may || Takes(b, args[0], value, x), Trips(b, args[0], value, x, may);
      var after, bad := may || TakesArgs(b, args, refParams, x), TripsArgs(b, args, refParams, x, may);
      AnyExpr(b, level, args[0], value, x, moved, may, ch);
      WithinFlow(level, x, moved, first, m1, bad1, after, bad);
      if first.flow == Running {
        var now, next := NowAfter(x, moved, first.events), EvalArgs(b, args[1..], others, first.rest);
        AnyArgs(b, level, args[1..], others, x, now, m1, first.rest);
        WithinFlow(level, x, now, next, m1 || TakesArgs(b, args[1..], others, x), TripsArgs(b, args[1..], others, x, m1), after, bad);
        WithinThen(level, x, moved, first, m1, bad1, next, after, bad);
      }
    }
  }
}
