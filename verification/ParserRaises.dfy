/** When parsing stops with an exception: exactly when a pattern is begun at a minus
    sign that no number follows, and where such a minus sign must stand. */
module ParserRaises {
  import opened Numerals
  import opened ParserSyntax
  import opened ExpressionGrammar
  import opened ProgramGrammar

  /** Directly behind what opens or separates patterns. */
  predicate Opened(ts: seq<Token>, p: nat) {
    0 < p < |ts| && (ts[p - 1].kind.LBRACE? || ts[p - 1].kind.COMMA? || ts[p - 1].kind.LPAREN?)
  }

  predicate AfterMatch(ts: seq<Token>, p: nat) {
    exists q :: 0 <= q < p && q < |ts| && ts[q].kind.MATCH?
  }

  /** Patterns begun at these positions, which are no earlier than from; where one
      begins with a minus sign, the sign is directly behind an opener. */
  ghost predicate Placed(ts: seq<Token>, ps: set<nat>, from: nat) {
    forall p | p in ps :: from <= p < |ts| && (ts[p].kind.MINUS? ==> Opened(ts, p))
  }

  ghost predicate Sited(ts: seq<Token>, ps: set<nat>, from: nat) {
    Placed(ts, ps, from) && forall p | p in ps :: AfterMatch(ts, p)
  }

  /** It raises exactly at a bad minus sign. */
  ghost predicate Exact<T>(ts: seq<Token>, r: Reading<T>) {
    r.Raised? <==> SomeBad(ts, r.patterns)
  }

  lemma {:induction false} SitedLater(ts: seq<Token>, ps: set<nat>, from: nat, later: nat)
    requires Sited(ts, ps, later) && from <= later
    ensures Sited(ts, ps, from)
  {
    hide Opened, AfterMatch;
  }

  lemma {:induction false} SitedUnion(ts: seq<Token>, ps: set<nat>, qs: set<nat>, from: nat)
    requires Sited(ts, ps, from) && Sited(ts, qs, from)
    ensures Sited(ts, ps + qs, from)
  {
    hide Opened, AfterMatch;
  }

  lemma {:induction false} BadUnion(ts: seq<Token>, ps: set<nat>, qs: set<nat>)
    ensures SomeBad(ts, ps + qs) <==> SomeBad(ts, ps) || SomeBad(ts, qs)
  {
    if p :| p in ps && BadAt(ts, p) {
      assert p in ps + qs;
    }
    if p :| p in qs && BadAt(ts, p) {
      assert p in ps + qs;
    }
  }

  lemma {:induction false} BadNone(ts: seq<Token>, s: State)
    ensures !SomeBad(ts, {}) && Sited(ts, {}, s.at)
    ensures SomeBad(ts, {s.at}) <==> BadAt(ts, s.at)
  {
    if BadAt(ts, s.at) {
      assert s.at in {s.at};
    }
  }

  // ----- after an expression the cursor is not at a minus sign -----

  lemma {:induction false} AfterBinary(ts: seq<Token>, s: State, level: nat)
    requires ValidTokens(ts) && Inside(ts, s) && level <= UNARY
    ensures var k := KindAt(ts, BinaryAt(ts, s, level).state); Rung(k) < level || Rung(k) >= UNARY
    decreases |ts| - s.at, UNARY - level
  {
    hide ValidTokens, UnaryAt, Rung;
    if level < UNARY {
      var first := BinaryAt(ts, s, level + 1);
      AfterBinary(ts, s, level + 1);
      AfterOperands(ts, first.state, level, first.value, s);
    }
  }

  lemma {:induction false} AfterOperands(ts: seq<Token>, s: State, level: nat, left: Expr, begin: State)
    requires ValidTokens(ts) && Inside(ts, s) && level < UNARY && begin.at <= s.at
    requires Rung(KindAt(ts, s)) < level + 1 || Rung(KindAt(ts, s)) >= UNARY
    ensures var k := KindAt(ts, MoreOperands(ts, s, level, left).state); Rung(k) < level || Rung(k) >= UNARY
    decreases |ts| - s.at, 0
  {
    hide ValidTokens, BinaryAt, Rung;
    if Rung(KindAt(ts, s)) == level {
      NotLast(ts, s.at);
      EofIsNoOperator();
      var right := BinaryAt(ts, Advance(ts, s), level + 1);
      AfterBinary(ts, Advance(ts, s), level + 1);
      AfterOperands(ts, right.state, level, Binary(left, KindAt(ts, s), right.value), s);
    }
  }

  lemma {:induction false} EofIsNoOperator()
    ensures Rung(EOF) >= UNARY
  {
  }

  lemma {:induction false} AfterExpr(ts: seq<Token>, s: State)
    requires ValidTokens(ts) && Inside(ts, s)
    ensures !KindAt(ts, ExprAt(ts, s).state).MINUS?
  {
    hide BinaryAt, ValidTokens;
    AfterBinary(ts, s, 0);
  }

  // ----- patterns -----

  lemma {:induction false} PatternRaises(ts: seq<Token>, s: State)
    requires ValidTokens(ts) && Inside(ts, s)
    ensures var r := PatternAt(ts, s); Exact(ts, r) && Placed(ts, r.patterns - {s.at}, s.at)
    ensures forall p | p in PatternAt(ts, s).patterns :: s.at <= p < |ts|
    decreases |ts| - s.at, 1
  {
    hide ValidTokens, SomeBad, NamedPatternAt, NegativeAt, Opened, BadAt;
    BadNone(ts, s);
    if KindAt(ts, s).IDENT? && ts[s.at].text == "_" {
      NotMinus(ts, s);
    } else if KindAt(ts, s).MINUS? {
      MinusBad(ts, s);
      assert PatternAt(ts, s).patterns == {s.at};
    } else if KindAt(ts, s).INT? {
      NotMinus(ts, s);
    } else {
      NotMinus(ts, s);
      NamedRaises(ts, s);
      BadUnion(ts, {s.at}, NamedPatternAt(ts, s).patterns);
    }
  }

  lemma {:induction false} NotMinus(ts: seq<Token>, s: State)
    requires Inside(ts, s) && !KindAt(ts, s).MINUS?
    ensures !BadAt(ts, s.at)
  {
  }

  lemma {:induction false} MinusBad(ts: seq<Token>, s: State)
    requires ValidTokens(ts) && Inside(ts, s) && KindAt(ts, s).MINUS?
    ensures BadAt(ts, s.at) <==> NegativeAt(ts, Advance(ts, s)).Raised?
    ensures NegativeAt(ts, Advance(ts, s)).patterns == {}
  {
    NotLast(ts, s.at);
  }

  lemma {:induction false} NamedRaises(ts: seq<Token>, s: State)
    requires ValidTokens(ts) && Inside(ts, s)
    ensures var r := NamedPatternAt(ts, s); Exact(ts, r) && Placed(ts, r.patterns, s.at)
    decreases |ts| - s.at, 0
  {
    hide ValidTokens, SomeBad, PayloadAt, BadAt;
    BadNone(ts, s);
    var name := Expect(ts, s, IDENT);
    if KindAt(ts, name.state).LPAREN? {
      NotLast(ts, name.state.at);
      PayloadRaises(ts, Advance(ts, name.state), name.value.text);
    }
  }

  lemma {:induction false} PayloadRaises(ts: seq<Token>, s: State, name: string)
    requires ValidTokens(ts) && Inside(ts, s) && Opened(ts, s.at)
    ensures var r := PayloadAt(ts, s, name); Exact(ts, r) && Placed(ts, r.patterns, s.at)
    decreases |ts| - s.at, 4
  {
    hide ValidTokens, SomeBad, PatternsAt, BadAt;
    BadNone(ts, s);
    if !KindAt(ts, s).RPAREN? {
      PatternsRaise(ts, s, []);
    }
  }

  lemma {:induction false} PatternsRaise(ts: seq<Token>, s: State, done: seq<Pattern>)
    requires ValidTokens(ts) && Inside(ts, s) && Opened(ts, s.at)
    ensures var r := PatternsAt(ts, s, done); Exact(ts, r) && Placed(ts, r.patterns, s.at)
    decreases |ts| - s.at, 2
  {
    hide ValidTokens, SomeBad, PatternAt, BadAt;
    var first := PatternAt(ts, s);
    PatternRaises(ts, s);
    if first.Got? && KindAt(ts, first.state).COMMA? {
      NotLast(ts, first.state.at);
      var next := Advance(ts, first.state);
      PatternsRaise(ts, next, done + [first.value]);
      BadUnion(ts, first.patterns, PatternsAt(ts, next, done + [first.value]).patterns);
    }
  }

  // ----- statements -----

  lemma {:induction false} BlockRaises(ts: seq<Token>, s: State)
    requires ValidTokens(ts) && Inside(ts, s)
    ensures var r := BlockAt(ts, s); Exact(ts, r) && Sited(ts, r.patterns, s.at)
    decreases |ts| - s.at, 4
  {
    hide ValidTokens, SomeBad, StmtsAt, Sited;
    var open := Expect(ts, s, LBRACE).state;
    StmtsRaise(ts, open, []);
    SitedLater(ts, StmtsAt(ts, open, []).patterns, s.at, open.at);
  }

  lemma {:induction false} StmtsRaise(ts: seq<Token>, s: State, done: seq<Stmt>)
    requires ValidTokens(ts) && Inside(ts, s)
    ensures var r := StmtsAt(ts, s, done); Exact(ts, r) && Sited(ts, r.patterns, s.at)
    decreases |ts| - s.at, 3
  {
    hide ValidTokens, SomeBad, StmtAt, Sited;
    BadNone(ts, s);
    if !KindAt(ts, s).RBRACE? && !KindAt(ts, s).EOF? {
      NotLast(ts, s.at);
      var stmt := StmtAt(ts, s);
      StmtRaises(ts, s);
      if stmt.Got? {
        var more := StmtsAt(ts, stmt.state, done + [stmt.value]);
        StmtsRaise(ts, stmt.state, done + [stmt.value]);
        SitedLater(ts, more.patterns, s.at, stmt.state.at);
        SitedUnion(ts, stmt.patterns, more.patterns, s.at);
        BadUnion(ts, stmt.patterns, more.patterns);
      }
    }
  }

  lemma {:induction false} StmtRaises(ts: seq<Token>, s: State)
    requires ValidTokens(ts) && Inside(ts, s)
    ensures var r := StmtAt(ts, s); Exact(ts, r) && Sited(ts, r.patterns, s.at)
    decreases |ts| - s.at, 2
  {
    hide ValidTokens, SomeBad, Sited, IfAt, WhileAt, MatchAt, SimpleAt;
    BadNone(ts, s);
    if KindAt(ts, s).IF? {
      IfRaises(ts, s);
    } else if KindAt(ts, s).WHILE? {
      WhileRaises(ts, s);
    } else if KindAt(ts, s).MATCH? {
      MatchRaises(ts, s);
    }
  }

  lemma {:induction false} IfRaises(ts: seq<Token>, s: State)
    requires ValidTokens(ts) && Inside(ts, s) && KindAt(ts, s).IF?
    ensures var r := IfAt(ts, s); Exact(ts, r) && Sited(ts, r.patterns, s.at)
    decreases |ts| - s.at, 1
  {
    hide ValidTokens, SomeBad, Sited, BlockAt, ExprAt;
    NotLast(ts, s.at);
    var condition := ExprAt(ts, Expect(ts, s, IF).state);
    var then' := BlockAt(ts, condition.state);
    BlockRaises(ts, condition.state);
    SitedLater(ts, then'.patterns, s.at, condition.state.at);
    if then'.Got? && KindAt(ts, then'.state).ELSE? {
      var begin := Advance(ts, then'.state);
      BlockRaises(ts, begin);
      SitedLater(ts, BlockAt(ts, begin).patterns, s.at, begin.at);
      SitedUnion(ts, then'.patterns, BlockAt(ts, begin).patterns, s.at);
      BadUnion(ts, then'.patterns, BlockAt(ts, begin).patterns);
    }
  }

  lemma {:induction false} WhileRaises(ts: seq<Token>, s: State)
    requires ValidTokens(ts) && Inside(ts, s) && KindAt(ts, s).WHILE?
    ensures var r := WhileAt(ts, s); Exact(ts, r) && Sited(ts, r.patterns, s.at)
    decreases |ts| - s.at, 1
  {
    hide ValidTokens, SomeBad, Sited, BlockAt, ExprAt;
    NotLast(ts, s.at);
    var condition := ExprAt(ts, Expect(ts, s, WHILE).state);
    BlockRaises(ts, condition.state);
    SitedLater(ts, BlockAt(ts, condition.state).patterns, s.at, condition.state.at);
  }

  lemma {:induction false} MatchRaises(ts: seq<Token>, s: State)
    requires ValidTokens(ts) && Inside(ts, s) && KindAt(ts, s).MATCH?
    ensures var r := MatchAt(ts, s); Exact(ts, r) && Sited(ts, r.patterns, s.at)
    decreases |ts| - s.at, 1
  {
    hide ValidTokens, SomeBad, Sited, ArmsAt, ExprAt;
    NotLast(ts, s.at);
    var begin := Expect(ts, s, MATCH).state;
    var scrutinee := ExprAt(ts, begin);
    var open := Expect(ts, scrutinee.state, LBRACE).state;
    AfterExpr(ts, begin);
    NotLast(ts, scrutinee.state.at);
    assert KindAt(ts, open).MINUS? ==> Opened(ts, open.at);
    assert ts[s.at].kind.MATCH?;
    ArmsRaise(ts, open, []);
    SitedLater(ts, ArmsAt(ts, open, []).patterns, s.at, open.at);
  }

  lemma {:induction false} ArmsRaise(ts: seq<Token>, s: State, done: seq<Arm>)
    requires ValidTokens(ts) && Inside(ts, s) && (KindAt(ts, s).MINUS? ==> Opened(ts, s.at)) && AfterMatch(ts, s.at)
    ensures var r := ArmsAt(ts, s, done); Exact(ts, r) && Sited(ts, r.patterns, s.at)
    decreases |ts| - s.at, 6
  {
    hide ValidTokens, SomeBad, Sited, ArmAt;
    BadNone(ts, s);
    if !KindAt(ts, s).RBRACE? && !KindAt(ts, s).EOF? {
      var arm := ArmAt(ts, s);
      ArmRaises(ts, s);
      if arm.Got? && KindAt(ts, arm.state).COMMA? {
        NotLast(ts, arm.state.at);
        var next := Advance(ts, arm.state);
        ArmsRaise(ts, next, done + [arm.value]);
        var more := ArmsAt(ts, next, done + [arm.value]);
        SitedLater(ts, more.patterns, s.at, next.at);
        SitedUnion(ts, arm.patterns, more.patterns, s.at);
        BadUnion(ts, arm.patterns, more.patterns);
      }
    }
  }

  lemma {:induction false} ArmRaises(ts: seq<Token>, s: State)
    requires ValidTokens(ts) && Inside(ts, s) && (KindAt(ts, s).MINUS? ==> Opened(ts, s.at)) && AfterMatch(ts, s.at)
    ensures var r := ArmAt(ts, s); Exact(ts, r) && Sited(ts, r.patterns, s.at)
    decreases |ts| - s.at, 5
  {
    hide ValidTokens, SomeBad, BlockAt, PatternAt, Opened;
    var pattern := PatternAt(ts, s);
    PatternRaises(ts, s);
    PatternSited(ts, s);
    if pattern.Got? {
      var arrow := Expect(ts, pattern.state, FAT_ARROW).state;
      BlockRaises(ts, arrow);
      SitedLater(ts, BlockAt(ts, arrow).patterns, s.at, arrow.at);
      SitedUnion(ts, pattern.patterns, BlockAt(ts, arrow).patterns, s.at);
      BadUnion(ts, pattern.patterns, BlockAt(ts, arrow).patterns);
    }
  }

  lemma {:induction false} PatternSited(ts: seq<Token>, s: State)
    requires ValidTokens(ts) && Inside(ts, s) && (KindAt(ts, s).MINUS? ==> Opened(ts, s.at)) && AfterMatch(ts, s.at)
    ensures Sited(ts, PatternAt(ts, s).patterns, s.at)
  {
    hide ValidTokens, PatternAt, Opened;
    PatternRaises(ts, s);
    var q :| 0 <= q < s.at && q < |ts| && ts[q].kind.MATCH?;
    forall p | p in PatternAt(ts, s).patterns
      ensures s.at <= p < |ts| && (ts[p].kind.MINUS? ==> Opened(ts, p)) && AfterMatch(ts, p)
    {
      assert p == s.at || p in PatternAt(ts, s).patterns - {s.at};
      assert 0 <= q < p && ts[q].kind.MATCH?;
    }
  }

  // ----- items -----

  lemma {:induction false} FunctionRaises(ts: seq<Token>, s: State, public: bool)
    requires ValidTokens(ts) && Inside(ts, s) && KindAt(ts, s).FN?
    ensures var r := FunctionAt(ts, s, public); Exact(ts, r) && Sited(ts, r.patterns, s.at)
  {
    hide ValidTokens, SomeBad, Sited, BlockAt, SignatureAt, AuditAt;
    NotLast(ts, s.at);
    var sig := SignatureAt(ts, s);
    var begin := if !KindAt(ts, sig.state).AUDIT? then sig.state else AuditAt(ts, sig.state).state;
    BlockRaises(ts, begin);
    SitedLater(ts, BlockAt(ts, begin).patterns, s.at, begin.at);
  }

  lemma {:induction false} ItemRaises(ts: seq<Token>, s: State)
    requires ValidTokens(ts) && Inside(ts, s)
    ensures var r := ItemAt(ts, s); Exact(ts, r) && Sited(ts, r.patterns, s.at)
  {
    hide ValidTokens, SomeBad, Sited, FunctionAt, TypeDeclAt, EnumDeclAt, UseAt;
    var pub := KindAt(ts, s).PUB?;
    var after := if pub then Advance(ts, s) else s;
    BadNone(ts, s);
    if KindAt(ts, after).FN? {
      FunctionRaises(ts, after, pub);
      SitedLater(ts, FunctionAt(ts, after, pub).patterns, s.at, after.at);
    }
  }

  lemma {:induction false} ItemsRaise(ts: seq<Token>, s: State, done: seq<Item>, seenNonUse: bool)
    requires ValidTokens(ts) && Inside(ts, s)
    ensures var r := ItemsAt(ts, s, done, seenNonUse); Exact(ts, r) && Sited(ts, r.patterns, s.at)
    decreases |ts| - s.at
  {
    hide ValidTokens, SomeBad, Sited, ItemAt, SyncItemAt;
    BadNone(ts, s);
    if !KindAt(ts, s).EOF? {
      NotLast(ts, s.at);
      var item := ItemAt(ts, s);
      ItemRaises(ts, s);
      if item.Got? {
        var some := item.value.Some?;
        var late := some && item.value.value.UseDecl? && seenNonUse;
        var next := if !some then SyncItemAt(ts, item.state) else if late then Report(item.state, LateUse) else item.state;
        var items := if some then done + [item.value.value] else done;
        var seen := seenNonUse || (some && !item.value.value.UseDecl?);
        ItemsRaise(ts, next, items, seen);
        var more := ItemsAt(ts, next, items, seen);
        SitedLater(ts, more.patterns, s.at, next.at);
        SitedUnion(ts, item.patterns, more.patterns, s.at);
        BadUnion(ts, item.patterns, more.patterns);
      }
    }
  }

  // ----- the result -----

  /** A program stops the parser if and only if one of the patterns begun in it
      begins with a minus sign that no number follows; such a minus sign stands
      behind a match, directly behind an opening brace or parenthesis or a comma. */
  lemma {:induction false} ProgramRaisesIff(ts: seq<Token>)
    requires ValidTokens(ts)
    ensures ProgramAt(ts).Raised? <==> SomeBad(ts, ProgramAt(ts).patterns)
    ensures forall p | p in ProgramAt(ts).patterns && BadAt(ts, p) :: Opened(ts, p) && AfterMatch(ts, p)
  {
    hide ItemsAt, SomeBad, Opened, AfterMatch;
    ItemsRaise(ts, State(0, []), [], false);
  }

  /** Subtraction never does. */
  lemma {:induction false} PlacesSpare(ts: seq<Token>)
    requires ValidTokens(ts) && forall p | BadAt(ts, p) :: !Opened(ts, p) || !AfterMatch(ts, p)
    ensures ProgramAt(ts).Got?
  {
    hide ProgramAt, Opened, AfterMatch, BadAt;
    ProgramRaisesIff(ts);
  }

  // ----- two programs -----

  /** match x { - */
  predicate MatchTokens(ts: seq<Token>, at: nat) {
    && at + 4 <= |ts| && ts[at].kind.MATCH? && ts[at + 1].kind.IDENT? && ts[at + 2].kind.LBRACE?
    && ts[at + 3].kind.MINUS?
  }

  /** fn f() -> T { */
  predicate SignatureTokens(ts: seq<Token>) {
    && |ts| >= 7 && ts[0].kind.FN? && ts[1].kind.IDENT? && ts[2].kind.LPAREN? && ts[3].kind.RPAREN?
    && ts[4].kind.ARROW? && ts[5].kind.IDENT? && ts[6].kind.LBRACE?
  }

  /** The scrutinee x of `match x {`, which is no struct literal before a minus. */
  lemma {:induction false} NameAlone(ts: seq<Token>, s: State)
    requires ValidTokens(ts) && 0 < s.at && MatchTokens(ts, s.at - 1)
    ensures ExprAt(ts, s).state == s.(at := s.at + 1)
  {
    NotLast(ts, s.at);
    NotLast(ts, s.at + 1);
    hide ValidTokens, ExprAt, FieldsAt, LiteralAt;
    assert PrimaryAt(ts, s).state == s.(at := s.at + 1);
    hide PrimaryAt, ArgsAt;
    assert UnaryAt(ts, s).state == s.(at := s.at + 1);
    Ladder(ts, s, 0);
    ExprIsLadder(ts, s);
  }

  lemma {:induction false} ExprIsLadder(ts: seq<Token>, s: State)
    requires ValidTokens(ts) && Inside(ts, s)
    ensures ExprAt(ts, s) == BinaryAt(ts, s, 0)
  {
  }

  lemma {:induction false} Ladder(ts: seq<Token>, s: State, level: nat)
    requires ValidTokens(ts) && Inside(ts, s) && level <= UNARY && Rung(KindAt(ts, UnaryAt(ts, s).state)) >= UNARY
    ensures BinaryAt(ts, s, level).state == UnaryAt(ts, s).state
    decreases UNARY - level
  {
    hide UnaryAt, ValidTokens;
    if level < UNARY {
      Ladder(ts, s, level + 1);
    }
  }

  // what stops the first part of something stops the whole

  lemma {:induction false} ArmsStop(ts: seq<Token>, s: State)
    requires ValidTokens(ts) && Inside(ts, s) && KindAt(ts, s).MINUS? && PatternAt(ts, s).Raised?
    ensures ArmsAt(ts, s, []).Raised?
  {
    hide ValidTokens, PatternAt, BlockAt;
    assert ArmAt(ts, s).Raised?;
  }

  lemma {:induction false} MatchStops(ts: seq<Token>, s: State)
    requires ValidTokens(ts) && MatchTokens(ts, s.at) && ExprAt(ts, s.(at := s.at + 1)).state == s.(at := s.at + 2)
    requires ArmsAt(ts, s.(at := s.at + 3), []).Raised?
    ensures KindAt(ts, s).MATCH? && MatchAt(ts, s).Raised?
  {
    NotLast(ts, s.at);
    NotLast(ts, s.at + 2);
    var name, scrutinee, open := s.(at := s.at + 1), s.(at := s.at + 2), s.(at := s.at + 3);
    assert Expect(ts, s, MATCH).state == name && Expect(ts, scrutinee, LBRACE).state == open;
    hide ValidTokens, ExprAt, ArmsAt, Kept, Moved, Expect, MatchTokens, KindAt;
    assert MatchAt(ts, s).Raised?;
  }

  lemma {:induction false} BlockStops(ts: seq<Token>, s: State)
    requires ValidTokens(ts) && s.at + 1 < |ts| && KindAt(ts, s).LBRACE?
    requires var body := s.(at := s.at + 1); KindAt(ts, body).MATCH? && StmtAt(ts, body).Raised?
    ensures BlockAt(ts, s).Raised?
  {
    hide ValidTokens, StmtAt;
    assert StmtsAt(ts, s.(at := s.at + 1), []).Raised?;
  }

  lemma {:induction false} ItemStops(ts: seq<Token>, s: State)
    requires ValidTokens(ts) && Inside(ts, s) && KindAt(ts, s).FN? && FunctionAt(ts, s, false).Raised?
    ensures ItemAt(ts, s).Raised?
  {
    hide ValidTokens, FunctionAt, TypeDeclAt, EnumDeclAt, UseAt;
    assert ItemFrom(ts, s, false).Raised?;
  }

  lemma {:induction false} ProgramStops(ts: seq<Token>)
    requires ValidTokens(ts) && KindAt(ts, State(0, [])).FN? && ItemAt(ts, State(0, [])).Raised?
    ensures ProgramAt(ts).Raised?
  {
    assert Inside(ts, State(0, []));
    hide ValidTokens, ItemAt, SyncItemAt;
    assert ItemsAt(ts, State(0, []), [], false).Raised?;
  }

  /** match x { -y ... stops the parser, whatever follows. */
  lemma {:induction false} MatchOnNegatedName(ts: seq<Token>, s: State)
    requires ValidTokens(ts) && MatchTokens(ts, s.at) && BadAt(ts, s.at + 3)
    ensures StmtAt(ts, s).Raised?
  {
    hide ValidTokens, StmtAt, ArmsAt, PatternAt, ExprAt, BadAt;
    NameAlone(ts, s.(at := s.at + 1));
    NegatedRaises(ts, s.(at := s.at + 3));
    ArmsStop(ts, s.(at := s.at + 3));
    MatchStops(ts, s);
    StmtIsMatch(ts, s);
  }

  lemma {:induction false} StmtIsMatch(ts: seq<Token>, s: State)
    requires ValidTokens(ts) && Inside(ts, s) && KindAt(ts, s).MATCH?
    ensures StmtAt(ts, s) == MatchAt(ts, s)
  {
    hide ValidTokens, IfAt, WhileAt, MatchAt, SimpleAt;
  }

  lemma {:induction false} NegatedRaises(ts: seq<Token>, s: State)
    requires ValidTokens(ts) && Inside(ts, s) && BadAt(ts, s.at)
    ensures PatternAt(ts, s).Raised?
  {
    hide NamedPatternAt;
    MinusBad(ts, s);
  }

  /** A pattern that negates a name stops the parser instead of being reported: no
      program that begins with `fn f() -> T { match x { -y` is read. */
  lemma {:induction false} NegatedNameRaises(ts: seq<Token>)
    requires ValidTokens(ts) && SignatureTokens(ts) && MatchTokens(ts, 7) && BadAt(ts, 10)
    ensures ProgramAt(ts).Raised?
  {
    hide ValidTokens, StmtAt, BlockAt, SignatureAt, BadAt, ItemAt, ProgramAt;
    SignatureStands(ts);
    MatchOnNegatedName(ts, State(7, []));
    BlockStops(ts, State(6, []));
    FunctionStops(ts);
    ItemStops(ts, State(0, []));
    ProgramStops(ts);
  }

  lemma {:induction false} FunctionStops(ts: seq<Token>)
    requires ValidTokens(ts) && |ts| > 7 && SignatureTokens(ts)
    requires SignatureAt(ts, State(0, [])).state == State(6, []) && BlockAt(ts, State(6, [])).Raised?
    ensures FunctionAt(ts, State(0, []), false).Raised?
  {
    hide ValidTokens, BlockAt, SignatureAt, AuditAt;
  }

  lemma {:induction false} SignatureStands(ts: seq<Token>)
    requires ValidTokens(ts) && |ts| > 7 && SignatureTokens(ts)
    ensures SignatureAt(ts, State(0, [])).state == State(6, [])
  {
    hide ValidTokens, TypeAt, TypedNamesAt;
    ResultStands(ts);
    NoParams(ts);
  }

  lemma {:induction false} ResultStands(ts: seq<Token>)
    requires ValidTokens(ts) && |ts| > 7 && SignatureTokens(ts)
    ensures TypeAt(ts, State(5, [])).state == State(6, [])
  {
    hide ValidTokens;
    assert NamedTypeAt(ts, State(5, [])).state == State(6, []);
  }

  lemma {:induction false} NoParams(ts: seq<Token>)
    requires ValidTokens(ts) && |ts| > 7 && SignatureTokens(ts)
    ensures TypedNamesAt(ts, State(3, []), RPAREN) == Out([], State(3, []))
  {
    hide ValidTokens;
  }

  /** fn f() -> T { return a - b; } */
  function Subtracting(): seq<Token> {
    [Op(FN), Token(IDENT, "f"), Op(LPAREN), Op(RPAREN), Op(ARROW), Token(IDENT, "T"), Op(LBRACE),
     Op(RETURN), Token(IDENT, "a"), Op(MINUS), Token(IDENT, "b"), Op(SEMI), Op(RBRACE), Op(EOF)]
  }

  /** A name is subtracted, and the program is read to its end. */
  lemma {:induction false} SubtractionParses()
    ensures ValidTokens(Subtracting()) && BadAt(Subtracting(), 9) && ProgramAt(Subtracting()).Got?
  {
    SubtractingKinds();
    SubtractsName();
    hide Subtracting, ProgramAt, Opened, BadAt, ValidTokens;
    PlacesSpare(Subtracting());
  }

  lemma {:induction false} SubtractingKinds()
    ensures ValidTokens(Subtracting())
    ensures forall q | 0 <= q < |Subtracting()| :: !Subtracting()[q].kind.MATCH?
  {
    hide IsNumeral;
  }

  lemma {:induction false} SubtractsName()
    ensures BadAt(Subtracting(), 9)
  {
    assert !IsDigit("b"[0]);
  }
}
