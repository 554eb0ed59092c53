/** The emitted if-chain means what the source match means: its conditions, its
    declarations, and the arm it runs. */
module MatchMeaning {
  import opened MatchSyntax
  import opened MatchCode
  import opened MatchEmitter

  // ----- conditions -----

  /** The place holds the representation of a value of this type. */
  ghost predicate Holding(place: Place, temps: Temps, v: Value, t: Type, enums: Enums) {
    HasType(v, t, enums) && Read(place, temps) == Some(Encode(v, t, enums))
  }

  /** The members of a payload, from index k on, hold these values. */
  ghost predicate HoldingAll(base: Place, member: string, k: nat, temps: Temps, vs: seq<Value>, ts: seq<Type>, enums: Enums) {
    |vs| == |ts| && forall i | 0 <= i < |vs| :: Holding(Payload(base, member, k + i), temps, vs[i], ts[i], enums)
  }

  /** Once the tag is known, the payloads can be read and hold the arguments. */
  lemma PayloadsHolding(place: Place, temps: Temps, v: Value, t: Type, enums: Enums)
    requires Holding(place, temps, v, t, enums) && v.Tagged?
    ensures HoldingAll(place, Short(v.variant), 0, temps, v.args, Payloads(t, v.variant, enums).value, enums)
  {
  }

  lemma HoldingRest(base: Place, member: string, k: nat, temps: Temps, vs: seq<Value>, ts: seq<Type>, enums: Enums)
    requires HoldingAll(base, member, k, temps, vs, ts, enums) && vs != []
    ensures Holding(Payload(base, member, k), temps, vs[0], ts[0], enums)
    ensures HoldingAll(base, member, k + 1, temps, vs[1..], ts[1..], enums)
    ensures HaveTypes(vs, ts, enums)
  {
    hide Holding, HasType, Encode;
    assert Holding(Payload(base, member, k + 0), temps, vs[0], ts[0], enums);
    forall i | 0 <= i < |vs[1..]|
      ensures Holding(Payload(base, member, k + 1 + i), temps, vs[1..][i], ts[1..][i], enums)
    {
      assert Holding(Payload(base, member, k + (i + 1)), temps, vs[i + 1], ts[i + 1], enums);
    }
    forall i | 0 <= i < |vs|
      ensures HasType(vs[i], ts[i], enums)
    {
      HoldingTyped(Payload(base, member, k + i), temps, vs[i], ts[i], enums);
    }
  }

  lemma HoldingTyped(place: Place, temps: Temps, v: Value, t: Type, enums: Enums)
    requires Holding(place, temps, v, t, enums)
    ensures HasType(v, t, enums)
  {
  }

  /** The tag test, on a place that holds a value of the type. */
  lemma TagTest(place: Place, temps: Temps, v: Value, t: Type, name: string, enums: Enums)
    requires ValidEnums(enums) && Holding(place, temps, v, t, enums) && IsVariant(t, name, enums)
    ensures v.Tagged?
    ensures Holds(TagEq(place, TagOf(t, name)), temps) == if v.variant == name then Yes else No
  {
    hide Short, ValidEnums;
    if Short(v.variant) == Short(name) {
      ShortTellsApart(t, v.variant, name, enums);
    }
  }

  lemma {:induction false} ConditionMeaning(p: Lowered, v: Value, t: Type, place: Place, temps: Temps, enums: Enums)
    requires ValidEnums(enums) && WellFormedL(p, t, enums) && Holding(place, temps, v, t, enums)
    ensures Holds(Condition(p, t, place, enums), temps) == if MatchL(p, v, t, enums).Some? then Yes else No
    decreases p, 1
  {
    hide Short, Encode, HasType, Payloads, PayloadTypes, Holding, Read, TagOf, HoldingAll, ValidEnums, AllHold, Conditions;
    if p.LVariant? {
      VariantNames(t, p.name, enums);
      var types := Payloads(t, p.name, enums).value;
      var here := TagEq(place, TagOf(t, p.name));
      TagTest(place, temps, v, t, p.name, enums);
      TagThenRest(here, Conditions(p.args, types, place, Short(p.name), 0, enums), temps);
      if v.variant == p.name {
        PayloadsHolding(place, temps, v, t, enums);
        ConditionsMeaning(p.args, v.args, types, 0, place, temps, Short(p.name), enums);
      }
    } else {
      LeafCondition(p, v, t, place, temps, enums);
    }
  }

  lemma TagThenRest(here: Cond, rest: seq<Cond>, temps: Temps)
    ensures AllHold([here] + rest, temps) == if Holds(here, temps) == Yes then AllHold(rest, temps) else Holds(here, temps)
  {
    assert ([here] + rest)[1..] == rest;
  }

  lemma LeafCondition(p: Lowered, v: Value, t: Type, place: Place, temps: Temps, enums: Enums)
    requires !p.LVariant? && WellFormedL(p, t, enums) && Holding(place, temps, v, t, enums)
    ensures Holds(Condition(p, t, place, enums), temps) == if MatchL(p, v, t, enums).Some? then Yes else No
  {
  }

  /** The conditions on the payloads from index k on, all of them under a tag that
      has been tested. */
  lemma {:induction false} ConditionsMeaning(ps: seq<Lowered>, vs: seq<Value>, ts: seq<Type>, k: nat, base: Place,
                                              temps: Temps, member: string, enums: Enums)
    requires ValidEnums(enums) && HoldingAll(base, member, k, temps, vs, ts, enums) && AllWellFormedL(ps, ts, enums)
    ensures AllHold(Conditions(ps, ts, base, member, k, enums), temps) ==
            if MatchAllL(ps, vs, ts, enums).Some? then Yes else No
    decreases ps, 0
  {
    hide Short, Encode, HasType, Payloads, PayloadTypes, Holding, Condition;
    if ps != [] {
      HoldingRest(base, member, k, temps, vs, ts, enums);
      ConditionMeaning(ps[0], vs[0], ts[0], Payload(base, member, k), temps, enums);
      ConditionsMeaning(ps[1..], vs[1..], ts[1..], k + 1, base, temps, member, enums);
      var first := Condition(ps[0], ts[0], Payload(base, member, k), enums);
      var rest := Conditions(ps[1..], ts[1..], base, member, k + 1, enums);
      assert ([first] + rest)[1..] == rest;
    }
  }

  // ----- bindings -----

  lemma {:induction false} MatchWellTyped(p: Lowered, v: Value, t: Type, enums: Enums)
    requires HasType(v, t, enums) && MatchL(p, v, t, enums).Some?
    ensures WellTyped(MatchL(p, v, t, enums).value, enums)
    decreases p, 1
  {
    if p.LVariant? {
      MatchAllWellTyped(p.args, v.args, Payloads(t, p.name, enums).value, enums);
    }
  }

  lemma {:induction false} MatchAllWellTyped(ps: seq<Lowered>, vs: seq<Value>, ts: seq<Type>, enums: Enums)
    requires HaveTypes(vs, ts, enums) && MatchAllL(ps, vs, ts, enums).Some?
    ensures WellTyped(MatchAllL(ps, vs, ts, enums).value, enums)
    decreases ps, 0
  {
    if ps != [] {
      MatchWellTyped(ps[0], vs[0], ts[0], enums);
      MatchAllWellTyped(ps[1..], vs[1..], ts[1..], enums);
    }
  }

  lemma EncodeUnion(a: Bindings, b: Bindings, enums: Enums)
    requires WellTyped(a, enums) && WellTyped(b, enums)
    ensures WellTyped(a + b, enums)
    ensures EncodeBindings(a + b, enums) == EncodeBindings(a, enums) + EncodeBindings(b, enums)
  {
  }

  /** Running the declarations of a matched pattern adds exactly its bindings. */
  lemma {:induction false} DeclsMeaning(p: Lowered, v: Value, t: Type, place: Place, temps: Temps, env: CBindings,
                                         rest: seq<Line>, inSwitch: bool, enums: Enums)
    requires ValidEnums(enums) && WellFormedL(p, t, enums) && Holding(place, temps, v, t, enums)
    requires MatchL(p, v, t, enums).Some?
    ensures WellTyped(MatchL(p, v, t, enums).value, enums)
    ensures Execute(Decls(p, t, place, enums) + rest, temps, env, inSwitch) ==
            Execute(rest, temps, env + EncodeBindings(MatchL(p, v, t, enums).value, enums), inSwitch)
    decreases p, 1
  {
    MatchWellTyped(p, v, t, enums);
    var made := EncodeBindings(MatchL(p, v, t, enums).value, enums);
    if p.LVariant? {
      hide Short, Encode, Payloads, PayloadTypes, Holding;
      VariantNames(t, p.name, enums);
      PayloadsHolding(place, temps, v, t, enums);
      DeclsAllMeaning(p.args, v.args, Payloads(t, p.name, enums).value, 0, place, temps, Short(p.name), env, rest, inSwitch, enums);
    } else if p.LBind? {
      assert ([Declare(p.local, place)] + rest)[1..] == rest;
      assert env[p.local := Encode(v, t, enums)] == env + made;
    } else {
      assert [] + rest == rest;
      assert env + made == env;
    }
  }

  lemma {:induction false} DeclsAllMeaning(ps: seq<Lowered>, vs: seq<Value>, ts: seq<Type>, k: nat, base: Place,
                                            temps: Temps, member: string, env: CBindings, rest: seq<Line>,
                                            inSwitch: bool, enums: Enums)
    requires ValidEnums(enums) && HoldingAll(base, member, k, temps, vs, ts, enums) && AllWellFormedL(ps, ts, enums)
    requires MatchAllL(ps, vs, ts, enums).Some?
    ensures WellTyped(MatchAllL(ps, vs, ts, enums).value, enums)
    ensures Execute(DeclsAll(ps, ts, base, member, k, enums) + rest, temps, env, inSwitch) ==
            Execute(rest, temps, env + EncodeBindings(MatchAllL(ps, vs, ts, enums).value, enums), inSwitch)
    decreases ps, 0
  {
    hide Short, Encode, HasType, Payloads, PayloadTypes, Holding, Decls, EncodeBindings, Execute;
    if ps == [] {
      assert [] + rest == rest;
      NothingEncoded(env, enums);
    } else {
      HoldingRest(base, member, k, temps, vs, ts, enums);
      MatchAllWellTyped(ps, vs, ts, enums);
      MatchAllWellTyped(ps[1..], vs[1..], ts[1..], enums);
      var inner := Payload(base, member, k);
      var first := MatchL(ps[0], vs[0], ts[0], enums).value;
      var others := MatchAllL(ps[1..], vs[1..], ts[1..], enums).value;
      var later := DeclsAll(ps[1..], ts[1..], base, member, k + 1, enums);
      DeclsMeaning(ps[0], vs[0], ts[0], inner, temps, env, later + rest, inSwitch, enums);
      var env1 := env + EncodeBindings(first, enums);
      DeclsAllMeaning(ps[1..], vs[1..], ts[1..], k + 1, base, temps, member, env1, rest, inSwitch, enums);
      EncodeUnion(first, others, enums);
      var ours := Decls(ps[0], ts[0], inner, enums);
      assert (ours + later) + rest == ours + (later + rest);
      assert env1 + EncodeBindings(others, enums) == env + EncodeBindings(first + others, enums);
    }
  }

  lemma NothingEncoded(env: CBindings, enums: Enums)
    ensures WellTyped(map[], enums) && env + EncodeBindings(map[], enums) == env
  {
  }

  // ----- the shape of a body -----

  predicate OnlyDeclares(lines: seq<Line>) {
    forall i | 0 <= i < |lines| :: lines[i].Declare?
  }

  lemma {:induction false} DeclsDeclare(p: Lowered, t: Type, place: Place, enums: Enums)
    ensures OnlyDeclares(Decls(p, t, place, enums))
    decreases p, 1
  {
    if p.LVariant? {
      DeclsAllDeclare(p.args, PayloadTypes(t, p.name, enums), place, Short(p.name), 0, enums);
    }
  }

  lemma {:induction false} DeclsAllDeclare(ps: seq<Lowered>, ts: seq<Type>, base: Place, member: string, k: nat, enums: Enums)
    ensures OnlyDeclares(DeclsAll(ps, ts, base, member, k, enums))
    decreases ps, 0
  {
    if ps != [] && ts != [] {
      DeclsDeclare(ps[0], ts[0], Payload(base, member, k), enums);
      DeclsAllDeclare(ps[1..], ts[1..], base, member, k + 1, enums);
    }
  }

  lemma {:induction false} CloseAfterDecls(decls: seq<Line>, i: nat, rest: seq<Line>)
    requires OnlyDeclares(decls)
    ensures AfterClose(decls + [ArmBlock(i), Close] + rest) == rest
  {
    var all := decls + [ArmBlock(i), Close] + rest;
    if decls == [] {
      assert all[1..] == [Close] + rest;
      assert all[1..][1..] == rest;
    } else {
      assert all[1..] == decls[1..] + [ArmBlock(i), Close] + rest;
      CloseAfterDecls(decls[1..], i, rest);
    }
  }

  /** Running a matched arm's body records that arm with its bindings. */
  lemma BodyMeaning(arms: seq<Lowered>, i: nat, v: Value, t: Type, place: Place, temps: Temps, last: Line,
                    rest: seq<Line>, enums: Enums)
    requires i < |arms| && ValidEnums(enums) && WellFormedL(arms[i], t, enums) && Holding(place, temps, v, t, enums)
    requires MatchL(arms[i], v, t, enums).Some? && (last == Break || last == Close)
    ensures WellTyped(MatchL(arms[i], v, t, enums).value, enums)
    ensures Execute(Decls(arms[i], t, place, enums) + [ArmBlock(i), last] + rest, temps, map[], last == Break) ==
            Done([Ran(i, EncodeBindings(MatchL(arms[i], v, t, enums).value, enums))])
  {
    hide Decls, MatchL, Encode, WellFormedL, HasType;
    var tail := [ArmBlock(i), last] + rest;
    var decls := Decls(arms[i], t, place, enums);
    assert decls + [ArmBlock(i), last] + rest == decls + tail;
    DeclsMeaning(arms[i], v, t, place, temps, map[], tail, last == Break, enums);
    var made := EncodeBindings(MatchL(arms[i], v, t, enums).value, enums);
    assert map[] + made == made;
    assert tail[1..] == [last] + rest;
  }

  // ----- the if-chain -----

  /** First match on lowered arms. */
  function FirstMatchL(arms: seq<Lowered>, from: nat, v: Value, t: Type, enums: Enums): Outcome
    requires from <= |arms|
    decreases |arms| - from
  {
    if from == |arms| then NoArm
    else
      var made := MatchL(arms[from], v, t, enums);
      if made.Some? then Arm(from, made.value) else FirstMatchL(arms, from + 1, v, t, enums)
  }

  /** The branches from arm i on. */
  function ChainFrom(arms: seq<Lowered>, i: nat, t: Type, place: Place, enums: Enums): seq<Line>
    requires i <= |arms|
    decreases |arms| - i
  {
    if i == |arms| then [] else ChainArm(arms, i, t, place, enums) + ChainFrom(arms, i + 1, t, place, enums)
  }

  lemma {:induction false} ChainSplit(arms: seq<Lowered>, i: nat, t: Type, place: Place, enums: Enums)
    requires i <= |arms|
    ensures Chain(arms, |arms|, t, place, enums) == Chain(arms, i, t, place, enums) + ChainFrom(arms, i, t, place, enums)
    decreases |arms| - i
  {
    hide ChainArm;
    if i < |arms| {
      ChainSplit(arms, i + 1, t, place, enums);
      assert (Chain(arms, i, t, place, enums) + ChainArm(arms, i, t, place, enums)) + ChainFrom(arms, i + 1, t, place, enums)
          == Chain(arms, i, t, place, enums) + (ChainArm(arms, i, t, place, enums) + ChainFrom(arms, i + 1, t, place, enums));
    } else {
      assert Chain(arms, i, t, place, enums) + [] == Chain(arms, i, t, place, enums);
    }
  }

  lemma ArmText(arms: seq<Lowered>, i: nat, t: Type, place: Place, enums: Enums)
    requires i < |arms|
    ensures ChainFrom(arms, i, t, place, enums) != []
    ensures var first := ChainFrom(arms, i, t, place, enums)[0];
            first == if i == 0 then IfOpen(Condition(arms[i], t, place, enums))
                     else ElseIfOpen(Condition(arms[i], t, place, enums))
    ensures ChainFrom(arms, i, t, place, enums)[1..] ==
            Decls(arms[i], t, place, enums) + [ArmBlock(i), Close] + ChainFrom(arms, i + 1, t, place, enums)
    ensures AfterClose(ChainFrom(arms, i, t, place, enums)) == ChainFrom(arms, i + 1, t, place, enums)
  {
    hide Decls, Condition;
    DeclsDeclare(arms[i], t, place, enums);
    CloseAfterDecls(Decls(arms[i], t, place, enums), i, ChainFrom(arms, i + 1, t, place, enums));
    var text := ChainFrom(arms, i, t, place, enums);
    assert text == ChainArm(arms, i, t, place, enums) + ChainFrom(arms, i + 1, t, place, enums);
    assert text[1..] == Decls(arms[i], t, place, enums) + [ArmBlock(i), Close] + ChainFrom(arms, i + 1, t, place, enums);
  }

  /** After a branch was taken, nothing else of the chain runs. */
  lemma {:induction false} RestOfChainSkipped(arms: seq<Lowered>, i: nat, t: Type, place: Place, temps: Temps, enums: Enums)
    requires 0 < i <= |arms|
    ensures RunChain(ChainFrom(arms, i, t, place, enums), temps, true) == Done([])
    decreases |arms| - i
  {
    hide Decls, Condition, ChainArm, AfterClose;
    if i < |arms| {
      ArmText(arms, i, t, place, enums);
      RestOfChainSkipped(arms, i + 1, t, place, temps, enums);
    }
  }

  lemma {:induction false} ChainMeaning(arms: seq<Lowered>, i: nat, v: Value, t: Type, place: Place, temps: Temps, enums: Enums)
    requires i <= |arms| && ValidEnums(enums) && (forall k | 0 <= k < |arms| :: WellFormedL(arms[k], t, enums))
    requires Holding(place, temps, v, t, enums)
    ensures Means(RunChain(ChainFrom(arms, i, t, place, enums), temps, false), FirstMatchL(arms, i, v, t, enums), enums)
    decreases |arms| - i
  {
    hide Decls, Condition, ChainArm, AfterClose, MatchL, WellFormedL, Encode, Execute;
    if i < |arms| {
      ArmText(arms, i, t, place, enums);
      ConditionMeaning(arms[i], v, t, place, temps, enums);
      if MatchL(arms[i], v, t, enums).Some? {
        BodyMeaning(arms, i, v, t, place, temps, Close, ChainFrom(arms, i + 1, t, place, enums), enums);
        RestOfChainSkipped(arms, i + 1, t, place, temps, enums);
        var run := Ran(i, EncodeBindings(MatchL(arms[i], v, t, enums).value, enums));
        assert [run] + [] == [run];
      } else {
        ChainMeaning(arms, i + 1, v, t, place, temps, enums);
      }
    }
  }
}
