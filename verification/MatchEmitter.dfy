/** Emitting a match: the lines it appends, as methods on the emitter and as
    functions of the match. The functions say which text each arm becomes, a
    condition and declarations for the chain, a label and a body for the switch;
    the methods append exactly that text and count temporaries up. */
module MatchEmitter {
  import opened MatchSyntax
  import opened MatchCode

  /** The payload types the emitter looks up, by the last piece of the name. */
  function PayloadTypes(t: Type, name: string, enums: Enums): seq<Type> {
    match t
    case OptionOf(item) => if Short(name) == "Some" then [item] else []
    case ResultOf(ok, err) => if Short(name) == "Ok" then [ok] else [err]
    case Named(n) => if n in enums && Short(name) in enums[n] then enums[n][Short(name)] else []
    case _ => []
  }

  /** A variant's full name is its type's name and its short name. */
  lemma VariantNames(t: Type, name: string, enums: Enums)
    requires ValidEnums(enums) && IsVariant(t, name, enums)
    ensures PayloadTypes(t, name, enums) == Payloads(t, name, enums).value
    ensures t.Named? ==> name == Qualified(t.name, Short(name))
    ensures !t.Named? ==> Short(name) == name
  {
    if t.Named? {
      var short := name[|t.name| + 2..];
      assert name == name[..|t.name| + 2] + short;
      assert name == Qualified(t.name, short);
      ShortOfQualified(t.name, short);
    } else {
      BuiltinNames();
    }
  }

  lemma BuiltinNames()
    ensures Short("Some") == "Some" && Short("None") == "None" && Short("Ok") == "Ok" && Short("Err") == "Err"
  {
    assert Separator("Some", 0) == 4;
    assert Separator("None", 0) == 4;
    assert Separator("Ok", 0) == 2;
    assert Separator("Err", 0) == 3;
  }

  lemma ShortTellsApart(t: Type, a: string, b: string, enums: Enums)
    requires ValidEnums(enums) && IsVariant(t, a, enums) && IsVariant(t, b, enums) && Short(a) == Short(b)
    ensures a == b
  {
    VariantNames(t, a, enums);
    VariantNames(t, b, enums);
  }

  function TagOf(t: Type, name: string): Tag {
    Tag(t, Short(name))
  }

  /** When a pattern applies to what is at a place. */
  function Condition(p: Lowered, t: Type, place: Place, enums: Enums): Cond
    decreases p, 0
  {
    match p
    case LAny => True
    case LBind(_) => True
    case LInt(n) => IntEq(place, n)
    case LVariant(name, args) =>
      All([TagEq(place, TagOf(t, name))] + Conditions(args, PayloadTypes(t, name, enums), place, Short(name), 0, enums))
  }

  function Conditions(ps: seq<Lowered>, ts: seq<Type>, base: Place, member: string, index: nat, enums: Enums): seq<Cond>
    decreases ps, 0
  {
    if ps == [] || ts == [] then []
    else [Condition(ps[0], ts[0], Payload(base, member, index), enums)] +
         Conditions(ps[1..], ts[1..], base, member, index + 1, enums)
  }

  /** The declarations a pattern makes from what is at a place. */
  function Decls(p: Lowered, t: Type, place: Place, enums: Enums): seq<Line>
    decreases p, 0
  {
    match p
    case LBind(local) => [Declare(local, place)]
    case LVariant(name, args) => DeclsAll(args, PayloadTypes(t, name, enums), place, Short(name), 0, enums)
    case _ => []
  }

  function DeclsAll(ps: seq<Lowered>, ts: seq<Type>, base: Place, member: string, index: nat, enums: Enums): seq<Line>
    decreases ps, 0
  {
    if ps == [] || ts == [] then []
    else Decls(ps[0], ts[0], Payload(base, member, index), enums) + DeclsAll(ps[1..], ts[1..], base, member, index + 1, enums)
  }

  /** A literal, or a constructor below a constructor. */
  predicate Refined(p: Lowered)
    decreases p
  {
    match p
    case LInt(_) => true
    case LVariant(_, args) => exists i :: 0 <= i < |args| && (Refined(args[i]) || args[i].LVariant?)
    case _ => false
  }

  predicate AnyRefined(arms: seq<Lowered>) {
    exists i :: 0 <= i < |arms| && Refined(arms[i])
  }

  predicate IsDefault(p: Lowered) {
    p.LAny? || p.LBind?
  }

  // ----- the emitted text -----

  function ChainArm(arms: seq<Lowered>, i: nat, t: Type, place: Place, enums: Enums): seq<Line>
    requires i < |arms|
  {
    var cond := Condition(arms[i], t, place, enums);
    [if i == 0 then IfOpen(cond) else ElseIfOpen(cond)] + Decls(arms[i], t, place, enums) + [ArmBlock(i), Close]
  }

  /** The branches for the first n arms. */
  function Chain(arms: seq<Lowered>, n: nat, t: Type, place: Place, enums: Enums): seq<Line>
    requires n <= |arms|
  {
    if n == 0 then [] else Chain(arms, n - 1, t, place, enums) + ChainArm(arms, n - 1, t, place, enums)
  }

  function BodyOf(arms: seq<Lowered>, i: nat, t: Type, place: Place, enums: Enums): seq<Line>
    requires i < |arms|
  {
    Decls(arms[i], t, place, enums) + [ArmBlock(i), Break, Close]
  }

  /** The labelled cases among the first n arms. */
  function Cases(arms: seq<Lowered>, n: nat, t: Type, place: Place, enums: Enums): seq<Line>
    requires n <= |arms|
  {
    if n == 0 then []
    else
      Cases(arms, n - 1, t, place, enums) +
      if arms[n - 1].LVariant? then [CaseOpen(TagOf(t, arms[n - 1].name))] + BodyOf(arms, n - 1, t, place, enums) else []
  }

  /** The last catch-all among the first n arms. */
  function LastDefault(arms: seq<Lowered>, n: nat): (d: Option<nat>)
    requires n <= |arms|
    ensures d.Some? ==> d.value < n && IsDefault(arms[d.value])
    ensures forall i | 0 <= i < n && IsDefault(arms[i]) :: d.Some? && i <= d.value
  {
    if n == 0 then None else if IsDefault(arms[n - 1]) then Some(n - 1) else LastDefault(arms, n - 1)
  }

  function DefaultText(arms: seq<Lowered>, t: Type, place: Place, enums: Enums): seq<Line> {
    var d := LastDefault(arms, |arms|);
    if d.Some? then [DefaultOpen] + BodyOf(arms, d.value, t, place, enums) else []
  }

  function MatchText(arms: seq<Lowered>, t: Type, index: nat, enums: Enums): seq<Line> {
    var place := Temp(index);
    [TempDecl(index)] +
    if AnyRefined(arms) then Chain(arms, |arms|, t, place, enums)
    else [SwitchOpen(place)] + Cases(arms, |arms|, t, place, enums) + DefaultText(arms, t, place, enums) + [Close]
  }

  // ----- the emitter -----

  class Emitter {
    const enums: Enums
    var lines: seq<Line>
    var tempIndex: nat

    constructor (enums: Enums)
      ensures this.enums == enums && lines == [] && tempIndex == 0
    {
      this.enums, lines, tempIndex := enums, [], 0;
    }

    method Add(line: Line)
      modifies `lines
      ensures lines == old(lines) + [line]
    {
      lines := lines + [line];
    }

    method FreshTemp() returns (index: nat)
      modifies `tempIndex
      ensures index == tempIndex == old(tempIndex) + 1
    {
      tempIndex := tempIndex + 1;
      index := tempIndex;
    }

    method EmitPatternBindings(p: Lowered, t: Type, place: Place)
      requires WellFormedL(p, t, enums) && ValidEnums(enums)
      modifies `lines
      ensures lines == old(lines) + Decls(p, t, place, enums)
      decreases p
    {
      hide DeclsAll, Short;
      if p.LBind? {
        Add(Declare(p.local, place));
      } else if p.LVariant? {
        VariantNames(t, p.name, enums);
        var types := PayloadTypes(t, p.name, enums);
        LengthsAgree(p.args, types, enums);
        var member := Short(p.name);
        var index := 0;
        ghost var all := DeclsAll(p.args, types, place, member, 0, enums);
        hide PayloadTypes, Payloads, ValidEnums, WellFormedL;
        while index < |p.args|
          invariant 0 <= index <= |p.args| == |types|
          invariant AllWellFormedL(p.args[index..], types[index..], enums)
          invariant lines + DeclsAll(p.args[index..], types[index..], place, member, index, enums) == old(lines) + all
        {
          ghost var before := lines;
          DeclsStep(p.args, types, place, member, index, enums, before);
          EmitPatternBindings(p.args[index], types[index], Payload(place, member, index));
          index := index + 1;
        }
        NoDecls(p.args[index..], types[index..], place, member, index, enums);
        assert lines + [] == lines;
      }
    }

    /** The declarations from one argument on: its own, and those from the next. */
    lemma DeclsStep(ps: seq<Lowered>, ts: seq<Type>, base: Place, member: string, i: nat, enums: Enums, before: seq<Line>)
      requires i < |ps| == |ts| && AllWellFormedL(ps[i..], ts[i..], enums)
      ensures WellFormedL(ps[i], ts[i], enums) && AllWellFormedL(ps[i + 1..], ts[i + 1..], enums)
      ensures before + DeclsAll(ps[i..], ts[i..], base, member, i, enums) ==
              (before + Decls(ps[i], ts[i], Payload(base, member, i), enums)) + DeclsAll(ps[i + 1..], ts[i + 1..], base, member, i + 1, enums)
    {
      hide Decls, WellFormedL;
      assert ps[i..][1..] == ps[i + 1..] && ts[i..][1..] == ts[i + 1..];
    }

    lemma NoDecls(ps: seq<Lowered>, ts: seq<Type>, base: Place, member: string, i: nat, enums: Enums)
      requires ps == []
      ensures DeclsAll(ps, ts, base, member, i, enums) == []
    {
    }

    method EmitBranch(arms: seq<Lowered>, i: nat, t: Type, temp: nat)
      requires i < |arms| && ValidEnums(enums) && WellFormedL(arms[i], t, enums)
      modifies `lines
      ensures lines == old(lines) + ChainArm(arms, i, t, Temp(temp), enums)
    {
      hide Condition, Decls;
      var cond := Condition(arms[i], t, Temp(temp), enums);
      Add(if i == 0 then IfOpen(cond) else ElseIfOpen(cond));
      EmitPatternBindings(arms[i], t, Temp(temp));
      Add(ArmBlock(i));
      Add(Close);
      assert lines == old(lines) + ([if i == 0 then IfOpen(cond) else ElseIfOpen(cond)] +
          Decls(arms[i], t, Temp(temp), enums) + [ArmBlock(i), Close]);
    }

    method EmitRefinedMatch(arms: seq<Lowered>, t: Type, temp: nat)
      requires ValidEnums(enums) && forall i | 0 <= i < |arms| :: WellFormedL(arms[i], t, enums)
      modifies `lines
      ensures lines == old(lines) + Chain(arms, |arms|, t, Temp(temp), enums)
    {
      hide ChainArm, WellFormedL, ValidEnums;
      var index := 0;
      while index < |arms|
        invariant 0 <= index <= |arms|
        invariant lines == old(lines) + Chain(arms, index, t, Temp(temp), enums)
      {
        EmitBranch(arms, index, t, temp);
        assert lines == old(lines) + (Chain(arms, index, t, Temp(temp), enums) + ChainArm(arms, index, t, Temp(temp), enums));
        index := index + 1;
      }
    }

    method EmitBody(arms: seq<Lowered>, i: nat, t: Type, temp: nat)
      requires i < |arms| && ValidEnums(enums) && WellFormedL(arms[i], t, enums)
      modifies `lines
      ensures lines == old(lines) + BodyOf(arms, i, t, Temp(temp), enums)
    {
      hide Decls;
      EmitPatternBindings(arms[i], t, Temp(temp));
      Add(ArmBlock(i));
      Add(Break);
      Add(Close);
      assert lines == old(lines) + (Decls(arms[i], t, Temp(temp), enums) + [ArmBlock(i), Break, Close]);
    }

    method EmitCase(arms: seq<Lowered>, i: nat, t: Type, temp: nat)
      requires i < |arms| && ValidEnums(enums) && WellFormedL(arms[i], t, enums) && arms[i].LVariant?
      modifies `lines
      ensures lines == old(lines) + ([CaseOpen(TagOf(t, arms[i].name))] + BodyOf(arms, i, t, Temp(temp), enums))
    {
      hide BodyOf, TagOf;
      Add(CaseOpen(TagOf(t, arms[i].name)));
      EmitBody(arms, i, t, temp);
    }

    /** The labelled cases, in order, and the last catch-all seen on the way. */
    method EmitCases(arms: seq<Lowered>, t: Type, temp: nat) returns (default: Option<nat>)
      requires ValidEnums(enums) && forall i | 0 <= i < |arms| :: WellFormedL(arms[i], t, enums)
      modifies `lines
      ensures default == LastDefault(arms, |arms|)
      ensures lines == old(lines) + Cases(arms, |arms|, t, Temp(temp), enums)
    {
      hide BodyOf, WellFormedL, ValidEnums, TagOf;
      default := None;
      var index := 0;
      while index < |arms|
        invariant 0 <= index <= |arms|
        invariant default == LastDefault(arms, index)
        invariant lines == old(lines) + Cases(arms, index, t, Temp(temp), enums)
      {
        if IsDefault(arms[index]) {
          default := Some(index);
        } else if arms[index].LVariant? {
          EmitCase(arms, index, t, temp);
          assert lines == old(lines) + (Cases(arms, index, t, Temp(temp), enums) +
              ([CaseOpen(TagOf(t, arms[index].name))] + BodyOf(arms, index, t, Temp(temp), enums)));
        }
        index := index + 1;
      }
    }

    /** A match with a refined arm becomes an if-chain, any other a switch whose
        default is the last catch-all. */
    method EmitMatch(arms: seq<Lowered>, t: Type)
      requires ValidEnums(enums) && forall i | 0 <= i < |arms| :: WellFormedL(arms[i], t, enums)
      modifies this
      ensures tempIndex == old(tempIndex) + 1
      ensures lines == old(lines) + MatchText(arms, t, tempIndex, enums)
    {
      hide BodyOf, WellFormedL, ValidEnums, Chain, Cases;
      var temp := FreshTemp();
      Add(TempDecl(temp));
      if AnyRefined(arms) {
        EmitRefinedMatch(arms, t, temp);
        return;
      }
      EmitSwitch(arms, t, temp);
    }

    method EmitSwitch(arms: seq<Lowered>, t: Type, temp: nat)
      requires ValidEnums(enums) && forall i | 0 <= i < |arms| :: WellFormedL(arms[i], t, enums)
      modifies `lines
      ensures lines == old(lines) + ([SwitchOpen(Temp(temp))] + Cases(arms, |arms|, t, Temp(temp), enums) +
                                     DefaultText(arms, t, Temp(temp), enums) + [Close])
    {
      hide BodyOf, WellFormedL, ValidEnums, Cases, DefaultText;
      Add(SwitchOpen(Temp(temp)));
      var default := EmitCases(arms, t, temp);
      EmitDefault(arms, default, t, temp);
      Add(Close);
    }

    method EmitDefault(arms: seq<Lowered>, default: Option<nat>, t: Type, temp: nat)
      requires ValidEnums(enums) && default == LastDefault(arms, |arms|)
      requires forall i | 0 <= i < |arms| :: WellFormedL(arms[i], t, enums)
      modifies `lines
      ensures lines == old(lines) + DefaultText(arms, t, Temp(temp), enums)
    {
      hide BodyOf, WellFormedL, ValidEnums;
      if default.Some? {
        Add(DefaultOpen);
        EmitBody(arms, default.value, t, temp);
      }
    }
  }

  lemma {:induction false} LengthsAgree(ps: seq<Lowered>, ts: seq<Type>, enums: Enums)
    requires AllWellFormedL(ps, ts, enums)
    ensures |ps| == |ts|
  {
  }
}
