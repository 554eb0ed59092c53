/** The switch form: which arm it runs, and exactly when that is the first match. */
module MatchSwitch {
  import opened MatchSyntax
  import opened MatchCode
  import opened MatchEmitter
  import opened MatchMeaning

  ghost predicate AllWellFormedArms(arms: seq<Lowered>, t: Type, enums: Enums) {
    forall k | 0 <= k < |arms| :: WellFormedL(arms[k], t, enums)
  }

  /** The first of the first n arms for a variant. */
  function ArmFor(arms: seq<Lowered>, n: nat, name: string): (i: Option<nat>)
    requires n <= |arms|
    ensures i.Some? ==> i.value < n && arms[i.value].LVariant? && arms[i.value].name == name
    ensures forall k | 0 <= k < n && arms[k].LVariant? && arms[k].name == name :: i.Some? && i.value <= k
  {
    if n == 0 then None
    else
      var earlier := ArmFor(arms, n - 1, name);
      if earlier.Some? then earlier
      else if arms[n - 1].LVariant? && arms[n - 1].name == name then Some(n - 1)
      else None
  }

  ghost predicate NoRepeatUpTo(arms: seq<Lowered>, n: nat)
    requires n <= |arms|
  {
    forall i, j | 0 <= i < j < n && arms[i].LVariant? && arms[j].LVariant? :: arms[i].name != arms[j].name
  }

  /** No two arms name the same variant. */
  ghost predicate NoRepeatedVariant(arms: seq<Lowered>) {
    NoRepeatUpTo(arms, |arms|)
  }

  /** What the switch form runs on a tagged value: the case of its tag wherever it
      stands, else the last catch-all. */
  function SwitchOutcome(arms: seq<Lowered>, v: Value, t: Type, enums: Enums): Outcome
    requires v.Tagged?
  {
    var here := ArmFor(arms, |arms|, v.variant);
    var chosen := if here.Some? then here else LastDefault(arms, |arms|);
    if chosen.None? then NoArm
    else
      var made := MatchL(arms[chosen.value], v, t, enums);
      if made.Some? then Arm(chosen.value, made.value) else NoArm
  }

  // ----- labels -----

  lemma {:induction false} LabelsConcat(a: seq<Line>, b: seq<Line>)
    ensures Labels(a + b) == Labels(a) + Labels(b)
  {
    if a == [] {
      assert a + b == b;
    } else {
      assert (a + b)[1..] == a[1..] + b;
      LabelsConcat(a[1..], b);
      var first: seq<Tag> := if a[0].CaseOpen? then [a[0].tag] else [];
      assert first + (Labels(a[1..]) + Labels(b)) == (first + Labels(a[1..])) + Labels(b);
    }
  }

  lemma {:induction false} NoLabels(a: seq<Line>)
    requires forall i | 0 <= i < |a| :: !a[i].CaseOpen?
    ensures Labels(a) == []
  {
    if a != [] {
      NoLabels(a[1..]);
    }
  }

  /** The tags of the constructor arms among the first n. */
  function ArmTags(arms: seq<Lowered>, n: nat, t: Type): seq<Tag>
    requires n <= |arms|
  {
    if n == 0 then []
    else ArmTags(arms, n - 1, t) + if arms[n - 1].LVariant? then [TagOf(t, arms[n - 1].name)] else []
  }

  lemma {:induction false} LabelsOfCases(arms: seq<Lowered>, n: nat, t: Type, place: Place, enums: Enums)
    requires n <= |arms|
    ensures Labels(Cases(arms, n, t, place, enums)) == ArmTags(arms, n, t)
  {
    hide BodyOf, Short;
    if n > 0 {
      LabelsOfCases(arms, n - 1, t, place, enums);
      var before := Cases(arms, n - 1, t, place, enums);
      if arms[n - 1].LVariant? {
        var tag := TagOf(t, arms[n - 1].name);
        var body := BodyOf(arms, n - 1, t, place, enums);
        BodyHasNoLabel(arms, n - 1, t, place, enums);
        LabelsConcat(before, [CaseOpen(tag)] + body);
        assert ([CaseOpen(tag)] + body)[1..] == body;
      } else {
        assert before + [] == before;
      }
    }
  }

  lemma {:induction false} TagsDistinct(arms: seq<Lowered>, n: nat, t: Type, enums: Enums)
    requires n <= |arms| && ValidEnums(enums) && AllWellFormedArms(arms, t, enums)
    ensures forall tag :: tag in ArmTags(arms, n, t) <==>
              exists i :: 0 <= i < n && arms[i].LVariant? && tag == TagOf(t, arms[i].name)
    ensures Distinct(ArmTags(arms, n, t)) <==> NoRepeatUpTo(arms, n)
  {
    hide Short, Distinct, NoRepeatUpTo;
    if n > 0 {
      TagsDistinct(arms, n - 1, t, enums);
      if arms[n - 1].LVariant? {
        DistinctSnoc(ArmTags(arms, n - 1, t), TagOf(t, arms[n - 1].name));
        forall i | 0 <= i < n - 1 && arms[i].LVariant?
          ensures TagOf(t, arms[i].name) == TagOf(t, arms[n - 1].name) <==> arms[i].name == arms[n - 1].name
        {
          if TagOf(t, arms[i].name) == TagOf(t, arms[n - 1].name) {
            ShortTellsApart(t, arms[i].name, arms[n - 1].name, enums);
          }
        }
      }
      assert ArmTags(arms, n - 1, t) + [] == ArmTags(arms, n - 1, t);
      NoRepeatSnoc(arms, n - 1);
    } else {
      NothingRepeats(arms);
    }
  }

  lemma NothingRepeats(arms: seq<Lowered>)
    ensures Distinct([]) && NoRepeatUpTo(arms, 0)
  {
  }

  lemma NoRepeatSnoc(arms: seq<Lowered>, n: nat)
    requires n < |arms|
    ensures NoRepeatUpTo(arms, n + 1) <==>
            NoRepeatUpTo(arms, n) && !(arms[n].LVariant? &&
              exists i :: 0 <= i < n && arms[i].LVariant? && arms[i].name == arms[n].name)
  {
  }

  lemma DistinctSnoc(tags: seq<Tag>, tag: Tag)
    ensures Distinct(tags + [tag]) <==> Distinct(tags) && tag !in tags
  {
    var all := tags + [tag];
    if Distinct(all) {
      assert forall i | 0 <= i < |tags| :: tags[i] == all[i];
      assert forall i | 0 <= i < |tags| :: all[i] != all[|tags|];
    }
  }

  lemma BodyHasNoLabel(arms: seq<Lowered>, i: nat, t: Type, place: Place, enums: Enums)
    requires i < |arms|
    ensures Labels(BodyOf(arms, i, t, place, enums)) == []
    ensures forall k | 0 <= k < |BodyOf(arms, i, t, place, enums)| ::
              !BodyOf(arms, i, t, place, enums)[k].CaseOpen? && !BodyOf(arms, i, t, place, enums)[k].DefaultOpen?
  {
    hide Decls;
    DeclsDeclare(arms[i], t, place, enums);
    NoLabels(BodyOf(arms, i, t, place, enums));
  }

  lemma {:induction false} AtCaseConcat(a: seq<Line>, b: seq<Line>, tag: Tag)
    ensures AtCase(a, tag).Some? ==> AtCase(a + b, tag) == Some(AtCase(a, tag).value + b)
    ensures AtCase(a, tag).None? ==> AtCase(a + b, tag) == AtCase(b, tag)
  {
    if a == [] {
      assert a + b == b;
    } else {
      assert (a + b)[1..] == a[1..] + b;
      AtCaseConcat(a[1..], b, tag);
    }
  }

  lemma {:induction false} AtDefaultSkips(a: seq<Line>, b: seq<Line>)
    requires forall i | 0 <= i < |a| :: !a[i].DefaultOpen?
    ensures AtDefault(a + b) == AtDefault(b)
  {
    if a == [] {
      assert a + b == b;
    } else {
      assert (a + b)[1..] == a[1..] + b;
      AtDefaultSkips(a[1..], b);
    }
  }

  lemma {:induction false} NoCase(a: seq<Line>, tag: Tag)
    requires forall i | 0 <= i < |a| :: a[i] != CaseOpen(tag)
    ensures AtCase(a, tag) == None
  {
    if a != [] {
      NoCase(a[1..], tag);
    }
  }

  lemma {:induction false} CasesNoDefault(arms: seq<Lowered>, n: nat, t: Type, place: Place, enums: Enums)
    requires n <= |arms|
    ensures forall k | 0 <= k < |Cases(arms, n, t, place, enums)| :: !Cases(arms, n, t, place, enums)[k].DefaultOpen?
  {
    hide BodyOf;
    if n > 0 {
      CasesNoDefault(arms, n - 1, t, place, enums);
      BodyHasNoLabel(arms, n - 1, t, place, enums);
    }
  }

  /** Looking a tag up among the cases finds the first arm for its variant. */
  lemma {:induction false} AtCaseOfCases(arms: seq<Lowered>, n: nat, t: Type, place: Place, name: string, enums: Enums)
    returns (rest: seq<Line>)
    requires n <= |arms| && ValidEnums(enums) && AllWellFormedArms(arms, t, enums) && IsVariant(t, name, enums)
    ensures ArmFor(arms, n, name).None? ==> AtCase(Cases(arms, n, t, place, enums), TagOf(t, name)) == None
    ensures ArmFor(arms, n, name).Some? ==>
              AtCase(Cases(arms, n, t, place, enums), TagOf(t, name)) ==
                Some(BodyOf(arms, ArmFor(arms, n, name).value, t, place, enums) + rest)
  {
    hide BodyOf, Short, WellFormedL;
    rest := [];
    if n > 0 {
      rest := AtCaseOfCases(arms, n - 1, t, place, name, enums);
      var earlier := Cases(arms, n - 1, t, place, enums);
      if arms[n - 1].LVariant? {
        var tag := TagOf(t, name);
        var body := BodyOf(arms, n - 1, t, place, enums);
        var block := [CaseOpen(TagOf(t, arms[n - 1].name))] + body;
        AtCaseConcat(earlier, block, tag);
        AtOwnCase(arms, n - 1, t, place, name, enums);
        if ArmFor(arms, n - 1, name).Some? {
          var i := ArmFor(arms, n - 1, name).value;
          assert (BodyOf(arms, i, t, place, enums) + rest) + block == BodyOf(arms, i, t, place, enums) + (rest + block);
          rest := rest + block;
        } else {
          rest := [];
          assert body == body + [];
        }
      } else {
        assert earlier + [] == earlier;
      }
    }
  }

  lemma AtOwnCase(arms: seq<Lowered>, i: nat, t: Type, place: Place, name: string, enums: Enums)
    requires i < |arms| && ValidEnums(enums) && WellFormedL(arms[i], t, enums) && IsVariant(t, name, enums)
    requires arms[i].LVariant?
    ensures AtCase([CaseOpen(TagOf(t, arms[i].name))] + BodyOf(arms, i, t, place, enums), TagOf(t, name)) ==
            if arms[i].name == name then Some(BodyOf(arms, i, t, place, enums)) else None
  {
    hide BodyOf, Short;
    var body := BodyOf(arms, i, t, place, enums);
    var block := [CaseOpen(TagOf(t, arms[i].name))] + body;
    assert block[1..] == body;
    BodyHasNoLabel(arms, i, t, place, enums);
    NoCase(body, TagOf(t, name));
    if TagOf(t, arms[i].name) == TagOf(t, name) {
      ShortTellsApart(t, arms[i].name, name, enums);
    }
  }

  // ----- what the switch runs -----

  lemma {:induction false} PlainArgsMatch(ps: seq<Lowered>, vs: seq<Value>, ts: seq<Type>, enums: Enums)
    requires |ps| == |ts| == |vs| && forall i | 0 <= i < |ps| :: IsDefault(ps[i])
    ensures MatchAllL(ps, vs, ts, enums).Some?
  {
    if ps != [] {
      PlainArgsMatch(ps[1..], vs[1..], ts[1..], enums);
    }
  }

  /** An unrefined arm for a value's variant matches the value. */
  lemma UnrefinedMatches(p: Lowered, v: Value, t: Type, enums: Enums)
    requires WellFormedL(p, t, enums) && HasType(v, t, enums) && !Refined(p)
    requires (p.LVariant? && v.Tagged? && v.variant == p.name) || IsDefault(p)
    ensures MatchL(p, v, t, enums).Some?
  {
    if p.LVariant? {
      LengthsAgree(p.args, Payloads(t, p.name, enums).value, enums);
      forall i | 0 <= i < |p.args|
        ensures IsDefault(p.args[i])
      {
        assert !(Refined(p.args[i]) || p.args[i].LVariant?);
      }
      PlainArgsMatch(p.args, v.args, Payloads(t, p.name, enums).value, enums);
    }
  }

  lemma CaseRuns(arms: seq<Lowered>, i: nat, v: Value, t: Type, place: Place, temps: Temps, rest: seq<Line>, enums: Enums)
    requires i < |arms| && ValidEnums(enums) && WellFormedL(arms[i], t, enums) && Holding(place, temps, v, t, enums)
    requires MatchL(arms[i], v, t, enums).Some?
    ensures WellTyped(MatchL(arms[i], v, t, enums).value, enums)
    ensures Execute(BodyOf(arms, i, t, place, enums) + rest, temps, map[], true) ==
            Done([Ran(i, EncodeBindings(MatchL(arms[i], v, t, enums).value, enums))])
  {
    hide Decls, Execute, MatchL, EncodeBindings, Holding, WellFormedL;
    BodyMeaning(arms, i, v, t, place, temps, Break, [Close] + rest, enums);
    assert BodyOf(arms, i, t, place, enums) + rest ==
           Decls(arms[i], t, place, enums) + [ArmBlock(i), Break] + ([Close] + rest);
  }

  function SwitchBody(arms: seq<Lowered>, t: Type, place: Place, enums: Enums): seq<Line> {
    Cases(arms, |arms|, t, place, enums) + DefaultText(arms, t, place, enums) + [Close]
  }

  /** Its labels are the cases' labels. */
  lemma SwitchLabels(arms: seq<Lowered>, t: Type, place: Place, enums: Enums)
    requires ValidEnums(enums) && AllWellFormedArms(arms, t, enums)
    ensures Distinct(Labels(SwitchBody(arms, t, place, enums))) <==> NoRepeatedVariant(arms)
  {
    hide BodyOf, Short, Cases;
    var cases := Cases(arms, |arms|, t, place, enums);
    var tail := DefaultText(arms, t, place, enums) + [Close];
    assert SwitchBody(arms, t, place, enums) == cases + tail;
    LabelsConcat(cases, tail);
    TailHasNoLabel(arms, t, place, enums);
    LabelsOfCases(arms, |arms|, t, place, enums);
    TagsDistinct(arms, |arms|, t, enums);
    assert Labels(cases) + [] == Labels(cases);
  }

  lemma TailHasNoLabel(arms: seq<Lowered>, t: Type, place: Place, enums: Enums)
    ensures Labels(DefaultText(arms, t, place, enums) + [Close]) == []
    ensures forall tag :: AtCase(DefaultText(arms, t, place, enums) + [Close], tag) == None
  {
    hide BodyOf;
    var d := LastDefault(arms, |arms|);
    if d.Some? {
      BodyHasNoLabel(arms, d.value, t, place, enums);
    }
    NoLabels(DefaultText(arms, t, place, enums) + [Close]);
    forall tag
      ensures AtCase(DefaultText(arms, t, place, enums) + [Close], tag) == None
    {
      NoCase(DefaultText(arms, t, place, enums) + [Close], tag);
    }
  }

  /** Where control goes in the switch when there is a case for the tag, and that
      there is none otherwise. */
  lemma CaseTarget(arms: seq<Lowered>, name: string, t: Type, place: Place, enums: Enums) returns (rest: seq<Line>)
    requires ValidEnums(enums) && AllWellFormedArms(arms, t, enums) && IsVariant(t, name, enums)
    ensures ArmFor(arms, |arms|, name).Some? ==>
              AtCase(SwitchBody(arms, t, place, enums), TagOf(t, name)) ==
                Some(BodyOf(arms, ArmFor(arms, |arms|, name).value, t, place, enums) + rest)
    ensures ArmFor(arms, |arms|, name).None? ==> AtCase(SwitchBody(arms, t, place, enums), TagOf(t, name)) == None
  {
    hide BodyOf, Short, Cases, DefaultText, WellFormedL;
    var cases := Cases(arms, |arms|, t, place, enums);
    var tail := DefaultText(arms, t, place, enums) + [Close];
    var tag := TagOf(t, name);
    assert SwitchBody(arms, t, place, enums) == cases + tail;
    rest := AtCaseOfCases(arms, |arms|, t, place, name, enums);
    AtCaseConcat(cases, tail, tag);
    TailHasNoLabel(arms, t, place, enums);
    if ArmFor(arms, |arms|, name).Some? {
      var body := BodyOf(arms, ArmFor(arms, |arms|, name).value, t, place, enums);
      assert (body + rest) + tail == body + (rest + tail);
      rest := rest + tail;
    }
  }

  lemma DefaultTarget(arms: seq<Lowered>, t: Type, place: Place, enums: Enums)
    ensures LastDefault(arms, |arms|).Some? ==>
              AtDefault(SwitchBody(arms, t, place, enums)) ==
                Some(BodyOf(arms, LastDefault(arms, |arms|).value, t, place, enums) + [Close])
    ensures LastDefault(arms, |arms|).None? ==> AtDefault(SwitchBody(arms, t, place, enums)) == None
  {
    hide BodyOf, Cases, DefaultText, AtDefault;
    var cases := Cases(arms, |arms|, t, place, enums);
    var tail := DefaultText(arms, t, place, enums) + [Close];
    assert SwitchBody(arms, t, place, enums) == cases + tail;
    CasesNoDefault(arms, |arms|, t, place, enums);
    AtDefaultSkips(cases, tail);
    AtDefaultOfTail(arms, t, place, enums);
  }

  lemma AtDefaultHere(body: seq<Line>)
    ensures AtDefault([DefaultOpen] + body) == Some(body)
  {
    assert ([DefaultOpen] + body)[1..] == body;
  }

  lemma AtDefaultOfTail(arms: seq<Lowered>, t: Type, place: Place, enums: Enums)
    ensures AtDefault(DefaultText(arms, t, place, enums) + [Close]) ==
            var d := LastDefault(arms, |arms|);
            if d.Some? then Some(BodyOf(arms, d.value, t, place, enums) + [Close]) else None
  {
    hide BodyOf, LastDefault, AtDefault;
    var d := LastDefault(arms, |arms|);
    if d.Some? {
      var body := BodyOf(arms, d.value, t, place, enums);
      AtDefaultHere(body + [Close]);
      assert ([DefaultOpen] + body) + [Close] == [DefaultOpen] + (body + [Close]);
    } else {
      AtDefaultSkips([Close], []);
      assert DefaultText(arms, t, place, enums) + [Close] == [Close] + [];
      NoDefault();
    }
  }

  lemma NoDefault()
    ensures AtDefault([]) == None
  {
  }

  lemma SwitchMeaning(arms: seq<Lowered>, v: Value, t: Type, place: Place, temps: Temps, enums: Enums)
    requires ValidEnums(enums) && AllWellFormedArms(arms, t, enums) && !AnyRefined(arms)
    requires Holding(place, temps, v, t, enums)
    ensures !v.Tagged? || !NoRepeatedVariant(arms) ==> RunSwitch(place, SwitchBody(arms, t, place, enums), temps) == Stuck
    ensures v.Tagged? && NoRepeatedVariant(arms) ==>
              Means(RunSwitch(place, SwitchBody(arms, t, place, enums), temps), SwitchOutcome(arms, v, t, enums), enums)
  {
    hide Execute, BodyOf, SwitchBody, Labels, WellFormedL, EncodeBindings, MatchL, Short, Refined, AtCase, AtDefault, Distinct;
    SwitchLabels(arms, t, place, enums);
    if v.Tagged? && NoRepeatedVariant(arms) {
      var rest := CaseTarget(arms, v.variant, t, place, enums);
      DefaultTarget(arms, t, place, enums);
      var here := ArmFor(arms, |arms|, v.variant);
      var d := LastDefault(arms, |arms|);
      if here.Some? {
        UnrefinedMatches(arms[here.value], v, t, enums);
        CaseRuns(arms, here.value, v, t, place, temps, rest, enums);
      } else if d.Some? {
        UnrefinedMatches(arms[d.value], v, t, enums);
        CaseRuns(arms, d.value, v, t, place, temps, [Close], enums);
      }
    }
  }
}
