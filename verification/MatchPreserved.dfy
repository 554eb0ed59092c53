/** The main results about matches: when the emitted code has the source's meaning. */
module MatchPreserved {
  import opened MatchSyntax
  import opened MatchCode
  import opened MatchEmitter
  import opened MatchMeaning
  import opened MatchSwitch

  // ----- source and lowered arms -----

  lemma {:induction false} LowerAllParts(ps: seq<Pattern>, locals: set<nat>, k: nat)
    requires LowerAll(ps, locals).Some? && k < |ps|
    ensures |LowerAll(ps, locals).value| == |ps|
    ensures Lower(ps[k], locals) == Some(LowerAll(ps, locals).value[k])
  {
    if k > 0 {
      LowerAllParts(ps[1..], locals, k - 1);
    } else if |ps| > 1 {
      LowerAllParts(ps[1..], locals, 0);
    }
  }

  ghost predicate AllWellFormedSource(ps: seq<Pattern>, t: Type, enums: Enums) {
    forall k | 0 <= k < |ps| :: WellFormed(ps[k], t, enums)
  }

  lemma LoweredArms(ps: seq<Pattern>, locals: set<nat>, t: Type, enums: Enums)
    requires LowerAll(ps, locals).Some? && AllWellFormedSource(ps, t, enums)
    ensures |LowerAll(ps, locals).value| == |ps|
    ensures AllWellFormedArms(LowerAll(ps, locals).value, t, enums)
  {
    var arms := LowerAll(ps, locals).value;
    if ps != [] {
      LowerAllParts(ps, locals, 0);
    }
    forall k | 0 <= k < |arms|
      ensures WellFormedL(arms[k], t, enums)
    {
      LowerAllParts(ps, locals, k);
      LowerKeepsMeaning(ps[k], locals, Opaque(0), t, enums);
    }
  }

  lemma {:induction false} SameFirstMatch(ps: seq<Pattern>, locals: set<nat>, from: nat, v: Value, t: Type, enums: Enums)
    requires LowerAll(ps, locals).Some? && |LowerAll(ps, locals).value| == |ps| && from <= |ps|
    requires AllWellFormedSource(ps, t, enums) && HasType(v, t, enums)
    ensures FirstMatchL(LowerAll(ps, locals).value, from, v, t, enums) == FirstMatch(ps, from, v, t, enums)
    decreases |ps| - from
  {
    hide Match, MatchL, HasType, LowerAll, Lower, WellFormed;
    if from < |ps| {
      LowerAllParts(ps, locals, from);
      LowerKeepsMeaning(ps[from], locals, v, t, enums);
      SameFirstMatch(ps, locals, from + 1, v, t, enums);
    }
  }

  // ----- the code -----

  /** What running the emitted text on the representation of a value does. */
  ghost function RunMatch(arms: seq<Lowered>, v: Value, t: Type, index: nat, enums: Enums): Result
    requires HasType(v, t, enums)
  {
    Run(MatchText(arms, t, index, enums), Encode(v, t, enums))
  }

  lemma ChainPreserves(arms: seq<Lowered>, v: Value, t: Type, index: nat, enums: Enums)
    requires ValidEnums(enums) && AllWellFormedArms(arms, t, enums) && HasType(v, t, enums) && AnyRefined(arms)
    ensures Means(RunMatch(arms, v, t, index, enums), FirstMatchL(arms, 0, v, t, enums), enums)
  {
    hide Execute, ChainArm, MatchL, WellFormedL, Encode, RunChain, AfterClose;
    var place := Temp(index);
    var temps: Temps := map[index := Encode(v, t, enums)];
    var text := MatchText(arms, t, index, enums);
    var chain := Chain(arms, |arms|, t, place, enums);
    assert text[1..] == chain;
    ChainSplit(arms, 0, t, place, enums);
    assert chain == ChainFrom(arms, 0, t, place, enums);
    ArmText(arms, 0, t, place, enums);
    assert text[1] == chain[0];
    ChainMeaning(arms, 0, v, t, place, temps, enums);
  }

  lemma SwitchRuns(arms: seq<Lowered>, v: Value, t: Type, index: nat, enums: Enums)
    requires ValidEnums(enums) && AllWellFormedArms(arms, t, enums) && HasType(v, t, enums) && !AnyRefined(arms)
    ensures !v.Tagged? || !NoRepeatedVariant(arms) ==> RunMatch(arms, v, t, index, enums) == Stuck
    ensures v.Tagged? && NoRepeatedVariant(arms) ==>
              Means(RunMatch(arms, v, t, index, enums), SwitchOutcome(arms, v, t, enums), enums)
  {
    hide Cases, DefaultText, MatchL, WellFormedL, Encode, RunSwitch, NoRepeatedVariant, SwitchOutcome, Means;
    var place := Temp(index);
    var temps: Temps := map[index := Encode(v, t, enums)];
    var text := MatchText(arms, t, index, enums);
    assert text[1] == SwitchOpen(place);
    assert text[2..] == SwitchBody(arms, t, place, enums);
    SwitchMeaning(arms, v, t, place, temps, enums);
  }

  // ----- the arms in order -----

  /** Every variant of the type is named by an arm. */
  ghost predicate CoversAll(arms: seq<Lowered>, t: Type, enums: Enums) {
    forall name | IsVariant(t, name, enums) :: exists i :: 0 <= i < |arms| && arms[i].LVariant? && arms[i].name == name
  }

  /** No variant repeats, no constructor comes after a catch-all, and a second
      catch-all is there only when it can never be reached. */
  ghost predicate InOrder(arms: seq<Lowered>, t: Type, enums: Enums) {
    && NoRepeatedVariant(arms)
    && (forall i, j | 0 <= i < j < |arms| && IsDefault(arms[i]) :: !arms[j].LVariant?)
    && ((forall i, j | 0 <= i < j < |arms| && IsDefault(arms[i]) :: !IsDefault(arms[j])) || CoversAll(arms, t, enums))
  }

  lemma {:induction false} FirstMatchIs(arms: seq<Lowered>, from: nat, v: Value, t: Type, enums: Enums)
    requires from <= |arms|
    ensures var o := FirstMatchL(arms, from, v, t, enums);
            && (o.NoArm? ==> forall k | from <= k < |arms| :: MatchL(arms[k], v, t, enums).None?)
            && (o.Arm? ==> from <= o.index < |arms| && MatchL(arms[o.index], v, t, enums) == Some(o.bindings)
                           && forall k | from <= k < o.index :: MatchL(arms[k], v, t, enums).None?)
    decreases |arms| - from
  {
    hide MatchL;
    if from < |arms| {
      FirstMatchIs(arms, from + 1, v, t, enums);
    }
  }

  /** Which unrefined arms match a tagged value: those for its variant and the
      catch-alls. */
  lemma WhoMatches(arms: seq<Lowered>, k: nat, v: Value, t: Type, enums: Enums)
    requires k < |arms| && AllWellFormedArms(arms, t, enums) && !AnyRefined(arms) && HasType(v, t, enums) && v.Tagged?
    ensures MatchL(arms[k], v, t, enums).Some? <==>
              IsDefault(arms[k]) || (arms[k].LVariant? && arms[k].name == v.variant)
  {
    assert !Refined(arms[k]);
    if IsDefault(arms[k]) || (arms[k].LVariant? && arms[k].name == v.variant) {
      UnrefinedMatches(arms[k], v, t, enums);
    }
  }

  /** For one value, the switch's choice is the first match when arms are in
      order. */
  lemma InOrderAgrees(arms: seq<Lowered>, v: Value, t: Type, enums: Enums)
    requires AllWellFormedArms(arms, t, enums) && !AnyRefined(arms) && HasType(v, t, enums) && v.Tagged?
    requires InOrder(arms, t, enums)
    ensures SwitchOutcome(arms, v, t, enums) == FirstMatchL(arms, 0, v, t, enums)
  {
    hide MatchL, HasType, WellFormedL, Refined, AnyRefined, NoRepeatedVariant;
    FirstMatchIs(arms, 0, v, t, enums);
    var here := ArmFor(arms, |arms|, v.variant);
    var d := LastDefault(arms, |arms|);
    forall k | 0 <= k < |arms|
      ensures MatchL(arms[k], v, t, enums).Some? <==>
                IsDefault(arms[k]) || (arms[k].LVariant? && arms[k].name == v.variant)
    {
      WhoMatches(arms, k, v, t, enums);
    }
    if here.None? {
      VariantOf(v, t, enums);
      assert !CoversAll(arms, t, enums);
    }
  }

  lemma VariantOf(v: Value, t: Type, enums: Enums)
    requires HasType(v, t, enums) && v.Tagged?
    ensures IsVariant(t, v.variant, enums)
  {
  }

  lemma MeansOne(result: Result, a: Outcome, b: Outcome, enums: Enums)
    requires Means(result, a, enums) && Means(result, b, enums)
    ensures a.Arm? <==> b.Arm?
    ensures a.Arm? ==> a.index == b.index
  {
    if a.Arm? && b.Arm? {
      assert result.runs[0] == Ran(a.index, EncodeBindings(a.bindings, enums));
      assert result.runs[0] == Ran(b.index, EncodeBindings(b.bindings, enums));
    }
  }

  /** A catch-all before a constructor arm takes the values of that constructor;
      the switch gives them to the constructor arm. */
  lemma CatchAllTooEarly(arms: seq<Lowered>, i: nat, j: nat, v: Value, t: Type, enums: Enums)
    requires AllWellFormedArms(arms, t, enums) && !AnyRefined(arms) && NoRepeatedVariant(arms)
    requires i < j < |arms| && IsDefault(arms[i]) && arms[j].LVariant?
    requires HasType(v, t, enums) && v.Tagged? && v.variant == arms[j].name
    ensures SwitchOutcome(arms, v, t, enums).Arm? && SwitchOutcome(arms, v, t, enums).index == j
    ensures FirstMatchL(arms, 0, v, t, enums).Arm? && FirstMatchL(arms, 0, v, t, enums).index <= i
  {
    hide MatchL, HasType, WellFormedL, Refined, AnyRefined;
    FirstMatchIs(arms, 0, v, t, enums);
    WhoMatches(arms, i, v, t, enums);
    WhoMatches(arms, j, v, t, enums);
    assert ArmFor(arms, |arms|, v.variant) == Some(j);
  }

  /** Of two catch-alls, the source runs the earlier and the switch the later. */
  lemma SecondCatchAll(arms: seq<Lowered>, i: nat, j: nat, v: Value, t: Type, enums: Enums)
    requires AllWellFormedArms(arms, t, enums) && !AnyRefined(arms) && NoRepeatedVariant(arms)
    requires i < j < |arms| && IsDefault(arms[i]) && IsDefault(arms[j])
    requires HasType(v, t, enums) && v.Tagged? && ArmFor(arms, |arms|, v.variant).None?
    ensures SwitchOutcome(arms, v, t, enums).Arm? && SwitchOutcome(arms, v, t, enums).index >= j
    ensures FirstMatchL(arms, 0, v, t, enums).Arm? && FirstMatchL(arms, 0, v, t, enums).index <= i
  {
    hide MatchL, HasType, WellFormedL, Refined, AnyRefined;
    FirstMatchIs(arms, 0, v, t, enums);
    WhoMatches(arms, i, v, t, enums);
    var d := LastDefault(arms, |arms|).value;
    WhoMatches(arms, d, v, t, enums);
  }

  // ----- the theorem -----

  /** Every variant of the type has a value. */
  ghost predicate Inhabited(t: Type, enums: Enums) {
    && (t.Named? ==> t.name in enums)
    && forall name | IsVariant(t, name, enums) :: exists v :: HasType(v, t, enums) && v.Tagged? && v.variant == name
  }

  /** The emitted code means the match, for every value. */
  ghost predicate Preserved(arms: seq<Lowered>, t: Type, index: nat, enums: Enums) {
    forall v | HasType(v, t, enums) :: Means(RunMatch(arms, v, t, index, enums), FirstMatchL(arms, 0, v, t, enums), enums)
  }

  lemma SwitchPreserves(arms: seq<Lowered>, t: Type, index: nat, enums: Enums)
    requires ValidEnums(enums) && AllWellFormedArms(arms, t, enums) && !AnyRefined(arms)
    requires HasVariants(t, enums) && InOrder(arms, t, enums)
    ensures Preserved(arms, t, index, enums)
  {
    hide RunMatch, FirstMatchL, SwitchOutcome, AnyRefined, Means, WellFormedL;
    forall v | HasType(v, t, enums)
      ensures Means(RunMatch(arms, v, t, index, enums), FirstMatchL(arms, 0, v, t, enums), enums)
    {
      SwitchRuns(arms, v, t, index, enums);
      InOrderAgrees(arms, v, t, enums);
    }
  }

  lemma OutOfOrderDiffers(arms: seq<Lowered>, t: Type, index: nat, enums: Enums)
    requires ValidEnums(enums) && AllWellFormedArms(arms, t, enums) && !AnyRefined(arms)
    requires Inhabited(t, enums) && !InOrder(arms, t, enums)
    ensures !Preserved(arms, t, index, enums)
  {
    hide RunMatch, FirstMatchL, SwitchOutcome, AnyRefined, WellFormedL, HasType, ValidEnums;
    if !NoRepeatedVariant(arms) {
      var i, j :| 0 <= i < j < |arms| && arms[i].LVariant? && arms[j].LVariant? && arms[i].name == arms[j].name;
      ArmVariant(arms, i, t, enums);
      var v :| HasType(v, t, enums) && v.Tagged? && v.variant == arms[i].name;
      SwitchRuns(arms, v, t, index, enums);
    } else if exists i, j :: 0 <= i < j < |arms| && IsDefault(arms[i]) && arms[j].LVariant? {
      var i, j :| 0 <= i < j < |arms| && IsDefault(arms[i]) && arms[j].LVariant?;
      ArmVariant(arms, j, t, enums);
      var v :| HasType(v, t, enums) && v.Tagged? && v.variant == arms[j].name;
      SwitchRuns(arms, v, t, index, enums);
      CatchAllTooEarly(arms, i, j, v, t, enums);
      Differ(arms, v, t, index, enums);
    } else {
      var i, j :| 0 <= i < j < |arms| && IsDefault(arms[i]) && IsDefault(arms[j]);
      var name :| IsVariant(t, name, enums) && !exists k :: 0 <= k < |arms| && arms[k].LVariant? && arms[k].name == name;
      var v :| HasType(v, t, enums) && v.Tagged? && v.variant == name;
      SwitchRuns(arms, v, t, index, enums);
      SecondCatchAll(arms, i, j, v, t, enums);
      Differ(arms, v, t, index, enums);
    }
  }

  lemma ArmVariant(arms: seq<Lowered>, i: nat, t: Type, enums: Enums)
    requires i < |arms| && AllWellFormedArms(arms, t, enums) && arms[i].LVariant?
    ensures IsVariant(t, arms[i].name, enums)
  {
    assert WellFormedL(arms[i], t, enums);
  }

  lemma Differ(arms: seq<Lowered>, v: Value, t: Type, index: nat, enums: Enums)
    requires HasType(v, t, enums) && v.Tagged?
    requires Means(RunMatch(arms, v, t, index, enums), SwitchOutcome(arms, v, t, enums), enums)
    requires SwitchOutcome(arms, v, t, enums).Arm? && FirstMatchL(arms, 0, v, t, enums).Arm?
    requires SwitchOutcome(arms, v, t, enums).index != FirstMatchL(arms, 0, v, t, enums).index
    ensures !Preserved(arms, t, index, enums)
  {
    hide RunMatch, FirstMatchL, SwitchOutcome, Means;
    if Preserved(arms, t, index, enums) {
      MeansOne(RunMatch(arms, v, t, index, enums), SwitchOutcome(arms, v, t, enums), FirstMatchL(arms, 0, v, t, enums), enums);
    }
  }

  /** A type without variants has a value, and a switch on it is not C. */
  lemma NoTagToSwitchOn(arms: seq<Lowered>, t: Type, index: nat, enums: Enums)
    requires ValidEnums(enums) && AllWellFormedArms(arms, t, enums) && !AnyRefined(arms)
    requires Inhabited(t, enums) && !HasVariants(t, enums)
    ensures !Preserved(arms, t, index, enums)
  {
    hide RunMatch, FirstMatchL, SwitchOutcome, AnyRefined, WellFormedL;
    var v := if t.I32? then Int(0) else Opaque(0);
    SwitchRuns(arms, v, t, index, enums);
  }

  lemma LoweredPreserved(arms: seq<Lowered>, t: Type, index: nat, enums: Enums)
    requires ValidEnums(enums) && AllWellFormedArms(arms, t, enums) && Inhabited(t, enums)
    ensures Preserved(arms, t, index, enums) <==>
              AnyRefined(arms) || (HasVariants(t, enums) && InOrder(arms, t, enums))
  {
    hide RunMatch, FirstMatchL, AnyRefined, WellFormedL, HasType, ValidEnums, InOrder, HasVariants, Inhabited, Means;
    if AnyRefined(arms) {
      forall v | HasType(v, t, enums)
        ensures Means(RunMatch(arms, v, t, index, enums), FirstMatchL(arms, 0, v, t, enums), enums)
      {
        ChainPreserves(arms, v, t, index, enums);
      }
    } else if !HasVariants(t, enums) {
      NoTagToSwitchOn(arms, t, index, enums);
    } else if InOrder(arms, t, enums) {
      SwitchPreserves(arms, t, index, enums);
    } else {
      OutOfOrderDiffers(arms, t, index, enums);
    }
  }

  /** The emitted code means the source match, for every value. */
  ghost predicate SourcePreserved(ps: seq<Pattern>, arms: seq<Lowered>, t: Type, index: nat, enums: Enums) {
    forall v | HasType(v, t, enums) ::
      Means(Run(MatchText(arms, t, index, enums), Encode(v, t, enums)), FirstMatch(ps, 0, v, t, enums), enums)
  }

  /** From source to C. The match whose patterns the checker accepts and lowering
      translates runs, as emitted, the first matching arm with its bindings on
      every value of its type, if and only if some lowered arm is refined or the
      scrutinee has variants and the arms are in order. */
  lemma MatchPreservesMeaning(ps: seq<Pattern>, locals: set<nat>, t: Type, index: nat, enums: Enums)
    requires ValidEnums(enums) && AllWellFormedSource(ps, t, enums) && Inhabited(t, enums)
    requires LowerAll(ps, locals).Some?
    ensures var arms := LowerAll(ps, locals).value;
            SourcePreserved(ps, arms, t, index, enums) <==>
              AnyRefined(arms) || (HasVariants(t, enums) && InOrder(arms, t, enums))
  {
    hide FirstMatchL, FirstMatch, AnyRefined, WellFormedL, HasType, ValidEnums, InOrder, HasVariants, Inhabited, Means, Run, Encode,
      LowerAll, MatchText;
    var arms := LowerAll(ps, locals).value;
    LoweredArms(ps, locals, t, enums);
    LoweredPreserved(arms, t, index, enums);
    forall v | HasType(v, t, enums)
      ensures Means(RunMatch(arms, v, t, index, enums), FirstMatchL(arms, 0, v, t, enums), enums) <==>
              Means(Run(MatchText(arms, t, index, enums), Encode(v, t, enums)), FirstMatch(ps, 0, v, t, enums), enums)
    {
      SameFirstMatch(ps, locals, 0, v, t, enums);
    }
    assert Preserved(arms, t, index, enums) <==> SourcePreserved(ps, arms, t, index, enums);
  }
}
