/** What the checker reports about a match, and when a match that it accepts covers
    every value. */
module MatchCoverage {
  import opened MatchSyntax
  import opened MatchEmitter
  import opened MatchPreserved

  datatype Code =
    | MissingVariants(missing: set<string>)
    | NotMatchable
    | UnknownVariant
    | WrongArity
    | IntegerPattern
    | NeedsFallback

  type Env = map<nat, Type>

  /** The types a pattern records for its bindings. */
  function Binders(p: Pattern, t: Type, enums: Enums): Env
    decreases p, 0
  {
    match p
    case Name(AsBinding(symbol)) => map[symbol := t]
    case Variant(target, args) =>
      if Payloads(t, target, enums).Some? then BindersAll(args, Payloads(t, target, enums).value, enums) else map[]
    case _ => map[]
  }

  function BindersAll(ps: seq<Pattern>, ts: seq<Type>, enums: Enums): Env
    decreases ps, 0
  {
    if ps == [] || ts == [] then map[]
    else Binders(ps[0], ts[0], enums) + BindersAll(ps[1..], ts[1..], enums)
  }

  predicate IsDefaultPattern(p: Pattern) {
    p.Wildcard? || (p.Name? && p.resolution.AsBinding?)
  }

  /** The checker's test for refinement: it does not look at names, which may stand
      for payload-free variants. */
  predicate RefinedPattern(p: Pattern)
    decreases p
  {
    match p
    case IntLiteral(_) => true
    case Variant(_, args) => exists i :: 0 <= i < |args| && (RefinedPattern(args[i]) || args[i].Variant?)
    case _ => false
  }

  /** The variant a pattern names. */
  function NamedVariant(p: Pattern): Option<string> {
    match p
    case Name(AsVariant(target)) => Some(target)
    case Variant(target, _) => Some(target)
    case _ => None
  }

  function VariantNamesOf(t: Type, enums: Enums): set<string> {
    match t
    case OptionOf(_) => {"Some", "None"}
    case ResultOf(_, _) => {"Ok", "Err"}
    case Named(n) => if n in enums then set short | short in enums[n] :: Qualified(n, short) else {}
    case _ => {}
  }

  lemma VariantNamesAre(t: Type, name: string, enums: Enums)
    ensures name in VariantNamesOf(t, enums) <==> IsVariant(t, name, enums)
  {
    if t.Named? && t.name in enums {
      if name in VariantNamesOf(t, enums) {
        var short :| short in enums[t.name] && name == Qualified(t.name, short);
        assert name[|t.name| + 2..] == short && name[..|t.name| + 2] == t.name + "::";
      }
      if IsVariant(t, name, enums) {
        assert name == Qualified(t.name, name[|t.name| + 2..]);
      }
    }
  }

  function CoveredBy(ps: seq<Pattern>): set<string> {
    set i | 0 <= i < |ps| && NamedVariant(ps[i]).Some? :: NamedVariant(ps[i]).value
  }

  predicate AnyDefault(ps: seq<Pattern>) {
    exists i :: 0 <= i < |ps| && IsDefaultPattern(ps[i])
  }

  predicate AnyRefinedPattern(ps: seq<Pattern>) {
    exists i :: 0 <= i < |ps| && RefinedPattern(ps[i])
  }

  /** A match is accepted if its patterns are well formed and it has a catch-all
      or, being neither refined nor on an integer, names every variant. */
  ghost predicate Accepted(ps: seq<Pattern>, t: Type, enums: Enums) {
    && AllWellFormedSource(ps, t, enums)
    && (AnyDefault(ps) || (!t.I32? && !AnyRefinedPattern(ps) && VariantNamesOf(t, enums) <= CoveredBy(ps)))
  }

  class MatchChecker {
    const enums: Enums
    var diagnostics: seq<Code>

    constructor (enums: Enums)
      ensures this.enums == enums && diagnostics == []
    {
      this.enums, diagnostics := enums, [];
    }

    method Report(code: Code)
      modifies `diagnostics
      ensures diagnostics == old(diagnostics) + [code]
    {
      diagnostics := diagnostics + [code];
    }

    /** The payload types a constructor has in this type, with complaints. */
    method CheckVariantName(name: string, t: Type, argCount: nat) returns (payloads: seq<Type>)
      modifies `diagnostics
      ensures old(diagnostics) <= diagnostics
      ensures diagnostics == old(diagnostics) <==> Payloads(t, name, enums).Some? && |Payloads(t, name, enums).value| == argCount
      ensures payloads == if Payloads(t, name, enums).Some? then Payloads(t, name, enums).value else []
    {
      if !HasVariants(t, enums) {
        Report(NotMatchable);
        return [];
      }
      var found := Payloads(t, name, enums);
      if found.None? {
        Report(UnknownVariant);
        return [];
      }
      payloads := found.value;
      if |payloads| != argCount {
        Report(WrongArity);
      }
    }

    /** Checks a pattern against a type: silent exactly on well-formed patterns,
        whose bindings it adds to the arm's environment. */
    method CheckPattern(p: Pattern, t: Type, env: Env) returns (variant: Option<string>, armEnv: Env)
      modifies `diagnostics
      ensures old(diagnostics) <= diagnostics
      ensures diagnostics == old(diagnostics) <==> WellFormed(p, t, enums)
      ensures variant == NamedVariant(p)
      ensures WellFormed(p, t, enums) ==> armEnv == env + Binders(p, t, enums)
      decreases p
    {
      variant, armEnv := NamedVariant(p), env;
      match p
      case Wildcard =>
      case IntLiteral(_) =>
        if !t.I32? {
          Report(IntegerPattern);
        }
      case Name(AsVariant(target)) =>
        var _ := CheckVariantName(target, t, 0);
      case Name(AsBinding(symbol)) =>
        armEnv := env[symbol := t];
      case Name(Unresolved) =>
      case Variant(target, args) =>
        var payloads := CheckVariantName(target, t, |args|);
        ghost var known := diagnostics;
        armEnv := CheckArguments(args, payloads, env);
        assert known == old(diagnostics) ==> |args| == |payloads|;
    }

    /** Checks arguments against payload types, as far as both go. */
    method CheckArguments(args: seq<Pattern>, payloads: seq<Type>, env: Env) returns (armEnv: Env)
      modifies `diagnostics
      ensures old(diagnostics) <= diagnostics
      ensures |args| == |payloads| ==> (diagnostics == old(diagnostics) <==> AllWellFormed(args, payloads, enums))
      ensures AllWellFormed(args, payloads, enums) ==> armEnv == env + BindersAll(args, payloads, enums)
      decreases args
    {
      hide WellFormed, Binders;
      armEnv := env;
      var i := 0;
      while i < |args| && i < |payloads|
        invariant 0 <= i <= |args| && i <= |payloads|
        invariant old(diagnostics) <= diagnostics
        invariant |args| == |payloads| ==>
            (AllWellFormed(args, payloads, enums) <==>
               diagnostics == old(diagnostics) && AllWellFormed(args[i..], payloads[i..], enums))
        invariant AllWellFormed(args, payloads, enums) ==>
            env + BindersAll(args, payloads, enums) == armEnv + BindersAll(args[i..], payloads[i..], enums)
      {
        assert args[i..][1..] == args[i + 1..] && payloads[i..][1..] == payloads[i + 1..];
        ghost var before := armEnv;
        var nested;
        nested, armEnv := CheckPattern(args[i], payloads[i], armEnv);
        assert before + (Binders(args[i], payloads[i], enums) + BindersAll(args[i + 1..], payloads[i + 1..], enums))
            == (before + Binders(args[i], payloads[i], enums)) + BindersAll(args[i + 1..], payloads[i + 1..], enums);
        i := i + 1;
      }
      if |args| == |payloads| {
        assert args[i..] == [] && payloads[i..] == [];
      }
    }

    /** Checks a match: silent exactly when it is acceptable. */
    method CheckMatch(ps: seq<Pattern>, t: Type)
      modifies `diagnostics
      ensures diagnostics == old(diagnostics) <==> Accepted(ps, t, enums)
    {
      hide RefinedPattern, WellFormed, VariantNamesOf;
      var covered: set<string> := {};
      var exhaustive := false;
      var refined := false;
      var i := 0;
      while i < |ps|
        invariant 0 <= i <= |ps|
        invariant old(diagnostics) <= diagnostics
        invariant diagnostics == old(diagnostics) <==> forall k | 0 <= k < i :: WellFormed(ps[k], t, enums)
        invariant exhaustive <==> exists k :: 0 <= k < i && IsDefaultPattern(ps[k])
        invariant refined <==> exists k :: 0 <= k < i && RefinedPattern(ps[k])
        invariant covered == CoveredBy(ps[..i])
      {
        var variant, armEnv := CheckPattern(ps[i], t, map[]);
        if IsDefaultPattern(ps[i]) {
          exhaustive := true;
        }
        if variant.Some? {
          covered := covered + {variant.value};
        }
        if RefinedPattern(ps[i]) {
          refined := true;
        }
        CoveredSnoc(ps, i);
        i := i + 1;
      }
      assert ps[..i] == ps;
      if !exhaustive {
        if t.I32? || refined {
          Report(NeedsFallback);
        } else {
          var missing := VariantNamesOf(t, enums) - covered;
          NothingMissing(VariantNamesOf(t, enums), covered);
          if missing != {} {
            Report(MissingVariants(missing));
          }
        }
      }
    }
  }

  lemma NothingMissing(all: set<string>, some: set<string>)
    ensures all - some == {} <==> all <= some
  {
    if all - some == {} {
      forall x | x in all
        ensures x in some
      {
        assert x !in all - some;
      }
    }
  }

  lemma CoveredSnoc(ps: seq<Pattern>, i: nat)
    requires i < |ps|
    ensures CoveredBy(ps[..i + 1]) == CoveredBy(ps[..i]) +
              if NamedVariant(ps[i]).Some? then {NamedVariant(ps[i]).value} else {}
  {
    var longer, shorter := ps[..i + 1], ps[..i];
    forall x | x in CoveredBy(shorter)
      ensures x in CoveredBy(longer)
    {
      var k :| 0 <= k < |shorter| && NamedVariant(shorter[k]) == Some(x);
      assert longer[k] == shorter[k];
    }
    forall x | x in CoveredBy(longer)
      ensures x in CoveredBy(shorter) || NamedVariant(ps[i]) == Some(x)
    {
      var k :| 0 <= k < |longer| && NamedVariant(longer[k]) == Some(x);
      if k < i {
        assert shorter[k] == longer[k];
      }
    }
    if NamedVariant(ps[i]).Some? {
      assert longer[i] == ps[i];
    }
  }

  // ----- what must be accepted -----

  /** A pattern that matches some value of the type is well formed. */
  lemma {:induction false} MatchingIsWellFormed(p: Pattern, v: Value, t: Type, enums: Enums)
    requires HasType(v, t, enums) && Match(p, v, t, enums).Some?
    ensures WellFormed(p, t, enums)
    decreases p, 1
  {
    if p.Variant? {
      MatchingAllWellFormed(p.args, v.args, Payloads(t, p.target, enums).value, enums);
    }
  }

  lemma {:induction false} MatchingAllWellFormed(ps: seq<Pattern>, vs: seq<Value>, ts: seq<Type>, enums: Enums)
    requires HaveTypes(vs, ts, enums) && MatchAll(ps, vs, ts, enums).Some?
    ensures AllWellFormed(ps, ts, enums)
    decreases ps, 0
  {
    if ps != [] {
      MatchingIsWellFormed(ps[0], vs[0], ts[0], enums);
      MatchingAllWellFormed(ps[1..], vs[1..], ts[1..], enums);
    }
  }

  /** Every arm matches some value of the type. */
  ghost predicate Useful(ps: seq<Pattern>, t: Type, enums: Enums) {
    forall k | 0 <= k < |ps| :: exists v :: HasType(v, t, enums) && Match(ps[k], v, t, enums).Some?
  }

  lemma UsefulIsWellFormed(ps: seq<Pattern>, t: Type, enums: Enums)
    requires Useful(ps, t, enums)
    ensures AllWellFormedSource(ps, t, enums)
  {
    forall k | 0 <= k < |ps|
      ensures WellFormed(ps[k], t, enums)
    {
      var v :| HasType(v, t, enums) && Match(ps[k], v, t, enums).Some?;
      MatchingIsWellFormed(ps[k], v, t, enums);
    }
  }

  /** A match each of whose arms can match, with a wildcard or a binding for an arm, is
      accepted. */
  lemma AcceptsCatchAll(ps: seq<Pattern>, t: Type, enums: Enums)
    requires Useful(ps, t, enums)
    requires exists k :: 0 <= k < |ps| && (ps[k].Wildcard? || (ps[k].Name? && ps[k].resolution.AsBinding?))
    ensures Accepted(ps, t, enums)
  {
    UsefulIsWellFormed(ps, t, enums);
  }

  /** Nothing but wildcards and names below a constructor, and no integers. */
  predicate Flat(p: Pattern) {
    !p.IntLiteral? && (p.Variant? ==> forall i | 0 <= i < |p.args| :: p.args[i].Wildcard? || p.args[i].Name?)
  }

  lemma {:induction false} FlatIsUnrefined(ps: seq<Pattern>)
    requires forall k | 0 <= k < |ps| :: Flat(ps[k])
    ensures !AnyRefinedPattern(ps) && forall k | 0 <= k < |ps| :: !ps[k].IntLiteral?
  {
    forall k | 0 <= k < |ps|
      ensures !RefinedPattern(ps[k]) && !ps[k].IntLiteral?
    {
      assert Flat(ps[k]);
    }
  }

  /** Unless an arm is a default, the arm that takes a value names its variant. */
  lemma {:induction false} TakenIsNamed(p: Pattern, v: Value, t: Type, enums: Enums)
    requires Match(p, v, t, enums).Some? && v.Tagged? && !p.IntLiteral? && !IsDefaultPattern(p)
    ensures NamedVariant(p) == Some(v.variant)
  {
  }

  /** A match of flat arms on an option, a result or an enum, each of which can match,
      is accepted whenever it takes every value. */
  lemma {:induction false} AcceptsFlat(ps: seq<Pattern>, t: Type, enums: Enums)
    requires Useful(ps, t, enums) && HasVariants(t, enums) && Exhaustive(ps, t, enums)
    requires forall k | 0 <= k < |ps| :: Flat(ps[k])
    requires Inhabited(t, enums)
    ensures Accepted(ps, t, enums)
  {
    hide Match, WellFormed, RefinedPattern, Flat, FirstMatch, HasType;
    UsefulIsWellFormed(ps, t, enums);
    FlatIsUnrefined(ps);
    if !AnyDefault(ps) {
      forall name | name in VariantNamesOf(t, enums)
        ensures name in CoveredBy(ps)
      {
        VariantNamesAre(t, name, enums);
        var v :| HasType(v, t, enums) && v.Tagged? && v.variant == name;
        FirstMatches(ps, 0, v, t, enums);
        var k := FirstMatch(ps, 0, v, t, enums).index;
        TakenIsNamed(ps[k], v, t, enums);
      }
    }
  }

  lemma {:induction false} FirstMatches(arms: seq<Pattern>, from: nat, v: Value, t: Type, enums: Enums)
    requires from <= |arms|
    ensures var o := FirstMatch(arms, from, v, t, enums);
      o.Arm? ==> from <= o.index < |arms| && Match(arms[o.index], v, t, enums).Some?
    decreases |arms| - from
  {
    if from < |arms| && Match(arms[from], v, t, enums).None? {
      FirstMatches(arms, from + 1, v, t, enums);
    }
  }

  // ----- recorded types -----

  /** An arm is checked in the environment it will run in: the names recorded for
      a pattern are the names a match binds, at the recorded types. */
  lemma {:induction false} BindersAreBindings(p: Pattern, v: Value, t: Type, enums: Enums)
    requires Match(p, v, t, enums).Some?
    ensures Match(p, v, t, enums).value.Keys == Binders(p, t, enums).Keys
    ensures forall k | k in Binders(p, t, enums) :: Match(p, v, t, enums).value[k].typ == Binders(p, t, enums)[k]
    decreases p, 1
  {
    if p.Variant? {
      BindersAllAreBindings(p.args, v.args, Payloads(t, p.target, enums).value, enums);
    }
  }

  lemma {:induction false} BindersAllAreBindings(ps: seq<Pattern>, vs: seq<Value>, ts: seq<Type>, enums: Enums)
    requires MatchAll(ps, vs, ts, enums).Some?
    ensures MatchAll(ps, vs, ts, enums).value.Keys == BindersAll(ps, ts, enums).Keys
    ensures forall k | k in BindersAll(ps, ts, enums) ::
              MatchAll(ps, vs, ts, enums).value[k].typ == BindersAll(ps, ts, enums)[k]
    decreases ps, 0
  {
    if ps != [] {
      BindersAreBindings(ps[0], vs[0], ts[0], enums);
      BindersAllAreBindings(ps[1..], vs[1..], ts[1..], enums);
    }
  }

  // ----- coverage -----

  /** Some arm takes every value of the type. */
  ghost predicate Exhaustive(ps: seq<Pattern>, t: Type, enums: Enums) {
    forall v | HasType(v, t, enums) :: FirstMatch(ps, 0, v, t, enums).Arm?
  }

  /** The outermost constructor of a value of a type; "" where there is none. */
  ghost predicate IsHead(h: string, t: Type, enums: Enums) {
    if HasVariants(t, enums) then IsVariant(t, h, enums) else h == ""
  }

  ghost predicate AreHeads(hs: seq<string>, ts: seq<Type>, enums: Enums) {
    |hs| == |ts| && forall i | 0 <= i < |hs| :: IsHead(hs[i], ts[i], enums)
  }

  /** An argument without a constructor pattern below accepts any value with this
      head. */
  predicate ArgTakes(p: Pattern, h: string) {
    IsDefaultPattern(p) || p == Name(AsVariant(h))
  }

  /** An unrefined arm takes a constructor with these heads below it. */
  predicate Takes(p: Pattern, name: string, hs: seq<string>) {
    match p
    case Name(AsVariant(target)) => target == name && hs == []
    case Variant(target, args) => target == name && |args| == |hs| && forall i | 0 <= i < |args| :: ArgTakes(args[i], hs[i])
    case _ => false
  }

  /** Every constructor with every choice of payload-free or other heads below it
      is taken: a finite table to check. */
  ghost predicate HeadsCovered(ps: seq<Pattern>, t: Type, enums: Enums) {
    forall name, hs | IsVariant(t, name, enums) && AreHeads(hs, Payloads(t, name, enums).value, enums) ::
      exists k :: 0 <= k < |ps| && Takes(ps[k], name, hs)
  }

  function Head(v: Value): string {
    if v.Tagged? then v.variant else ""
  }

  lemma HeadOf(v: Value, t: Type, enums: Enums)
    requires HasType(v, t, enums)
    ensures IsHead(Head(v), t, enums)
  {
  }

  function Heads(vs: seq<Value>): (hs: seq<string>)
    ensures |hs| == |vs| && forall i | 0 <= i < |vs| :: hs[i] == Head(vs[i])
  {
    seq(|vs|, i requires 0 <= i < |vs| => Head(vs[i]))
  }

  lemma {:induction false} AllIndexed(ps: seq<Pattern>, ts: seq<Type>, i: nat, enums: Enums)
    requires AllWellFormed(ps, ts, enums) && i < |ps|
    ensures |ps| == |ts| && WellFormed(ps[i], ts[i], enums)
  {
    if i > 0 {
      AllIndexed(ps[1..], ts[1..], i - 1, enums);
    }
  }

  lemma {:induction false} MatchAllIndexed(ps: seq<Pattern>, vs: seq<Value>, ts: seq<Type>, enums: Enums)
    requires |ps| == |vs| == |ts|
    ensures MatchAll(ps, vs, ts, enums).Some? <==> forall i | 0 <= i < |ps| :: Match(ps[i], vs[i], ts[i], enums).Some?
  {
    hide Match;
    if ps != [] {
      MatchAllIndexed(ps[1..], vs[1..], ts[1..], enums);
      if forall i | 0 <= i < |ps| :: Match(ps[i], vs[i], ts[i], enums).Some? {
        forall i | 0 <= i < |ps[1..]|
          ensures Match(ps[1..][i], vs[1..][i], ts[1..][i], enums).Some?
        {
          assert Match(ps[i + 1], vs[i + 1], ts[i + 1], enums).Some?;
        }
      }
      if MatchAll(ps, vs, ts, enums).Some? {
        forall i | 0 <= i < |ps|
          ensures Match(ps[i], vs[i], ts[i], enums).Some?
        {
          if i > 0 {
            assert Match(ps[1..][i - 1], vs[1..][i - 1], ts[1..][i - 1], enums).Some?;
          }
        }
      }
    }
  }

  /** An unrefined constructor arm matches a value exactly when it takes the
      value's heads. */
  lemma TakesMatches(p: Pattern, v: Value, t: Type, enums: Enums)
    requires WellFormed(p, t, enums) && HasType(v, t, enums) && v.Tagged? && !RefinedPattern(p) && !IsDefaultPattern(p)
    ensures Match(p, v, t, enums).Some? <==> Takes(p, v.variant, Heads(v.args))
  {
    if p.Variant? && p.target == v.variant {
      var ts := Payloads(t, p.target, enums).value;
      if |p.args| > 0 {
        AllIndexed(p.args, ts, 0, enums);
      }
      forall i | 0 <= i < |p.args|
        ensures |p.args| == |v.args| && (Match(p.args[i], v.args[i], ts[i], enums).Some? <==> ArgTakes(p.args[i], Heads(v.args)[i]))
      {
        AllIndexed(p.args, ts, i, enums);
        assert !(RefinedPattern(p.args[i]) || p.args[i].Variant?);
        ArgTakesMatches(p.args[i], v.args[i], ts[i], enums);
      }
      MatchAllIndexed(p.args, v.args, ts, enums);
    }
  }

  lemma ArgTakesMatches(p: Pattern, v: Value, t: Type, enums: Enums)
    requires WellFormed(p, t, enums) && HasType(v, t, enums) && !RefinedPattern(p) && !p.Variant?
    ensures Match(p, v, t, enums).Some? <==> ArgTakes(p, Head(v))
  {
  }

  lemma {:induction false} SourceFirstMatch(ps: seq<Pattern>, from: nat, v: Value, t: Type, enums: Enums)
    requires from <= |ps|
    ensures FirstMatch(ps, from, v, t, enums).Arm? <==>
              exists k :: from <= k < |ps| && Match(ps[k], v, t, enums).Some?
    decreases |ps| - from
  {
    hide Match;
    if from < |ps| {
      SourceFirstMatch(ps, from + 1, v, t, enums);
    }
  }

  /** Values with given heads exist. */
  lemma {:induction false} ValuesWithHeads(hs: seq<string>, ts: seq<Type>, enums: Enums) returns (vs: seq<Value>)
    requires AreHeads(hs, ts, enums) && forall i | 0 <= i < |ts| :: Inhabited(ts[i], enums)
    ensures HaveTypes(vs, ts, enums) && Heads(vs) == hs
  {
    hide Inhabited, IsHead, HasType, Head;
    if hs == [] {
      vs := [];
    } else {
      assert Inhabited(ts[0], enums) && IsHead(hs[0], ts[0], enums);
      assert AreHeads(hs[1..], ts[1..], enums) by {
        forall i | 0 <= i < |hs[1..]|
          ensures IsHead(hs[1..][i], ts[1..][i], enums)
        {
          assert IsHead(hs[i + 1], ts[i + 1], enums);
        }
      }
      var rest := ValuesWithHeads(hs[1..], ts[1..], enums);
      var v := ValueWithHead(hs[0], ts[0], enums);
      vs := [v] + rest;
    }
  }

  lemma ValueWithHead(h: string, t: Type, enums: Enums) returns (v: Value)
    requires IsHead(h, t, enums) && Inhabited(t, enums)
    ensures HasType(v, t, enums) && Head(v) == h
  {
    if HasVariants(t, enums) {
      v :| HasType(v, t, enums) && v.Tagged? && v.variant == h;
    } else if t.I32? {
      v := Int(0);
    } else {
      v := Opaque(0);
    }
  }

  /** The scrutinee's type and the payload types of its variants have values. */
  ghost predicate WellInhabited(t: Type, enums: Enums) {
    && Inhabited(t, enums)
    && forall name | IsVariant(t, name, enums) ::
         forall i | 0 <= i < |Payloads(t, name, enums).value| :: Inhabited(Payloads(t, name, enums).value[i], enums)
  }

  lemma CoveredIsExhaustive(ps: seq<Pattern>, t: Type, enums: Enums)
    requires AllWellFormedSource(ps, t, enums) && !AnyRefinedPattern(ps)
    requires HasVariants(t, enums) && HeadsCovered(ps, t, enums)
    ensures Exhaustive(ps, t, enums)
  {
    hide Match, FirstMatch, WellFormed, RefinedPattern, Takes;
    forall v | HasType(v, t, enums)
      ensures FirstMatch(ps, 0, v, t, enums).Arm?
    {
      var ts := Payloads(t, v.variant, enums).value;
      forall i | 0 <= i < |v.args|
        ensures IsHead(Heads(v.args)[i], ts[i], enums)
      {
        HeadOf(v.args[i], ts[i], enums);
      }
      assert AreHeads(Heads(v.args), ts, enums);
      var k :| 0 <= k < |ps| && Takes(ps[k], v.variant, Heads(v.args));
      TakesNotDefault(ps[k], v.variant, Heads(v.args));
      TakesMatches(ps[k], v, t, enums);
      SourceFirstMatch(ps, 0, v, t, enums);
    }
  }

  lemma TakesNotDefault(p: Pattern, name: string, hs: seq<string>)
    requires Takes(p, name, hs)
    ensures !IsDefaultPattern(p)
  {
  }

  lemma UncoveredIsNot(ps: seq<Pattern>, t: Type, enums: Enums)
    requires AllWellFormedSource(ps, t, enums) && !AnyRefinedPattern(ps) && !AnyDefault(ps)
    requires WellInhabited(t, enums) && HasVariants(t, enums) && !HeadsCovered(ps, t, enums)
    ensures !Exhaustive(ps, t, enums)
  {
    hide Match, FirstMatch, WellFormed, RefinedPattern, Takes, Inhabited;
    var name, hs :| IsVariant(t, name, enums) && AreHeads(hs, Payloads(t, name, enums).value, enums) &&
                    !exists k :: 0 <= k < |ps| && Takes(ps[k], name, hs);
    var vs := ValuesWithHeads(hs, Payloads(t, name, enums).value, enums);
    var v := Tagged(name, vs);
    assert HasType(v, t, enums);
    SourceFirstMatch(ps, 0, v, t, enums);
    forall k | 0 <= k < |ps|
      ensures Match(ps[k], v, t, enums).None?
    {
      TakesMatches(ps[k], v, t, enums);
    }
  }

  /** A match on a type without variants needs a catch-all, and the checker does
      not ask for one when there are no arms at all. */
  lemma NoVariantsNoArms(ps: seq<Pattern>, t: Type, enums: Enums)
    requires Accepted(ps, t, enums) && !AnyDefault(ps) && !HasVariants(t, enums) && Inhabited(t, enums)
    ensures !Exhaustive(ps, t, enums)
  {
    var v := Opaque(0);
    assert HasType(v, t, enums);
    SourceFirstMatch(ps, 0, v, t, enums);
    forall k | 0 <= k < |ps|
      ensures Match(ps[k], v, t, enums).None?
    {
      assert WellFormed(ps[k], t, enums) && !IsDefaultPattern(ps[k]);
    }
  }

  lemma DefaultIsExhaustive(ps: seq<Pattern>, t: Type, enums: Enums)
    requires AnyDefault(ps)
    ensures Exhaustive(ps, t, enums)
  {
    forall v | HasType(v, t, enums)
      ensures FirstMatch(ps, 0, v, t, enums).Arm?
    {
      SourceFirstMatch(ps, 0, v, t, enums);
      var k :| 0 <= k < |ps| && IsDefaultPattern(ps[k]);
      assert Match(ps[k], v, t, enums).Some?;
    }
  }

  /** Of the matches the checker accepts, exactly those are exhaustive that have a
      catch-all or cover every head below every variant. */
  lemma AcceptedExhaustiveIff(ps: seq<Pattern>, t: Type, enums: Enums)
    requires Accepted(ps, t, enums) && WellInhabited(t, enums)
    ensures Exhaustive(ps, t, enums) <==> AnyDefault(ps) || (HasVariants(t, enums) && HeadsCovered(ps, t, enums))
  {
    hide Exhaustive, HeadsCovered, WellInhabited, RefinedPattern, WellFormed;
    if AnyDefault(ps) {
      DefaultIsExhaustive(ps, t, enums);
    } else if !HasVariants(t, enums) {
      WellInhabitedParts(t, enums);
      NoVariantsNoArms(ps, t, enums);
    } else if HeadsCovered(ps, t, enums) {
      CoveredIsExhaustive(ps, t, enums);
    } else {
      UncoveredIsNot(ps, t, enums);
    }
  }

  lemma WellInhabitedParts(t: Type, enums: Enums)
    requires WellInhabited(t, enums)
    ensures Inhabited(t, enums)
  {
  }

  /** Where the checker and the emitter agree that nothing is refined, accepted
      matches are exhaustive. */
  lemma AgreementExhausts(ps: seq<Pattern>, locals: set<nat>, t: Type, enums: Enums)
    requires Accepted(ps, t, enums) && LowerAll(ps, locals).Some?
    requires t.I32? || HasVariants(t, enums)
    requires AnyRefinedPattern(ps) <==> AnyRefined(LowerAll(ps, locals).value)
    ensures Exhaustive(ps, t, enums)
  {
    if AnyDefault(ps) {
      DefaultIsExhaustive(ps, t, enums);
    } else {
      forall name, hs | IsVariant(t, name, enums) && AreHeads(hs, Payloads(t, name, enums).value, enums)
        ensures exists k :: 0 <= k < |ps| && Takes(ps[k], name, hs)
      {
        hide RefinedPattern, Refined, WellFormed, AreHeads, LowerAll, Takes;
        VariantNamesAre(t, name, enums);
        assert name in CoveredBy(ps);
        var k :| 0 <= k < |ps| && NamedVariant(ps[k]) == Some(name);
        LowerAllParts(ps, locals, k);
        assert !AnyRefined(LowerAll(ps, locals).value);
        PlainArmTakes(ps[k], locals, name, hs, t, enums);
      }
      CoveredIsExhaustive(ps, t, enums);
    }
  }

  /** An arm that is unrefined even after lowering takes every head. */
  lemma PlainArmTakes(p: Pattern, locals: set<nat>, name: string, hs: seq<string>, t: Type, enums: Enums)
    requires NamedVariant(p) == Some(name) && WellFormed(p, t, enums)
    requires AreHeads(hs, Payloads(t, name, enums).value, enums)
    requires Lower(p, locals).Some? && !Refined(Lower(p, locals).value)
    ensures Takes(p, name, hs)
  {
    if p.Variant? {
      var lowered := Lower(p, locals).value;
      if p.args != [] {
        AllIndexed(p.args, Payloads(t, name, enums).value, 0, enums);
      }
      forall i | 0 <= i < |p.args|
        ensures |p.args| == |hs| && ArgTakes(p.args[i], hs[i])
      {
        LowerAllParts(p.args, locals, i);
        assert !(Refined(lowered.args[i]) || lowered.args[i].LVariant?);
      }
    }
  }

  /** Without agreement: an accepted match with a hole. The checker does not count
      a payload-free constructor below a constructor as refinement, lowering makes
      it one, and no arm takes a present inner value. */
  lemma NestedNoneLeavesAHole()
    ensures var ps := [Variant("Some", [Name(AsVariant("None"))]), Name(AsVariant("None"))];
            var t := OptionOf(OptionOf(I32));
            var v := Tagged("Some", [Tagged("Some", [Int(1)])]);
            && Accepted(ps, t, map[]) && HasType(v, t, map[])
            && FirstMatch(ps, 0, v, t, map[]) == NoArm
            && !AnyRefinedPattern(ps)
            && LowerAll(ps, {}).Some? && AnyRefined(LowerAll(ps, {}).value)
  {
    var inner := Name(AsVariant("None"));
    var first := Variant("Some", [inner]);
    var ps := [first, Name(AsVariant("None"))];
    var t := OptionOf(OptionOf(I32));
    var v := Tagged("Some", [Tagged("Some", [Int(1)])]);
    assert HasType(Tagged("Some", [Int(1)]), OptionOf(I32), map[]);
    assert NamedVariant(ps[0]) == Some("Some") && NamedVariant(ps[1]) == Some("None");
    assert AllWellFormed([inner], [OptionOf(I32)], map[]) by {
      assert [inner][1..] == [];
      assert [OptionOf(I32)][1..] == [];
      assert AllWellFormed([], [], map[]);
      assert WellFormed(inner, OptionOf(I32), map[]);
    }
    assert MatchAll([inner], v.args, [OptionOf(I32)], map[]).None?;
    assert Match(first, v, t, map[]).None?;
    assert FirstMatch(ps, 2, v, t, map[]) == NoArm;
    assert FirstMatch(ps, 1, v, t, map[]) == NoArm;
    assert LowerAll([inner], {}) == Some([LVariant("None", [])]) by {
      assert [inner][1..] == [];
      assert LowerAll([], {}) == Some([]);
      assert [LVariant("None", [])] + [] == [LVariant("None", [])];
    }
    var one := LVariant("Some", [LVariant("None", [])]);
    assert Lower(first, {}) == Some(one);
    assert ps[1..] == [Name(AsVariant("None"))];
    assert ps[1..][1..] == [];
    assert LowerAll(ps[1..], {}) == Some([LVariant("None", [])]);
    assert LowerAll(ps, {}) == Some([one] + [LVariant("None", [])]);
    assert one.args[0].LVariant?;
    assert Refined(one);
    assert Refined(LowerAll(ps, {}).value[0]);
  }
}
