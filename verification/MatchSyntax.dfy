/** Values, patterns and their types, as the checker sees them and as lowering
    hands them on. Matching yields the bindings, outermost first, or nothing.
    Lowering forgets how a bare name was resolved: it becomes a variant without
    payloads or a binder, and the lowered pattern means what the source one did. */
module MatchSyntax {

  datatype Option<+T> = None | Some(value: T)

  datatype Type =
    | I32
    | Plain(name: string)
    | OptionOf(item: Type)
    | ResultOf(ok: Type, err: Type)
    | Named(name: string)

  /** Variants of each enum, by their unqualified names, with their payload types. */
  type Enums = map<string, map<string, seq<Type>>>

  datatype Value =
    | Int(n: int)
    | Opaque(id: nat)
    | Tagged(variant: string, args: seq<Value>)

  /** How a name in a pattern was resolved. A duplicate binding stays unresolved. */
  datatype Resolution = AsVariant(target: string) | AsBinding(symbol: nat) | Unresolved

  datatype Pattern =
    | Wildcard
    | IntLiteral(value: int)
    | Name(resolution: Resolution)
    | Variant(target: string, args: seq<Pattern>)

  /** Patterns after lowering. */
  datatype Lowered =
    | LAny
    | LBind(local: nat)
    | LVariant(name: string, args: seq<Lowered>)
    | LInt(value: int)

  // ----- variant names -----

  /** Where the first "::" at or after i starts, or the length. */
  function Separator(s: string, i: nat): (k: nat)
    requires i <= |s|
    ensures i <= k <= |s|
    ensures k < |s| ==> k + 2 <= |s| && s[k] == ':' && s[k + 1] == ':'
    ensures forall j | i <= j < k && j + 1 < |s| :: !(s[j] == ':' && s[j + 1] == ':')
    decreases |s| - i
  {
    if i + 2 > |s| then |s|
    else if s[i] == ':' && s[i + 1] == ':' then i
    else Separator(s, i + 1)
  }

  /** The last piece of a name split at "::". */
  function Short(s: string): string
    decreases |s|
  {
    var k := Separator(s, 0);
    if k == |s| then s else Short(s[k + 2..])
  }

  predicate Identifier(s: string) {
    ':' !in s
  }

  function Qualified(owner: string, short: string): string {
    owner + "::" + short
  }

  predicate Owner(s: string) {
    s == "" || s[|s| - 1] != ':'
  }

  /** An enum's table: plain variant names below a name that can be qualified. */
  ghost predicate ValidEnums(enums: Enums) {
    forall n | n in enums :: Owner(n) && forall short | short in enums[n] :: Identifier(short)
  }

  lemma {:induction false} ShortOfQualified(owner: string, short: string)
    requires Owner(owner) && Identifier(short)
    ensures Short(Qualified(owner, short)) == short
    decreases |owner|
  {
    var s := Qualified(owner, short);
    assert s[|owner|] == ':' && s[|owner| + 1] == ':';
    var k := Separator(s, 0);
    assert k <= |owner|;
    assert owner != "" ==> s[|owner| - 1] == owner[|owner| - 1];
    if k == |owner| {
      assert s[k + 2..] == short;
      assert forall j | 0 <= j < |short| :: short[j] in short;
    } else {
      assert s[k + 2..] == Qualified(owner[k + 2..], short);
      ShortOfQualified(owner[k + 2..], short);
    }
  }

  /** The payload types of a variant of a type, looked up by its full name; none
      if the type has no such variant. */
  function Payloads(t: Type, name: string, enums: Enums): Option<seq<Type>> {
    match t
    case I32 => None
    case Plain(_) => None
    case OptionOf(item) => if name == "Some" then Some([item]) else if name == "None" then Some([]) else None
    case ResultOf(ok, err) => if name == "Ok" then Some([ok]) else if name == "Err" then Some([err]) else None
    case Named(n) =>
      if n in enums && |n| + 2 <= |name| && name[..|n| + 2] == n + "::" && name[|n| + 2..] in enums[n]
      then Some(enums[n][name[|n| + 2..]])
      else None
  }

  predicate HasVariants(t: Type, enums: Enums) {
    t.OptionOf? || t.ResultOf? || (t.Named? && t.name in enums)
  }

  ghost predicate IsVariant(t: Type, name: string, enums: Enums) {
    Payloads(t, name, enums).Some?
  }

  // ----- typing -----

  ghost predicate HasType(v: Value, t: Type, enums: Enums)
    decreases v
  {
    match v
    case Int(n) => t.I32? && -0x8000_0000 <= n < 0x8000_0000
    case Opaque(_) => t.Plain?
    case Tagged(name, args) =>
      && IsVariant(t, name, enums)
      && |args| == |Payloads(t, name, enums).value|
      && forall i | 0 <= i < |args| :: HasType(args[i], Payloads(t, name, enums).value[i], enums)
  }

  ghost predicate HaveTypes(vs: seq<Value>, ts: seq<Type>, enums: Enums)
  {
    |vs| == |ts| && forall i | 0 <= i < |vs| :: HasType(vs[i], ts[i], enums)
  }

  /** What the checker demands of a pattern for a type: known constructors with as
      many arguments as payloads, and integers only for i32. */
  predicate WellFormed(p: Pattern, t: Type, enums: Enums)
    decreases p, 0
  {
    match p
    case Wildcard => true
    case IntLiteral(_) => t.I32?
    case Name(AsVariant(target)) => Payloads(t, target, enums) == Some([])
    case Name(_) => true
    case Variant(target, args) =>
      && Payloads(t, target, enums).Some?
      && AllWellFormed(args, Payloads(t, target, enums).value, enums)
  }

  predicate AllWellFormed(ps: seq<Pattern>, ts: seq<Type>, enums: Enums)
    decreases ps, 0
  {
    |ps| == |ts| &&
    (ps == [] || (WellFormed(ps[0], ts[0], enums) && AllWellFormed(ps[1..], ts[1..], enums)))
  }

  /** The same for lowered patterns. */
  predicate WellFormedL(p: Lowered, t: Type, enums: Enums)
    decreases p, 0
  {
    match p
    case LAny => true
    case LBind(_) => true
    case LInt(_) => t.I32?
    case LVariant(name, args) =>
      && Payloads(t, name, enums).Some?
      && AllWellFormedL(args, Payloads(t, name, enums).value, enums)
  }

  predicate AllWellFormedL(ps: seq<Lowered>, ts: seq<Type>, enums: Enums)
    decreases ps, 0
  {
    |ps| == |ts| &&
    (ps == [] || (WellFormedL(ps[0], ts[0], enums) && AllWellFormedL(ps[1..], ts[1..], enums)))
  }

  // ----- what a pattern means -----

  datatype Typed = Typed(value: Value, typ: Type)

  type Bindings = map<nat, Typed>

  /** The bindings a pattern makes on a value, or none if it does not match. */
  function Match(p: Pattern, v: Value, t: Type, enums: Enums): Option<Bindings>
    decreases p, 0
  {
    match p
    case Wildcard => Some(map[])
    case IntLiteral(n) => if v == Int(n) then Some(map[]) else None
    case Name(AsVariant(target)) => if v == Tagged(target, []) then Some(map[]) else None
    case Name(AsBinding(symbol)) => Some(map[symbol := Typed(v, t)])
    case Name(Unresolved) => None
    case Variant(target, args) =>
      if v.Tagged? && v.variant == target && Payloads(t, target, enums).Some?
      then MatchAll(args, v.args, Payloads(t, target, enums).value, enums)
      else None
  }

  function MatchAll(ps: seq<Pattern>, vs: seq<Value>, ts: seq<Type>, enums: Enums): Option<Bindings>
    decreases ps, 0
  {
    if |ps| != |vs| || |ps| != |ts| then None
    else if ps == [] then Some(map[])
    else
      var first := Match(ps[0], vs[0], ts[0], enums);
      var rest := MatchAll(ps[1..], vs[1..], ts[1..], enums);
      if first.Some? && rest.Some? then Some(first.value + rest.value) else None
  }

  datatype Outcome = Arm(index: nat, bindings: Bindings) | NoArm

  /** A match statement runs its first matching arm with that arm's bindings. */
  function FirstMatch(arms: seq<Pattern>, from: nat, v: Value, t: Type, enums: Enums): Outcome
    requires from <= |arms|
    decreases |arms| - from
  {
    if from == |arms| then NoArm
    else
      var made := Match(arms[from], v, t, enums);
      if made.Some? then Arm(from, made.value) else FirstMatch(arms, from + 1, v, t, enums)
  }

  // ----- lowering -----

  /** Lowering fails on a name that is neither a variant nor a known local. */
  function Lower(p: Pattern, locals: set<nat>): Option<Lowered>
    decreases p, 0
  {
    match p
    case Wildcard => Some(LAny)
    case IntLiteral(n) => Some(LInt(n))
    case Name(AsVariant(target)) => Some(LVariant(target, []))
    case Name(AsBinding(symbol)) => if symbol in locals then Some(LBind(symbol)) else None
    case Name(Unresolved) => None
    case Variant(target, args) =>
      var lowered := LowerAll(args, locals);
      if lowered.Some? then Some(LVariant(target, lowered.value)) else None
  }

  function LowerAll(ps: seq<Pattern>, locals: set<nat>): Option<seq<Lowered>>
    decreases ps, 0
  {
    if ps == [] then Some([])
    else
      var first := Lower(ps[0], locals);
      var rest := LowerAll(ps[1..], locals);
      if first.Some? && rest.Some? then Some([first.value] + rest.value) else None
  }

  /** How the names in a pattern were resolved, wherever they stand in it. */
  function NamesIn(p: Pattern): set<Resolution>
    decreases p, 0
  {
    match p
    case Name(resolution) => {resolution}
    case Variant(_, args) => NamesInAll(args)
    case _ => {}
  }

  function NamesInAll(ps: seq<Pattern>): set<Resolution>
    decreases ps, 0
  {
    if ps == [] then {} else NamesIn(ps[0]) + NamesInAll(ps[1..])
  }

  /** A pattern lowers if and only if each name in it is a variant or a known local. */
  lemma {:induction false} LowersIff(p: Pattern, locals: set<nat>)
    ensures Lower(p, locals).Some? <==>
              forall r | r in NamesIn(p) :: r.AsVariant? || (r.AsBinding? && r.symbol in locals)
    decreases p, 0
  {
    if p.Variant? {
      LowersAllIff(p.args, locals);
    }
  }

  lemma {:induction false} LowersAllIff(ps: seq<Pattern>, locals: set<nat>)
    ensures LowerAll(ps, locals).Some? <==>
              forall r | r in NamesInAll(ps) :: r.AsVariant? || (r.AsBinding? && r.symbol in locals)
    decreases ps, 0
  {
    if ps != [] {
      LowersIff(ps[0], locals);
      LowersAllIff(ps[1..], locals);
    }
  }

  function MatchL(p: Lowered, v: Value, t: Type, enums: Enums): Option<Bindings>
    decreases p, 0
  {
    match p
    case LAny => Some(map[])
    case LBind(local) => Some(map[local := Typed(v, t)])
    case LInt(n) => if v == Int(n) then Some(map[]) else None
    case LVariant(name, args) =>
      if v.Tagged? && v.variant == name && Payloads(t, name, enums).Some?
      then MatchAllL(args, v.args, Payloads(t, name, enums).value, enums)
      else None
  }

  function MatchAllL(ps: seq<Lowered>, vs: seq<Value>, ts: seq<Type>, enums: Enums): Option<Bindings>
    decreases ps, 0
  {
    if |ps| != |vs| || |ps| != |ts| then None
    else if ps == [] then Some(map[])
    else
      var first := MatchL(ps[0], vs[0], ts[0], enums);
      var rest := MatchAllL(ps[1..], vs[1..], ts[1..], enums);
      if first.Some? && rest.Some? then Some(first.value + rest.value) else None
  }

  /** A pattern that lowers keeps its shape and its meaning. */
  lemma {:induction false} LowerKeepsMeaning(p: Pattern, locals: set<nat>, v: Value, t: Type, enums: Enums)
    requires Lower(p, locals).Some? && WellFormed(p, t, enums)
    ensures WellFormedL(Lower(p, locals).value, t, enums)
    ensures HasType(v, t, enums) ==> MatchL(Lower(p, locals).value, v, t, enums) == Match(p, v, t, enums)
    decreases p, 0
  {
    if p.Variant? {
      var payloads := Payloads(t, p.target, enums).value;
      var vs := if v.Tagged? then v.args else [];
      LowerAllKeepsMeaning(p.args, locals, vs, payloads, enums);
    }
  }

  lemma {:induction false} LowerAllKeepsMeaning(ps: seq<Pattern>, locals: set<nat>, vs: seq<Value>, ts: seq<Type>, enums: Enums)
    requires LowerAll(ps, locals).Some? && AllWellFormed(ps, ts, enums)
    ensures AllWellFormedL(LowerAll(ps, locals).value, ts, enums)
    ensures HaveTypes(vs, ts, enums) ==>
              MatchAllL(LowerAll(ps, locals).value, vs, ts, enums) == MatchAll(ps, vs, ts, enums)
    decreases ps, 0
  {
    if ps != [] {
      var v := if |vs| > 0 then vs[0] else Opaque(0);
      LowerKeepsMeaning(ps[0], locals, v, ts[0], enums);
      LowerAllKeepsMeaning(ps[1..], locals, if |vs| > 0 then vs[1..] else [], ts[1..], enums);
    }
  }
}
