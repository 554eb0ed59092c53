/** The C a match becomes: tagged unions whose members may be read only while
    active, conditions with short-circuit evaluation, and the lines of an
    if-chain or a switch, with fall-through. */
module MatchCode {
  import opened MatchSyntax

  /** An enumerator of the tag enumeration of a union type. */
  datatype Tag = Tag(owner: Type, short: string)

  datatype CValue =
    | CInt(n: int)
    | COpaque(id: nat)
    | CUnion(tag: Tag, active: string, fields: seq<CValue>)

  datatype Place = Temp(index: nat) | Payload(base: Place, member: string, index: nat)

  datatype Cond = True | IntEq(place: Place, value: int) | TagEq(place: Place, tag: Tag) | All(conds: seq<Cond>)

  datatype Line =
    | TempDecl(index: nat)
    | IfOpen(cond: Cond)
    | ElseIfOpen(cond: Cond)
    | SwitchOpen(place: Place)
    | CaseOpen(tag: Tag)
    | DefaultOpen
    | Declare(local: nat, place: Place)
    | ArmBlock(arm: nat)
    | Break
    | Close

  type Temps = map<nat, CValue>

  /** Reading a member that is not active, or that is not there, has no value. */
  function Read(place: Place, temps: Temps): Option<CValue> {
    match place
    case Temp(k) => if k in temps then Some(temps[k]) else None
    case Payload(base, member, i) =>
      var inner := Read(base, temps);
      if inner.Some? && inner.value.CUnion? && inner.value.active == member && i < |inner.value.fields|
      then Some(inner.value.fields[i])
      else None
  }

  datatype Truth = Yes | No | Wrong

  function Holds(c: Cond, temps: Temps): Truth
    decreases c, 0
  {
    match c
    case True => Yes
    case IntEq(place, n) =>
      var v := Read(place, temps);
      if v.Some? && v.value.CInt? then (if v.value.n == n then Yes else No) else Wrong
    case TagEq(place, tag) =>
      var v := Read(place, temps);
      if v.Some? && v.value.CUnion? then (if v.value.tag == tag then Yes else No) else Wrong
    case All(conds) => AllHold(conds, temps)
  }

  function AllHold(conds: seq<Cond>, temps: Temps): Truth
    decreases conds, 0
  {
    if conds == [] then Yes
    else
      var first := Holds(conds[0], temps);
      if first == Yes then AllHold(conds[1..], temps) else first
  }

  type CBindings = map<nat, CValue>

  datatype Ran = Ran(arm: nat, bindings: CBindings)

  /** The arms that ran, in order; or the code has no meaning. */
  datatype Result = Done(runs: seq<Ran>) | Stuck

  function Then(first: Result, second: Result): Result {
    if first.Done? && second.Done? then Done(first.runs + second.runs) else Stuck
  }

  /** Runs a block. A closing brace ends a branch of an if; in a switch, control
      falls through it into the next case, and only a break leaves. */
  function Execute(lines: seq<Line>, temps: Temps, env: CBindings, inSwitch: bool): Result
    decreases |lines|
  {
    if lines == [] then Done([])
    else
      match lines[0]
      case Declare(local, place) =>
        var v := Read(place, temps);
        if v.Some? then Execute(lines[1..], temps, env[local := v.value], inSwitch) else Stuck
      case ArmBlock(arm) => Then(Done([Ran(arm, env)]), Execute(lines[1..], temps, env, inSwitch))
      case Break => if inSwitch then Done([]) else Stuck
      case Close => if inSwitch then Execute(lines[1..], temps, map[], inSwitch) else Done([])
      case CaseOpen(_) => if inSwitch then Execute(lines[1..], temps, map[], inSwitch) else Stuck
      case DefaultOpen => if inSwitch then Execute(lines[1..], temps, map[], inSwitch) else Stuck
      case _ => Stuck
  }

  function AfterClose(lines: seq<Line>): (rest: seq<Line>)
    ensures lines != [] ==> |rest| < |lines|
  {
    if lines == [] then [] else if lines[0].Close? then lines[1..] else AfterClose(lines[1..])
  }

  /** An else-if is looked at only if no earlier branch was taken; a plain if
      always is. */
  function RunChain(lines: seq<Line>, temps: Temps, taken: bool): Result
    decreases |lines|
  {
    if lines == [] then Done([])
    else if !lines[0].IfOpen? && !lines[0].ElseIfOpen? then Stuck
    else if lines[0].ElseIfOpen? && taken then RunChain(AfterClose(lines), temps, true)
    else
      match Holds(lines[0].cond, temps)
      case Wrong => Stuck
      case Yes => Then(Execute(lines[1..], temps, map[], false), RunChain(AfterClose(lines), temps, true))
      case No => RunChain(AfterClose(lines), temps, false)
  }

  function Labels(lines: seq<Line>): seq<Tag> {
    if lines == [] then []
    else (if lines[0].CaseOpen? then [lines[0].tag] else []) + Labels(lines[1..])
  }

  /** What follows the label with this tag. */
  function AtCase(lines: seq<Line>, tag: Tag): Option<seq<Line>> {
    if lines == [] then None
    else if lines[0] == CaseOpen(tag) then Some(lines[1..])
    else AtCase(lines[1..], tag)
  }

  function AtDefault(lines: seq<Line>): Option<seq<Line>> {
    if lines == [] then None
    else if lines[0].DefaultOpen? then Some(lines[1..])
    else AtDefault(lines[1..])
  }

  predicate Distinct(tags: seq<Tag>) {
    forall i, j | 0 <= i < j < |tags| :: tags[i] != tags[j]
  }

  /** A switch on something without a tag, or with a repeated label, is not C. */
  function RunSwitch(place: Place, lines: seq<Line>, temps: Temps): Result {
    var v := Read(place, temps);
    if v.None? || !v.value.CUnion? || !Distinct(Labels(lines)) then Stuck
    else
      var here := AtCase(lines, v.value.tag);
      if here.Some? then Execute(here.value, temps, map[], true)
      else
        var otherwise := AtDefault(lines);
        if otherwise.Some? then Execute(otherwise.value, temps, map[], true) else Done([])
  }

  /** One emitted match, on the given scrutinee. */
  function Run(lines: seq<Line>, scrutinee: CValue): Result {
    if |lines| < 2 || !lines[0].TempDecl? then Stuck
    else
      var temps: Temps := map[lines[0].index := scrutinee];
      match lines[1]
      case IfOpen(_) => RunChain(lines[1..], temps, false)
      case SwitchOpen(place) => RunSwitch(place, lines[2..], temps)
      case _ => Stuck
  }

  // ----- source values in C -----

  /** The union that represents a value. A payload-free enum variant sets the tag
      and no member. */
  ghost function Encode(v: Value, t: Type, enums: Enums): CValue
    requires HasType(v, t, enums)
    decreases v, 0
  {
    match v
    case Int(n) => CInt(n)
    case Opaque(id) => COpaque(id)
    case Tagged(name, args) =>
      CUnion(Tag(t, Short(name)), if args == [] && t.Named? then "" else Short(name),
             EncodeAll(args, Payloads(t, name, enums).value, enums))
  }

  ghost function EncodeAll(vs: seq<Value>, ts: seq<Type>, enums: Enums): (cs: seq<CValue>)
    requires HaveTypes(vs, ts, enums)
    ensures |cs| == |vs| && forall i | 0 <= i < |vs| :: cs[i] == Encode(vs[i], ts[i], enums)
    decreases vs, 0
  {
    if vs == [] then [] else [Encode(vs[0], ts[0], enums)] + EncodeAll(vs[1..], ts[1..], enums)
  }

  ghost predicate WellTyped(b: Bindings, enums: Enums) {
    forall k | k in b :: HasType(b[k].value, b[k].typ, enums)
  }

  ghost function EncodeBindings(b: Bindings, enums: Enums): CBindings
    requires WellTyped(b, enums)
  {
    map k | k in b :: Encode(b[k].value, b[k].typ, enums)
  }

  /** The code has the meaning of the match: the same arm, once, with the same
      bindings; or no arm. */
  ghost predicate Means(result: Result, outcome: Outcome, enums: Enums) {
    match outcome
    case NoArm => result == Done([])
    case Arm(i, b) => WellTyped(b, enums) && result == Done([Ran(i, EncodeBindings(b, enums))])
  }
}
