/** Which types may be copied: the memoised depth-first search over declarations,
    and the least fixed point it computes. */
module Copyability {

  datatype Type =
    | Scalar
    | ListOf(item: Type)
    | OptionOf(item: Type)
    | ResultOf(ok: Type, err: Type)
    | Named(name: string)
    | Nameless

  /** Field types of structs and payload types of the variants of enums, in
      declaration order. */
  datatype Declarations = Declarations(structs: map<string, seq<Type>>, enums: map<string, seq<seq<Type>>>)

  ghost predicate Declared(d: Declarations, name: string) {
    name in d.structs || name in d.enums
  }

  ghost function Names(d: Declarations): set<string> {
    d.structs.Keys + d.enums.Keys
  }

  // ----- the least fixed point -----

  /** Copyable with declarations unfolded at most n deep. */
  ghost predicate CopyAt(n: nat, t: Type, d: Declarations)
    decreases n, t
  {
    match t
    case Scalar => true
    case ListOf(_) => false
    case OptionOf(item) => CopyAt(n, item, d)
    case ResultOf(ok, err) => CopyAt(n, ok, d) && CopyAt(n, err, d)
    case Nameless => false
    case Named(name) =>
      n > 0 &&
      if name in d.structs then forall i | 0 <= i < |d.structs[name]| :: CopyAt(n - 1, d.structs[name][i], d)
      else if name in d.enums then
        forall v, i | 0 <= v < |d.enums[name]| && 0 <= i < |d.enums[name][v]| :: CopyAt(n - 1, d.enums[name][v][i], d)
      else false
  }

  /** Structurally copyable: some finite unfolding shows it. */
  ghost predicate Copy(t: Type, d: Declarations) {
    exists n: nat :: CopyAt(n, t, d)
  }

  lemma {:induction false} CopyAtMonotone(n: nat, m: nat, t: Type, d: Declarations)
    requires CopyAt(n, t, d) && n <= m
    ensures CopyAt(m, t, d)
    decreases n, t
  {
    match t
    case OptionOf(item) => CopyAtMonotone(n, m, item, d);
    case ResultOf(ok, err) =>
      CopyAtMonotone(n, m, ok, d);
      CopyAtMonotone(n, m, err, d);
    case Named(name) =>
      if name in d.structs {
        forall i | 0 <= i < |d.structs[name]|
          ensures CopyAt(m - 1, d.structs[name][i], d)
        {
          CopyAtMonotone(n - 1, m - 1, d.structs[name][i], d);
        }
      } else {
        forall v, i | 0 <= v < |d.enums[name]| && 0 <= i < |d.enums[name][v]|
          ensures CopyAt(m - 1, d.enums[name][v][i], d)
        {
          CopyAtMonotone(n - 1, m - 1, d.enums[name][v][i], d);
        }
      }
    case _ =>
  }

  // ----- the search -----

  /** Whatever is being visited needs t at a smaller depth than itself. */
  ghost predicate Needs(visiting: set<string>, t: Type, d: Declarations) {
    forall a, n: nat | a in visiting && CopyAt(n, Named(a), d) :: n > 0 && CopyAt(n - 1, t, d)
  }

  lemma {:induction false} NeverAtAnyDepth(name: string, n: nat, d: Declarations)
    requires Needs({name}, Named(name), d)
    ensures !CopyAt(n, Named(name), d)
  {
    if n > 0 {
      NeverAtAnyDepth(name, n - 1, d);
    }
  }

  /** What is reached while it is being visited is recursive, hence not copyable. */
  lemma ReachedWhileVisiting(visiting: set<string>, name: string, d: Declarations)
    requires Needs(visiting, Named(name), d) && name in visiting
    ensures !Copy(Named(name), d)
  {
    forall n: nat
      ensures !CopyAt(n, Named(name), d)
    {
      NeverAtAnyDepth(name, n, d);
    }
  }

  lemma NeedsOption(visiting: set<string>, t: Type, item: Type, d: Declarations)
    requires Needs(visiting, t, d)
    requires t == OptionOf(item) || (t.ResultOf? && (t.ok == item || t.err == item))
    ensures Needs(visiting, item, d)
  {
  }

  /** The parts of a declaration are needed by it and by all that need it. */
  lemma NeedsPart(visiting: set<string>, name: string, part: Type, d: Declarations)
    requires Needs(visiting, Named(name), d)
    requires forall n: nat | CopyAt(n, Named(name), d) :: n > 0 && CopyAt(n - 1, part, d)
    ensures Needs(visiting + {name}, part, d)
  {
    forall a, n: nat | a in visiting + {name} && CopyAt(n, Named(a), d)
      ensures n > 0 && CopyAt(n - 1, part, d)
    {
      if a in visiting {
        CopyAtMonotone(n - 2, n - 1, part, d);
      }
    }
  }

  type Table = map<string, bool>

  /** Every entry is right. */
  ghost predicate Exact(table: Table, d: Declarations) {
    forall name | name in table :: table[name] <==> Copy(Named(name), d)
  }

  lemma {:induction false} CommonDepth(ts: seq<Type>, d: Declarations) returns (n: nat)
    requires forall i | 0 <= i < |ts| :: Copy(ts[i], d)
    ensures forall i | 0 <= i < |ts| :: CopyAt(n, ts[i], d)
  {
    if ts == [] {
      n := 0;
    } else {
      var rest := CommonDepth(ts[1..], d);
      assert Copy(ts[0], d);
      var first: nat :| CopyAt(first, ts[0], d);
      n := if first <= rest then rest else first;
      forall i | 0 <= i < |ts|
        ensures CopyAt(n, ts[i], d)
      {
        if i == 0 {
          CopyAtMonotone(first, n, ts[0], d);
        } else {
          assert ts[i] == ts[1..][i - 1];
          CopyAtMonotone(rest, n, ts[i], d);
        }
      }
    }
  }

  lemma {:induction false} CommonDepths(vs: seq<seq<Type>>, d: Declarations) returns (n: nat)
    requires forall v, i | 0 <= v < |vs| && 0 <= i < |vs[v]| :: Copy(vs[v][i], d)
    ensures forall v, i | 0 <= v < |vs| && 0 <= i < |vs[v]| :: CopyAt(n, vs[v][i], d)
  {
    if vs == [] {
      n := 0;
    } else {
      forall v, i | 0 <= v < |vs[1..]| && 0 <= i < |vs[1..][v]|
        ensures Copy(vs[1..][v][i], d)
      {
        assert vs[1..][v] == vs[v + 1];
      }
      var rest := CommonDepths(vs[1..], d);
      var first := CommonDepth(vs[0], d);
      n := if first <= rest then rest else first;
      forall v, i | 0 <= v < |vs| && 0 <= i < |vs[v]|
        ensures CopyAt(n, vs[v][i], d)
      {
        if v == 0 {
          CopyAtMonotone(first, n, vs[0][i], d);
        } else {
          assert vs[v] == vs[1..][v - 1];
          CopyAtMonotone(rest, n, vs[v][i], d);
        }
      }
    }
  }

  /** The least fixed point is a fixed point: the copyability equations. */
  lemma CopyEquations(t: Type, d: Declarations)
    ensures t.Scalar? ==> Copy(t, d)
    ensures t.ListOf? || t.Nameless? ==> !Copy(t, d)
    ensures t.OptionOf? ==> (Copy(t, d) <==> Copy(t.item, d))
    ensures t.ResultOf? ==> (Copy(t, d) <==> Copy(t.ok, d) && Copy(t.err, d))
    ensures t.Named? && t.name in d.structs ==>
              (Copy(t, d) <==> forall i | 0 <= i < |d.structs[t.name]| :: Copy(d.structs[t.name][i], d))
    ensures t.Named? && t.name !in d.structs && t.name in d.enums ==>
              (Copy(t, d) <==> forall v, i | 0 <= v < |d.enums[t.name]| && 0 <= i < |d.enums[t.name][v]| ::
                                 Copy(d.enums[t.name][v][i], d))
    ensures t.Named? && !Declared(d, t.name) ==> !Copy(t, d)
  {
    match t
    case Scalar => assert CopyAt(0, t, d);
    case OptionOf(item) => OptionEquation(item, d);
    case ResultOf(ok, err) => ResultEquation(ok, err, d);
    case Named(name) =>
      if name in d.structs {
        StructEquation(name, d);
      } else if name in d.enums {
        EnumEquation(name, d);
      }
    case _ =>
  }

  lemma OptionEquation(item: Type, d: Declarations)
    ensures Copy(OptionOf(item), d) <==> Copy(item, d)
  {
    if Copy(item, d) {
      var n: nat :| CopyAt(n, item, d);
      assert CopyAt(n, OptionOf(item), d);
    }
    if Copy(OptionOf(item), d) {
      var n: nat :| CopyAt(n, OptionOf(item), d);
      assert CopyAt(n, item, d);
    }
  }

  lemma ResultEquation(ok: Type, err: Type, d: Declarations)
    ensures Copy(ResultOf(ok, err), d) <==> Copy(ok, d) && Copy(err, d)
  {
    if Copy(ok, d) && Copy(err, d) {
      var n := CommonDepth([ok, err], d);
      assert [ok, err][0] == ok && [ok, err][1] == err;
      assert CopyAt(n, ResultOf(ok, err), d);
    }
    if Copy(ResultOf(ok, err), d) {
      var n: nat :| CopyAt(n, ResultOf(ok, err), d);
      assert CopyAt(n, ok, d) && CopyAt(n, err, d);
    }
  }

  lemma StructEquation(name: string, d: Declarations)
    requires name in d.structs
    ensures Copy(Named(name), d) <==> forall i | 0 <= i < |d.structs[name]| :: Copy(d.structs[name][i], d)
  {
    if forall i | 0 <= i < |d.structs[name]| :: Copy(d.structs[name][i], d) {
      var n := CommonDepth(d.structs[name], d);
      assert CopyAt(n + 1, Named(name), d);
    }
    if Copy(Named(name), d) {
      var n: nat :| CopyAt(n, Named(name), d);
      forall i | 0 <= i < |d.structs[name]|
        ensures Copy(d.structs[name][i], d)
      {
        assert CopyAt(n - 1, d.structs[name][i], d);
      }
    }
  }

  lemma EnumEquation(name: string, d: Declarations)
    requires name !in d.structs && name in d.enums
    ensures Copy(Named(name), d) <==>
              forall v, i | 0 <= v < |d.enums[name]| && 0 <= i < |d.enums[name][v]| :: Copy(d.enums[name][v][i], d)
  {
    if forall v, i | 0 <= v < |d.enums[name]| && 0 <= i < |d.enums[name][v]| :: Copy(d.enums[name][v][i], d) {
      var n := CommonDepths(d.enums[name], d);
      assert CopyAt(n + 1, Named(name), d);
    }
    if Copy(Named(name), d) {
      var n: nat :| CopyAt(n, Named(name), d);
      forall v, i | 0 <= v < |d.enums[name]| && 0 <= i < |d.enums[name][v]|
        ensures Copy(d.enums[name][v][i], d)
      {
        assert CopyAt(n - 1, d.enums[name][v][i], d);
      }
    }
  }

  class CopyabilitySearch {
    const d: Declarations
    var cache: Table
    var visiting: set<string>

    constructor (d: Declarations)
      ensures this.d == d && cache == map[] && visiting == {}
    {
      this.d, cache, visiting := d, map[], {};
    }

    ghost predicate Valid()
      reads this
    {
      Exact(cache, d)
    }

    ghost predicate Grown(before: Table)
      reads this
    {
      forall name | name in before :: name in cache
    }

    /** Decides a type. The answer is exact even in the middle of the search: a
        type met while it is being visited is recursive. */
    method Inner(t: Type) returns (result: bool)
      requires Valid() && Needs(visiting, t, d)
      modifies this
      ensures Valid() && visiting == old(visiting) && Grown(old(cache))
      ensures result <==> Copy(t, d)
      ensures t.Named? && t.name !in old(visiting) ==> t.name in cache
      decreases Names(d) - visiting, t, 2
    {
      hide Copy, Needs;
      CopyEquations(t, d);
      match t
      case Scalar => return true;
      case ListOf(_) => return false;
      case Nameless => return false;
      case OptionOf(item) =>
        NeedsOption(visiting, t, item, d);
        result := Inner(item);
      case ResultOf(ok, err) =>
        NeedsOption(visiting, t, ok, d);
        NeedsOption(visiting, t, err, d);
        result := Inner(ok);
        if result {
          result := Inner(err);
        }
      case Named(name) =>
        if name in cache {
          return cache[name];
        }
        if name in visiting {
          ReachedWhileVisiting(visiting, name, d);
          return false;
        }
        result := Visit(name);
    }

    method Visit(name: string) returns (result: bool)
      requires Valid() && Needs(visiting, Named(name), d) && name !in visiting
      modifies this
      ensures Valid() && visiting == old(visiting) && Grown(old(cache))
      ensures result <==> Copy(Named(name), d)
      ensures name in cache
      decreases Names(d) - visiting, Named(name), 1
    {
      hide Copy, Needs, CopyAt;
      CopyEquations(Named(name), d);
      visiting := visiting + {name};
      if name in d.structs {
        FieldsNeeded(old(visiting), name);
        assert name in Names(d);
        result := AllOf(d.structs[name]);
      } else if name in d.enums {
        assert name in Names(d);
        result := true;
        var v := 0;
        while v < |d.enums[name]| && result
          invariant 0 <= v <= |d.enums[name]|
          invariant Valid() && visiting == old(visiting) + {name} && Grown(old(cache))
          invariant result ==> forall u, i | 0 <= u < v && 0 <= i < |d.enums[name][u]| :: Copy(d.enums[name][u][i], d)
          invariant !result ==> !Copy(Named(name), d)
        {
          PayloadsNeeded(old(visiting), name, v);
          result := AllOf(d.enums[name][v]);
          v := v + 1;
        }
      } else {
        result := false;
      }
      visiting := visiting - {name};
      cache := cache[name := result];
    }

    lemma FieldsNeeded(before: set<string>, name: string)
      requires name in d.structs && Needs(before, Named(name), d)
      ensures forall i | 0 <= i < |d.structs[name]| :: Needs(before + {name}, d.structs[name][i], d)
    {
      forall i | 0 <= i < |d.structs[name]|
        ensures Needs(before + {name}, d.structs[name][i], d)
      {
        NeedsPart(before, name, d.structs[name][i], d);
      }
    }

    lemma PayloadsNeeded(before: set<string>, name: string, v: nat)
      requires name !in d.structs && name in d.enums && Needs(before, Named(name), d) && v < |d.enums[name]|
      ensures forall i | 0 <= i < |d.enums[name][v]| :: Needs(before + {name}, d.enums[name][v][i], d)
    {
      forall i | 0 <= i < |d.enums[name][v]|
        ensures Needs(before + {name}, d.enums[name][v][i], d)
      {
        NeedsPart(before, name, d.enums[name][v][i], d);
      }
    }

    /** Stops at the first type that is not copyable. */
    method AllOf(ts: seq<Type>) returns (result: bool)
      requires Valid() && forall i | 0 <= i < |ts| :: Needs(visiting, ts[i], d)
      modifies this
      ensures Valid() && visiting == old(visiting) && Grown(old(cache))
      ensures result <==> forall i | 0 <= i < |ts| :: Copy(ts[i], d)
      decreases Names(d) - visiting, ts, 3
    {
      hide Copy, Needs;
      result := true;
      var i := 0;
      while i < |ts| && result
        invariant 0 <= i <= |ts|
        invariant Valid() && visiting == old(visiting) && Grown(old(cache))
        invariant result ==> forall k | 0 <= k < i :: Copy(ts[k], d)
        invariant !result ==> !forall k | 0 <= k < |ts| :: Copy(ts[k], d)
      {
        result := Inner(ts[i]);
        i := i + 1;
      }
    }
  }

  // ----- the table and its lookups -----

  /** Builtin generic names, which the table is not seeded with. */
  const GENERIC: set<string> := {"option", "result"}

  function Lookup(table: Table, name: string): bool {
    name in table && table[name]
  }

  /** Seeds the search with every declaration, structs first, each in any order.
      The table answers exactly for every name but a generic one. */
  method ComputeCopyability(d: Declarations, structOrder: seq<string>, enumOrder: seq<string>) returns (table: Table)
    requires forall name :: name in structOrder <==> name in d.structs
    requires forall name :: name in enumOrder <==> name in d.enums
    ensures Exact(table, d)
    ensures forall name | Declared(d, name) && (name in d.structs || name !in GENERIC) :: name in table
  {
    hide Copy;
    var search := new CopyabilitySearch(d);
    var i := 0;
    while i < |structOrder|
      modifies search
      invariant 0 <= i <= |structOrder| && search.Valid() && search.visiting == {}
      invariant forall k | 0 <= k < i :: structOrder[k] in search.cache
    {
      NothingVisiting(Named(structOrder[i]), d);
      var _ := search.Inner(Named(structOrder[i]));
      i := i + 1;
    }
    ghost var seeded := search.cache;
    i := 0;
    while i < |enumOrder|
      modifies search
      invariant 0 <= i <= |enumOrder| && search.Valid() && search.visiting == {}
      invariant search.Grown(seeded)
      invariant forall k | 0 <= k < i && enumOrder[k] !in GENERIC :: enumOrder[k] in search.cache
    {
      if enumOrder[i] !in GENERIC {
        NothingVisiting(Named(enumOrder[i]), d);
        var _ := search.Inner(Named(enumOrder[i]));
      }
      i := i + 1;
    }
    table := search.cache;
  }

  lemma NothingVisiting(t: Type, d: Declarations)
    ensures Needs({}, t, d)
  {
  }

  /** What the search guarantees of its table. */
  ghost predicate Complete(table: Table, d: Declarations) {
    Exact(table, d) && forall name | Declared(d, name) && (name in d.structs || name !in GENERIC) :: name in table
  }

  /** The later lookups, on a type and the finished table. */
  function IsCopy(t: Type, table: Table): bool {
    match t
    case Scalar => true
    case ListOf(_) => false
    case OptionOf(item) => IsCopy(item, table)
    case ResultOf(ok, err) => IsCopy(ok, table) && IsCopy(err, table)
    case Named(name) => Lookup(table, name)
    case Nameless => false
  }

  /** No generic name stands where a declared name should. */
  predicate NoGenericName(t: Type) {
    match t
    case OptionOf(item) => NoGenericName(item)
    case ResultOf(ok, err) => NoGenericName(ok) && NoGenericName(err)
    case Named(name) => name !in GENERIC
    case _ => true
  }

  /** Lookups decide structural copyability. */
  lemma {:induction false} LookupsAreExact(t: Type, table: Table, d: Declarations)
    requires Complete(table, d) && NoGenericName(t)
    ensures IsCopy(t, table) <==> Copy(t, d)
  {
    hide Copy;
    CopyEquations(t, d);
    match t
    case OptionOf(item) => LookupsAreExact(item, table, d);
    case ResultOf(ok, err) =>
      LookupsAreExact(ok, table, d);
      LookupsAreExact(err, table, d);
    case _ =>
  }

  /** Declaration order does not matter: any two complete tables answer alike. */
  lemma OrderIndependent(t: Type, a: Table, b: Table, d: Declarations)
    requires Complete(a, d) && Complete(b, d) && NoGenericName(t)
    ensures IsCopy(t, a) == IsCopy(t, b)
  {
    hide Copy, Complete;
    LookupsAreExact(t, a, d);
    LookupsAreExact(t, b, d);
  }

  // ----- least, and why not -----

  /** Copyable if the names in s are. */
  ghost predicate CopyGiven(t: Type, s: set<string>) {
    match t
    case Scalar => true
    case ListOf(_) => false
    case OptionOf(item) => CopyGiven(item, s)
    case ResultOf(ok, err) => CopyGiven(ok, s) && CopyGiven(err, s)
    case Named(name) => name in s
    case Nameless => false
  }

  /** s contains every declaration all of whose parts are copyable given s. */
  ghost predicate ClosedUnder(s: set<string>, d: Declarations) {
    && (forall name | name in d.structs && (forall i | 0 <= i < |d.structs[name]| :: CopyGiven(d.structs[name][i], s)) ::
          name in s)
    && (forall name | name !in d.structs && name in d.enums &&
          (forall v, i | 0 <= v < |d.enums[name]| && 0 <= i < |d.enums[name][v]| :: CopyGiven(d.enums[name][v][i], s)) ::
          name in s)
  }

  /** It is the least fixed point: every closed set contains it. */
  lemma {:induction false} LeastFixedPoint(n: nat, t: Type, s: set<string>, d: Declarations)
    requires ClosedUnder(s, d) && CopyAt(n, t, d)
    ensures CopyGiven(t, s)
    decreases n, t
  {
    match t
    case OptionOf(item) => LeastFixedPoint(n, item, s, d);
    case ResultOf(ok, err) =>
      LeastFixedPoint(n, ok, s, d);
      LeastFixedPoint(n, err, s, d);
    case Named(name) =>
      if name in d.structs {
        forall i | 0 <= i < |d.structs[name]|
          ensures CopyGiven(d.structs[name][i], s)
        {
          LeastFixedPoint(n - 1, d.structs[name][i], s, d);
        }
      } else {
        forall v, i | 0 <= v < |d.enums[name]| && 0 <= i < |d.enums[name][v]|
          ensures CopyGiven(d.enums[name][v][i], s)
        {
          LeastFixedPoint(n - 1, d.enums[name][v][i], s, d);
        }
      }
    case _ =>
  }

  /** inner occurs in t without a list between. */
  predicate Occurs(inner: Type, t: Type) {
    inner == t ||
    match t
    case OptionOf(item) => Occurs(inner, item)
    case ResultOf(ok, err) => Occurs(inner, ok) || Occurs(inner, err)
    case _ => false
  }

  /** t is a part of the declaration of name. */
  ghost predicate PartOf(t: Type, name: string, d: Declarations) {
    if name in d.structs then t in d.structs[name]
    else name in d.enums && exists v :: 0 <= v < |d.enums[name]| && t in d.enums[name][v]
  }

  /** inner occurs in a part of the declaration of name. */
  ghost predicate Below(inner: Type, name: string, d: Declarations) {
    exists part :: PartOf(part, name, d) && Occurs(inner, part)
  }

  /** Each name occurs in the declaration of the one before it. */
  ghost predicate Path(names: seq<string>, d: Declarations) {
    names != [] && forall i | 0 < i < |names| :: Below(Named(names[i]), names[i - 1], d)
  }

  /** What rules copying out by itself: a list, or a name nobody declared. */
  ghost predicate Bad(t: Type, d: Declarations) {
    t.ListOf? || t.Nameless? || (t.Named? && !Declared(d, t.name))
  }

  lemma {:induction false} CopyOccurs(n: nat, inner: Type, t: Type, d: Declarations)
    requires Occurs(inner, t) && CopyAt(n, t, d)
    ensures CopyAt(n, inner, d)
  {
    if inner != t {
      match t
      case OptionOf(item) => CopyOccurs(n, inner, item, d);
      case ResultOf(ok, err) => CopyOccurs(n, inner, if Occurs(inner, ok) then ok else err, d);
    }
  }

  lemma CopyBelow(n: nat, inner: Type, name: string, d: Declarations)
    requires Below(inner, name, d) && CopyAt(n, Named(name), d)
    ensures n > 0 && CopyAt(n - 1, inner, d)
  {
    var part :| PartOf(part, name, d) && Occurs(inner, part);
    if name in d.structs {
      var i :| 0 <= i < |d.structs[name]| && d.structs[name][i] == part;
      CopyOccurs(n - 1, inner, part, d);
    } else {
      var v :| 0 <= v < |d.enums[name]| && part in d.enums[name][v];
      var i :| 0 <= i < |d.enums[name][v]| && d.enums[name][v][i] == part;
      CopyOccurs(n - 1, inner, part, d);
    }
  }

  /** Along a path, each name is copyable at a smaller depth. */
  lemma {:induction false} CopyAlongPath(n: nat, names: seq<string>, k: nat, d: Declarations)
    requires Path(names, d) && k < |names| && CopyAt(n, Named(names[0]), d)
    ensures n >= k && CopyAt(n - k, Named(names[k]), d)
  {
    if k > 0 {
      CopyAlongPath(n, names, k - 1, d);
      CopyBelow(n - (k - 1), Named(names[k]), names[k - 1], d);
    }
  }

  /** A recursive type is not copyable. */
  lemma RecursiveIsNotCopy(names: seq<string>, d: Declarations)
    requires Path(names, d) && |names| > 1 && names[0] == names[|names| - 1]
    ensures !Copy(Named(names[0]), d)
  {
    var k := |names| - 1;
    forall n: nat | CopyAt(n, Named(names[0]), d)
      ensures false
    {
      SmallerForever(n, names, d);
    }
  }

  lemma {:induction false} SmallerForever(n: nat, names: seq<string>, d: Declarations)
    requires Path(names, d) && |names| > 1 && names[0] == names[|names| - 1]
    ensures !CopyAt(n, Named(names[0]), d)
    decreases n
  {
    if CopyAt(n, Named(names[0]), d) {
      var k := |names| - 1;
      CopyAlongPath(n, names, k, d);
      SmallerForever(n - k, names, d);
    }
  }

  /** What a path shows against copying its first name: something bad occurs below
      its last name, or a name on it recurs. */
  ghost predicate Refutes(names: seq<string>, d: Declarations) {
    && Path(names, d)
    && ((exists t :: Bad(t, d) && Below(t, names[|names| - 1], d))
        || (exists i :: 0 <= i < |names| - 1 && names[i] == names[|names| - 1])
        || !Declared(d, names[|names| - 1]))
  }

  lemma {:induction false} CulpritIn(t: Type, d: Declarations) returns (leaf: Type)
    requires !Copy(t, d)
    ensures Occurs(leaf, t) && !Copy(leaf, d) && (Bad(leaf, d) || leaf.Named?)
  {
    hide Copy;
    CopyEquations(t, d);
    match t
    case OptionOf(item) => leaf := CulpritIn(item, d);
    case ResultOf(ok, err) =>
      if !Copy(ok, d) {
        leaf := CulpritIn(ok, d);
      } else {
        leaf := CulpritIn(err, d);
      }
    case _ => leaf := t;
  }

  lemma CulpritBelow(name: string, d: Declarations) returns (leaf: Type)
    requires Declared(d, name) && !Copy(Named(name), d)
    ensures Below(leaf, name, d) && !Copy(leaf, d) && (Bad(leaf, d) || leaf.Named?)
  {
    hide Copy;
    CopyEquations(Named(name), d);
    var part;
    if name in d.structs {
      var i :| 0 <= i < |d.structs[name]| && !Copy(d.structs[name][i], d);
      part := d.structs[name][i];
    } else {
      var v, i :| 0 <= v < |d.enums[name]| && 0 <= i < |d.enums[name][v]| && !Copy(d.enums[name][v][i], d);
      part := d.enums[name][v][i];
    }
    leaf := CulpritIn(part, d);
  }

  lemma PathSnoc(names: seq<string>, name: string, d: Declarations)
    requires Path(names, d) && Below(Named(name), names[|names| - 1], d)
    ensures Path(names + [name], d)
  {
    hide Below;
  }

  /** Follows a reason not to copy until it is bad or goes round. */
  lemma {:induction false} FollowReason(names: seq<string>, d: Declarations) returns (path: seq<string>)
    requires Path(names, d) && !Copy(Named(names[|names| - 1]), d)
    requires forall i, j | 0 <= i < j < |names| :: names[i] != names[j]
    requires forall i | 0 <= i < |names| - 1 :: Declared(d, names[i])
    ensures Refutes(path, d) && path[0] == names[0]
    decreases Names(d) - (set i | 0 <= i < |names| :: names[i]), if Declared(d, names[|names| - 1]) then 1 else 0
  {
    hide Copy, Below, PartOf, Occurs;
    var last := names[|names| - 1];
    if !Declared(d, last) {
      return names;
    }
    var leaf := CulpritBelow(last, d);
    if Bad(leaf, d) {
      return names;
    }
    var longer := names + [leaf.name];
    PathSnoc(names, leaf.name, d);
    if leaf.name in names {
      var i :| 0 <= i < |names| && names[i] == leaf.name;
      assert longer[i] == longer[|longer| - 1];
      return longer;
    }
    assert (set i | 0 <= i < |longer| :: longer[i]) == (set i | 0 <= i < |names| :: names[i]) + {leaf.name} by {
      assert longer[|names|] == leaf.name;
      assert forall i | 0 <= i < |names| :: longer[i] == names[i];
    }
    assert leaf.name in Names(d);
    path := FollowReason(longer, d);
  }

  /** A declared type is copyable exactly when no path of declarations from it
      meets a list or an undeclared name, or comes back to a name it has passed. */
  lemma CopyIffNothingRefutes(name: string, d: Declarations)
    ensures Copy(Named(name), d) <==> !exists path :: Refutes(path, d) && path[0] == name
  {
    if !Copy(Named(name), d) {
      var path := FollowReason([name], d);
    }
    forall path | Refutes(path, d) && path[0] == name
      ensures !Copy(Named(name), d)
    {
      RefutedIsNotCopy(path, d);
    }
  }

  lemma RefutedIsNotCopy(path: seq<string>, d: Declarations)
    requires Refutes(path, d)
    ensures !Copy(Named(path[0]), d)
  {
    var k := |path| - 1;
    forall n: nat
      ensures !CopyAt(n, Named(path[0]), d)
    {
      if CopyAt(n, Named(path[0]), d) {
        CopyAlongPath(n, path, k, d);
        if exists i :: 0 <= i < k && path[i] == path[k] {
          var i :| 0 <= i < k && path[i] == path[k];
          CopyAlongPath(n, path, i, d);
          assert Path(path[i..], d);
          SmallerForever(n - i, path[i..], d);
        } else if exists t :: Bad(t, d) && Below(t, path[k], d) {
          var t :| Bad(t, d) && Below(t, path[k], d);
          CopyBelow(n - k, t, path[k], d);
        }
      }
    }
  }
}
