/** Loading a project: a depth-first walk over imports that reports cycles and
    missing modules and lists modules in dependency order. */
module ImportLoader {

  /** What each existing module imports, in source order. The entry module is
      always there, read from the source given for it. */
  type Files = map<string, seq<string>>

  datatype Diagnostic = ImportCycle(names: seq<string>) | NotFound(name: string)

  // ----- the import graph -----

  ghost predicate Edge(files: Files, a: string, b: string) {
    a in files && b in files && b in files[a]
  }

  ghost predicate Walk(files: Files, names: seq<string>) {
    && names != [] && names[0] in files
    && forall i | 0 <= i < |names| - 1 :: Edge(files, names[i], names[i + 1])
  }

  ghost predicate WalkFromTo(files: Files, names: seq<string>, a: string, b: string) {
    Walk(files, names) && names[0] == a && names[|names| - 1] == b
  }

  ghost predicate Reachable(files: Files, entry: string, name: string) {
    exists names :: WalkFromTo(files, names, entry, name)
  }

  /** A walk that comes back to where it started. */
  ghost predicate Closed(files: Files, names: seq<string>) {
    Walk(files, names) && |names| > 1 && names[0] == names[|names| - 1]
  }

  /** The import graph reachable from the entry has a cycle. */
  ghost predicate HasCycle(files: Files, entry: string) {
    exists names :: Closed(files, names) && Reachable(files, entry, names[0])
  }

  lemma ReachStep(files: Files, entry: string, a: string, b: string)
    requires Reachable(files, entry, a) && Edge(files, a, b)
    ensures Reachable(files, entry, b)
  {
    var names :| WalkFromTo(files, names, entry, a);
    assert WalkFromTo(files, names + [b], entry, b);
  }

  predicate Distinct(names: seq<string>) {
    forall i, j | 0 <= i < j < |names| :: names[i] != names[j]
  }

  /** name is listed before position k. */
  predicate Before(order: seq<string>, name: string, k: nat)
    requires k <= |order|
  {
    name in order[..k]
  }

  /** Every listed module comes after every existing module it imports. */
  ghost predicate Topological(files: Files, order: seq<string>) {
    forall k | 0 <= k < |order| && order[k] in files ::
      forall u | u in files[order[k]] && u in files :: Before(order, u, k)
  }

  lemma TopologicalSnoc(files: Files, order: seq<string>, name: string)
    requires Topological(files, order) && name in files
    requires forall u | u in files[name] && u in files :: u in order
    ensures Topological(files, order + [name])
  {
    var longer := order + [name];
    forall k | 0 <= k < |longer| && longer[k] in files
      ensures forall u | u in files[longer[k]] && u in files :: Before(longer, u, k)
    {
      assert longer[..k] == order[..k];
      if k < |order| {
        assert longer[k] == order[k];
        assert forall u | u in files[order[k]] && u in files :: Before(order, u, k);
      } else {
        assert order[..k] == order;
      }
    }
  }

  function IndexOf(order: seq<string>, name: string): (i: nat)
    requires name in order
    ensures i < |order| && order[i] == name && name !in order[..i]
  {
    if order[0] == name then 0 else IndexOf(order[1..], name) + 1
  }

  /** Along a walk the positions in a topological order fall. */
  lemma {:induction false} PositionsFall(files: Files, order: seq<string>, names: seq<string>, k: nat)
    requires Topological(files, order) && Distinct(order) && Walk(files, names) && names[0] in order && k < |names|
    ensures names[k] in order && IndexOf(order, names[k]) + k <= IndexOf(order, names[0])
  {
    if k > 0 {
      PositionsFall(files, order, names, k - 1);
      assert Edge(files, names[k - 1], names[k - 1 + 1]);
      var p := IndexOf(order, names[k - 1]);
      assert Before(order, names[k], p);
      var q :| 0 <= q < p && order[q] == names[k];
      assert IndexOf(order, names[k]) == q;
    }
  }

  // ----- the loader -----

  class ProjectLoader {
    const files: Files
    const entry: string
    var modules: set<string>
    var order: seq<string>
    var loading: seq<string>
    var diagnostics: seq<Diagnostic>

    constructor (files: Files, entry: string)
      requires entry in files
      ensures this.files == files && this.entry == entry
      ensures modules == {} && order == [] && loading == [] && diagnostics == []
    {
      this.files, this.entry := files, entry;
      modules, order, loading, diagnostics := {}, [], [], [];
    }

    ghost predicate CycleReported()
      reads `diagnostics
    {
      exists d :: d in diagnostics && d.ImportCycle?
    }

    /** A loaded module is either being loaded or finished, and is reachable; the
        modules being loaded form a walk; finished ones have had all their imports
        loaded, and unless a cycle was reported finished. */
    ghost predicate Valid()
      reads this
    {
      && (forall m :: m in modules <==> m in loading || m in order)
      && (forall m | m in modules :: m in files && Reachable(files, entry, m))
      && Distinct(loading) && Distinct(order) && (forall m | m in loading :: m !in order)
      && (forall i | 0 <= i < |loading| - 1 :: Edge(files, loading[i], loading[i + 1]))
      && (forall m, u | m in order && u in files[m] && u in files :: u in modules)
      && (!CycleReported() ==> Topological(files, order))
    }

    /** A reported list of modules ends in a closed walk that the entry reaches. */
    ghost predicate EndsInCycle(names: seq<string>) {
      exists i :: 0 <= i < |names| && Closed(files, names[i..]) && Reachable(files, entry, names[i])
    }

    lemma ReportedIsCycle()
      requires Honest() && CycleReported()
      ensures HasCycle(files, entry)
    {
      var d :| d in diagnostics && d.ImportCycle?;
      var i :| 0 <= i < |d.names| && Closed(files, d.names[i..]) && Reachable(files, entry, d.names[i]);
      assert d.names[i..][0] == d.names[i];
    }

    /** Every complaint is justified. */
    ghost predicate Honest()
      reads this
    {
      && (forall d | d in diagnostics && d.ImportCycle? :: EndsInCycle(d.names))
      && (forall d | d in diagnostics && d.NotFound? ::
            d.name !in files && exists m :: m in modules && m in files && d.name in files[m])
    }

    /** Every import of a finished module that does not exist was complained about. */
    ghost predicate Thorough()
      reads this
    {
      forall m, u | m in order && m in files && u in files[m] && u !in files :: NotFound(u) in diagnostics
    }

    method Report(d: Diagnostic)
      modifies `diagnostics
      ensures diagnostics == old(diagnostics) + [d]
    {
      diagnostics := diagnostics + [d];
    }

    /** The modules being loaded, followed by a module among them that the last one
        imports, contain a cycle. */
    lemma LoadingCloses(name: string)
      requires Valid() && name in loading && Edge(files, loading[|loading| - 1], name)
      ensures EndsInCycle(loading + [name])
    {
      var i :| 0 <= i < |loading| && loading[i] == name;
      var names := loading[i..] + [name];
      forall k | 0 <= k < |names| - 1
        ensures Edge(files, names[k], names[k + 1])
      {
        if k + 1 < |names| - 1 {
          assert names[k] == loading[i + k] && names[k + 1] == loading[i + k + 1];
        } else {
          assert names[k] == loading[|loading| - 1];
        }
      }
      assert Closed(files, names);
      assert (loading + [name])[i..] == names && (loading + [name])[i] == name;
    }

    /** What stays and what grows while a module is loaded. */
    twostate predicate Grown()
      reads this
    {
      && loading == old(loading) && old(modules) <= modules && old(order) <= order && old(diagnostics) <= diagnostics
    }

    method LoadModule(name: string)
      requires Valid() && Honest() && Thorough()
      requires loading == [] ==> name == entry
      requires loading != [] && name in files ==> Edge(files, loading[|loading| - 1], name)
      requires loading != [] ==> loading[|loading| - 1] in files && name in files[loading[|loading| - 1]]
      requires entry in files
      modifies this
      ensures Valid() && Honest() && Thorough() && Grown()
      ensures name in files ==> name in modules
      ensures name in files && !CycleReported() ==> name in order
      ensures name !in files ==> NotFound(name) in diagnostics
      decreases files.Keys - modules, 0
    {
      hide Valid, Honest, Thorough, CycleReported;
      LoadedParts();
      if name in loading {
        ReportCycle(name);
        return;
      }
      if name in modules {
        return;
      }
      if name !in files {
        ReportMissing(name);
        return;
      }
      Enter(name);
      LoadUses(name);
      Leave(name);
      LoadedParts();
    }

    lemma LoadedParts()
      requires Valid()
      ensures forall m :: m in modules <==> m in loading || m in order
      ensures forall m | m in modules :: m in files
    {
    }

    method ReportCycle(name: string)
      requires Valid() && Honest() && Thorough() && name in loading
      requires name in files ==> Edge(files, loading[|loading| - 1], name)
      modifies `diagnostics
      ensures Valid() && Honest() && Thorough() && CycleReported() && old(diagnostics) <= diagnostics
    {
      hide Topological, Reachable, Edge, EndsInCycle;
      LoadingCloses(name);
      Report(ImportCycle(loading + [name]));
      assert diagnostics[|diagnostics| - 1].ImportCycle?;
    }

    method ReportMissing(name: string)
      requires Valid() && Honest() && Thorough() && name !in files
      requires loading != [] && loading[|loading| - 1] in files && name in files[loading[|loading| - 1]]
      modifies `diagnostics
      ensures Valid() && Honest() && Thorough() && old(diagnostics) <= diagnostics && NotFound(name) in diagnostics
      ensures CycleReported() <==> old(CycleReported())
    {
      Report(NotFound(name));
      assert loading[|loading| - 1] in modules;
      assert diagnostics[|diagnostics| - 1] == NotFound(name);
      if CycleReported() {
        var d :| d in diagnostics && d.ImportCycle?;
        assert d in old(diagnostics);
      }
    }

    method Enter(name: string)
      requires Valid() && Honest() && Thorough() && name in files && name !in modules
      requires loading == [] ==> name == entry
      requires loading != [] ==> Edge(files, loading[|loading| - 1], name)
      modifies `modules, `loading
      ensures Valid() && Honest() && Thorough()
      ensures modules == old(modules) + {name} && loading == old(loading) + [name]
    {
      if loading == [] {
        assert WalkFromTo(files, [name], entry, name);
      } else {
        ReachStep(files, entry, loading[|loading| - 1], name);
      }
      modules := modules + {name};
      loading := loading + [name];
    }

    method LoadUses(name: string)
      requires Valid() && Honest() && Thorough() && name in files
      requires loading != [] && loading[|loading| - 1] == name && entry in files && name in modules
      modifies this
      ensures Valid() && Honest() && Thorough() && Grown()
      ensures forall u | u in files[name] && u in files :: u in modules && (!CycleReported() ==> u in order)
      ensures forall u | u in files[name] && u !in files :: NotFound(u) in diagnostics
      decreases files.Keys - modules, 1
    {
      hide Valid, Honest, Thorough;
      var uses := files[name];
      var i := 0;
      while i < |uses|
        invariant 0 <= i <= |uses|
        invariant Valid() && Honest() && Thorough() && Grown()
        invariant forall k | 0 <= k < i && uses[k] in files :: uses[k] in modules && (!CycleReported() ==> uses[k] in order)
        invariant forall k | 0 <= k < i && uses[k] !in files :: NotFound(uses[k]) in diagnostics
      {
        assert files.Keys - modules <= files.Keys - old(modules);
        LoadModule(uses[i]);
        i := i + 1;
      }
    }

    method Leave(name: string)
      requires Valid() && Honest() && Thorough() && name in files
      requires loading != [] && loading[|loading| - 1] == name
      requires forall u | u in files[name] && u in files :: u in modules && (!CycleReported() ==> u in order)
      requires forall u | u in files[name] && u !in files :: NotFound(u) in diagnostics
      modifies `loading, `order
      ensures Valid() && Honest() && Thorough()
      ensures loading == old(loading)[..|old(loading)| - 1] && order == old(order) + [name]
    {
      if !CycleReported() {
        TopologicalSnoc(files, order, name);
      }
      ghost var shorter := loading[..|loading| - 1];
      assert loading == shorter + [name];
      loading := loading[..|loading| - 1];
      order := order + [name];
    }

    /** Loads everything the entry reaches. A cycle is reported exactly when the
        reachable graph has one; when it has none the order lists each reachable
        existing module once, after every existing module it imports; a module is
        reported missing exactly when a reachable module imports it and it does not
        exist. */
    method Load()
      requires entry in files && modules == {} && order == [] && loading == [] && diagnostics == []
      modifies this
      ensures CycleReported() <==> HasCycle(files, entry)
      ensures forall d | d in diagnostics && d.ImportCycle? :: EndsInCycle(d.names)
      ensures forall m :: m in order <==> Reachable(files, entry, m)
      ensures Distinct(order) && modules == set m | m in order
      ensures !HasCycle(files, entry) ==> Topological(files, order)
      ensures forall u :: NotFound(u) in diagnostics <==>
                u !in files && exists m :: Reachable(files, entry, m) && m in files && u in files[m]
    {
      LoadModule(entry);
      Everything();
      if CycleReported() {
        ReportedIsCycle();
      }
      if HasCycle(files, entry) && !CycleReported() {
        NoCycleInOrder();
      }
    }

    lemma {:induction false} WalkLoaded(names: seq<string>, k: nat)
      requires Valid() && loading == [] && Walk(files, names) && names[0] in order && k < |names|
      ensures names[k] in order
    {
      if k > 0 {
        WalkLoaded(names, k - 1);
        assert Edge(files, names[k - 1], names[k - 1 + 1]);
      }
    }

    lemma Everything()
      requires Valid() && loading == [] && entry in order
      ensures forall m :: m in order <==> Reachable(files, entry, m)
    {
      forall m | Reachable(files, entry, m)
        ensures m in order
      {
        var names :| WalkFromTo(files, names, entry, m);
        WalkLoaded(names, |names| - 1);
      }
    }

    lemma NoCycleInOrder()
      requires Valid() && !CycleReported() && loading == [] && forall m :: m in order <==> Reachable(files, entry, m)
      ensures !HasCycle(files, entry)
    {
      forall names | Closed(files, names)
        ensures !Reachable(files, entry, names[0])
      {
        if names[0] in order {
          PositionsFall(files, order, names, |names| - 1);
        }
      }
    }
  }
}
