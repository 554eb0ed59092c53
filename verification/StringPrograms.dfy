/** Any program over shared strings and a list of them computes what it would with
    plain byte strings, and frees everything. */
module StringPrograms {
  import opened ProcessTrace
  import opened SharedStrings

  /** The state of a program is a row of string variables and one list; the plain side
      keeps the bytes of each. What a program does next, up to an allocation that fails. Variables are numbered; a number or index that is
      out of range makes the operation do nothing, except that a replaced-in
      variable without a place is given up. */
  datatype Op =
    | FromBytes(bytes: seq<Byte>)
    | CloneVar(i: nat)
    | SliceVar(i: nat, start: int, end: int)
    | ConcatVars(i: nat, j: nat)
    | JoinItems
    | DropVar(i: nat)
    | PushVar(i: nat)
    | GetItem(k: int)
    | ReplaceItem(k: int, i: nat)
    | PopItem
    | DropItems

  // ----- with plain values -----

  datatype Values = Values(vars: seq<seq<Byte>>, items: seq<seq<Byte>>)

  function Flat(items: seq<seq<Byte>>): seq<Byte> {
    if items == [] then [] else Flat(items[..|items| - 1]) + items[|items| - 1]
  }

  function Minus<T>(s: seq<T>, i: nat): seq<T>
    requires i < |s|
  {
    s[..i] + s[i + 1..]
  }

  function StepValues(op: Op, v: Values): Values {
    match op
    case FromBytes(bytes) => v.(vars := v.vars + [bytes])
    case CloneVar(i) => if i < |v.vars| then v.(vars := v.vars + [v.vars[i]]) else v
    case SliceVar(i, start, end) =>
      if i < |v.vars| && 0 <= start <= end <= |v.vars[i]| then v.(vars := v.vars + [v.vars[i][start..end]]) else v
    case ConcatVars(i, j) =>
      if i < |v.vars| && j < |v.vars| then v.(vars := v.vars + [v.vars[i] + v.vars[j]]) else v
    case JoinItems => v.(vars := v.vars + [Flat(v.items)])
    case DropVar(i) => if i < |v.vars| then v.(vars := Minus(v.vars, i)) else v
    case PushVar(i) => if i < |v.vars| then Values(Minus(v.vars, i), v.items + [v.vars[i]]) else v
    case GetItem(k) => if 0 <= k < |v.items| then v.(vars := v.vars + [v.items[k]]) else v
    case ReplaceItem(k, i) =>
      if i >= |v.vars| then v
      else if 0 <= k < |v.items| then Values(Minus(v.vars, i) + [v.items[k]], v.items[k := v.vars[i]])
      else v.(vars := Minus(v.vars, i))
    case PopItem =>
      if v.items == [] then v else Values(v.vars + [v.items[|v.items| - 1]], v.items[..|v.items| - 1])
    case DropItems => v.(items := [])
  }

  function RunValues(script: seq<Op>, v: Values): Values {
    if script == [] then v else StepValues(script[|script| - 1], RunValues(script[..|script| - 1], v))
  }

  // ----- with shared strings -----

  ghost predicate Shows(handles: seq<Str>, texts: seq<seq<Byte>>)
    reads set h | h in handles :: h.data
  {
    && |handles| == |texts|
    && (forall h | h in handles :: InRange(h))
    && forall i | 0 <= i < |handles| :: BytesOf(handles[i]) == texts[i]
  }

  /** The live handles are the variables and the items, each as often as it
      occurs there. */
  ghost predicate Balanced(live: seq<Str>, vars: seq<Str>, items: seq<Str>) {
    multiset(live) == multiset(vars) + multiset(items)
  }

  lemma MinusMultiset(vars: seq<Str>, i: nat)
    requires i < |vars|
    ensures multiset(Minus(vars, i)) == multiset(vars) - multiset{vars[i]} && vars[i] in multiset(vars)
  {
    assert vars == vars[..i] + [vars[i]] + vars[i + 1..];
  }

  lemma BalancedNew(live: seq<Str>, vars: seq<Str>, items: seq<Str>, s: Str)
    requires Balanced(live, vars, items)
    ensures Balanced(live + [s], vars + [s], items)
  {
  }

  lemma BalancedDrop(live: seq<Str>, vars: seq<Str>, items: seq<Str>, i: nat)
    requires Balanced(live, vars, items) && i < |vars|
    ensures vars[i] in live && Balanced(Without(live, vars[i]), Minus(vars, i), items)
  {
    MinusMultiset(vars, i);
    assert vars[i] in multiset(live);
    WithoutMultiset(live, vars[i]);
  }

  lemma BalancedPush(live: seq<Str>, vars: seq<Str>, items: seq<Str>, i: nat)
    requires Balanced(live, vars, items) && i < |vars|
    ensures Balanced(live, Minus(vars, i), items + [vars[i]])
  {
    MinusMultiset(vars, i);
  }

  lemma BalancedReplace(live: seq<Str>, vars: seq<Str>, items: seq<Str>, i: nat, k: nat)
    requires Balanced(live, vars, items) && i < |vars| && k < |items|
    ensures Balanced(live, Minus(vars, i) + [items[k]], items[k := vars[i]])
  {
    MinusMultiset(vars, i);
    ReplacedMultiset(items, k, vars[i]);
  }

  lemma BalancedPop(live: seq<Str>, vars: seq<Str>, items: seq<Str>)
    requires Balanced(live, vars, items) && items != []
    ensures Balanced(live, vars + [items[|items| - 1]], items[..|items| - 1])
  {
    assert items == items[..|items| - 1] + [items[|items| - 1]];
  }

  /** Exactly the variables and the items are live, and they show these values. */
  ghost predicate Represents(rt: StringRuntime, list: StrList, vars: seq<Str>, v: Values)
    reads rt, rt.owners, list, set h | h in vars + list.items :: h.data
  {
    && rt.Valid() && list.Fits()
    && Balanced(rt.live, vars, list.items)
    && Shows(vars, v.vars) && Shows(list.items, v.items)
  }

  lemma VarLive(rt: StringRuntime, list: StrList, vars: seq<Str>, i: nat)
    requires Balanced(rt.live, vars, list.items) && i < |vars|
    ensures vars[i] in rt.live
    ensures list.Held(rt.live) && list.HeldWith(vars[i], rt.live)
  {
    assert vars[i] in multiset(vars);
    assert vars[i] in multiset(rt.live);
  }

  lemma ShowsMinus(handles: seq<Str>, texts: seq<seq<Byte>>, i: nat)
    requires Shows(handles, texts) && i < |handles|
    ensures Shows(Minus(handles, i), Minus(texts, i))
  {
    var less := Minus(handles, i);
    forall h | h in less
      ensures InRange(h)
    {
      assert h in handles;
    }
    forall k | 0 <= k < |less|
      ensures BytesOf(less[k]) == Minus(texts, i)[k]
    {
      var from := if k < i then k else k + 1;
      assert less[k] == handles[from] && handles[from] in handles;
    }
  }

  lemma ShowsSnoc(handles: seq<Str>, texts: seq<seq<Byte>>, h: Str, text: seq<Byte>)
    requires Shows(handles, texts) && InRange(h) && BytesOf(h) == text
    ensures Shows(handles + [h], texts + [text])
  {
  }

  lemma ShowsUpdate(handles: seq<Str>, texts: seq<seq<Byte>>, i: nat, h: Str, text: seq<Byte>)
    requires Shows(handles, texts) && InRange(h) && BytesOf(h) == text && i < |handles|
    ensures Shows(handles[i := h], texts[i := text])
  {
    var new' := handles[i := h];
    forall k | k in new'
      ensures InRange(k)
    {
      assert k == h || k in handles;
    }
  }

  lemma {:induction false} ShowsText(rt: StringRuntime, handles: seq<Str>, texts: seq<seq<Byte>>)
    requires Shows(handles, texts)
    ensures rt.TextOf(handles) == Flat(texts)
  {
    if handles != [] {
      var most := handles[..|handles| - 1];
      assert handles[|handles| - 1] in handles;
      assert Shows(most, texts[..|texts| - 1]) by {
        assert forall k | 0 <= k < |most| :: most[k] == handles[k];
      }
      ShowsText(rt, most, texts[..|texts| - 1]);
    }
  }

  method MakeString(rt: StringRuntime, bytes: seq<Byte>) returns (s: Option<Str>)
    requires rt.Valid()
    modifies rt
    ensures rt.Valid()
    ensures s.None? ==> rt.live == old(rt.live) && rt.owners == old(rt.owners) && rt.made == old(rt.made)
    ensures rt.refused >= old(rt.refused) && (s.None? ==> |bytes| > rt.limit || rt.refused > old(rt.refused))
    ensures s.Some? ==> rt.live == old(rt.live) + [s.value] && InRange(s.value) && BytesOf(s.value) == bytes
    ensures Tracked(rt)
  {
    var buffer := new Byte[|bytes|](i requires 0 <= i < |bytes| => bytes[i]);
    assert buffer[..|bytes|] == bytes;
    var ok, made := rt.Take(buffer, |bytes|);
    s := if ok then Some(made) else None;
  }

  // ----- operations that leave all bytes alone -----

  method DropKeeping(rt: StringRuntime, h: Str, ghost vars: seq<Str>, ghost items: seq<Str>, ghost v: Values)
    requires rt.Valid() && h in rt.live && Shows(vars, v.vars) && Shows(items, v.items)
    modifies rt, if h.owner == null then {} else {h.owner}
    ensures Shows(vars, v.vars) && Shows(items, v.items)
    ensures rt.Valid() && rt.live == Without(old(rt.live), h) && rt.owners <= old(rt.owners) && rt.made == old(rt.made)
    ensures rt.refused == old(rt.refused)
  {
    hide StringRuntime.Valid, Without;
    rt.Drop(h);
  }

  method SliceKeeping(rt: StringRuntime, h: Str, start: int, end: int, ghost vars: seq<Str>, ghost items: seq<Str>, ghost v: Values)
    returns (ok: bool, s: Option<Str>)
    requires rt.Valid() && h in rt.live && Shows(vars, v.vars) && Shows(items, v.items) && InRange(h)
    modifies rt, if h.owner == null then {} else {h.owner}
    ensures Shows(vars, v.vars) && Shows(items, v.items) && BytesOf(h) == old(BytesOf(h))
    ensures rt.Valid() && rt.owners == old(rt.owners) && rt.made == old(rt.made)
    ensures rt.refused == old(rt.refused) && (!ok ==> h.owner != null && h.owner.refCount == SIZE_MAX)
    ensures ok ==> (s.Some? <==> 0 <= start <= end <= h.len)
    ensures ok && s.Some? ==> rt.live == old(rt.live) + [s.value] && InRange(s.value) && BytesOf(s.value) == BytesOf(h)[start..end]
    ensures !ok || s.None? ==> rt.live == old(rt.live)
  {
    hide StringRuntime.Valid;
    ok, s := rt.Slice(h, start, end);
  }

  method PushKeeping(rt: StringRuntime, list: StrList, value: Str, ghost vars: seq<Str>, ghost items: seq<Str>, ghost v: Values)
    returns (ok: bool)
    requires rt.Valid() && list.HeldWith(value, rt.live) && list.Fits() && Shows(vars, v.vars) && Shows(items, v.items)
    modifies list, rt`refused
    ensures Shows(vars, v.vars) && Shows(items, v.items) && rt.Valid() && list.Fits()
    ensures rt.refused >= old(rt.refused)
    ensures !ok ==> |old(list.items)| >= MAX_ITEMS || value.len > rt.limit || rt.refused > old(rt.refused)
    ensures list.items == if ok then old(list.items) + [value] else old(list.items)
  {
    hide StringRuntime.Valid;
    ok := rt.Push(list, value);
  }

  method ReplaceKeeping(rt: StringRuntime, list: StrList, k: int, value: Str, ghost vars: seq<Str>, ghost items: seq<Str>, ghost v: Values)
    returns (replaced: Option<Str>)
    requires rt.Valid() && list.HeldWith(value, rt.live) && Shows(vars, v.vars) && Shows(items, v.items)
    modifies list, rt, if value.owner == null then {} else {value.owner}
    ensures Shows(vars, v.vars) && Shows(items, v.items) && rt.Valid() && rt.owners <= old(rt.owners) && rt.made == old(rt.made)
    ensures list.cap == old(list.cap) && rt.refused == old(rt.refused)
    ensures replaced.Some? <==> 0 <= k < |old(list.items)|
    ensures replaced.Some? ==> list.items == old(list.items)[k := value] && replaced.value == old(list.items)[k]
    ensures replaced.Some? ==> rt.live == old(rt.live)
    ensures replaced.None? ==> list.items == old(list.items) && value in old(rt.live) && rt.live == Without(old(rt.live), value)
  {
    hide StringRuntime.Valid, Without;
    replaced := rt.Replace(list, k, value);
  }

  method GetKeeping(rt: StringRuntime, list: StrList, k: int, ghost vars: seq<Str>, ghost v: Values)
    returns (ok: bool, s: Option<Str>)
    requires rt.Valid() && list.Held(rt.live) && Shows(vars, v.vars) && Shows(list.items, v.items)
    modifies rt, rt.owners
    ensures Shows(vars, v.vars) && Shows(list.items, v.items) && rt.Valid() && rt.owners == old(rt.owners) && rt.made == old(rt.made)
    ensures rt.refused == old(rt.refused)
    ensures !ok ==> 0 <= k < |list.items| && list.items[k].owner != null && list.items[k].owner.refCount == SIZE_MAX
    ensures ok ==> (s.Some? <==> 0 <= k < |list.items|)
    ensures ok && s.Some? ==> s.value == list.items[k] && rt.live == old(rt.live) + [s.value]
    ensures !ok || s.None? ==> rt.live == old(rt.live)
  {
    hide StringRuntime.Valid;
    rt.ItemsOwned(list);
    ok, s := rt.Get(list, k);
  }

  method PopKeeping(rt: StringRuntime, list: StrList, ghost vars: seq<Str>, ghost items: seq<Str>, ghost v: Values)
    returns (last: Option<Str>)
    requires rt.Valid() && list.Held(rt.live) && Shows(vars, v.vars) && Shows(items, v.items)
    modifies list`items
    ensures Shows(vars, v.vars) && Shows(items, v.items) && rt.Valid()
    ensures last.Some? <==> old(list.items) != []
    ensures last.Some? ==> old(list.items) == list.items + [last.value]
    ensures last.None? ==> list.items == old(list.items)
  {
    hide StringRuntime.Valid;
    last := rt.Pop(list);
  }

  method ListKeeping(rt: StringRuntime, list: StrList, ghost vars: seq<Str>, ghost v: Values)
    requires rt.Valid() && list.Held(rt.live) && Shows(vars, v.vars)
    modifies rt, rt.owners, list
    ensures Shows(vars, v.vars) && rt.Valid() && list.items == [] && list.Fits()
    ensures multiset(rt.live) == multiset(old(rt.live)) - multiset(old(list.items))
    ensures rt.owners <= old(rt.owners) && rt.made == old(rt.made) && rt.refused == old(rt.refused)
  {
    hide StringRuntime.Valid;
    rt.DropList(list);
  }

  lemma AllLive(rt: StringRuntime, list: StrList, vars: seq<Str>)
    requires rt.Valid() && Balanced(rt.live, vars, list.items)
    ensures forall h | h in vars || h in list.items :: h in rt.live
    ensures forall h | h in rt.live :: InRange(h)
  {
    forall h | h in vars || h in list.items
      ensures h in rt.live
    {
      assert h in multiset(vars) + multiset(list.items);
    }
  }

  /** A new live handle becomes a new variable. */
  lemma NewVar(rt: StringRuntime, list: StrList, live: seq<Str>, vars: seq<Str>, s: Str, text: seq<Byte>, v: Values)
    requires rt.Valid() && list.Fits() && Balanced(live, vars, list.items) && rt.live == live + [s]
    requires Shows(vars, v.vars) && Shows(list.items, v.items) && InRange(s) && BytesOf(s) == text
    ensures Represents(rt, list, vars + [s], v.(vars := v.vars + [text]))
  {
    hide StringRuntime.Valid, Balanced;
    ShowsSnoc(vars, v.vars, s, text);
    BalancedNew(live, vars, list.items, s);
  }

  lemma LiveFacts(rt: StringRuntime, list: StrList, vars: seq<Str>, v: Values, i: nat)
    requires Represents(rt, list, vars, v) && i < |vars|
    ensures vars[i] in rt.live && InRange(vars[i]) && BytesOf(vars[i]) == v.vars[i]
    ensures vars[i].owner != null ==> vars[i].owner in rt.owners
    ensures |vars| == |v.vars|
  {
    VarLive(rt, list, vars, i);
    assert vars[i] in vars;
    rt.OwnerKnown(vars[i]);
  }

  /** The owners now are owners from before, or new; the record of owners made only
      grows, by new ones. */
  twostate predicate Tracked(rt: StringRuntime)
    reads rt
  {
    && (forall o | o in rt.owners :: o in old(rt.owners) || fresh(o))
    && old(rt.made) <= rt.made && (forall o | o in rt.made :: o in old(rt.made) || fresh(o))
  }

  /** Why a program is stopped: memory was refused, the plain values have outgrown what
      a string or the list can hold, or some owner's count is full. */
  ghost predicate MustStop(rt: StringRuntime, refusedBefore: nat, v: Values)
    reads rt, rt.owners
  {
    || rt.refused > refusedBefore
    || (exists t :: (t in v.vars || t in v.items) && |t| > rt.limit)
    || |v.items| > MAX_ITEMS
    || (exists o :: o in rt.owners && o.refCount == SIZE_MAX)
  }

  lemma Outgrown(rt: StringRuntime, refusedBefore: nat, v: Values, text: seq<Byte>)
    requires (text in v.vars || text in v.items) && |text| > rt.limit
    ensures MustStop(rt, refusedBefore, v)
  {
  }

  lemma CountFull(rt: StringRuntime, refusedBefore: nat, v: Values, o: Owner)
    requires o in rt.owners && o.refCount == SIZE_MAX
    ensures MustStop(rt, refusedBefore, v)
  {
  }

  method StepFromBytes(rt: StringRuntime, list: StrList, vars: seq<Str>, bytes: seq<Byte>, ghost v: Values)
    returns (ok: bool, next: seq<Str>)
    requires Represents(rt, list, vars, v)
    modifies rt
    ensures ok ==> Represents(rt, list, next, StepValues(FromBytes(bytes), v))
    ensures rt.refused >= old(rt.refused) && (!ok ==> MustStop(rt, old(rt.refused), StepValues(FromBytes(bytes), v)))
    ensures Tracked(rt)
  {
    hide StringRuntime.Valid, Balanced;
    next := vars;
    ghost var live := rt.live;
    var s := MakeString(rt, bytes);
    ok := s.Some?;
    if ok {
      next := vars + [s.value];
      NewVar(rt, list, live, vars, s.value, bytes, v);
    } else if rt.refused == old(rt.refused) {
      Outgrown(rt, old(rt.refused), StepValues(FromBytes(bytes), v), bytes);
    }
  }

  method StepClone(rt: StringRuntime, list: StrList, vars: seq<Str>, i: nat, ghost v: Values)
    returns (ok: bool, next: seq<Str>)
    requires Represents(rt, list, vars, v)
    modifies rt, rt.owners
    ensures ok ==> Represents(rt, list, next, StepValues(CloneVar(i), v))
    ensures rt.refused >= old(rt.refused) && (!ok ==> MustStop(rt, old(rt.refused), StepValues(CloneVar(i), v)))
    ensures Tracked(rt)
  {
    hide StringRuntime.Valid, Balanced;
    ok, next := true, vars;
    if i < |vars| {
      ghost var live := rt.live;
      LiveFacts(rt, list, vars, v, i);
      var c;
      ok, c := rt.Clone(vars[i]);
      if ok {
        next := vars + [c];
        NewVar(rt, list, live, vars, c, v.vars[i], v);
      }
    }
  }

  method StepSlice(rt: StringRuntime, list: StrList, vars: seq<Str>, i: nat, start: int, end: int, ghost v: Values)
    returns (ok: bool, next: seq<Str>)
    requires Represents(rt, list, vars, v)
    modifies rt, rt.owners
    ensures ok ==> Represents(rt, list, next, StepValues(SliceVar(i, start, end), v))
    ensures rt.refused >= old(rt.refused) && (!ok ==> MustStop(rt, old(rt.refused), StepValues(SliceVar(i, start, end), v)))
    ensures Tracked(rt)
  {
    hide StringRuntime.Valid, Shows, Balanced;
    ok, next := true, vars;
    ShowsLength(vars, v.vars);
    if i < |vars| {
      ghost var live, items := rt.live, list.items;
      AllLive(rt, list, vars);
      LiveFacts(rt, list, vars, v, i);
      assert |v.vars[i]| == vars[i].len;
      var s;
      ok, s := SliceKeeping(rt, vars[i], start, end, vars, items, v);
      if ok && s.Some? {
        next := vars + [s.value];
        ItemFacts(vars, v.vars, i);
        NewVar(rt, list, live, vars, s.value, v.vars[i][start..end], v);
      }
    }
  }

  method StepConcat(rt: StringRuntime, list: StrList, vars: seq<Str>, i: nat, j: nat, ghost v: Values)
    returns (ok: bool, next: seq<Str>)
    requires Represents(rt, list, vars, v)
    modifies rt
    ensures ok ==> Represents(rt, list, next, StepValues(ConcatVars(i, j), v))
    ensures rt.refused >= old(rt.refused) && (!ok ==> MustStop(rt, old(rt.refused), StepValues(ConcatVars(i, j), v)))
    ensures Tracked(rt)
  {
    hide StringRuntime.Valid, Balanced;
    ok, next := true, vars;
    if i < |vars| && j < |vars| {
      ghost var live := rt.live;
      LiveFacts(rt, list, vars, v, i);
      LiveFacts(rt, list, vars, v, j);
      var s;
      ok, s := rt.Concat(vars[i], vars[j]);
      if ok {
        next := vars + [s];
        rt.HandleInRange(s);
        NewVar(rt, list, live, vars, s, v.vars[i] + v.vars[j], v);
      } else if rt.refused == old(rt.refused) {
        Outgrown(rt, old(rt.refused), StepValues(ConcatVars(i, j), v), v.vars[i] + v.vars[j]);
      }
    }
  }

  method StepJoin(rt: StringRuntime, list: StrList, vars: seq<Str>, ghost v: Values) returns (ok: bool, next: seq<Str>)
    requires Represents(rt, list, vars, v)
    modifies rt
    ensures ok ==> Represents(rt, list, next, StepValues(JoinItems, v))
    ensures rt.refused >= old(rt.refused) && (!ok ==> MustStop(rt, old(rt.refused), StepValues(JoinItems, v)))
    ensures Tracked(rt)
  {
    hide StringRuntime.Valid, Balanced;
    next := vars;
    ghost var live := rt.live;
    ShowsText(rt, list.items, v.items);
    HeldParts(rt, list, vars);
    var s := rt.Join(list);
    ok := s.Some?;
    if ok {
      next := vars + [s.value];
      rt.HandleInRange(s.value);
      NewVar(rt, list, live, vars, s.value, Flat(v.items), v);
    }
  }

  method StepDrop(rt: StringRuntime, list: StrList, vars: seq<Str>, i: nat, ghost v: Values) returns (next: seq<Str>)
    requires Represents(rt, list, vars, v)
    modifies rt, rt.owners
    ensures Represents(rt, list, next, StepValues(DropVar(i), v)) && rt.refused == old(rt.refused)
    ensures i < |vars| ==> |next| < |vars|
    ensures Tracked(rt)
  {
    hide StringRuntime.Valid, Without, Shows, Balanced;
    next := vars;
    ShowsLength(vars, v.vars);
    if i < |vars| {
      ghost var live, items := rt.live, list.items;
      AllLive(rt, list, vars);
      LiveFacts(rt, list, vars, v, i);
      VarLive(rt, list, vars, i);
      BalancedDrop(live, vars, items, i);
      DropKeeping(rt, vars[i], vars, items, v);
      ShowsMinus(vars, v.vars, i);
      next := Minus(vars, i);
    }
  }

  method StepPush(rt: StringRuntime, list: StrList, vars: seq<Str>, i: nat, ghost v: Values)
    returns (ok: bool, next: seq<Str>)
    requires Represents(rt, list, vars, v)
    modifies list, rt`refused
    ensures ok ==> Represents(rt, list, next, StepValues(PushVar(i), v))
    ensures rt.refused >= old(rt.refused) && (!ok ==> MustStop(rt, old(rt.refused), StepValues(PushVar(i), v)))
  {
    hide StringRuntime.Valid, Without, Shows, Balanced;
    ok, next := true, vars;
    ShowsLength(vars, v.vars);
    if i < |vars| {
      ghost var live, items := rt.live, list.items;
      AllLive(rt, list, vars);
      LiveFacts(rt, list, vars, v, i);
      VarLive(rt, list, vars, i);
      BalancedPush(live, vars, items, i);
      ok := PushKeeping(rt, list, vars[i], vars, items, v);
      if ok {
        ItemFacts(vars, v.vars, i);
        ShowsMinus(vars, v.vars, i);
        ShowsSnoc(items, v.items, vars[i], v.vars[i]);
      } else if rt.refused == old(rt.refused) && |items| < MAX_ITEMS {
        Outgrown(rt, old(rt.refused), StepValues(PushVar(i), v), v.vars[i]);
      } else {
        ShowsLength(items, v.items);
      }
      next := Minus(vars, i);
    }
  }

  method StepGet(rt: StringRuntime, list: StrList, vars: seq<Str>, k: int, ghost v: Values)
    returns (ok: bool, next: seq<Str>)
    requires Represents(rt, list, vars, v)
    modifies rt, rt.owners
    ensures ok ==> Represents(rt, list, next, StepValues(GetItem(k), v))
    ensures rt.refused >= old(rt.refused) && (!ok ==> MustStop(rt, old(rt.refused), StepValues(GetItem(k), v)))
    ensures Tracked(rt)
  {
    hide StringRuntime.Valid, Balanced, Shows;
    next := vars;
    ghost var live := rt.live;
    HeldParts(rt, list, vars);
    rt.ItemsOwned(list);
    var s;
    ok, s := GetKeeping(rt, list, k, vars, v);
    ShowsLength(list.items, v.items);
    if !ok {
      CountFull(rt, old(rt.refused), StepValues(GetItem(k), v), list.items[k].owner);
    }
    if ok && s.Some? {
      next := vars + [s.value];
      ItemFacts(list.items, v.items, k);
      NewVar(rt, list, live, vars, s.value, v.items[k], v);
    }
  }

  method StepReplace(rt: StringRuntime, list: StrList, vars: seq<Str>, k: int, i: nat, ghost v: Values)
    returns (next: seq<Str>)
    requires Represents(rt, list, vars, v)
    modifies rt, rt.owners, list
    ensures Represents(rt, list, next, StepValues(ReplaceItem(k, i), v)) && rt.refused == old(rt.refused)
    ensures Tracked(rt)
  {
    hide StringRuntime.Valid, Without, Shows, Balanced;
    next := vars;
    ShowsLength(vars, v.vars);
    if i < |vars| {
      ghost var live, items := rt.live, list.items;
      AllLive(rt, list, vars);
      LiveFacts(rt, list, vars, v, i);
      VarLive(rt, list, vars, i);
      BalancedDrop(live, vars, items, i);
      var replaced := ReplaceKeeping(rt, list, k, vars[i], vars, items, v);
      ShowsLength(items, v.items);
      ShowsMinus(vars, v.vars, i);
      next := Minus(vars, i);
      if replaced.Some? {
        ItemFacts(vars, v.vars, i);
        ItemFacts(items, v.items, k);
        ShowsUpdate(items, v.items, k, vars[i], v.vars[i]);
        ShowsSnoc(next, Minus(v.vars, i), items[k], v.items[k]);
        BalancedReplace(live, vars, items, i, k);
        next := next + [replaced.value];
      }
    }
  }

  method StepPop(rt: StringRuntime, list: StrList, vars: seq<Str>, ghost v: Values) returns (next: seq<Str>)
    requires Represents(rt, list, vars, v)
    modifies list
    ensures Represents(rt, list, next, StepValues(PopItem, v)) && rt.refused == old(rt.refused)
  {
    hide StringRuntime.Valid, Without, Shows, Balanced;
    next := vars;
    ghost var live, items := rt.live, list.items;
    AllLive(rt, list, vars);
    HeldParts(rt, list, vars);
    var last := PopKeeping(rt, list, vars, items, v);
    ShowsLength(items, v.items);
    if last.Some? {
      next := vars + [last.value];
      assert list.items == items[..|items| - 1];
      BalancedPop(live, vars, items);
      ItemFacts(items, v.items, |items| - 1);
      ShowsSnoc(vars, v.vars, last.value, v.items[|v.items| - 1]);
      ShowsPrefix(items, v.items);
    }
  }

  lemma HeldParts(rt: StringRuntime, list: StrList, vars: seq<Str>)
    requires Balanced(rt.live, vars, list.items)
    ensures list.Held(rt.live)
  {
  }

  lemma ShowsLength(handles: seq<Str>, texts: seq<seq<Byte>>)
    requires Shows(handles, texts)
    ensures |handles| == |texts|
  {
  }

  lemma ItemFacts(handles: seq<Str>, texts: seq<seq<Byte>>, k: nat)
    requires Shows(handles, texts) && k < |handles|
    ensures |handles| == |texts| && InRange(handles[k]) && BytesOf(handles[k]) == texts[k]
  {
    assert handles[k] in handles;
  }

  lemma ShowsPrefix(handles: seq<Str>, texts: seq<seq<Byte>>)
    requires Shows(handles, texts) && handles != []
    ensures Shows(handles[..|handles| - 1], texts[..|texts| - 1])
  {
    var most := handles[..|handles| - 1];
    forall h | h in most
      ensures InRange(h)
    {
      assert h in handles;
    }
    forall k | 0 <= k < |most|
      ensures BytesOf(most[k]) == texts[k]
    {
      assert most[k] == handles[k] && handles[k] in handles;
    }
  }

  method StepDropItems(rt: StringRuntime, list: StrList, vars: seq<Str>, ghost v: Values)
    requires Represents(rt, list, vars, v)
    modifies rt, rt.owners, list
    ensures Represents(rt, list, vars, StepValues(DropItems, v)) && list.items == [] && rt.refused == old(rt.refused)
    ensures Tracked(rt)
  {
    hide StringRuntime.Valid, Shows, Balanced;
    ghost var live, items := rt.live, list.items;
    HeldParts(rt, list, vars);
    ListKeeping(rt, list, vars, v);
    BalancedWithout(rt.live, live, vars, items);
    NothingShown();
  }

  lemma BalancedWithout(rest: seq<Str>, live: seq<Str>, vars: seq<Str>, items: seq<Str>)
    requires Balanced(live, vars, items) && multiset(rest) == multiset(live) - multiset(items)
    ensures Balanced(rest, vars, [])
  {
  }

  lemma NothingShown()
    ensures Shows([], [])
  {
  }

  // ----- whole programs -----

  method Step(op: Op, rt: StringRuntime, list: StrList, vars: seq<Str>, ghost v: Values)
    returns (ok: bool, next: seq<Str>)
    requires Represents(rt, list, vars, v)
    modifies rt, rt.owners, list
    ensures ok ==> Represents(rt, list, next, StepValues(op, v))
    ensures rt.refused >= old(rt.refused) && (!ok ==> MustStop(rt, old(rt.refused), StepValues(op, v)))
    ensures Tracked(rt)
  {
    hide Represents, StepValues;
    ok := true;
    match op
    case FromBytes(bytes) => ok, next := StepFromBytes(rt, list, vars, bytes, v);
    case CloneVar(i) => ok, next := StepClone(rt, list, vars, i, v);
    case SliceVar(i, start, end) => ok, next := StepSlice(rt, list, vars, i, start, end, v);
    case ConcatVars(i, j) => ok, next := StepConcat(rt, list, vars, i, j, v);
    case JoinItems => ok, next := StepJoin(rt, list, vars, v);
    case DropVar(i) => next := StepDrop(rt, list, vars, i, v);
    case PushVar(i) => ok, next := StepPush(rt, list, vars, i, v);
    case GetItem(k) => ok, next := StepGet(rt, list, vars, k, v);
    case ReplaceItem(k, i) => next := StepReplace(rt, list, vars, k, i, v);
    case PopItem => next := StepPop(rt, list, vars, v);
    case DropItems =>
      StepDropItems(rt, list, vars, v);
      next := vars;
  }

  /** Runs a program from nothing. As long as it is not stopped, its variables and
      its list show exactly what the program computes with plain values, every count
      is the number of handles that share the owner, and every owner the program made
      is either shared by some of them or was freed, once. */
  method RunProgram(script: seq<Op>, limit: nat) returns (ok: bool, rt: StringRuntime, list: StrList, vars: seq<Str>)
    ensures ok ==> Represents(rt, list, vars, RunValues(script, Values([], [])))
    ensures ok ==> forall o | o in rt.made ::
              o in rt.freed <==> forall h | h in vars || h in list.items :: h.owner != o
    ensures !ok ==> exists n :: StoppedAt(rt, script, n)
    ensures fresh(rt) && fresh(list) && forall o | o in rt.made :: fresh(o)
    ensures ok ==> fresh(rt.owners)
  {
    hide Represents, StepValues;
    rt := new StringRuntime(limit);
    list := new StrList();
    vars := [];
    ok := true;
    NothingYet(rt, list);
    assert script[..0] == [];
    for n := 0 to |script|
      invariant Represents(rt, list, vars, RunValues(script[..n], Values([], [])))
      invariant forall o | o in rt.owners || o in rt.made :: fresh(o)
    {
      assert script[..n + 1][..n] == script[..n];
      ok, vars := Step(script[n], rt, list, vars, RunValues(script[..n], Values([], [])));
      if !ok {
        assert StoppedAt(rt, script, n);
        return;
      }
    }
    assert script[..|script|] == script;
    FreedUnshared(rt, list, vars, RunValues(script, Values([], [])));
  }

  /** There was a reason to stop the program at step n. */
  ghost predicate StoppedAt(rt: StringRuntime, script: seq<Op>, n: nat)
    reads rt, rt.owners
  {
    n < |script| && MustStop(rt, 0, RunValues(script[..n + 1], Values([], [])))
  }

  lemma NothingYet(rt: StringRuntime, list: StrList)
    requires rt.Valid() && rt.live == [] && list.items == [] && list.Fits()
    ensures Represents(rt, list, [], Values([], []))
  {
  }

  /** An owner has been freed exactly when it was made and no variable and no item
      shares it. */
  lemma FreedUnshared(rt: StringRuntime, list: StrList, vars: seq<Str>, v: Values)
    requires Represents(rt, list, vars, v)
    ensures forall o | o in rt.made :: o in rt.freed <==> forall h | h in vars || h in list.items :: h.owner != o
  {
    hide StringRuntime.Valid, Shows;
    rt.FreedUnshared();
    forall h
      ensures h in rt.live <==> h in vars || h in list.items
    {
      assert h in rt.live <==> h in multiset(rt.live);
    }
  }

  /** A program that has given everything up has freed every owner it made, and each
      of them once. */
  lemma NothingLeaks(rt: StringRuntime, list: StrList, v: Values)
    requires Represents(rt, list, [], v) && list.items == []
    ensures multiset(rt.freed) == multiset(rt.made) && rt.owners == {} && rt.live == []
  {
    assert |multiset(rt.live)| == |rt.live|;
    FreedUnshared(rt, list, [], v);
    assert forall o | o in rt.made :: o in rt.freed;
    CountsOnce(rt.freed);
  }

  lemma {:induction false} CountsOnce(os: seq<Owner>)
    requires NoDuplicates(os)
    ensures multiset(os) == multiset(set o | o in os)
  {
    if os != [] {
      var most, last := os[..|os| - 1], os[|os| - 1];
      CountsOnce(most);
      assert os == most + [last];
      assert last !in most;
      assert (set o | o in os) == (set o | o in most) + {last};
    }
  }

  /** Runs a program and then gives up everything it still holds: each owner ever
      made has been freed, once. */
  method RunAndRelease(script: seq<Op>, limit: nat) returns (ok: bool, rt: StringRuntime)
    ensures ok ==> multiset(rt.freed) == multiset(rt.made) && rt.owners == {} && rt.live == []
    ensures !ok ==> exists n :: StoppedAt(rt, script, n)
    ensures fresh(rt) && forall o | o in rt.made :: fresh(o)
  {
    hide Represents, StepValues;
    var list, vars;
    ok, rt, list, vars := RunProgram(script, limit);
    if !ok {
      return;
    }
    ghost var v := RunValues(script, Values([], []));
    StepDropItems(rt, list, vars, v);
    v := StepValues(DropItems, v);
    while vars != []
      invariant Represents(rt, list, vars, v) && list.items == []
      invariant forall o | o in rt.owners || o in rt.made :: fresh(o)
      decreases |vars|
    {
      vars := StepDrop(rt, list, vars, 0, v);
      v := StepValues(DropVar(0), v);
    }
    NothingLeaks(rt, list, v);
  }
}
