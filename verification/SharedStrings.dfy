/** Strings that share storage: an owner holds the bytes and counts the handles on
    it, a handle is a window into its owner. */
module SharedStrings {
  import opened ProcessTrace

  const SIZE_MAX: nat := 0xFFFF_FFFF_FFFF_FFFF

  /** A handle is three machine words. */
  const HANDLE_SIZE: nat := 24

  /** The most items a list can have. */
  const MAX_ITEMS: nat := 0x7FFF_FFFF

  /** The record behind a shared string: how many handles share the storage. */
  class Owner {
    var refCount: nat
    const storage: array<Byte>

    constructor (storage: array<Byte>)
      ensures refCount == 1 && this.storage == storage
    {
      refCount := 1;
      this.storage := storage;
    }
  }

  /** A handle: a stretch of bytes, and the owner that keeps them, if any. */
  datatype Str = Str(data: array<Byte>, start: nat, len: nat, owner: Owner?)

  ghost predicate InRange(h: Str) {
    h.start + h.len <= h.data.Length
  }

  ghost function BytesOf(h: Str): seq<Byte>
    requires InRange(h)
    reads h.data
  {
    h.data[h.start..h.start + h.len]
  }

  /** How many of these handles share an owner. */
  ghost function Shares(live: seq<Str>, o: Owner): nat {
    if live == [] then 0 else Shares(live[..|live| - 1], o) + if live[|live| - 1].owner == o then 1 else 0
  }

  /** The handles without one occurrence of h. */
  ghost function Without(live: seq<Str>, h: Str): seq<Str>
    requires h in live
  {
    if live[|live| - 1] == h then live[..|live| - 1]
    else Without(live[..|live| - 1], h) + [live[|live| - 1]]
  }

  lemma SharesSnoc(live: seq<Str>, h: Str, o: Owner)
    ensures Shares(live + [h], o) == Shares(live, o) + if h.owner == o then 1 else 0
  {
    assert (live + [h])[..|live|] == live;
  }

  lemma {:induction false} SharesWithout(live: seq<Str>, h: Str, o: Owner)
    requires h in live
    ensures Shares(live, o) == Shares(Without(live, h), o) + if h.owner == o then 1 else 0
  {
    var most, last := live[..|live| - 1], live[|live| - 1];
    if last != h {
      SharesWithout(most, h, o);
      SharesSnoc(Without(most, h), last, o);
    }
  }

  lemma {:induction false} WithoutMultiset(live: seq<Str>, h: Str)
    requires h in live
    ensures multiset(Without(live, h)) == multiset(live) - multiset{h}
    ensures forall k | k in Without(live, h) :: k in live
  {
    var most, last := live[..|live| - 1], live[|live| - 1];
    assert live == most + [last];
    if last != h {
      WithoutMultiset(most, h);
    }
  }

  /** Zero exactly when nobody shares it. */
  lemma {:induction false} NoShares(live: seq<Str>, o: Owner)
    ensures Shares(live, o) == 0 <==> forall h | h in live :: h.owner != o
  {
    if live != [] {
      NoShares(live[..|live| - 1], o);
      assert live == live[..|live| - 1] + [live[|live| - 1]];
    }
  }

  predicate NoDuplicates(os: seq<Owner>) {
    forall i, j | 0 <= i < j < |os| :: os[i] != os[j]
  }

  // ----- growing capacities -----

  /** Room for at least what is needed: the old capacity if that is enough, else
      doubled until it is, never past the limit and with no step past it either. */
  method Growth(cap: nat, needed: nat, limit: nat, initial: nat) returns (next: nat)
    requires cap <= limit && needed <= limit && initial > 0
    ensures needed <= next <= limit
    ensures needed <= cap ==> next == cap
    ensures needed > cap ==> next >= (if 2 * cap <= limit then 2 * cap else limit)
    ensures needed > cap > 0 ==> next < 2 * needed || next == limit
  {
    if needed <= cap {
      return cap;
    }
    next := if cap == 0 then (if initial < limit then initial else limit) else cap;
    while next < needed
      invariant 0 < next <= limit
      invariant next == cap || next >= (if 2 * cap <= limit then 2 * cap else limit)
      invariant cap > 0 ==> next < 2 * needed || next == limit
      decreases limit - next
    {
      next := if next > limit - next then limit else next * 2;
    }
  }

  datatype Capacity = Room(next: nat) | TooLarge

  /** The capacity for some more items of a size. */
  method ListCapacity(cap: nat, len: nat, extra: nat, itemSize: nat, sequenceLimit: nat, allocationLimit: nat)
    returns (c: Capacity)
    ensures c.Room? <==> itemSize > 0 && len <= cap && cap <= sequenceLimit && cap <= allocationLimit / itemSize &&
                         len + extra <= sequenceLimit && len + extra <= allocationLimit / itemSize
    ensures c.Room? ==> len + extra <= c.next && c.next * itemSize <= allocationLimit && c.next <= sequenceLimit
    ensures c.Room? && len + extra <= cap ==> c.next == cap
  {
    if itemSize == 0 {
      return TooLarge;
    }
    var limit := sequenceLimit;
    if limit > allocationLimit / itemSize {
      limit := allocationLimit / itemSize;
    }
    if cap < len || cap > limit || len + extra > limit {
      return TooLarge;
    }
    var next := Growth(cap, len + extra, limit, 4);
    FitsProduct(next, itemSize, allocationLimit);
    c := Room(next);
  }

  lemma FitsProduct(n: nat, size: nat, limit: nat)
    requires size > 0 && n <= limit / size
    ensures n * size <= limit
  {
    assert (limit / size) * size <= limit;
    Monotone(n, limit / size, size);
  }

  lemma Monotone(a: nat, b: nat, c: nat)
    requires a <= b
    ensures a * c <= b * c
  {
  }

  // ----- strings -----

  /** The runtime carries, for the proof only, the list of all live handles and the
      owners made; storage is given back when the last handle on it goes and at no
      other time. */
  class StringRuntime {
    /** Longest string, and whether the next allocation succeeds is up to the
        system. */
    const limit: nat

    /** How many allocations have been refused. */
    var refused: nat
    ghost var live: seq<Str>
    ghost var made: set<Owner>
    ghost var owners: set<Owner>
    ghost var freed: seq<Owner>

    constructor (limit: nat)
      ensures Valid() && live == [] && made == {} && owners == {} && freed == [] && this.limit == limit && refused == 0
    {
      this.limit, live, made, owners, freed, refused := limit, [], {}, {}, [], 0;
    }

    /** Every live handle's owner is allocated; every allocated owner counts exactly
        the live handles that share it; every owner ever made is either still
        allocated or has been freed, and that once. */
    ghost predicate Valid()
      reads `live, `made, `owners, `freed, owners
    {
      && (forall h | h in live :: InRange(h) && (h.owner != null ==> h.owner in owners && h.data == h.owner.storage))
      && (forall o | o in owners :: o.refCount == Shares(live, o) && o.refCount > 0)
      && NoDuplicates(freed) && (forall o | o in freed :: o !in owners)
      && owners <= made && (forall o | o in freed :: o in made) && (forall o | o in made :: o in owners || o in freed)
    }

    /** The bytes seen through these handles are what they were. */
    twostate predicate BytesKept(handles: seq<Str>)
      requires forall h | h in handles :: InRange(h)
      reads set h | h in handles :: h.data
    {
      forall h | h in handles :: BytesOf(h) == old(BytesOf(h))
    }

    lemma OwnerKnown(h: Str)
      requires Valid() && h in live
      ensures h.owner != null ==> h.owner in owners
    {
    }

    lemma HandleInRange(h: Str)
      requires Valid() && h in live
      ensures InRange(h)
    {
    }

    lemma ItemsOwned(list: StrList)
      requires Valid() && list.Held(live)
      ensures forall h | h in list.items :: h in live && (h.owner != null ==> h.owner in owners)
    {
      list.HeldInLive(live);
    }

    method MayAllocate() returns (ok: bool)
      modifies `refused
      ensures refused == old(refused) + if ok then 0 else 1
    {
      ok := *;
      refused := refused + if ok then 0 else 1;
    }

    /** Makes a shared string of a fresh buffer. If the owner cannot be had the
        buffer is given up and there is no string. */
    method Take(storage: array<Byte>, len: nat) returns (ok: bool, s: Str)
      requires Valid() && len <= storage.Length
      modifies this
      ensures Valid() && refused >= old(refused)
      ensures ok <==> len <= limit && refused == old(refused)
      ensures !ok ==> live == old(live) && owners == old(owners) && freed == old(freed) && made == old(made)
      ensures ok ==> live == old(live) + [s] && freed == old(freed) && s.owner != null && fresh(s.owner)
      ensures ok ==> owners == old(owners) + {s.owner} && made == old(made) + {s.owner} && s.data == storage && s.start == 0 && s.len == len
      ensures ok ==> len <= limit
    {
      s := Str(storage, 0, len, null);
      ok := len <= limit;
      if !ok {
        return;
      }
      ok := MayAllocate();
      if !ok {
        return;
      }
      var owner := new Owner(storage);
      s := Str(storage, 0, len, owner);
      NoShares(live, owner);
      forall o: Owner
        ensures Shares(live + [s], o) == Shares(live, o) + if s.owner == o then 1 else 0
      {
        SharesSnoc(live, s, o);
      }
      live := live + [s];
      owners, made := owners + {owner}, made + {owner};
      ghost var f := freed;
      assert forall o | o in f :: o != owner;
    }

    /** Another handle on the same bytes. The program stops if the count is full. */
    method Clone(h: Str) returns (ok: bool, c: Str)
      requires Valid() && h in live
      modifies `live, if h.owner == null then {} else {h.owner}
      ensures Valid() && owners == old(owners) && freed == old(freed) && made == old(made)
      ensures c == h
      ensures ok ==> live == old(live) + [c]
      ensures !ok ==> live == old(live) && h.owner != null && h.owner.refCount == old(h.owner.refCount) == SIZE_MAX
    {
      ok, c := Share(h, h);
    }

    /** A handle on part of the bytes of another. */
    method Share(h: Str, part: Str) returns (ok: bool, c: Str)
      requires Valid() && h in live && part.owner == h.owner && part.data == h.data && InRange(part)
      modifies `live, if h.owner == null then {} else {h.owner}
      ensures Valid() && owners == old(owners) && freed == old(freed) && made == old(made)
      ensures c == part
      ensures ok ==> live == old(live) + [c]
      ensures !ok ==> live == old(live) && h.owner != null && h.owner.refCount == old(h.owner.refCount) == SIZE_MAX
    {
      c := part;
      forall o: Owner | o in owners
        ensures Shares(live + [part], o) == Shares(live, o) + if h.owner == o then 1 else 0
      {
        SharesSnoc(live, part, o);
      }
      if part.owner != null {
        if part.owner.refCount == SIZE_MAX {
          return false, c;
        }
        part.owner.refCount := part.owner.refCount + 1;
      }
      live := live + [part];
      ok := true;
    }

    /** Gives a handle up. Its storage is freed exactly when no other handle shares
        the owner, and then once. */
    method Drop(h: Str)
      requires Valid() && h in live
      modifies this, if h.owner == null then {} else {h.owner}
      ensures Valid() && live == Without(old(live), h)
      ensures (exists k :: k in live && k.owner == h.owner) || h.owner == null ==>
                freed == old(freed) && owners == old(owners)
      ensures h.owner != null && (forall k | k in live :: k.owner != h.owner) ==>
                freed == old(freed) + [h.owner] && owners == old(owners) - {h.owner}
      ensures made == old(made) && owners <= old(owners) && refused == old(refused)
    {
      ghost var before := live;
      WithoutMultiset(live, h);
      forall o: Owner | o in owners
        ensures Shares(live, o) == Shares(Without(live, h), o) + if h.owner == o then 1 else 0
      {
        SharesWithout(live, h, o);
      }
      live := Without(live, h);
      if h.owner != null {
        NoShares(live, h.owner);
        h.owner.refCount := h.owner.refCount - 1;
        if h.owner.refCount == 0 {
          Free(h.owner);
        }
      }
    }

    /** Gives an owner and its storage back to the system. */
    method Free(o: Owner)
      requires o in owners && o !in freed
      modifies `owners, `freed
      ensures owners == old(owners) - {o} && freed == old(freed) + [o]
    {
      owners, freed := owners - {o}, freed + [o];
    }

    /** The bytes from start to end, sharing storage; none if out of range. */
    method Slice(h: Str, start: int, end: int) returns (ok: bool, s: Option<Str>)
      requires Valid() && h in live
      modifies `live, if h.owner == null then {} else {h.owner}
      ensures Valid() && owners == old(owners) && freed == old(freed) && made == old(made)
      ensures !ok || s.None? ==> live == old(live)
      ensures !ok ==> h.owner != null && h.owner.refCount == SIZE_MAX
      ensures ok ==> (s.Some? <==> 0 <= start <= end <= h.len)
      ensures ok && s.Some? ==> live == old(live) + [s.value] && s.value.owner == h.owner
      ensures ok && s.Some? ==> InRange(s.value) && BytesOf(s.value) == BytesOf(h)[start..end]
    {
      if start < 0 || end < start || end > h.len {
        return true, None;
      }
      var part := Str(h.data, h.start + start, end - start, h.owner);
      PartOf(h.data, h.start, h.len, start, end);
      var c;
      ok, c := Share(h, part);
      s := if ok then Some(c) else None;
    }

    lemma PartOf(data: array<Byte>, from: nat, len: nat, start: nat, end: nat)
      requires from + len <= data.Length && start <= end <= len
      ensures data[from + start..from + end] == data[from..from + len][start..end]
    {
      var whole, part := data[from..from + len], data[from + start..from + end];
      forall k | 0 <= k < |part|
        ensures part[k] == whole[start..end][k]
      {
        assert whole[start..end][k] == whole[start + k];
      }
      assert part == whole[start..end];
    }

    /** Copies a handle's bytes into a buffer. */
    method CopyInto(buffer: array<Byte>, at: nat, h: Str)
      requires InRange(h) && at + h.len <= buffer.Length && buffer != h.data
      modifies buffer
      ensures buffer[..at + h.len] == old(buffer[..at]) + BytesOf(h) && |BytesOf(h)| == h.len
    {
      for i := 0 to h.len
        invariant buffer[..at] == old(buffer[..at])
        invariant buffer[at..at + i] == h.data[h.start..h.start + i]
      {
        buffer[at + i] := h.data[h.start + i];
      }
      assert buffer[..at + h.len] == buffer[..at] + buffer[at..at + h.len];
    }

    /** The two texts one after the other, in new storage; the program stops when it
        does not fit or there is no memory. */
    method Concat(left: Str, right: Str) returns (ok: bool, s: Str)
      requires Valid() && left in live && right in live
      modifies this
      ensures Valid() && BytesKept(old(live))
      ensures refused >= old(refused) && (ok <==> left.len + right.len <= limit && refused == old(refused))
      ensures !ok ==> live == old(live) && owners == old(owners) && freed == old(freed) && made == old(made)
      ensures ok ==> live == old(live) + [s] && freed == old(freed) && s.owner != null && fresh(s.owner)
      ensures ok ==> owners == old(owners) + {s.owner} && made == old(made) + {s.owner}
      ensures ok ==> BytesOf(s) == old(BytesOf(left)) + old(BytesOf(right))
    {
      s := left;
      if left.len + right.len > limit {
        return false, s;
      }
      ok := MayAllocate();
      if !ok {
        return;
      }
      var buffer := new Byte[left.len + right.len + 1](_ => 0);
      CopyInto(buffer, 0, left);
      CopyInto(buffer, left.len, right);
      ghost var text := BytesOf(left) + BytesOf(right);
      assert buffer[..left.len + right.len] == text;
      ok, s := Take(buffer, left.len + right.len);
    }

    // ----- joining a list -----

    ghost function TextOf(items: seq<Str>): seq<Byte>
      requires forall h | h in items :: InRange(h)
      reads set h | h in items :: h.data
    {
      if items == [] then [] else TextOf(items[..|items| - 1]) + BytesOf(items[|items| - 1])
    }

    lemma TextSnoc(items: seq<Str>, n: nat)
      requires n < |items| && forall h | h in items :: InRange(h)
      ensures TextOf(items[..n + 1]) == TextOf(items[..n]) + BytesOf(items[n])
    {
      assert items[..n + 1][..n] == items[..n];
    }

    /** All the texts of a list one after the other, in new storage; no result means
        the program stops. */
    method Join(list: StrList) returns (s: Option<Str>)
      requires Valid() && list.Held(live)
      modifies this
      ensures Valid() && BytesKept(old(live))
      ensures forall h | h in list.items :: InRange(h)
      ensures refused >= old(refused) && (s.Some? <==> |old(TextOf(list.items))| <= limit && refused == old(refused))
      ensures s.None? ==> live == old(live) && owners == old(owners) && freed == old(freed) && made == old(made)
      ensures s.Some? ==> live == old(live) + [s.value] && freed == old(freed) && s.value.owner != null && fresh(s.value.owner)
      ensures s.Some? ==> owners == old(owners) + {s.value.owner} && made == old(made) + {s.value.owner}
      ensures s.Some? ==> BytesOf(s.value) == old(TextOf(list.items))
    {
      hide Shares, NoDuplicates, TextOf;
      list.HeldInLive(live);
      var len := TotalLength(list.items);
      if len.None? {
        return None;
      }
      var ok := MayAllocate();
      if !ok {
        return None;
      }
      var buffer := new Byte[len.value + 1](_ => 0);
      FillFrom(list.items, buffer);
      var made;
      ok, made := Take(buffer, len.value);
      s := if ok then Some(made) else None;
    }

    method TotalLength(items: seq<Str>) returns (len: Option<nat>)
      requires forall h | h in items :: InRange(h)
      ensures len.Some? <==> |TextOf(items)| <= limit
      ensures len.Some? ==> len.value == |TextOf(items)|
    {
      var total: nat := 0;
      assert items[..0] == [];
      for i := 0 to |items|
        invariant total == |TextOf(items[..i])| && total <= limit
      {
        assert items[i] in items;
        TextSnoc(items, i);
        TextPrefix(items, i + 1);
        if total + items[i].len > limit {
          return None;
        }
        total := total + items[i].len;
      }
      assert items[..|items|] == items;
      len := Some(total);
    }

    method FillFrom(items: seq<Str>, buffer: array<Byte>)
      requires forall h | h in items :: InRange(h) && h.data != buffer
      requires buffer.Length == |TextOf(items)| + 1
      modifies buffer
      ensures buffer[..buffer.Length - 1] == TextOf(items)
    {
      var offset: nat := 0;
      assert TextOf(items[..0]) == [];
      ghost var text := TextOf(items);
      hide TextOf, BytesOf;
      for i := 0 to |items|
        invariant offset == |TextOf(items[..i])| && offset < buffer.Length
        invariant TextOf(items) == text
        invariant buffer[..offset] == TextOf(items[..i])
      {
        TextSnoc(items, i);
        TextPrefix(items, i + 1);
        CopyInto(buffer, offset, items[i]);
        offset := offset + items[i].len;
      }
      assert items[..|items|] == items;
    }

    lemma {:induction false} TextPrefix(items: seq<Str>, n: nat)
      requires n <= |items| && forall h | h in items :: InRange(h)
      ensures |TextOf(items[..n])| <= |TextOf(items)|
      decreases |items| - n
    {
      if n < |items| {
        TextSnoc(items, n);
        TextPrefix(items, n + 1);
      } else {
        assert items[..n] == items;
      }
    }

    // ----- lists -----

    /** Moves a handle to the end of a list, growing it when full. The program stops
        when it cannot grow. */
    method Push(list: StrList, value: Str) returns (ok: bool)
      requires Valid() && list.HeldWith(value, live) && list.Fits()
      modifies list, `refused
      ensures list.items == if ok then old(list.items) + [value] else old(list.items)
      ensures list.Held(live) && list.Fits() && refused >= old(refused)
      ensures ok <==> |old(list.items)| < MAX_ITEMS && value.len <= limit && refused == old(refused)
      ensures list.cap >= old(list.cap)
    {
      var capacity := ListCapacity(list.cap, |list.items|, 1, HANDLE_SIZE, MAX_ITEMS, SIZE_MAX / 2);
      if capacity.TooLarge? || value.len > limit {
        return false;
      }
      if capacity.next != list.cap {
        ok := MayAllocate();
        if !ok {
          return;
        }
        list.cap := capacity.next;
      }
      list.Store(value);
      ok := true;
    }

    /** A further handle on an item; none if out of range. */
    method Get(list: StrList, index: int) returns (ok: bool, s: Option<Str>)
      requires Valid() && list.Held(live)
      modifies `live, set h | h in list.items && h.owner != null :: h.owner
      ensures Valid() && owners == old(owners) && freed == old(freed) && made == old(made)
      ensures ok ==> (s.Some? <==> 0 <= index < |list.items|)
      ensures ok && s.Some? ==> s.value == list.items[index] && live == old(live) + [s.value]
      ensures !ok || s.None? ==> live == old(live)
      ensures !ok ==> 0 <= index < |list.items| && list.items[index].owner != null && list.items[index].owner.refCount == SIZE_MAX
      ensures list.Held(live)
    {
      if index < 0 || index >= |list.items| {
        return true, None;
      }
      list.HeldInLive(live);
      var h := list.items[index];
      assert h in list.items;
      var c;
      ok, c := Clone(h);
      s := if ok then Some(c) else None;
    }

    /** Puts a handle in place of an item, which is handed back; a handle that has
        no place to go is given up. */
    method Replace(list: StrList, index: int, value: Str) returns (old': Option<Str>)
      requires Valid() && list.HeldWith(value, live)
      modifies list, this, if value.owner == null then {} else {value.owner}
      ensures Valid() && list.Held(live)
      ensures old'.Some? <==> 0 <= index < |old(list.items)|
      ensures old'.Some? ==> list.items == old(list.items)[index := value] && old'.value == old(list.items)[index]
      ensures old'.Some? ==> live == old(live) && freed == old(freed) && owners == old(owners) && made == old(made)
      ensures old'.None? ==> list.items == old(list.items) && value in old(live) && live == Without(old(live), value)
      ensures made == old(made) && owners <= old(owners) && list.cap == old(list.cap) && refused == old(refused)
    {
      hide Valid, Shares, Without;
      RoomToDrop(list.items, value, live);
      if index < 0 || index >= |list.items| {
        Drop(value);
        return None;
      }
      old' := Some(list.items[index]);
      RoomToSwap(list.items, index, value, live);
      list.items := list.items[index := value];
    }

    /** Takes the last item out of the list. */
    method Pop(list: StrList) returns (last: Option<Str>)
      requires Valid() && list.Held(live)
      modifies list`items
      ensures last.Some? <==> old(list.items) != []
      ensures last.Some? ==> old(list.items) == list.items + [last.value] && list.HeldWith(last.value, live)
      ensures last.None? ==> list.items == old(list.items)
      ensures list.Held(live)
    {
      if |list.items| == 0 {
        return None;
      }
      last := Some(list.items[|list.items| - 1]);
      ghost var most := list.items[..|list.items| - 1];
      assert list.items == most + [last.value];
      list.items := list.items[..|list.items| - 1];
    }

    /** Gives up every item and the list's own storage. */
    method DropList(list: StrList)
      requires Valid() && list.Held(live)
      modifies this, owners, list
      ensures Valid() && list.items == [] && list.cap == 0
      ensures multiset(live) == multiset(old(live)) - multiset(old(list.items))
      ensures made == old(made) && owners <= old(owners) && old(freed) <= freed && refused == old(refused)
      ensures forall o | o in old(owners) :: o in freed <==> forall h | h in live :: h.owner != o
    {
      hide Valid, Shares, Without;
      OwnersMade();
      var items := list.items;
      ghost var rest := multiset(live) - multiset(items);
      assert items[0..] == items;
      for index := 0 to |items|
        invariant Valid() && made == old(made) && owners <= old(owners) && old(freed) <= freed && refused == old(refused)
        invariant multiset(live) == multiset(items[index..]) + rest
        invariant list.items == items
      {
        Peel(items, index, live, rest);
        OwnerKnown(items[index]);
        Drop(items[index]);
      }
      assert items[|items|..] == [];
      list.items, list.cap := [], 0;
      FreedUnshared();
    }

    /** An owner has been freed exactly when it was made and nobody shares it. */
    lemma FreedUnshared()
      requires Valid()
      ensures forall o | o in made :: o in freed <==> forall h | h in live :: h.owner != o
    {
      forall o | o in made
        ensures o in freed <==> forall h | h in live :: h.owner != o
      {
        NoShares(live, o);
      }
    }

    lemma OwnersMade()
      requires Valid()
      ensures owners <= made
    {
    }
  }

  lemma Peel(items: seq<Str>, index: nat, live: seq<Str>, rest: multiset<Str>)
    requires index < |items| && multiset(live) == multiset(items[index..]) + rest
    ensures items[index] in live
    ensures multiset(Without(live, items[index])) == multiset(items[index + 1..]) + rest
  {
    assert items[index..] == [items[index]] + items[index + 1..];
    assert items[index] in multiset(live);
    WithoutMultiset(live, items[index]);
  }

  lemma RoomToDrop(items: seq<Str>, value: Str, live: seq<Str>)
    requires multiset(items) + multiset{value} <= multiset(live)
    ensures value in live && multiset(items) <= multiset(Without(live, value))
  {
    assert value in multiset(live);
    WithoutMultiset(live, value);
  }

  lemma RoomToSwap(items: seq<Str>, i: nat, value: Str, live: seq<Str>)
    requires i < |items| && multiset(items) + multiset{value} <= multiset(live)
    ensures multiset(items[i := value]) <= multiset(live)
  {
    ReplacedMultiset(items, i, value);
  }

  lemma ReplacedMultiset(items: seq<Str>, i: nat, value: Str)
    requires i < |items|
    ensures multiset(items[i := value]) + multiset{items[i]} == multiset(items) + multiset{value}
  {
    assert items == items[..i] + [items[i]] + items[i + 1..];
    assert items[i := value] == items[..i] + [value] + items[i + 1..];
  }

  /** A list of handles and the number of places it has storage for. */
  class StrList {
    var items: seq<Str>
    var cap: nat

    constructor ()
      ensures items == [] && cap == 0
    {
      items, cap := [], 0;
    }

    /** Every item has a place in the storage, which is no larger than it may be. */
    ghost predicate Fits()
      reads this
    {
      |items| <= cap <= MAX_ITEMS
    }

    /** Writes the next place, which must be there. */
    method Store(value: Str)
      requires |items| < cap
      modifies `items
      ensures items == old(items) + [value]
    {
      items := items + [value];
    }

    /** The list's items are live handles, each counted as often as it occurs. */
    ghost predicate Held(live: seq<Str>)
      reads this
    {
      multiset(items) <= multiset(live)
    }

    /** The same with one more handle that is not in the list. */
    ghost predicate HeldWith(value: Str, live: seq<Str>)
      reads this
    {
      multiset(items) + multiset{value} <= multiset(live)
    }

    lemma HeldInLive(live: seq<Str>)
      requires Held(live)
      ensures forall h | h in items :: h in live
    {
      forall h | h in items
        ensures h in live
      {
        assert h in multiset(items);
        assert h in multiset(live);
      }
    }
  }
}
