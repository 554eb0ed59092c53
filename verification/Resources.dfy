/** Blocks and descriptors as lists of what a piece of code holds: what the heap
    and the descriptor table contain beyond what they did before. Code that takes
    several things and may fail after each keeps such a list; the list names every
    block or descriptor once, with a marker for one that is not there, and the heap
    is what it was plus the list. Freeing or closing along the list brings back what
    was there before. Lists are split and joined here, so that one piece of code can
    hand what it holds to another, and the statement about the whole is kept. */
module Resources {
  import opened ProcessTrace
  import opened OperatingSystem

  /** Live blocks in bs: the null block stands for nothing. */
  ghost function Blocks(bs: seq<nat>): set<int> {
    set b | b in bs && b != 0
  }

  ghost predicate NoRepeat(bs: seq<int>, none: int) {
    forall i, j | 0 <= i < j < |bs| && bs[i] != none :: bs[i] != bs[j]
  }

  /** The heap is what it was plus exactly these blocks, each once. */
  ghost predicate HeapPlus(os: Os, heap: set<int>, bs: seq<nat>)
    reads os`heap
  {
    NoRepeat(bs, 0) && Blocks(bs) !! heap && os.heap == heap + Blocks(bs)
  }

  ghost function Descriptors(fds: seq<int>): set<int> {
    set fd | fd in fds && fd >= 0
  }

  /** The open descriptors are what they were plus exactly these. */
  ghost predicate OpenPlus(os: Os, open: set<int>, fds: seq<int>)
    reads os`open
  {
    && (forall i | 0 <= i < |fds| :: fds[i] >= -1)
    && NoRepeat(fds, -1) && Descriptors(fds) !! open && os.open == open + Descriptors(fds)
  }

  lemma BlocksAppend(bs: seq<nat>, b: nat)
    ensures Blocks(bs + [b]) == Blocks(bs) + if b != 0 then {b as int} else {}
  {
    forall x
      ensures x in Blocks(bs + [b]) <==> x in Blocks(bs) || (b != 0 && x == b)
    {
      if x in Blocks(bs) { var i :| 0 <= i < |bs| && bs[i] == x; assert (bs + [b])[i] == x; }
      if b != 0 && x == b { assert (bs + [b])[|bs|] == x; }
    }
  }

  /** One more block on the list of those to give back. */
  method AllocOnto(os: Os, ghost heap: set<int>, ghost bs: seq<nat>) returns (block: nat)
    requires HeapPlus(os, heap, bs)
    modifies os`heap, os`refused
    ensures HeapPlus(os, heap, bs + [block])
    ensures os.refused == old(os.refused) + if block == 0 then 1 else 0
  {
    block := os.Alloc();
    BlocksAppend(bs, block);
    assert forall x: nat | x in bs && x != 0 :: (x as int) in Blocks(bs);
  }

  /** Frees every block of a list. */
  method FreeAll(os: Os, ghost heap: set<int>, bs: seq<nat>)
    requires HeapPlus(os, heap, bs)
    modifies os`heap
    ensures os.heap == heap
  {
    var i := 0;
    assert bs[0..] == bs;
    while i < |bs|
      invariant 0 <= i <= |bs|
      invariant HeapPlus(os, heap, bs[i..])
    {
      BlocksFirst(bs[i..]);
      assert bs[i..][1..] == bs[i + 1..];
      os.Free(bs[i]);
      i := i + 1;
    }
    assert Blocks(bs[i..]) == {};
  }

  lemma BlocksFirst(bs: seq<nat>)
    requires bs != [] && NoRepeat(bs, 0)
    ensures NoRepeat(bs[1..], 0)
    ensures Blocks(bs) == Blocks(bs[1..]) + if bs[0] != 0 then {bs[0] as int} else {}
    ensures bs[0] != 0 ==> (bs[0] as int) !in Blocks(bs[1..]) && (bs[0] as int) in Blocks(bs)
  {
    assert bs == [bs[0]] + bs[1..];
    forall x
      ensures x in Blocks(bs) <==> x in Blocks(bs[1..]) || (bs[0] != 0 && x == bs[0])
    {
      if x in Blocks(bs[1..]) { var i :| 0 <= i < |bs[1..]| && bs[1..][i] == x; assert bs[i + 1] == x; }
    }
  }

  /** The string copy is its bytes and its owner record; if the second cannot be
      had, the first is given back. */
  method CopyString(os: Os) returns (ok: bool, storage: nat, owner: nat)
    modifies os`heap, os`refused
    ensures ok ==> HeapPlus(os, old(os.heap), [storage, owner])
    ensures os.refused == old(os.refused) + if ok then 0 else 1
    ensures !ok ==> os.heap == old(os.heap)
  {
    storage := os.Alloc();
    if storage == 0 {
      return false, 0, 0;
    }
    owner := os.Alloc();
    if owner == 0 {
      os.Free(storage);
      return false, 0, 0;
    }
    ok := true;
    assert Blocks([storage, owner]) == {storage as int, owner as int};
  }

  lemma NoBlocks(os: Os, heap: set<int>, n: nat)
    requires os.heap == heap
    ensures HeapPlus(os, heap, seq(n, i => 0))
  {
    assert Blocks(seq(n, i => 0)) == {};
  }

  lemma PadZeros(os: Os, heap: set<int>, bs: seq<nat>, n: nat)
    requires HeapPlus(os, heap, bs)
    ensures HeapPlus(os, heap, bs + seq(n, i => 0))
  {
    var zeros: seq<nat> := seq(n, i => 0);
    var all := bs + zeros;
    forall x
      ensures x in Blocks(all) <==> x in Blocks(bs)
    {
      if x in Blocks(bs) { var i :| 0 <= i < |bs| && bs[i] == x; assert all[i] == x; }
    }
    forall i, j | 0 <= i < j < |all| && all[i] != 0
      ensures all[i] != all[j]
    {
      assert j >= |bs| ==> all[j] == zeros[j - |bs|];
    }
  }

  lemma DescriptorsConcat(a: seq<int>, b: seq<int>)
    ensures Descriptors(a + b) == Descriptors(a) + Descriptors(b)
  {
    forall x
      ensures x in Descriptors(a + b) <==> x in Descriptors(a) || x in Descriptors(b)
    {
      if x in Descriptors(a) { var i :| 0 <= i < |a| && a[i] == x; assert (a + b)[i] == x; }
      if x in Descriptors(b) { var i :| 0 <= i < |b| && b[i] == x; assert (a + b)[|a| + i] == x; }
    }
  }

  lemma DescriptorsHave(a: seq<int>)
    ensures forall i | 0 <= i < |a| && a[i] >= 0 :: a[i] in Descriptors(a)
  {
  }

  lemma OpenPlusConcat(os: Os, open: set<int>, mid: set<int>, a: seq<int>, b: seq<int>)
    requires (forall i | 0 <= i < |a| :: a[i] >= -1)
    requires NoRepeat(a, -1) && Descriptors(a) !! open && mid == open + Descriptors(a)
    requires OpenPlus(os, mid, b)
    ensures OpenPlus(os, open, a + b)
  {
    DescriptorsConcat(a, b);
    DescriptorsHave(a);
    DescriptorsHave(b);
    forall i, j | 0 <= i < j < |a + b| && (a + b)[i] != -1
      ensures (a + b)[i] != (a + b)[j]
    {
    }
  }

  /** Closes every descriptor of a list that is still open. */
  method CloseAll(fds: seq<int>, os: Os, ghost open: set<int>)
    requires OpenPlus(os, open, fds)
    modifies os`open
    ensures os.open == open
  {
    hide Descriptors;
    var i := 0;
    assert fds[0..] == fds;
    while i < |fds|
      invariant 0 <= i <= |fds|
      invariant OpenPlus(os, open, fds[i..])
    {
      FirstDescriptor(fds[i..]);
      assert fds[i..][1..] == fds[i + 1..];
      if fds[i] >= 0 {
        os.Close(fds[i]);
      }
      i := i + 1;
    }
    NoDescriptors();
    assert fds[i..] == [];
  }

  lemma NoDescriptors()
    ensures Descriptors([]) == {}
  {
  }

  lemma FirstDescriptor(fds: seq<int>)
    requires fds != [] && NoRepeat(fds, -1)
    ensures NoRepeat(fds[1..], -1)
    ensures Descriptors(fds) == Descriptors(fds[1..]) + if fds[0] >= 0 then {fds[0]} else {}
    ensures fds[0] >= 0 ==> fds[0] !in Descriptors(fds[1..])
  {
    assert fds == [fds[0]] + fds[1..];
    DescriptorsConcat([fds[0]], fds[1..]);
    assert Descriptors([fds[0]]) == if fds[0] >= 0 then {fds[0]} else {};
  }

  /** What is held can be seen as held in two parts. */
  lemma SplitHeap(os: Os, heap: set<int>, a: seq<nat>, b: seq<nat>)
    requires HeapPlus(os, heap, a + b)
    ensures HeapPlus(os, heap + Blocks(a), b) && Blocks(a) !! heap
    ensures Blocks(a + b) == Blocks(a) + Blocks(b)
  {
    var all := a + b;
    forall x
      ensures x in Blocks(all) <==> x in Blocks(a) || x in Blocks(b)
    {
      if x in Blocks(a) { var i :| 0 <= i < |a| && a[i] == x; assert all[i] == x; }
      if x in Blocks(b) { var i :| 0 <= i < |b| && b[i] == x; assert all[|a| + i] == x; }
    }
    forall i, j | 0 <= i < j < |b| && b[i] != 0
      ensures b[i] != b[j]
    {
      assert all[|a| + i] == b[i] && all[|a| + j] == b[j];
    }
    forall x | x in Blocks(b)
      ensures x !in Blocks(a)
    {
      var j :| 0 <= j < |b| && b[j] == x;
      assert forall i | 0 <= i < |a| && a[i] != 0 :: all[i] != all[|a| + j];
    }
  }

  lemma BlocksConcat(a: seq<nat>, b: seq<nat>)
    ensures Blocks(a + b) == Blocks(a) + Blocks(b)
  {
    forall x
      ensures x in Blocks(a + b) <==> x in Blocks(a) || x in Blocks(b)
    {
      if x in Blocks(a) { var i :| 0 <= i < |a| && a[i] == x; assert (a + b)[i] == x; }
      if x in Blocks(b) { var i :| 0 <= i < |b| && b[i] == x; assert (a + b)[|a| + i] == x; }
    }
  }

  /** Two parts held one after the other are held together. */
  lemma JoinHeap(os: Os, heap: set<int>, mid: set<int>, a: seq<nat>, b: seq<nat>)
    requires NoRepeat(a, 0) && Blocks(a) !! heap && mid == heap + Blocks(a)
    requires HeapPlus(os, mid, b)
    ensures HeapPlus(os, heap, a + b)
  {
    BlocksConcat(a, b);
    assert forall i | 0 <= i < |a| && a[i] != 0 :: (a[i] as int) in Blocks(a);
    assert forall i | 0 <= i < |b| && b[i] != 0 :: (b[i] as int) in Blocks(b);
    forall i, j | 0 <= i < j < |a + b| && (a + b)[i] != 0
      ensures (a + b)[i] != (a + b)[j]
    {
    }
  }

  /** Of two parts held together, the first can be released on its own. */
  lemma FirstPart(os: Os, heap: set<int>, a: seq<nat>, b: seq<nat>)
    requires HeapPlus(os, heap, a + b)
    ensures HeapPlus(os, heap + Blocks(b), a) && NoRepeat(b, 0) && Blocks(b) !! heap
  {
    SplitHeap(os, heap, a, b);
    BlocksConcat(a, b);
    forall i, j | 0 <= i < j < |a| && a[i] != 0
      ensures a[i] != a[j]
    {
      assert (a + b)[i] == a[i] && (a + b)[j] == a[j];
    }
  }

  /** Of two lists of descriptors held together, the first can be closed on its
      own. */
  lemma FirstDescriptors(os: Os, open: set<int>, a: seq<int>, b: seq<int>)
    requires OpenPlus(os, open, a + b)
    ensures OpenPlus(os, open + Descriptors(b), a)
    ensures NoRepeat(b, -1) && Descriptors(b) !! open && (forall i | 0 <= i < |b| :: b[i] >= -1)
  {
    DescriptorsConcat(a, b);
    forall i, j | 0 <= i < j < |a| && a[i] != -1
      ensures a[i] != a[j]
    {
      assert (a + b)[i] == a[i] && (a + b)[j] == a[j];
    }
    forall i, j | 0 <= i < j < |b| && b[i] != -1
      ensures b[i] != b[j]
    {
      assert (a + b)[|a| + i] == b[i] && (a + b)[|a| + j] == b[j];
    }
    forall i | 0 <= i < |a|
      ensures a[i] >= -1
    {
      assert (a + b)[i] == a[i];
    }
    forall i | 0 <= i < |b|
      ensures b[i] >= -1
    {
      assert (a + b)[|a| + i] == b[i];
    }
    forall x | x in Descriptors(a)
      ensures x !in Descriptors(b)
    {
      var i :| 0 <= i < |a| && a[i] == x;
      assert (a + b)[i] == a[i];
      forall j | 0 <= j < |b|
        ensures b[j] != x
      {
        assert (a + b)[|a| + j] == b[j];
      }
    }
  }
}
