/** Building an I/O error value: up to five strings, each of them two allocations,
    any of which may fail. The operation's name and the library's message become
    one text, the kind another, and the two paths are copied when there are any.
    What has been taken is kept as a list of blocks, in the order of taking, so that
    giving everything back is one pass over the list, from wherever it was that the
    construction could not go on; success hands the whole list to the error value. */
module IoErrors {
  import opened ProcessTrace
  import opened OperatingSystem
  import opened Resources

  const TEXT_LIMIT: nat := 0x7fff_ffff

  type Text = seq<Byte>

  datatype Problem = OutOfMemory | TooLong

  /** A copied string: the numbers of its two blocks, and what was written into the
      first of them. */
  datatype Copy = Copy(storage: nat, owner: nat, data: array<Byte>, len: nat)

  datatype IoErr = IoErr(osCode: int, text: Copy, kind: Copy, operation: Copy, path: Option<Copy>, otherPath: Option<Copy>)

  datatype Made = Made(error: IoErr) | AllocationError(problem: Problem)

  /** The bytes read back from the copy are this text, and there is room for the
      terminator. */
  ghost predicate Says(c: Copy, text: Text)
    reads c.data
  {
    c.len == |text| && c.len < c.data.Length && c.data[..c.len] == text
  }

  ghost predicate PathSays(c: Option<Copy>, path: Option<Text>)
    reads if c.Some? then {c.value.data} else {}
  {
    (c.Some? <==> path.Some?) && (c.Some? ==> Says(c.value, path.value))
  }

  function PathBlocks(c: Option<Copy>): seq<nat> {
    if c.Some? then [c.value.storage, c.value.owner] else []
  }

  /** The blocks the error owns, in the order in which it is dropped. */
  function Owned(e: IoErr): seq<nat> {
    [e.text.storage, e.text.owner] + [e.kind.storage, e.kind.owner] + [e.operation.storage, e.operation.owner]
    + PathBlocks(e.path) + PathBlocks(e.otherPath)
  }

  const SEPARATOR: Text := [58, 32]

  /** What the error says: the operation, a colon, and the detail. */
  function Message(operation: Text, detail: Text): Text {
    if operation == [] then detail else operation + SEPARATOR + detail
  }

  predicate ShortEnough(text: Option<Text>) {
    text.Some? ==> |text.value| <= TEXT_LIMIT
  }

  lemma FreeLast(os: Os, heap: set<int>, held: seq<nat>, last: nat)
    requires HeapPlus(os, heap, held + [last]) && last != 0
    ensures (last as int) in os.heap && os.heap - {last as int} == heap + Blocks(held)
    ensures NoRepeat(held, 0) && Blocks(held) !! heap
  {
    BlocksAppend(held, last);
    var all := held + [last];
    forall i, j | 0 <= i < j < |held| && held[i] != 0
      ensures held[i] != held[j]
    {
      assert all[i] == held[i] && all[j] == held[j];
    }
    assert forall i | 0 <= i < |held| && held[i] != 0 :: all[i] != all[|held|];
    assert (last as int) !in Blocks(held);
    assert (last as int) in Blocks(all);
  }

  /** Copies bytes into a buffer from a position on. */
  method Fill(buffer: array<Byte>, at: nat, text: Text)
    requires at + |text| <= buffer.Length
    modifies buffer
    ensures buffer[..at + |text|] == old(buffer[..at]) + text
  {
    for i := 0 to |text|
      invariant buffer[..at + i] == old(buffer[..at]) + text[..i]
    {
      buffer[at + i] := text[i];
      assert buffer[..at + i + 1] == buffer[..at + i] + [text[i]];
    }
    assert text[..|text|] == text;
  }

  /** Makes a buffer into a string by adding an owner record; if that cannot be had
      the buffer is given back. */
  method TakeString(os: Os, storage: nat, data: array<Byte>, len: nat, ghost heap: set<int>, held: seq<nat>)
    returns (ok: bool, now: seq<nat>, c: Copy)
    requires storage != 0 && HeapPlus(os, heap, held + [storage])
    modifies os`heap, os`refused
    ensures HeapPlus(os, heap, now)
    ensures os.refused == old(os.refused) + if ok then 0 else 1
    ensures now == if ok then held + [c.storage, c.owner] else held
    ensures c.data == data && c.len == len
  {
    hide Blocks, NoRepeat;
    ghost var before := os.heap;
    var owner := os.Alloc();
    c := Copy(storage, owner, data, len);
    if owner == 0 {
      FreeLast(os, heap, held, storage);
      os.Free(storage);
      return false, held, c;
    }
    AddBlock(os, heap, held + [storage], owner, before);
    ok, now := true, held + [storage, owner];
    assert held + [storage] + [owner] == now;
  }

  lemma AddBlock(os: Os, heap: set<int>, held: seq<nat>, block: nat, before: set<int>)
    requires NoRepeat(held, 0) && Blocks(held) !! heap && before == heap + Blocks(held)
    requires block != 0 && (block as int) !in before && os.heap == before + {block as int}
    ensures HeapPlus(os, heap, held + [block])
  {
    BlocksAppend(held, block);
    assert forall x: nat | x in held && x != 0 :: (x as int) in Blocks(held);
  }

  /** A copied string: its bytes and its owner, or nothing. */
  method CopyText(text: Text, os: Os, ghost heap: set<int>, held: seq<nat>) returns (ok: bool, now: seq<nat>, c: Copy)
    requires HeapPlus(os, heap, held)
    modifies os`heap, os`refused
    ensures HeapPlus(os, heap, now)
    ensures os.refused == old(os.refused) + if ok then 0 else 1
    ensures now == if ok then held + [c.storage, c.owner] else held
    ensures ok ==> Says(c, text) && fresh(c.data)
  {
    hide Blocks, NoRepeat;
    var storage := AllocOnto(os, heap, held);
    var data := new Byte[|text| + 1](_ => 0);
    c := Copy(storage, 0, data, |text|);
    if storage == 0 {
      NoBlockLast(os, heap, held);
      return false, held, c;
    }
    Fill(data, 0, text);
    ok, now, c := TakeString(os, storage, data, |text|, heap, held);
  }

  /** A copied path, when there is one. */
  method CopyPath(path: Option<Text>, os: Os, ghost heap: set<int>, held: seq<nat>)
    returns (ok: bool, now: seq<nat>, c: Option<Copy>)
    requires HeapPlus(os, heap, held)
    modifies os`heap, os`refused
    ensures HeapPlus(os, heap, now)
    ensures os.refused == old(os.refused) + if ok then 0 else 1
    ensures now == if ok then held + PathBlocks(c) else held
    ensures ok ==> PathSays(c, path) && (c.Some? ==> fresh(c.value.data))
  {
    hide HeapPlus, Says;
    ok, now, c := true, held, None;
    if path.Some? {
      var copy;
      ok, now, copy := CopyText(path.value, os, heap, held);
      c := Some(copy);
    }
  }

  lemma NoBlockLast(os: Os, heap: set<int>, held: seq<nat>)
    requires HeapPlus(os, heap, held + [0])
    ensures HeapPlus(os, heap, held)
  {
    BlocksAppend(held, 0);
    var all := held + [0];
    forall i, j | 0 <= i < j < |held| && held[i] != 0
      ensures held[i] != held[j]
    {
      assert all[i] == held[i] && all[j] == held[j];
    }
  }

  method CopyNames(kind: Text, operation: Text, os: Os, ghost heap: set<int>, held: seq<nat>)
    returns (ok: bool, now: seq<nat>, k: Copy, o: Copy)
    requires HeapPlus(os, heap, held)
    modifies os`heap, os`refused
    ensures HeapPlus(os, heap, now)
    ensures os.refused == old(os.refused) + if ok then 0 else 1
    ensures ok ==> now == held + [k.storage, k.owner] + [o.storage, o.owner]
    ensures ok ==> Says(k, kind) && Says(o, operation) && fresh(k.data) && fresh(o.data)
  {
    hide HeapPlus, Says;
    ok, now, k := CopyText(kind, os, heap, held);
    o := k;
    if ok {
      ok, now, o := CopyText(operation, os, heap, now);
    }
  }

  method CopyPaths(path: Option<Text>, otherPath: Option<Text>, os: Os, ghost heap: set<int>, held: seq<nat>)
    returns (ok: bool, now: seq<nat>, p: Option<Copy>, q: Option<Copy>)
    requires HeapPlus(os, heap, held)
    modifies os`heap, os`refused
    ensures HeapPlus(os, heap, now)
    ensures os.refused == old(os.refused) + if ok then 0 else 1
    ensures ok ==> now == held + PathBlocks(p) + PathBlocks(q)
    ensures ok ==> PathSays(p, path) && PathSays(q, otherPath)
  {
    hide HeapPlus, Says, PathBlocks;
    q := None;
    ok, now, p := CopyPath(path, os, heap, held);
    if ok {
      ok, now, q := CopyPath(otherPath, os, heap, now);
    }
  }

  /** The message in a buffer of its own. */
  method WriteMessage(operation: Text, detail: Text) returns (data: array<Byte>)
    ensures fresh(data) && data.Length == |Message(operation, detail)| + 1
    ensures data[..data.Length - 1] == Message(operation, detail)
  {
    var separatorLength := if operation == [] then 0 else 2;
    data := new Byte[|operation| + separatorLength + |detail| + 1](_ => 0);
    if |operation| > 0 {
      Fill(data, 0, operation);
      Fill(data, |operation|, SEPARATOR);
    }
    assert data[..|operation| + separatorLength] == if operation == [] then [] else operation + SEPARATOR;
    Fill(data, |operation| + separatorLength, detail);
    assert data.Length - 1 == |operation| + separatorLength + |detail|;
  }

  /** Builds the error. Whichever allocation fails, everything acquired so far has
      been given back; on success exactly the strings' two blocks each are held, and
      every string reads back as it should. */
  method MakeIoErr(osCode: int, kind: Text, operation: Text, path: Option<Text>, otherPath: Option<Text>, detail: Text, os: Os)
    returns (made: Made)
    modifies os`heap, os`refused
    ensures made == AllocationError(OutOfMemory) <==> os.refused != old(os.refused)
    ensures os.refused <= old(os.refused) + 1
    ensures made.AllocationError? ==> os.heap == old(os.heap)
    ensures made.Made? ==> HeapPlus(os, old(os.heap), Owned(made.error)) && made.error.osCode == osCode
    ensures made.Made? ==> Says(made.error.text, Message(operation, detail)) && Says(made.error.kind, kind)
    ensures made.Made? ==> Says(made.error.operation, operation)
    ensures made.Made? ==> PathSays(made.error.path, path) && PathSays(made.error.otherPath, otherPath)
    ensures made == AllocationError(TooLong) <==>
              |Message(operation, detail)| > TEXT_LIMIT || |kind| > TEXT_LIMIT || !ShortEnough(path) || !ShortEnough(otherPath)
  {
    hide HeapPlus, Says, PathSays, PathBlocks;
    ghost var heap := os.heap;
    var separatorLength := if operation == [] then 0 else 2;
    var messageLength := |operation| + separatorLength + |detail|;
    if messageLength > TEXT_LIMIT || |kind| > TEXT_LIMIT || !ShortEnough(path) || !ShortEnough(otherPath) {
      return AllocationError(TooLong);
    }
    HoldingNothing(os);
    var message := AllocOnto(os, heap, []);
    if message == 0 {
      NoBlockLast(os, heap, []);
      ReleasedAll(os, heap);
      return AllocationError(OutOfMemory);
    }
    var data := WriteMessage(operation, detail);
    var ok, held, text := TakeString(os, message, data, messageLength, heap, []);
    WrittenSays(text, Message(operation, detail));
    var kindCopy, operationCopy, pathCopy, otherCopy := text, text, None, None;
    if ok {
      ok, held, kindCopy, operationCopy := CopyNames(kind, operation, os, heap, held);
    }
    if ok {
      ok, held, pathCopy, otherCopy := CopyPaths(path, otherPath, os, heap, held);
    }
    if !ok {
      FreeAll(os, heap, held);
      return AllocationError(OutOfMemory);
    }
    made := Made(IoErr(osCode, text, kindCopy, operationCopy, pathCopy, otherCopy));
    assert held == Owned(made.error);
  }

  lemma WrittenSays(c: Copy, text: Text)
    requires c.len == |text| && c.data.Length == |text| + 1 && c.data[..c.data.Length - 1] == text
    ensures Says(c, text)
  {
  }

  lemma HoldingNothing(os: Os)
    ensures HeapPlus(os, os.heap, [])
  {
    assert Blocks([]) == {};
  }

  lemma ReleasedAll(os: Os, heap: set<int>)
    requires HeapPlus(os, heap, [])
    ensures os.heap == heap
  {
    assert Blocks([]) == {};
  }
}
