/** A child from start to end: the fork and what follows it, and the operations of
    its handle. A start that is refused gives back whatever it had taken, at
    whichever step it was refused; a handle is used up by waiting and by dropping,
    and by terminating only when that fails. The last method is any run at all: a
    start, and then any operations in any order, against any operating system. */
module ProcessLife {
  import opened ProcessTrace
  import opened OperatingSystem
  import opened Resources
  import opened Supervisor
  import opened ProcessPump
  import opened ProcessStart

  /** Anything a start can leave behind, forked or not. */
  ghost predicate Droppable(state: ProcessState, os: Os)
    reads state`pid, state`signalled, state`terminalSignalled, state`child, state`origin, state`inputFd, state`outputFd, state`errorFd,
      state`stdinFd, state`stdoutFd, state`stderrFd, state`block, state`inputBlocks, os`trace, os`open, os`heap
  {
    state.Sound(os) && Wired(state, os) && Housed(state, os)
  }

  /** The child's whole history so far is safe. */
  ghost predicate SafeHistory(state: ProcessState, os: Os)
    reads state`child, state`origin, os`trace
  {
    state.child > 0 ==>
      state.origin <= |os.trace| && AnchorSafe(state.Past(os), state.child) && ReapSafe(state.Past(os), state.child)
  }

  /** Gives up the child, the descriptors and the memory of a state. If it
      returns, nothing of the state is left open, allocated or unreaped. */
  method Drop(state: ProcessState, os: Os) returns (end: CleanupEnd)
    requires Droppable(state, os)
    modifies state`pid, state`signalled, state`terminalSignalled, state`inputFd, state`outputFd, state`errorFd,
      state`inputBlocks, state`block, os`trace, os`open, os`heap
    ensures SafeHistory(state, os)
    ensures Within(old(os.trace), os.trace, 18)
    ensures end.Released? ==> os.open == old(Others(state, os)) && os.heap == old(OthersHeap(state, os))
    ensures end.Released? && state.child > 0 ==> !Alive(state.Past(os), state.child)
    ensures end.Aborted? ==> state.pid > 0 && Failures(os.trace) > Failures(old(os.trace))
    ensures Failures(os.trace) >= Failures(old(os.trace))
    ensures old(state.pid) <= 0 ==> os.trace == old(os.trace) && state.signalled == old(state.signalled)
  {
    hide AnchorSafe, ReapSafe, Alive, Terminal, Struck, Calls, Strikes, Failures, Looks, Blocks, HeapPlus;
    end := CleanupAnchor(state, os);
    if end.Aborted? {
      return;
    }
    ReleaseAll(state, os);
  }

  /** Closes the descriptors of a state and frees its blocks. */
  method ReleaseAll(state: ProcessState, os: Os)
    requires Wired(state, os) && Housed(state, os)
    modifies state`inputFd, state`outputFd, state`errorFd, state`inputBlocks, state`block, os`open, os`heap
    ensures os.open == old(Others(state, os)) && os.heap == old(OthersHeap(state, os))
  {
    hide Blocks, HeapPlus;
    CloseInput(state, os);
    CloseOutput(state, os);
    CloseError(state, os);
    DropInput(state, os);
    FreeState(state, os);
  }

  method FreeState(state: ProcessState, os: Os)
    requires Housed(state, os) && state.inputBlocks == []
    modifies state`block, os`heap
    ensures os.heap == old(OthersHeap(state, os))
  {
    assert Memory(state) == [state.block];
    assert Blocks([state.block]) == if state.block != 0 then {state.block as int} else {};
    os.Free(state.block);
    state.block := 0;
  }

  // ----- launching -----

  lemma EmptyHistory(tr: Trace, p: int)
    requires p > 0
    ensures Anchored(tr, |tr|, p, p) && ReapSafe(tr[|tr|..], p)
  {
    assert tr[|tr|..] == [];
  }

  lemma WithoutEnd(fds: seq<int>, i: nat)
    requires i < |fds| && NoRepeat(fds, -1)
    ensures NoRepeat(fds[i := -1], -1)
    ensures Descriptors(fds[i := -1]) == if fds[i] >= 0 then Descriptors(fds) - {fds[i]} else Descriptors(fds)
    ensures fds[i] >= 0 ==> fds[i] in Descriptors(fds)
  {
    var less := fds[i := -1];
    forall x
      ensures x in Descriptors(less) <==> x in Descriptors(fds) && (fds[i] >= 0 ==> x != fds[i])
    {
      if x in Descriptors(less) { var j :| 0 <= j < |less| && less[j] == x; assert fds[j] == x; }
      if x in Descriptors(fds) && x != fds[i] { var j :| 0 <= j < |fds| && fds[j] == x; assert less[j] == x; }
    }
  }

  /** Closes one end and marks it so. */
  method CloseEnd(fds: seq<int>, i: nat, os: Os, ghost open: set<int>) returns (less: seq<int>)
    requires i < |fds| && OpenPlus(os, open, fds)
    modifies os`open
    ensures less == fds[i := -1] && OpenPlus(os, open, less)
  {
    WithoutEnd(fds, i);
    if fds[i] >= 0 {
      os.Close(fds[i]);
    }
    less := fds[i := -1];
  }

  /** The parent's ends of the input, output and error pipes. */
  function ParentEnds(pipes: seq<int>): seq<int>
    requires |pipes| == 8
  {
    [pipes[1], pipes[2], pipes[4]]
  }

  /** Handing the parent's ends from the list of pipes to the state moves them
      and nothing else. */
  lemma HandOver(pipes: seq<int>, os: Os, open: set<int>)
    requires |pipes| == 8 && OpenPlus(os, open, pipes)
    requires pipes[0] == -1 && pipes[3] == -1 && pipes[5] == -1 && pipes[7] == -1
    ensures OpenPlus(os, open, [pipes[6]] + ParentEnds(pipes))
  {
    var ends := [pipes[6]] + ParentEnds(pipes);
    forall x
      ensures x in Descriptors(ends) <==> x in Descriptors(pipes)
    {
      if x in Descriptors(pipes) {
        var j :| 0 <= j < |pipes| && pipes[j] == x;
        assert j == 1 || j == 2 || j == 4 || j == 6;
        assert ends[0] == x || ends[1] == x || ends[2] == x || ends[3] == x;
      }
    }
  }

  /** Forks and puts the child into a group of its own. From the fork on the state
      answers for the child. */
  method ForkChild(state: ProcessState, os: Os) returns (error: Option<Errno>)
    requires state.child == 0 && state.pid == 0 && !state.signalled && !state.terminalSignalled
    modifies state`pid, state`group, state`child, state`origin, state`transfers, os`trace, os`faults
    ensures state.Sound(os)
    ensures os.faults >= old(os.faults) && (error.Some? ==> os.faults > old(os.faults))
    ensures Failures(os.trace) == Failures(old(os.trace))
    ensures error.None? ==> state.Supervised(os) && state.pid > 0 && state.group && state.transfers == |os.io|
    ensures state.child > 0 ==> state.origin == |os.trace|
    ensures state.child == 0 ==> os.trace == old(os.trace)
    ensures state.child >= 0
  {
    ghost var before := os.trace;
    var pid;
    error, pid := os.Fork();
    if error.Some? {
      assert os.trace == before;
      return;
    }
    CallsStep(before, Forked(pid));
    EmptyHistory(os.trace, pid);
    state.pid := pid;
    state.child, state.origin, state.transfers := pid, |os.trace|, |os.io|;
    error := os.SetGroup(pid);
    if error.Some? && !error.value.EACCES? && !error.value.ESRCH? {
      return;
    }
    state.group := true;
    error := None;
  }

  method CloseChildEnds(fds: seq<int>, os: Os, ghost open: set<int>) returns (less: seq<int>)
    requires |fds| == 8 && OpenPlus(os, open, fds)
    modifies os`open
    ensures |less| == 8 && OpenPlus(os, open, less)
    ensures less[0] == -1 && less[3] == -1 && less[5] == -1 && less[7] == -1
    ensures less[6] == fds[6] && ParentEnds(less) == ParentEnds(fds)
  {
    hide Descriptors, NoRepeat, OpenPlus;
    less := CloseEnd(fds, 0, os, open);
    less := CloseEnd(less, 3, os, open);
    less := CloseEnd(less, 5, os, open);
    less := CloseEnd(less, 7, os, open);
  }

  /** Forks, groups the child, waits for the verdict on exec, and takes the
      parent's pipe ends. The list says which descriptors are still to be closed. */
  method Launch(state: ProcessState, pipes: seq<int>, os: Os, ghost open: set<int>)
    returns (error: Option<Errno>, fds: seq<int>)
    requires state.child == 0 && state.pid == 0 && !state.signalled && !state.terminalSignalled
    requires state.inputFd == -1 && state.outputFd == -1 && state.errorFd == -1
    requires |pipes| == 8 && pipes[6] >= 0 && OpenPlus(os, open, pipes)
    modifies state`pid, state`group, state`inputFd, state`outputFd, state`errorFd, state`child, state`origin,
      state`transfers, state`stdinFd, state`stdoutFd, state`stderrFd, os`trace, os`open, os`faults
    ensures os.faults >= old(os.faults) && (error.Some? ==> os.faults > old(os.faults))
    ensures Failures(os.trace) == Failures(old(os.trace))
    ensures state.Sound(os) && state.child >= 0
    ensures error.Some? ==> OpenPlus(os, open, fds)
    ensures error.Some? ==> state.inputFd == -1 && state.outputFd == -1 && state.errorFd == -1
    ensures error.Some? ==> state.stdinFd == old(state.stdinFd) && state.stdoutFd == old(state.stdoutFd) &&
                            state.stderrFd == old(state.stderrFd)
    ensures error.None? ==> OpenPlus(os, open, fds + ParentEnds(pipes)) && Took(state, ParentEnds(pipes))
    ensures error.None? ==> state.Supervised(os) && state.pid > 0 && state.group && state.transfers == |os.io|
  {
    hide Descriptors, NoRepeat, OpenPlus, ProcessState.Sound, ProcessState.Supervised, Took;
    fds := pipes;
    error := ForkChild(state, os);
    if error.Some? {
      return;
    }
    fds := CloseChildEnds(fds, os, open);
    StillOpen(fds, 6, os, open);
    error := os.ExecReport(fds[6]);
    if error.Some? {
      return;
    }
    HandOver(fds, os, open);
    TakeEnds(state, fds);
    fds := [fds[6]];
  }

  method TakeEnds(state: ProcessState, fds: seq<int>)
    requires |fds| == 8
    modifies state`inputFd, state`outputFd, state`errorFd, state`stdinFd, state`stdoutFd, state`stderrFd
    ensures Took(state, ParentEnds(fds))
  {
    state.inputFd, state.outputFd, state.errorFd := fds[1], fds[2], fds[4];
    state.stdinFd, state.stdoutFd, state.stderrFd := fds[1], fds[2], fds[4];
  }

  /** The state holds these ends. */
  ghost predicate Took(state: ProcessState, ends: seq<int>)
    requires |ends| == 3
    reads state`inputFd, state`outputFd, state`errorFd, state`stdinFd, state`stdoutFd, state`stderrFd
  {
    && state.inputFd == state.stdinFd == ends[0]
    && state.outputFd == state.stdoutFd == ends[1]
    && state.errorFd == state.stderrFd == ends[2]
  }

  lemma StillOpen(fds: seq<int>, i: nat, os: Os, open: set<int>)
    requires i < |fds| && OpenPlus(os, open, fds) && fds[i] >= 0
    ensures fds[i] in os.open
  {
  }

  // ----- starting -----

  /** The state's own block and its copy of the input, beside what is already
      held. A state without its copy is possible: the second allocation may fail. */
  method BuildState(r: Request, os: Os, ghost heap: set<int>, ghost held: seq<nat>)
    returns (ok: bool, block: nat, inputBlocks: seq<nat>)
    requires HeapPlus(os, heap, held)
    modifies os`heap, os`refused
    ensures HeapPlus(os, heap, held + ([block] + inputBlocks))
    ensures block == 0 ==> !ok && inputBlocks == []
    ensures os.refused == old(os.refused) + if ok then 0 else 1
  {
    hide Blocks, NoRepeat;
    ok, inputBlocks := false, [];
    block := AllocOnto(os, heap, held);
    assert [block] + inputBlocks == [block];
    if block == 0 {
      return;
    }
    if r.input.Some? && |r.input.value| > 0 {
      ghost var mid := os.heap;
      var storage, owner;
      ok, storage, owner := CopyString(os);
      if !ok {
        return;
      }
      JoinHeap(os, heap, mid, held + [block], [storage, owner]);
      inputBlocks := [storage, owner];
      assert held + ([block] + inputBlocks) == (held + [block]) + [storage, owner];
    }
    ok := true;
  }

  /** Frees the vectors; the state's memory stays. */
  method FreeVectors(v: Vectors, state: ProcessState, os: Os, ghost heap: set<int>)
    requires ValidVectors(v) && HeapPlus(os, heap, Scratch(v) + Memory(state))
    modifies os`heap
    ensures Housed(state, os) && OthersHeap(state, os) == heap
  {
    hide Blocks, NoRepeat, Scratch, Memory;
    FirstPart(os, heap, Scratch(v), Memory(state));
    FreeAll(os, heap + Blocks(Memory(state)), Scratch(v));
    assert os.heap - Blocks(Memory(state)) == heap;
  }

  /** Closes what is still on the list; the state keeps its ends. */
  method CloseRest(fds: seq<int>, state: ProcessState, os: Os, ghost ends: seq<int>, ghost open: set<int>)
    requires |ends| == 3 && Took(state, ends) && OpenPlus(os, open, fds + ends) && -1 !in open
    modifies os`open
    ensures Wired(state, os) && Others(state, os) == open
    ensures forall i | 0 <= i < 3 :: ends[i] >= -1
  {
    FirstDescriptors(os, open, fds, ends);
    CloseAll(fds, os, open + Descriptors(ends));
    DescriptorsHave(ends);
    forall x | x in Descriptors(ends)
      ensures x in {state.inputFd, state.outputFd, state.errorFd}
    {
      var i :| 0 <= i < |ends| && ends[i] == x;
      assert i == 0 || i == 1 || i == 2;
    }
    assert ends[0] != -1 ==> ends[0] != ends[1] && ends[0] != ends[2];
    assert ends[1] != -1 ==> ends[1] != ends[2];
    assert Others(state, os) == open;
  }

  datatype StartEnd = Started(state: ProcessState) | Refused(error: IoError) | Stopped

  /** What the request gives the child to read. */
  function InputOf(r: Request): seq<Byte> {
    if r.input.Some? then r.input.value else []
  }

  /** The history that began at origin is safe for the child, if there is one. */
  ghost predicate SafeRun(tr: Trace, origin: nat, child: int) {
    child > 0 ==> origin <= |tr| && AnchorSafe(tr[origin..], child) && ReapSafe(tr[origin..], child)
  }

  /** No child is left unreaped. */
  ghost predicate GivenUp(tr: Trace, origin: nat, child: int) {
    child > 0 ==> origin <= |tr| && !Alive(tr[origin..], child)
  }

  /** A freshly started child as the request asked for it. */
  ghost predicate AsRequested(state: ProcessState, r: Request)
    reads state
  {
    && state.pid > 0 && state.group && state.limit == r.maxOutput && state.wholeInput == InputOf(r)
    && (state.inputFd >= 0 <==> r.input.Some?)
    && (state.outputFd >= 0 <==> r.capture) && (state.errorFd >= 0 <==> r.capture)
  }

  lemma NewlyLive(state: ProcessState, os: Os)
    requires state.Supervised(os) && Wired(state, os) && Housed(state, os)
    requires !state.ready && !state.signalled && state.input == state.wholeInput && state.sent == 0
    requires state.output == [] && state.error == [] && state.outcome == EMPTY_OUTCOME
    requires state.transfers == |os.io| && state.pid > 0 && state.inputFd == state.stdinFd
    ensures Live(state, os)
  {
    assert os.io[state.transfers..] == [];
  }

  /** A state as it is before the fork. */
  ghost predicate Blank(state: ProcessState, r: Request)
    reads state
  {
    && state.pid == 0 && state.child == 0 && !state.ready && !state.signalled && !state.terminalSignalled
    && state.inputFd == -1 && state.outputFd == -1 && state.errorFd == -1
    && state.stdinFd == -1 && state.stdoutFd == -1 && state.stderrFd == -1
    && state.input == state.wholeInput && state.wholeInput == InputOf(r) && state.sent == 0
    && state.output == [] && state.error == [] && state.outcome == EMPTY_OUTCOME && state.limit == r.maxOutput
  }

  lemma BlankParts(state: ProcessState, r: Request, os: Os)
    requires Blank(state, r)
    ensures state.Sound(os) && state.child == 0 && Took(state, NO_ENDS)
  {
  }

  const NO_ENDS: seq<int> := [-1, -1, -1]

  lemma NoEnds(os: Os, open: set<int>, fds: seq<int>)
    requires OpenPlus(os, open, fds)
    ensures OpenPlus(os, open, fds + NO_ENDS)
  {
    assert Descriptors(NO_ENDS) == {};
    OpenPlusConcat(os, open, os.open, fds, NO_ENDS);
  }

  /** Opens the pipes and launches. On failure the state holds no descriptor. */
  method OpenAndLaunch(state: ProcessState, r: Request, os: Os)
    returns (error: Option<Errno>, fds: seq<int>, ghost ends: seq<int>)
    requires Blank(state, r)
    modifies state`pid, state`group, state`inputFd, state`outputFd, state`errorFd, state`child, state`origin,
      state`transfers, state`stdinFd, state`stdoutFd, state`stderrFd, os`trace, os`open, os`faults
    ensures os.faults >= old(os.faults) && (error.Some? ==> os.faults > old(os.faults))
    ensures Failures(os.trace) == Failures(old(os.trace))
    ensures state.Sound(os) && state.child >= 0
    ensures |ends| == 3 && Took(state, ends) && OpenPlus(os, old(os.open), fds + ends)
    ensures error.None? ==> state.Supervised(os) && state.transfers == |os.io| && AsRequested(state, r)
    ensures error.None? ==> state.pid > 0 && state.inputFd == state.stdinFd
  {
    hide Descriptors, NoRepeat, OpenPlus, Anchored, ReapSafe, Terminal, Struck;
    ghost var open := os.open;
    ends := NO_ENDS;
    error, fds := OpenPipes(r, os);
    if error.Some? {
      NoEnds(os, open, fds);
      return;
    }
    assert Needed(r, 3) && (Needed(r, 0) <==> r.input.Some?) && (Needed(r, 1) <==> r.capture) && (Needed(r, 2) <==> r.capture);
    assert fds[6] == fds[2 * 3];
    assert (fds[1] >= 0 <==> r.input.Some?) by { assert fds[1] == fds[2 * 0 + 1]; }
    assert (fds[2] >= 0 <==> r.capture) by { assert fds[2] == fds[2 * 1]; }
    assert (fds[4] >= 0 <==> r.capture) by { assert fds[4] == fds[2 * 2]; }
    ghost var pipes := fds;
    error, fds := Launch(state, fds, os, open);
    if error.Some? {
      NoEnds(os, open, fds);
      return;
    }
    ends := ParentEnds(pipes);
  }

  /** Everything from the built state to the release label: pipes, fork, and
      giving back whatever the running child does not need. */
  method Assemble(state: ProcessState, r: Request, v: Vectors, copied: bool, os: Os, ghost heap: set<int>)
    returns (error: Option<IoError>)
    requires Blank(state, r) && ValidVectors(v) && HeapPlus(os, heap, Scratch(v) + Memory(state))
    requires -1 !in os.open
    modifies state`pid, state`group, state`inputFd, state`outputFd, state`errorFd, state`child, state`origin,
      state`transfers, state`stdinFd, state`stdoutFd, state`stderrFd, os`trace, os`open, os`heap, os`faults
    ensures Droppable(state, os) && state.child >= 0
    ensures os.faults >= old(os.faults) && Failures(os.trace) == Failures(old(os.trace))
    ensures error.None? ==> copied
    ensures error.Some? && error.value.NoMemory? ==> !copied
    ensures error.Some? && error.value.Sys? ==> os.faults > old(os.faults)
    ensures Rest(state, os) == (old(os.open), heap)
    ensures error.None? ==> Live(state, os) && AsRequested(state, r)
    ensures error.Some? ==> error.value.Sys? || error.value.NoMemory?
  {
    hide Blocks, Descriptors, NoRepeat, OpenPlus, HeapPlus, Anchored, ReapSafe, Terminal, Struck, Scratch, Ledger, Live,
      Wired, Housed, Others, OthersHeap, Took, AsRequested, Memory, ProcessState.Supervised, ProcessState.Sound;
    ghost var open := os.open;
    var fds: seq<int> := [];
    ghost var ends := NO_ENDS;
    BlankParts(state, r, os);
    if copied {
      var failure;
      failure, fds, ends := OpenAndLaunch(state, r, os);
      error := if failure.Some? then Some(Sys(failure.value)) else None;
    } else {
      NothingOpened(os);
      NoEnds(os, open, fds);
      error := Some(NoMemory);
    }
    CloseRest(fds, state, os, ends, open);
    FreeVectors(v, state, os, heap);
    if error.None? {
      NewlyLive(state, os);
    }
  }

  /** Starts a child. A refused start leaves no descriptor, no block and no child
      behind, whichever step failed; a successful one leaves the state, its copy of
      the input and the parent's pipe ends. Inherited environment entries, like
      everything else that was live before, are untouched. */
  method Start(r: Request, environ: seq<seq<Byte>>, pointers: seq<nat>, os: Os)
    returns (end: StartEnd, ghost origin: nat, ghost child: int)
    requires |pointers| == |environ| && -1 !in os.open
    modifies os`trace, os`open, os`heap, os`faults, os`refused
    // refused as invalid exactly when it is; otherwise only when something went wrong
    ensures end == Refused(InvalidRequest) <==> !ValidShape(r) || !ValidEnvironment(r.env)
    ensures end == Refused(NoMemory) ==> os.refused > old(os.refused) || |environ| > SEQUENCE_LIMIT
    ensures end.Refused? && end.error.Sys? ==> os.faults > old(os.faults)
    ensures end.Refused? ==> end.error.InvalidRequest? || end.error.NoMemory? || end.error.Sys?
    ensures end.Stopped? ==> Failures(os.trace) > Failures(old(os.trace))
    ensures end.Started? ==> os.refused == old(os.refused) && |environ| <= SEQUENCE_LIMIT
    ensures SafeRun(os.trace, origin, child)
    ensures end.Refused? ==> os.open == old(os.open) && os.heap == old(os.heap) && GivenUp(os.trace, origin, child)
    ensures end.Started? ==> fresh(end.state) && Live(end.state, os) && AsRequested(end.state, r)
    ensures end.Started? ==> Rest(end.state, os) == old((os.open, os.heap))
    ensures end.Started? ==> origin == end.state.origin && child == end.state.child > 0
    ensures end == Refused(InvalidRequest) ==> os.trace == old(os.trace)
  {
    hide Blocks, NoRepeat, HeapPlus, Anchored, ReapSafe, AnchorSafe, Alive, Terminal, Struck, Scratch, Live, Wired, Housed,
      ProcessState.Supervised, AsRequested, ValidEnvironment, ValidShape, Calls, Others, OthersHeap, ProcessState.Sound;
    origin, child := 0, 0;
    if !ValidShape(r) {
      return Refused(InvalidRequest), origin, child;
    }
    var valid := CheckEnvironment(r.env);
    if !valid {
      return Refused(InvalidRequest), origin, child;
    }
    ghost var heap := os.heap;
    var built, v := BuildVectors(r, environ, pointers, os);
    if !built {
      FreeAll(os, heap, Scratch(v));
      return Refused(NoMemory), origin, child;
    }
    var copied, block, inputBlocks := BuildState(r, os, heap, Scratch(v));
    if block == 0 {
      FreeAll(os, heap, Scratch(v) + ([block] + inputBlocks));
      return Refused(NoMemory), origin, child;
    }
    LimitRange(r);
    end, origin, child := StartState(r, v, copied, block, inputBlocks, os, heap);
  }

  /** The part of a start that has a state to answer for. */
  method StartState(r: Request, v: Vectors, copied: bool, block: nat, inputBlocks: seq<nat>, os: Os, ghost heap: set<int>)
    returns (end: StartEnd, ghost origin: nat, ghost child: int)
    requires 0 <= r.maxOutput && ValidVectors(v) && HeapPlus(os, heap, Scratch(v) + ([block] + inputBlocks))
    requires -1 !in os.open
    modifies os`trace, os`open, os`heap, os`faults
    ensures end == Refused(NoMemory) ==> !copied
    ensures end.Refused? && end.error.Sys? ==> os.faults > old(os.faults)
    ensures end.Stopped? ==> Failures(os.trace) > Failures(old(os.trace))
    ensures end.Started? ==> copied
    ensures SafeRun(os.trace, origin, child)
    ensures end.Refused? ==> os.open == old(os.open) && os.heap == heap && GivenUp(os.trace, origin, child)
    ensures end.Refused? ==> end.error.Sys? || end.error.NoMemory?
    ensures end.Started? ==> fresh(end.state) && Live(end.state, os) && AsRequested(end.state, r)
    ensures end.Started? ==> Rest(end.state, os) == (old(os.open), heap)
    ensures end.Started? ==> origin == end.state.origin && child == end.state.child > 0
  {
    hide Blocks, NoRepeat, HeapPlus, Anchored, ReapSafe, AnchorSafe, Alive, Terminal, Struck, Scratch, Live, Wired, Housed,
      ProcessState.Supervised, AsRequested, Calls, Others, OthersHeap, ProcessState.Sound;
    var state := new ProcessState.Unforked(r.maxOutput, block);
    state.inputBlocks, state.input, state.wholeInput := inputBlocks, InputOf(r), InputOf(r);
    var error := Assemble(state, r, v, copied, os, heap);
    origin, child := state.origin, state.child;
    if error.None? {
      StartedParts(state, r, os);
      return Started(state), origin, child;
    }
    var dropped := Drop(state, os);
    end := if dropped.Released? then Refused(error.value) else Stopped;
  }

  lemma LimitRange(r: Request)
    requires ValidShape(r)
    ensures 0 <= r.maxOutput <= SEQUENCE_LIMIT
  {
  }

  lemma StartedParts(state: ProcessState, r: Request, os: Os)
    requires Live(state, os) && AsRequested(state, r)
    ensures SafeHistory(state, os) && state.child > 0
  {
  }

  // ----- waiting and terminating -----

  /** The program is stopped rather than lose a live child; a call that has not
      returned yet is pending. */
  datatype WaitEnd = Exited(outcome: Outcome) | WaitFailed(error: IoError) | WaitPending | WaitStopped

  datatype TerminateEnd = Terminated | TerminateFailed(error: IoError) | TerminatePending | TerminateStopped

  /** The outcome tells exactly what the child wrote, within the limit. */
  ghost predicate Faithful(outcome: Outcome, state: ProcessState, os: Os)
    reads state`transfers, state`stdoutFd, state`stderrFd, state`limit, os`io
  {
    && state.transfers <= |os.io|
    && outcome.stdout == Delivered(os.io[state.transfers..], state.stdoutFd)
    && outcome.stderr == Delivered(os.io[state.transfers..], state.stderrFd)
    && |outcome.stdout| + |outcome.stderr| <= state.limit
    && !(outcome.timedOut && outcome.cancelled)
  }

  lemma UsableParts(state: ProcessState, os: Os)
    requires Usable(state, os)
    ensures Droppable(state, os) && SafeHistory(state, os) && state.child > 0
  {
  }

  lemma CollectedOutcome(state: ProcessState, os: Os)
    requires Collected(state, os)
    ensures Usable(state, os) && state.ready && state.pid <= 0 && Faithful(state.outcome, state, os)
  {
  }

  lemma LiveNotReady(state: ProcessState, os: Os)
    requires Live(state, os)
    ensures Usable(state, os) && !state.ready
  {
  }

  /** Nothing of the state is left: what is open and allocated is what was so
      apart from it, and its child has been reaped or is known to be gone. */
  twostate predicate Vanished(state: ProcessState, os: Os)
    reads state, os
  {
    && os.open == old(Others(state, os)) && os.heap == old(OthersHeap(state, os))
    && state.child == old(state.child) && state.origin == old(state.origin)
    && GivenUp(os.trace, state.origin, state.child)
  }

  method Discard(state: ProcessState, os: Os) returns (end: CleanupEnd)
    requires Usable(state, os)
    modifies state`pid, state`signalled, state`terminalSignalled, state`inputFd, state`outputFd, state`errorFd,
      state`inputBlocks, state`block, os`trace, os`open, os`heap
    ensures SafeHistory(state, os)
    ensures end.Released? ==> Vanished(state, os)
    ensures end.Aborted? ==> state.pid > 0 && Failures(os.trace) > Failures(old(os.trace))
    ensures Failures(os.trace) >= Failures(old(os.trace))
    ensures old(state.pid) <= 0 ==> os.trace == old(os.trace) && state.signalled == old(state.signalled)
  {
    hide AnchorSafe, ReapSafe, Alive, Terminal, Struck, Calls, Strikes, Failures, Looks, Others, OthersHeap;
    UsableParts(state, os);
    end := Drop(state, os);
  }

  /** Waits for the child's end and hands over its outcome; the handle is used up
      whatever happens. */
  method Wait(state: ProcessState, deadline: Option<int>, os: Os, turns: nat) returns (end: WaitEnd)
    requires Live(state, os) || Collected(state, os)
    modifies state`pid, state`signalled, state`terminalSignalled, state`ready, state`inputFd, state`outputFd,
      state`errorFd, state`input, state`inputBlocks, state`block, state`sent, state`output, state`error, state`outcome,
      os`trace, os`open, os`io, os`heap, os`statuses, os`clock, os`faults, os`refused, os`broken, os`backlog
    ensures SafeHistory(state, os)
    ensures end.Exited? ==> Faithful(end.outcome, state, os)
    ensures end.Exited? && old(!state.ready) ==>
              var now := Record(state.signalled, end.outcome, os.trace, os.clock);
              Accounted(old(RecordOf(state, os)), now, deadline, false) && Dealt(old(RecordOf(state, os)), now, deadline, false)
    ensures end.WaitPending? ==> Accounted(old(RecordOf(state, os)), RecordOf(state, os), deadline, false)
    ensures end.WaitPending? && turns > 0 ==> Dealt(old(RecordOf(state, os)), RecordOf(state, os), deadline, false)
    ensures end.WaitFailed? ==> Explained(end.error, state, os, Trouble(os) - old(Trouble(os)),
              os.refused - old(os.refused), os.backlog - old(os.backlog))
    ensures end.Exited? || end.WaitFailed? ==> Vanished(state, os)
    ensures end.WaitPending? ==> Live(state, os) && Rest(state, os) == old(Rest(state, os))
    ensures end.WaitStopped? ==> state.pid > 0 && Trouble(os) > old(Trouble(os))
    ensures end.Exited? && old(!state.ready) ==> ReportsStatus(end.outcome, old(os.statuses), os)
    ensures end.Exited? && old(state.ready) ==> end.outcome == old(state.outcome)
  {
    hide Live, Collected, Usable, Others, OthersHeap, SafeHistory, GivenUp, Faithful, Accounted, Dealt, Explained,
      ReportsStatus, Failures, RecordOf;
    if state.ready {
      if Live(state, os) {
        LiveNotReady(state, os);
      }
      end := Deliver(state, os);
    } else {
      if Collected(state, os) {
        CollectedOutcome(state, os);
      }
      end := WaitRunning(state, deadline, os, turns);
    }
  }

  /** The outcome of a child that has been collected before. */
  method Deliver(state: ProcessState, os: Os) returns (end: WaitEnd)
    requires Collected(state, os)
    modifies state`pid, state`signalled, state`terminalSignalled, state`inputFd, state`outputFd, state`errorFd,
      state`inputBlocks, state`block, os`trace, os`open, os`heap
    ensures SafeHistory(state, os)
    ensures end == Exited(old(state.outcome))
    ensures Faithful(end.outcome, state, os) && Vanished(state, os)
    ensures os.trace == old(os.trace) && state.signalled == old(state.signalled)
  {
    hide Collected, Usable, AnchorSafe, ReapSafe, Alive, Others, OthersHeap, SafeHistory, Droppable, GivenUp, Delivered, Failures;
    CollectedOutcome(state, os);
    var outcome := state.outcome;
    var dropped := Discard(state, os);
    if dropped.Aborted? {
      return WaitStopped;
    }
    end := Exited(outcome);
  }

  method WaitRunning(state: ProcessState, deadline: Option<int>, os: Os, turns: nat) returns (end: WaitEnd)
    requires Live(state, os)
    modifies state`pid, state`signalled, state`terminalSignalled, state`ready, state`inputFd, state`outputFd,
      state`errorFd, state`input, state`inputBlocks, state`block, state`sent, state`output, state`error, state`outcome,
      os`trace, os`open, os`io, os`heap, os`statuses, os`clock, os`faults, os`refused, os`broken, os`backlog
    ensures SafeHistory(state, os)
    ensures end.Exited? ==> Faithful(end.outcome, state, os) && ReportsStatus(end.outcome, old(os.statuses), os)
    ensures end.Exited? ==>
              var now := Record(state.signalled, end.outcome, os.trace, os.clock);
              Accounted(old(RecordOf(state, os)), now, deadline, false) && Dealt(old(RecordOf(state, os)), now, deadline, false)
    ensures end.WaitPending? ==> Accounted(old(RecordOf(state, os)), RecordOf(state, os), deadline, false)
    ensures end.WaitPending? && turns > 0 ==> Dealt(old(RecordOf(state, os)), RecordOf(state, os), deadline, false)
    ensures end.WaitFailed? ==> Explained(end.error, state, os, Trouble(os) - old(Trouble(os)),
              os.refused - old(os.refused), os.backlog - old(os.backlog))
    ensures end.Exited? || end.WaitFailed? ==> Vanished(state, os)
    ensures end.WaitPending? ==> Live(state, os) && Rest(state, os) == old(Rest(state, os))
    ensures end.WaitStopped? ==> state.pid > 0 && Trouble(os) > old(Trouble(os))
  {
    hide Live, Collected, Usable, AnchorSafe, ReapSafe, Alive, Others, OthersHeap, SafeHistory, Droppable, GivenUp,
      Delivered, Strikes, Failures, Looks, Accounted, Dealt, Explained, Produced, ReportsStatus;
    var result := Pump(state, deadline, false, os, turns);
    if result.Pending? {
      LiveNotReady(state, os);
      UsableParts(state, os);
      return WaitPending;
    }
    if result.Completed? {
      end := Deliver(state, os);
    } else {
      end := GiveUp(state, result.error, os, old(Trouble(os)), os.refused - old(os.refused),
        os.backlog - old(os.backlog));
    }
  }

  /** A failed pump leaves nothing behind. */
  method GiveUp(state: ProcessState, error: IoError, os: Os, ghost before: int, ghost refusals: int, ghost queued: int)
    returns (end: WaitEnd)
    requires Usable(state, os) && Explained(error, state, os, Trouble(os) - before, refusals, queued)
    modifies state`pid, state`signalled, state`terminalSignalled, state`inputFd, state`outputFd, state`errorFd,
      state`inputBlocks, state`block, os`trace, os`open, os`heap
    ensures SafeHistory(state, os) && Trouble(os) >= old(Trouble(os))
    ensures end == WaitFailed(error) || end.WaitStopped?
    ensures end.WaitFailed? ==> Vanished(state, os)
    ensures end.WaitFailed? ==> Explained(error, state, os, Trouble(os) - before, refusals, queued)
    ensures end.WaitStopped? ==> state.pid > 0 && Failures(os.trace) > Failures(old(os.trace))
  {
    hide Usable, AnchorSafe, ReapSafe, Alive, Others, OthersHeap, SafeHistory, Droppable, GivenUp, Delivered, Failures, Explained;
    var dropped := Discard(state, os);
    ExplainedMore(error, state, os, old(Trouble(os)) - before, refusals, queued, Trouble(os) - before, refusals, queued);
    end := if dropped.Aborted? then WaitStopped else WaitFailed(error);
  }

  /** Stops a child whose end has not been collected. */
  method TerminateRunning(state: ProcessState, os: Os, turns: nat) returns (end: TerminateEnd)
    requires Live(state, os) && !state.ready
    modifies state`pid, state`signalled, state`terminalSignalled, state`ready, state`inputFd, state`outputFd,
      state`errorFd, state`input, state`inputBlocks, state`block, state`sent, state`output, state`error, state`outcome,
      os`trace, os`open, os`io, os`heap, os`statuses, os`clock, os`faults, os`refused, os`broken, os`backlog
    ensures SafeHistory(state, os)
    ensures end.Terminated? ==> Collected(state, os) && Rest(state, os) == old(Rest(state, os))
    ensures end.Terminated? ==>
              Accounted(old(RecordOf(state, os)), RecordOf(state, os), None, true) &&
              Dealt(old(RecordOf(state, os)), RecordOf(state, os), None, true)
    ensures end.TerminateFailed? ==> Vanished(state, os)
    ensures end.TerminateFailed? ==> Explained(end.error, state, os, Trouble(os) - old(Trouble(os)),
              os.refused - old(os.refused), os.backlog - old(os.backlog))
    ensures end.TerminatePending? ==> Live(state, os) && Rest(state, os) == old(Rest(state, os))
    ensures end.TerminateStopped? ==> state.pid > 0 && Trouble(os) > old(Trouble(os))
    ensures end.Terminated? ==> ReportsStatus(state.outcome, old(os.statuses), os)
  {
    hide Live, Collected, Usable, AnchorSafe, ReapSafe, Alive, Others, OthersHeap, SafeHistory, Droppable, GivenUp,
      Delivered, Strikes, Failures, Looks, Accounted, Dealt, Explained, Produced, ReportsStatus;
    var result := Pump(state, None, true, os, turns);
    if result.Failed? {
      var gone := GiveUp(state, result.error, os, old(Trouble(os)), os.refused - old(os.refused),
        os.backlog - old(os.backlog));
      return if gone.WaitStopped? then TerminateStopped else TerminateFailed(result.error);
    }
    if result.Completed? {
      CollectedOutcome(state, os);
      end := Terminated;
    } else {
      end := TerminatePending;
    }
    UsableParts(state, os);
  }

  /** Stops the child and collects its end; the handle stays usable on success
      and is inert after a failure. */
  method Terminate(state: ProcessState, os: Os, turns: nat) returns (end: TerminateEnd)
    requires Live(state, os) || Collected(state, os)
    modifies state`pid, state`signalled, state`terminalSignalled, state`ready, state`inputFd, state`outputFd,
      state`errorFd, state`input, state`inputBlocks, state`block, state`sent, state`output, state`error, state`outcome,
      os`trace, os`open, os`io, os`heap, os`statuses, os`clock, os`faults, os`refused, os`broken, os`backlog
    ensures SafeHistory(state, os)
    ensures end.Terminated? ==> Collected(state, os) && Rest(state, os) == old(Rest(state, os))
    ensures end.Terminated? && old(!state.ready) ==>
              Accounted(old(RecordOf(state, os)), RecordOf(state, os), None, true) &&
              Dealt(old(RecordOf(state, os)), RecordOf(state, os), None, true)
    ensures end.TerminateFailed? ==> Explained(end.error, state, os, Trouble(os) - old(Trouble(os)),
              os.refused - old(os.refused), os.backlog - old(os.backlog))
    ensures end.TerminateFailed? ==> Vanished(state, os)
    ensures end.TerminatePending? ==> Live(state, os) && Rest(state, os) == old(Rest(state, os))
    ensures end.TerminateStopped? ==> state.pid > 0 && Trouble(os) > old(Trouble(os))
    ensures end.Terminated? && old(!state.ready) ==> ReportsStatus(state.outcome, old(os.statuses), os)
    ensures end.Terminated? && old(state.ready) ==> state.outcome == old(state.outcome)
  {
    hide Live, Collected, Usable, AnchorSafe, ReapSafe, Alive, Others, OthersHeap, SafeHistory, Droppable, GivenUp,
      Delivered, Strikes, Failures, Looks, Accounted, Dealt, Explained, Produced, ReportsStatus, Rest, RecordOf, Trouble,
      Vanished;
    if Live(state, os) {
      LiveNotReady(state, os);
    } else {
      CollectedOutcome(state, os);
    }
    if state.ready {
      UsableParts(state, os);
      return Terminated;
    }
    end := TerminateRunning(state, os, turns);
  }

  // ----- every run -----

  datatype Action = WaitUntil(deadline: Option<int>, turns: nat) | Stop(turns: nat) | Release

  datatype Handle = NoChild | Running | Finished | Lost

  /** A client starts a child and then makes any calls in any order, each of them
      allowed to be arbitrarily slow. In every such run, whatever every system call
      answers, the child is signalled and reaped safely; and once the handle is used
      up and the program has not been stopped, nothing of the child remains. */
  method AnyRun(r: Request, environ: seq<seq<Byte>>, pointers: seq<nat>, script: seq<Action>, os: Os)
    returns (handle: Handle, ghost origin: nat, ghost child: int)
    requires |pointers| == |environ| && -1 !in os.open
    modifies os
    ensures SafeRun(os.trace, origin, child)
    ensures handle.NoChild? ==> os.open == old(os.open) && os.heap == old(os.heap) && GivenUp(os.trace, origin, child)
  {
    hide Live, Collected, Usable, AnchorSafe, ReapSafe, Alive, GivenUp, Rest, Wired, AsRequested;
    var started;
    started, origin, child := Start(r, environ, pointers, os);
    if started.Stopped? {
      return Lost, origin, child;
    }
    if started.Refused? {
      return NoChild, origin, child;
    }
    var state := started.state;
    ghost var open, heap := old(os.open), old(os.heap);
    handle := Running;
    var i := 0;
    while i < |script|
      modifies os, state
      invariant 0 <= i <= |script|
      invariant SafeRun(os.trace, origin, child)
      invariant handle.Running? ==> Live(state, os)
      invariant handle.Finished? ==> Collected(state, os)
      invariant handle.Running? || handle.Finished? ==>
          Rest(state, os) == (open, heap) && origin == state.origin && child == state.child
      invariant handle.NoChild? ==> os.open == open && os.heap == heap && GivenUp(os.trace, origin, child)
    {
      if handle.Running? || handle.Finished? {
        handle := Act(state, script[i], handle, os, open, heap);
      }
      i := i + 1;
    }
  }

  /** One call of the client. */
  method Act(state: ProcessState, action: Action, was: Handle, os: Os, ghost open: set<int>, ghost heap: set<int>)
    returns (handle: Handle)
    requires was.Running? || was.Finished?
    requires was.Running? ==> Live(state, os)
    requires was.Finished? ==> Collected(state, os)
    requires Rest(state, os) == (open, heap)
    modifies os, state
    ensures state.origin == old(state.origin) && state.child == old(state.child)
    ensures SafeRun(os.trace, state.origin, state.child)
    ensures handle.Running? ==> Live(state, os)
    ensures handle.Finished? ==> Collected(state, os)
    ensures handle.Running? || handle.Finished? ==> Rest(state, os) == (open, heap)
    ensures handle.NoChild? ==> os.open == open && os.heap == heap && GivenUp(os.trace, state.origin, state.child)
  {
    hide Live, Collected, Usable, AnchorSafe, ReapSafe, Alive, GivenUp, Others, OthersHeap;
    if was.Running? { LiveNotReady(state, os); } else { CollectedOutcome(state, os); }
    match action
    case WaitUntil(deadline, turns) =>
      var end := Wait(state, deadline, os, turns);
      handle := if end.WaitPending? then Running else if end.WaitStopped? then Lost else NoChild;
    case Stop(turns) =>
      var end := Terminate(state, os, turns);
      handle := match end
        case Terminated => Finished
        case TerminatePending => Running
        case TerminateFailed(_) => NoChild
        case TerminateStopped => Lost;
    case Release =>
      var end := Discard(state, os);
      handle := if end.Aborted? then Lost else NoChild;
  }
}
