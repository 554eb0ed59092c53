/** Driving a supervised child, one turn after another: looking at the child and at
    the clock, signalling it once its time has come, feeding its input, and capturing
    its output under one combined limit. */
module ProcessPump {
  import opened ProcessTrace
  import opened OperatingSystem
  import opened Resources
  import opened Supervisor

  datatype IoError = Sys(code: Errno) | CaptureLimit | Disappeared | NoMemory | ClockFailed | InertHandle | InvalidRequest

  const CHUNK: nat := 8192

  /** An open field names its original descriptor, which is open. */
  ghost predicate Held(fd: int, original: int, open: set<int>) {
    fd == -1 || (fd >= 0 && fd == original && fd in open)
  }

  ghost predicate Wired(state: ProcessState, os: Os)
    reads state`inputFd, state`outputFd, state`errorFd, state`stdinFd, state`stdoutFd, state`stderrFd, os`open
  {
    && -1 !in os.open
    && Held(state.inputFd, state.stdinFd, os.open)
    && Held(state.outputFd, state.stdoutFd, os.open)
    && Held(state.errorFd, state.stderrFd, os.open)
    && (state.stdinFd >= 0 ==> state.stdinFd != state.stdoutFd && state.stdinFd != state.stderrFd)
    && (state.stdoutFd >= 0 ==> state.stdoutFd != state.stderrFd)
  }

  /** The descriptors open in this process that are not this child's. */
  ghost function Others(state: ProcessState, os: Os): set<int>
    reads state`inputFd, state`outputFd, state`errorFd, os`open
  {
    os.open - {state.inputFd, state.outputFd, state.errorFd}
  }

  /** What a descriptor that may not exist has delivered. */
  ghost function Delivered(io: seq<Transfer>, fd: int): seq<Byte> {
    if fd >= 0 then BytesIn(io, fd) else []
  }

  /** Captured bytes are exactly the bytes read and stay within the limit; sent
      bytes are exactly a prefix of the input. */
  ghost predicate Ledger(state: ProcessState, os: Os)
    reads state`transfers, state`output, state`error, state`limit, state`sent, state`wholeInput,
      state`stdinFd, state`stdoutFd, state`stderrFd, os`io
  {
    && state.transfers <= |os.io|
    && var io := os.io[state.transfers..];
    && state.output == Delivered(io, state.stdoutFd)
    && state.error == Delivered(io, state.stderrFd)
    && |state.output| + |state.error| <= state.limit
    && state.sent <= |state.wholeInput|
    && (state.stdinFd >= 0 ==> BytesOut(io, state.stdinFd) == state.wholeInput[..state.sent])
  }

  /** The blocks of the state: itself and its copy of the input. */
  function Memory(state: ProcessState): seq<nat>
    reads state`block, state`inputBlocks
  {
    [state.block] + state.inputBlocks
  }

  /** The heap apart from the state's blocks, each of which it holds once. */
  ghost predicate Housed(state: ProcessState, os: Os)
    reads state`block, state`inputBlocks, os`heap
  {
    HeapPlus(os, OthersHeap(state, os), Memory(state))
  }

  ghost function OthersHeap(state: ProcessState, os: Os): set<int>
    reads state`block, state`inputBlocks, os`heap
  {
    os.heap - Blocks(Memory(state))
  }

  /** What holds of a state whatever has happened to its child, so that it can
      always be cleaned up. */
  ghost predicate Usable(state: ProcessState, os: Os)
    reads state`pid, state`signalled, state`terminalSignalled, state`child, state`origin, state`inputFd, state`outputFd, state`errorFd,
      state`stdinFd, state`stdoutFd, state`stderrFd, state`block, state`inputBlocks, os`trace, os`open, os`heap
  {
    state.Supervised(os) && Wired(state, os) && Housed(state, os)
  }

  /** Everything open or allocated that is not this state's. */
  ghost function Rest(state: ProcessState, os: Os): (set<int>, set<int>)
    reads state`inputFd, state`outputFd, state`errorFd, state`block, state`inputBlocks, os`open, os`heap
  {
    (Others(state, os), OthersHeap(state, os))
  }

  /** The input is given up only once all of it was sent, its reader has gone, or the
      child has been signalled. */
  ghost predicate InputKept(state: ProcessState, os: Os)
    reads state`inputFd, state`stdinFd, state`sent, state`wholeInput, state`signalled, os`broken
  {
    state.stdinFd >= 0 && state.inputFd < 0 ==>
      state.sent == |state.wholeInput| || state.stdinFd in os.broken || state.signalled
  }

  // ----- what happened since -----

  /** What a record has gained. */
  ghost function Since<T>(before: seq<T>, now: seq<T>): seq<T> {
    if before <= now then now[|before|..] else []
  }

  lemma SinceTwice<T>(before: seq<T>, mid: seq<T>, now: seq<T>)
    requires before <= mid <= now
    ensures before <= now && Since(before, now) == Since(before, mid) + Since(mid, now)
  {
  }

  lemma Gained(before: seq<bool>, x: bool, now: seq<bool>)
    requires before + [x] <= now
    ensures before <= now && x in Since(before, now)
    ensures now == before + [x] ==> Since(before, now) == [x]
  {
    assert Since(before, now)[0] == x;
  }

  /** Calls that did not do what was asked of them. */
  ghost function Trouble(os: Os): nat
    reads os`trace, os`faults
  {
    Failures(os.trace) + os.faults
  }

  /** One of these answers of the clock is at or past the deadline. */
  ghost predicate Past(answers: seq<Option<int>>, deadline: Option<int>) {
    deadline.Some? && exists i | 0 <= i < |answers| :: answers[i].Some? && answers[i].value >= deadline.value
  }

  /** The child's time has come: its exit was seen, the deadline has passed by the
      clock, or it is to be stopped. */
  ghost predicate Due(looks: seq<bool>, answers: seq<Option<int>>, deadline: Option<int>, cancel: bool) {
    true in looks || Past(answers, deadline) || cancel
  }

  lemma PastEither(a: seq<Option<int>>, b: seq<Option<int>>, deadline: Option<int>)
    ensures Past(a + b, deadline) <==> Past(a, deadline) || Past(b, deadline)
  {
    if Past(a, deadline) {
      var i :| 0 <= i < |a| && a[i].Some? && a[i].value >= deadline.value;
      assert (a + b)[i] == a[i];
    }
    if Past(b, deadline) {
      var i :| 0 <= i < |b| && b[i].Some? && b[i].value >= deadline.value;
      assert (a + b)[|a| + i] == b[i];
    }
  }

  /** All that was delivered for capture. */
  ghost function Produced(state: ProcessState, os: Os): nat
    reads state`transfers, state`stdoutFd, state`stderrFd, os`io
  {
    if state.transfers <= |os.io| then
      var io := os.io[state.transfers..];
      |Delivered(io, state.stdoutFd)| + |Delivered(io, state.stderrFd)|
    else 0
  }

  /** A running child between two calls of the pump. */
  ghost predicate Live(state: ProcessState, os: Os)
    reads state, os`trace, os`open, os`heap, os`io, os`broken
  {
    && Usable(state, os) && Ledger(state, os)
    && !state.ready && state.input == state.wholeInput
    && state.pid > 0 && InputKept(state, os)
    && !(state.outcome.timedOut && state.outcome.cancelled)
    && (!state.signalled ==> !state.outcome.timedOut && !state.outcome.cancelled)
    && state.outcome.stdout == [] && state.outcome.stderr == []
  }

  /** A child whose end has been collected: its outcome holds exactly what it
      wrote. */
  ghost predicate Collected(state: ProcessState, os: Os)
    reads state, os`trace, os`open, os`heap, os`io
  {
    && Usable(state, os) && state.ready && state.pid <= 0
    && state.inputFd == -1 && state.outputFd == -1 && state.errorFd == -1
    && state.transfers <= |os.io|
    && state.outcome.stdout == Delivered(os.io[state.transfers..], state.stdoutFd)
    && state.outcome.stderr == Delivered(os.io[state.transfers..], state.stderrFd)
    && |state.outcome.stdout| + |state.outcome.stderr| <= state.limit
    && !(state.outcome.timedOut && state.outcome.cancelled)
  }

  lemma TransferStep(state: ProcessState, io: seq<Transfer>, t: Transfer, fd: int)
    requires state.transfers <= |io|
    ensures (io + [t])[state.transfers..] == io[state.transfers..] + [t]
    ensures BytesIn((io + [t])[state.transfers..], fd) ==
            BytesIn(io[state.transfers..], fd) + if t.Received? && t.fd == fd then t.bytes else []
    ensures BytesOut((io + [t])[state.transfers..], fd) ==
            BytesOut(io[state.transfers..], fd) + if t.Sent? && t.fd == fd then t.bytes else []
  {
    assert (io + [t])[state.transfers..] == io[state.transfers..] + [t];
    BytesStep(io[state.transfers..], t, fd);
  }

  // ----- descriptors -----

  method CloseInput(state: ProcessState, os: Os)
    requires Wired(state, os)
    modifies state`inputFd, os`open
    ensures Wired(state, os) && state.inputFd == -1
    ensures Others(state, os) == old(Others(state, os))
  {
    if state.inputFd >= 0 {
      os.Close(state.inputFd);
      state.inputFd := -1;
    }
  }

  method CloseOutput(state: ProcessState, os: Os)
    requires Wired(state, os)
    modifies state`outputFd, os`open
    ensures Wired(state, os) && state.outputFd == -1
    ensures Others(state, os) == old(Others(state, os))
  {
    if state.outputFd >= 0 {
      os.Close(state.outputFd);
      state.outputFd := -1;
    }
  }

  method CloseError(state: ProcessState, os: Os)
    requires Wired(state, os)
    modifies state`errorFd, os`open
    ensures Wired(state, os) && state.errorFd == -1
    ensures Others(state, os) == old(Others(state, os))
  {
    if state.errorFd >= 0 {
      os.Close(state.errorFd);
      state.errorFd := -1;
    }
  }

  // ----- capturing output -----

  datatype Side = Out | Err

  function FdOf(state: ProcessState, side: Side): int
    reads state
  {
    if side.Out? then state.outputFd else state.errorFd
  }

  function Used(state: ProcessState): nat
    reads state`output, state`error
  {
    |state.output| + |state.error|
  }

  lemma LiveParts(state: ProcessState, os: Os)
    requires Live(state, os)
    ensures Usable(state, os) && state.pid > 0
    ensures -1 <= state.outputFd && -1 <= state.errorFd
    ensures state.outputFd >= 0 ==> state.outputFd in os.open
    ensures state.errorFd >= 0 ==> state.errorFd in os.open
    ensures Used(state) <= state.limit
    ensures !state.signalled ==> !state.outcome.timedOut && !state.outcome.cancelled
  {
  }

  method CloseSide(state: ProcessState, side: Side, os: Os)
    requires Live(state, os)
    modifies state`outputFd, state`errorFd, os`open
    ensures Live(state, os) && FdOf(state, side) == -1
    ensures side.Out? ==> state.errorFd == old(state.errorFd)
    ensures side.Err? ==> state.outputFd == old(state.outputFd)
    ensures Rest(state, os) == old(Rest(state, os))
  {
    hide Housed, BytesIn, BytesOut, Anchored, ReapSafe, Terminal, Struck, Ledger, ProcessState.Supervised;
    if side.Out? {
      CloseOutput(state, os);
    } else {
      CloseError(state, os);
    }
  }

  /** Appends freshly read bytes to one buffer; the ledger follows the transfer. */
  method Store(state: ProcessState, side: Side, bytes: seq<Byte>, os: Os, ghost before: seq<Transfer>)
    requires FdOf(state, side) >= 0
    requires FdOf(state, side) == if side.Out? then state.stdoutFd else state.stderrFd
    requires state.stdoutFd != state.stderrFd
    requires state.transfers <= |before| && os.io == before + [Received(FdOf(state, side), bytes)]
    requires Used(state) + |bytes| <= state.limit
    requires state.output == Delivered(before[state.transfers..], state.stdoutFd)
    requires state.error == Delivered(before[state.transfers..], state.stderrFd)
    requires state.sent <= |state.wholeInput|
    requires state.stdinFd >= 0 ==> BytesOut(before[state.transfers..], state.stdinFd) == state.wholeInput[..state.sent]
    modifies state`output, state`error
    ensures Ledger(state, os) && Used(state) == old(Used(state)) + |bytes|
  {
    hide Housed, BytesIn, BytesOut;
    ghost var t := Received(FdOf(state, side), bytes);
    TransferStep(state, before, t, state.stdoutFd);
    TransferStep(state, before, t, state.stderrFd);
    TransferStep(state, before, t, state.stdinFd);
    if side.Out? {
      state.output := state.output + bytes;
    } else {
      state.error := state.error + bytes;
    }
  }

  /** A failure that is reported has a cause on record: a call that failed, memory
      that was refused, output beyond the limit, or queued output that was not
      there. */
  ghost predicate Explained(error: IoError, state: ProcessState, os: Os, troubles: int, refusals: int, queued: int)
    reads state`transfers, state`stdoutFd, state`stderrFd, state`limit, os`io
  {
    match error
    case Sys(_) => troubles > 0
    case ClockFailed => troubles > 0
    case NoMemory => refusals > 0
    case CaptureLimit => Produced(state, os) + queued > state.limit
    case Disappeared => os.io != [] && os.io[|os.io| - 1].Received? && os.io[|os.io| - 1].bytes == []
    case _ => false
  }

  /** Bytes that do not fit make what was delivered exceed the limit. */
  lemma OverLimit(state: ProcessState, side: Side, bytes: seq<Byte>, os: Os, before: seq<Transfer>)
    requires FdOf(state, side) >= 0
    requires FdOf(state, side) == if side.Out? then state.stdoutFd else state.stderrFd
    requires state.transfers <= |before| && os.io == before + [Received(FdOf(state, side), bytes)]
    requires state.output == Delivered(before[state.transfers..], state.stdoutFd)
    requires state.error == Delivered(before[state.transfers..], state.stderrFd)
    requires Used(state) + |bytes| > state.limit
    ensures Produced(state, os) > state.limit
  {
    hide BytesIn, BytesOut;
    var t := Received(FdOf(state, side), bytes);
    TransferStep(state, before, t, state.stdoutFd);
    TransferStep(state, before, t, state.stderrFd);
  }

  datatype Taken = ReadFailed(code: Errno) | Nothing | Stored(count: nat) | TooMuch | OutOfMemory

  /** Reads once and appends what came in, if it fits the combined limit. */
  method TakeBytes(state: ProcessState, side: Side, amount: nat, os: Os) returns (taken: Taken)
    requires Live(state, os) && FdOf(state, side) >= 0 && amount > 0
    modifies state`output, state`error, os`io, os`faults, os`refused
    ensures Usable(state, os)
    ensures os.faults == old(os.faults) + if taken.ReadFailed? then 1 else 0
    ensures os.refused == old(os.refused) + if taken.OutOfMemory? then 1 else 0
    ensures taken.TooMuch? ==> Produced(state, os) > state.limit && Used(state) + amount > state.limit
    ensures taken.Nothing? ==> os.io == old(os.io) + [Received(FdOf(state, side), [])]
    ensures taken.ReadFailed? || taken.Nothing? || taken.Stored? ==> Live(state, os)
    ensures taken.ReadFailed? || taken.Nothing? ==> Used(state) == old(Used(state))
    ensures taken.Stored? ==> 0 < taken.count <= amount && Used(state) == old(Used(state)) + taken.count
  {
    hide Housed, BytesIn, BytesOut, Produced, ProcessState.Supervised;
    ghost var before := os.io;
    var failure, bytes := os.Read(FdOf(state, side), amount);
    if failure.Some? {
      assert os.io == before;
      return ReadFailed(failure.value);
    }
    if |bytes| == 0 {
      Store(state, side, bytes, os, before);
      return Nothing;
    }
    var used: nat := |state.output| + |state.error|;
    var room: nat := state.limit - used;
    if |bytes| > room {
      OverLimit(state, side, bytes, os, before);
      return TooMuch;
    }
    var enough := os.CanAllocate();
    if !enough {
      return OutOfMemory;
    }
    Store(state, side, bytes, os, before);
    return Stored(|bytes|);
  }

  /** One read from a ready descriptor. While draining, remaining is the count of
      bytes still queued on it; the combined count never grows. */
  method ReadOutput(state: ProcessState, side: Side, remaining: Option<nat>, os: Os)
    returns (ok: bool, left: Option<nat>, error: IoError)
    requires Live(state, os) && FdOf(state, side) >= 0
    requires remaining.Some? ==> Used(state) + remaining.value <= state.limit
    modifies state`outputFd, state`errorFd, state`output, state`error, os`open, os`io, os`faults, os`refused
    ensures Usable(state, os)
    ensures ok ==> Live(state, os)
    ensures os.faults >= old(os.faults) && os.refused >= old(os.refused)
    ensures !ok ==> Explained(error, state, os, os.faults - old(os.faults), os.refused - old(os.refused), 0)
    ensures side.Out? ==> state.errorFd == old(state.errorFd)
    ensures side.Err? ==> state.outputFd == old(state.outputFd)
    ensures Rest(state, os) == old(Rest(state, os))
    ensures left.Some? <==> remaining.Some?
    ensures ok && remaining.Some? ==> Used(state) + left.value == old(Used(state)) + remaining.value
  {
    hide Usable, Rest, Live, Wired, Housed, ProcessState.Supervised;
    LiveParts(state, os);
    left, error := remaining, NoMemory;
    var amount := CHUNK;
    if remaining.Some? && remaining.value < amount {
      amount := remaining.value;
    }
    if amount == 0 {
      CloseSide(state, side, os);
      LiveParts(state, os);
      return true, left, error;
    }
    var taken := TakeBytes(state, side, amount, os);
    match taken
    case ReadFailed(code) =>
      ok := code.EINTR? || (remaining.None? && code.EAGAIN?);
      error := Sys(code);
    case Nothing =>
      if remaining.Some? && remaining.value != 0 {
        return false, left, Disappeared;
      }
      CloseSide(state, side, os);
      LiveParts(state, os);
      ok := true;
    case TooMuch =>
      return false, left, CaptureLimit;
    case OutOfMemory =>
      return false, left, NoMemory;
    case Stored(count) =>
      if remaining.Some? {
        var rest: nat := remaining.value - count;
        left := Some(rest);
        if rest == 0 {
          CloseSide(state, side, os);
          LiveParts(state, os);
        }
      }
      ok := true;
  }

  /** How much is queued on a descriptor; nothing on a closed one. */
  method Queued(fd: int, os: Os) returns (failure: Option<Errno>, remaining: nat)
    requires fd >= 0 ==> fd in os.open
    modifies os`faults, os`backlog
    ensures os.faults == old(os.faults) + if failure.Some? then 1 else 0
    ensures os.backlog == old(os.backlog) + remaining
  {
    if fd < 0 {
      return None, 0;
    }
    var count;
    failure, count := os.QueuedBytes(fd);
    if failure.Some? {
      return failure, 0;
    }
    if count < 0 {
      return Some(EIO), 0;
    }
    remaining := count;
  }

  /** One write to a ready input descriptor. */
  method FeedInput(state: ProcessState, os: Os) returns (ok: bool, error: IoError)
    requires Live(state, os) && state.inputFd >= 0
    modifies state`inputFd, state`sent, os`open, os`io, os`faults, os`broken
    ensures Usable(state, os)
    ensures ok ==> Live(state, os)
    ensures os.faults >= old(os.faults)
    ensures !ok ==> error.Sys? && os.faults > old(os.faults)
    ensures state.inputFd == old(state.inputFd) || state.inputFd == -1
    ensures Rest(state, os) == old(Rest(state, os))
  {
    hide Housed, BytesIn, BytesOut, AnchorSafe, ReapSafe, Alive, Terminal, Struck;
    error := NoMemory;
    var remaining: nat := |state.input| - state.sent;
    var amount := if remaining < CHUNK then remaining else CHUNK;
    ghost var before := os.io;
    var data := state.input[state.sent..state.sent + amount];
    var failure, count := os.Write(state.inputFd, data);
    if failure.Some? {
      assert os.io == before;
      if failure.value.EPIPE? {
        CloseInput(state, os);
      } else if !failure.value.EINTR? && !failure.value.EAGAIN? {
        return false, Sys(failure.value);
      }
      return true, error;
    }
    ghost var t := Sent(state.inputFd, data[..count]);
    TransferStep(state, before, t, state.stdinFd);
    TransferStep(state, before, t, state.stdoutFd);
    TransferStep(state, before, t, state.stderrFd);
    assert state.wholeInput[..state.sent] + data[..count] == state.wholeInput[..state.sent + count];
    if count == 0 {
      return false, Sys(EIO);
    }
    state.sent := state.sent + count;
    ok := true;
  }

  // ----- the end of the child -----

  /** Hands the captured buffers over to the outcome. */
  method TakeCaptured(state: ProcessState, os: Os) returns (ok: bool)
    requires state.outcome.stdout == [] && state.outcome.stderr == []
    modifies state`output, state`error, state`outcome, os`refused
    ensures os.refused == old(os.refused) + if ok then 0 else 1
    ensures state.outcome.timedOut == old(state.outcome.timedOut)
    ensures state.outcome.cancelled == old(state.outcome.cancelled)
    ensures ok ==> state.outcome.stdout == old(state.output) && state.outcome.stderr == old(state.error)
    ensures state.outcome.exitCode == old(state.outcome.exitCode)
  {
    if state.output != [] {
      var enough := os.CanAllocate();
      if !enough {
        return false;
      }
      state.outcome := state.outcome.(stdout := state.output);
      state.output := [];
    }
    if state.error != [] {
      var enough := os.CanAllocate();
      if !enough {
        return false;
      }
      state.outcome := state.outcome.(stderr := state.error);
      state.error := [];
    }
    ok := true;
  }

  /** Gives the input copy back. */
  method DropInput(state: ProcessState, os: Os)
    requires Housed(state, os)
    modifies state`inputBlocks, os`heap
    ensures Housed(state, os) && state.inputBlocks == []
    ensures OthersHeap(state, os) == old(OthersHeap(state, os))
  {
    SplitHeap(os, OthersHeap(state, os), [state.block], state.inputBlocks);
    FreeAll(os, OthersHeap(state, os) + Blocks([state.block]), state.inputBlocks);
    state.inputBlocks := [];
    assert Memory(state) == [state.block];
  }

  /** Closes the input and gives its copy back. */
  method ReleaseInput(state: ProcessState, os: Os)
    requires Usable(state, os)
    modifies state`inputFd, state`input, state`inputBlocks, os`open, os`heap
    ensures Usable(state, os) && state.inputFd == -1
    ensures Rest(state, os) == old(Rest(state, os))
  {
    hide Blocks, HeapPlus, Anchored, ReapSafe, Terminal, Struck;
    CloseInput(state, os);
    DropInput(state, os);
    state.input := [];
  }

  lemma LiveLedger(state: ProcessState, os: Os)
    requires Live(state, os)
    ensures state.transfers <= |os.io|
    ensures state.output == Delivered(os.io[state.transfers..], state.stdoutFd)
    ensures state.error == Delivered(os.io[state.transfers..], state.stderrFd)
    ensures !(state.outcome.timedOut && state.outcome.cancelled)
    ensures state.outcome.stdout == [] && state.outcome.stderr == []
  {
  }

  method ReapFinished(state: ProcessState, os: Os) returns (failure: Option<Errno>)
    requires Usable(state, os) && state.pid > 0 && state.terminalSignalled
    modifies state`pid, os`trace
    ensures Usable(state, os) && Rest(state, os) == old(Rest(state, os))
    ensures failure.None? ==> state.pid <= 0
    ensures Failures(os.trace) == Failures(old(os.trace)) + if failure.Some? then 1 else 0
    ensures Looks(os.trace) == Looks(old(os.trace)) && Strikes(os.trace) == Strikes(old(os.trace))
  {
    hide Housed, Wired, Anchored, ReapSafe, Terminal, Struck, Calls, Strikes, Failures, Looks;
    failure := CleanupReap(state, os);
  }

  /** The code a shell would report. */
  function ExitCode(status: ExitStatus): int {
    match status
    case ExitedWith(code) => code
    case KilledBy(signal) => 128 + signal
  }

  /** The outcome's code is that of the one status asked for since. */
  ghost predicate ReportsStatus(outcome: Outcome, before: seq<ExitStatus>, os: Os)
    reads os`statuses
  {
    |os.statuses| == |before| + 1 && os.statuses[..|before|] == before &&
    outcome.exitCode == ExitCode(os.statuses[|before|])
  }

  /** Puts the exit status and the captured bytes into the outcome. */
  method FillOutcome(state: ProcessState, os: Os) returns (ok: bool)
    requires state.outcome.stdout == [] && state.outcome.stderr == []
    modifies state`output, state`error, state`outcome, os`statuses, os`refused
    ensures os.refused == old(os.refused) + if ok then 0 else 1
    ensures state.outcome.timedOut == old(state.outcome.timedOut)
    ensures state.outcome.cancelled == old(state.outcome.cancelled)
    ensures ok ==> state.outcome.stdout == old(state.output) && state.outcome.stderr == old(state.error)
    ensures ok ==> ReportsStatus(state.outcome, old(os.statuses), os)
  {
    var exited, code := os.Status();
    state.outcome := state.outcome.(exitCode := if exited then code else 128 + code);
    ok := TakeCaptured(state, os);
  }

  /** Reaps the exited child and moves the captured bytes into its outcome. */
  method Finish(state: ProcessState, os: Os) returns (ok: bool, error: IoError)
    requires Live(state, os) && state.pid > 0 && state.terminalSignalled
    requires state.outputFd == -1 && state.errorFd == -1
    modifies state`pid, state`outcome, state`output, state`error, state`inputFd, state`input, state`inputBlocks,
      state`ready, os`trace, os`open, os`heap, os`statuses, os`refused
    ensures Usable(state, os)
    ensures ok ==> Collected(state, os)
    ensures Trouble(os) >= old(Trouble(os)) && os.refused >= old(os.refused)
    ensures !ok ==> Explained(error, state, os, Trouble(os) - old(Trouble(os)), os.refused - old(os.refused), 0)
    ensures Looks(os.trace) == Looks(old(os.trace)) && Strikes(os.trace) == Strikes(old(os.trace))
    ensures Rest(state, os) == old(Rest(state, os))
    ensures state.outcome.timedOut == old(state.outcome.timedOut)
    ensures state.outcome.cancelled == old(state.outcome.cancelled)
    ensures ok ==> ReportsStatus(state.outcome, old(os.statuses), os)
  {
    hide Usable, Rest, Live, Delivered, Collected, Wired, Housed, ProcessState.Supervised, Strikes, Failures, Looks,
      Produced, ReportsStatus;
    LiveParts(state, os);
    LiveLedger(state, os);
    error := NoMemory;
    var failure := ReapFinished(state, os);
    if failure.Some? {
      return false, Sys(failure.value);
    }
    ok := Settle(state, os);
  }

  /** What is left to do for a child that has been reaped. */
  method Settle(state: ProcessState, os: Os) returns (ok: bool)
    requires Usable(state, os) && state.pid <= 0
    requires state.outputFd == -1 && state.errorFd == -1 && state.transfers <= |os.io|
    requires state.output == Delivered(os.io[state.transfers..], state.stdoutFd)
    requires state.error == Delivered(os.io[state.transfers..], state.stderrFd)
    requires Used(state) <= state.limit && !(state.outcome.timedOut && state.outcome.cancelled)
    requires state.outcome.stdout == [] && state.outcome.stderr == []
    modifies state`outcome, state`output, state`error, state`inputFd, state`input, state`inputBlocks,
      state`ready, os`open, os`heap, os`statuses, os`refused
    ensures Usable(state, os) && Rest(state, os) == old(Rest(state, os))
    ensures ok ==> Collected(state, os) && ReportsStatus(state.outcome, old(os.statuses), os)
    ensures os.refused == old(os.refused) + if ok then 0 else 1
    ensures state.outcome.timedOut == old(state.outcome.timedOut) && state.outcome.cancelled == old(state.outcome.cancelled)
  {
    hide Usable, Rest, Delivered, Collected, ReportsStatus;
    ok := FillOutcome(state, os);
    if !ok {
      return;
    }
    ReleaseInput(state, os);
    state.ready := true;
    CollectedParts(state, os);
  }

  lemma CollectedParts(state: ProcessState, os: Os)
    requires Usable(state, os) && state.ready && state.pid <= 0
    requires state.inputFd == -1 && state.outputFd == -1 && state.errorFd == -1
    requires state.transfers <= |os.io|
    requires state.outcome.stdout == Delivered(os.io[state.transfers..], state.stdoutFd)
    requires state.outcome.stderr == Delivered(os.io[state.transfers..], state.stderrFd)
    requires |state.outcome.stdout| + |state.outcome.stderr| <= state.limit
    requires !(state.outcome.timedOut && state.outcome.cancelled)
    ensures Collected(state, os)
  {
  }

  datatype PumpEnd = Completed | Failed(error: IoError) | Pending

  /** What a turn of the pump knows about draining: nothing is queued beyond what
      the limit still allows. */
  ghost predicate Drained(state: ProcessState, draining: bool, outputLeft: nat, errorLeft: nat)
    reads state`output, state`error, state`limit, state`terminalSignalled
  {
    draining ==> state.terminalSignalled && Used(state) + outputLeft + errorLeft <= state.limit
  }

  /** Has the deadline passed, and how long to wait for events otherwise: one to ten
      milliseconds, to the deadline if it is nearer, and less than one beyond it. */
  method CheckDeadline(deadline: int, os: Os) returns (ok: bool, expired: bool, timeout: int)
    modifies os`clock, os`faults
    ensures 1 <= timeout <= 10
    ensures old(os.clock) <= os.clock && |os.clock| == |old(os.clock)| + 1
    ensures os.faults == old(os.faults) + if ok then 0 else 1
    ensures var now := os.clock[|old(os.clock)|];
      && (ok <==> now.Some?)
      && (ok ==> (expired <==> deadline <= now.value))
      && (ok && !expired ==> timeout == 10 || now.value + timeout * 1_000_000 >= deadline)
      && (ok && !expired ==> now.value + (timeout - 1) * 1_000_000 < deadline)
  {
    timeout, expired := 10, false;
    var read := os.Clock();
    if read.None? {
      return false, expired, timeout;
    }
    expired := deadline <= read.value;
    if !expired {
      var remaining := deadline - read.value;
      if remaining < 10000000 {
        timeout := (remaining + 999999) / 1000000;
      }
    }
    ok := true;
  }

  /** The one signal of a run: on an observed exit, an expired deadline or a
      cancellation. A fresh observation of the exit wins over the other two. */
  method SignalOnce(state: ProcessState, expired: bool, cancel: bool, os: Os)
    returns (failure: Option<Errno>, exited: bool)
    requires Live(state, os) && !state.signalled && !(expired && cancel)
    modifies state`pid, state`signalled, state`terminalSignalled, state`outcome, state`inputFd, os`trace, os`open
    ensures Usable(state, os)
    ensures Rest(state, os) == old(Rest(state, os))
    ensures failure.None? ==> Live(state, os) && state.pid > 0
    ensures old(state.terminalSignalled) ==> state.terminalSignalled
    ensures failure.None? ==> (state.outcome.timedOut <==> expired && !exited)
    ensures failure.None? ==> (state.outcome.cancelled <==> cancel && !exited)
    ensures failure.Some? ==> state.outcome == old(state.outcome)
    ensures failure.None? ==> state.signalled && Looks(os.trace) == Looks(old(os.trace)) + [exited]
    ensures failure.Some? ==> Failures(os.trace) > Failures(old(os.trace))
    ensures Failures(os.trace) >= Failures(old(os.trace)) && Looks(old(os.trace)) <= Looks(os.trace)
  {
    hide Housed, Delivered, BytesOut, ProcessState.Supervised, Strikes, Failures, Looks;
    failure, exited := SignalOwnedLive(state, os);
    if failure.Some? {
      return;
    }
    state.outcome := state.outcome.(timedOut := !exited && expired, cancelled := !exited && cancel);
    CloseInput(state, os);
  }

  method SignalOwnedLive(state: ProcessState, os: Os) returns (failure: Option<Errno>, exited: bool)
    requires Live(state, os)
    modifies state`pid, state`signalled, state`terminalSignalled, os`trace
    ensures Usable(state, os)
    ensures Rest(state, os) == old(Rest(state, os))
    ensures old(state.terminalSignalled) ==> state.terminalSignalled
    ensures failure.None? ==> Live(state, os) && state.signalled && state.pid > 0
    ensures failure.None? ==> Looks(os.trace) == Looks(old(os.trace)) + [exited]
    ensures failure.Some? ==> Failures(os.trace) > Failures(old(os.trace))
    ensures Failures(os.trace) >= Failures(old(os.trace)) && Looks(old(os.trace)) <= Looks(os.trace)
  {
    hide Housed, Delivered, BytesOut, Anchored, ReapSafe, Terminal, Struck, Calls, Strikes, Failures, Looks;
    failure, exited := SignalOwned(state, os);
  }

  method SignalTerminalLive(state: ProcessState, os: Os) returns (failure: Option<Errno>)
    requires Live(state, os) && state.pid > 0
    modifies state`pid, state`terminalSignalled, os`trace
    ensures Usable(state, os)
    ensures Rest(state, os) == old(Rest(state, os))
    ensures failure.None? ==> Live(state, os) && state.terminalSignalled && state.pid > 0
    ensures old(state.terminalSignalled) ==> failure.None? && os.trace == old(os.trace)
    ensures failure.None? && !old(state.terminalSignalled) ==> Looks(os.trace) == Looks(old(os.trace)) + [true]
    ensures failure.Some? ==> Failures(os.trace) > Failures(old(os.trace))
    ensures Failures(os.trace) >= Failures(old(os.trace)) && Looks(old(os.trace)) <= Looks(os.trace)
  {
    hide Housed, BytesIn, BytesOut, Anchored, ReapSafe, Terminal, Struck, Calls, Strikes, Failures, Looks;
    failure := SignalTerminal(state, os);
  }

  /** Counts what is queued on both outputs and checks it against the limit; the
      subtractions cannot go below zero. */
  method MeasureQueues(state: ProcessState, os: Os) returns (error: Option<IoError>, outputLeft: nat, errorLeft: nat)
    requires state.outputFd >= 0 ==> state.outputFd in os.open
    requires state.errorFd >= 0 ==> state.errorFd in os.open
    requires Used(state) <= state.limit
    modifies os`faults, os`backlog
    ensures error.None? ==> Used(state) + outputLeft + errorLeft <= state.limit
    ensures os.faults >= old(os.faults) && os.backlog == old(os.backlog) + outputLeft + errorLeft
    ensures error.Some? ==> error.value.Sys? || error.value.CaptureLimit?
    ensures error.Some? && error.value.Sys? ==> os.faults > old(os.faults)
    ensures error == Some(CaptureLimit) ==> Used(state) + outputLeft + errorLeft > state.limit
  {
    outputLeft, errorLeft := 0, 0;
    var failure;
    failure, outputLeft := Queued(state.outputFd, os);
    if failure.None? {
      failure, errorLeft := Queued(state.errorFd, os);
    }
    if failure.Some? {
      return Some(Sys(failure.value)), outputLeft, errorLeft;
    }
    var used: nat := |state.output| + |state.error|;
    var room: nat := state.limit - used;
    if outputLeft > room {
      return Some(CaptureLimit), outputLeft, errorLeft;
    }
    var roomAfter: nat := room - outputLeft;
    if errorLeft > roomAfter {
      return Some(CaptureLimit), outputLeft, errorLeft;
    }
    error := None;
  }

  /** Once the exit is known: the final group signal, then a count of what is
      still queued, which must fit the limit. */
  method StartDraining(state: ProcessState, os: Os) returns (error: Option<IoError>, outputLeft: nat, errorLeft: nat)
    requires Live(state, os) && state.pid > 0
    modifies state`pid, state`terminalSignalled, state`outputFd, state`errorFd, os`trace, os`open, os`faults, os`backlog
    ensures Usable(state, os)
    ensures Rest(state, os) == old(Rest(state, os))
    ensures error.None? ==> Live(state, os) && Drained(state, true, outputLeft, errorLeft) && state.pid > 0
    ensures Trouble(os) >= old(Trouble(os)) && os.backlog >= old(os.backlog) && Looks(old(os.trace)) <= Looks(os.trace)
    ensures error.None? ==> Looks(os.trace) == Looks(old(os.trace)) || Looks(os.trace) == Looks(old(os.trace)) + [true]
    ensures error.Some? ==> Explained(error.value, state, os, Trouble(os) - old(Trouble(os)), 0, os.backlog - old(os.backlog))
    ensures (state.outputFd >= 0 ==> old(state.outputFd) >= 0) && (state.errorFd >= 0 ==> old(state.errorFd) >= 0)
  {
    hide Usable, Rest, Live, Wired, Housed, ProcessState.Supervised, Strikes, Failures, Looks;
    outputLeft, errorLeft := 0, 0;
    var failure := SignalTerminalLive(state, os);
    if failure.Some? {
      return Some(Sys(failure.value)), 0, 0;
    }
    LiveParts(state, os);
    LiveLedger(state, os);
    error, outputLeft, errorLeft := MeasureQueues(state, os);
    if error.None? {
      CloseEmpty(state, os, outputLeft, errorLeft);
      LiveParts(state, os);
    }
  }

  /** An output with nothing left in it is closed. */
  method CloseEmpty(state: ProcessState, os: Os, outputLeft: nat, errorLeft: nat)
    requires Live(state, os)
    modifies state`outputFd, state`errorFd, os`open
    ensures Live(state, os) && Rest(state, os) == old(Rest(state, os))
    ensures state.outputFd == if outputLeft == 0 then -1 else old(state.outputFd)
    ensures state.errorFd == if errorLeft == 0 then -1 else old(state.errorFd)
  {
    hide Live, Rest;
    if outputLeft == 0 {
      CloseSide(state, Out, os);
    }
    if errorLeft == 0 {
      CloseSide(state, Err, os);
    }
  }

  /** One wait for events, then one transfer on each ready descriptor. */
  method Service(state: ProcessState, draining: bool, outputCount: nat, errorCount: nat, timeout: int, os: Os)
    returns (error: Option<IoError>, outputLeft: nat, errorLeft: nat)
    requires Live(state, os) && Drained(state, draining, outputCount, errorCount) && 1 <= timeout <= 10
    modifies state`outputFd, state`errorFd, state`inputFd, state`output, state`error, state`sent, os`open, os`io, os`faults,
      os`refused, os`broken
    ensures Usable(state, os)
    ensures Rest(state, os) == old(Rest(state, os))
    ensures error.None? ==> Live(state, os) && Drained(state, draining, outputLeft, errorLeft)
    ensures os.faults >= old(os.faults) && os.refused >= old(os.refused)
    ensures error.Some? ==> Explained(error.value, state, os, os.faults - old(os.faults), os.refused - old(os.refused), 0)
  {
    hide Usable, Rest, Live, Wired, Housed, ProcessState.Supervised;
    outputLeft, errorLeft := outputCount, errorCount;
    LiveParts(state, os);
    var polled, readiness, nval := os.Poll([state.inputFd, state.outputFd, state.errorFd], timeout);
    if polled.Some? {
      return if polled.value.EINTR? then None else Some(Sys(polled.value)), outputLeft, errorLeft;
    }
    if nval {
      return Some(Sys(EBADF)), outputLeft, errorLeft;
    }
    if readiness[1] {
      var ok, left, failure := ReadOutput(state, Out, if draining then Some(outputLeft) else None, os);
      if !ok {
        return Some(failure), outputLeft, errorLeft;
      }
      if draining {
        outputLeft := left.value;
      }
    }
    if readiness[2] {
      var ok, left, failure := ReadOutput(state, Err, if draining then Some(errorLeft) else None, os);
      if !ok {
        return Some(failure), outputLeft, errorLeft;
      }
      if draining {
        errorLeft := left.value;
      }
    }
    if readiness[0] {
      var ok, failure := FeedInput(state, os);
      if !ok {
        return Some(failure), outputLeft, errorLeft;
      }
    }
    error := None;
  }

  method ProbeLive(state: ProcessState, os: Os) returns (failure: Option<Errno>, exited: bool)
    requires Live(state, os)
    modifies state`pid, os`trace
    ensures Usable(state, os)
    ensures Rest(state, os) == old(Rest(state, os))
    ensures failure.None? ==> Live(state, os) && state.pid > 0
    ensures Looks(os.trace) == Looks(old(os.trace)) + if failure.None? then [exited] else []
    ensures Strikes(os.trace) == Strikes(old(os.trace))
    ensures Failures(os.trace) == Failures(old(os.trace)) + if failure.Some? then 1 else 0
  {
    hide Housed, BytesIn, BytesOut, Anchored, ReapSafe, Terminal, Struck, Fresh, SawExit, Calls, Strikes, Failures, Looks;
    failure, exited := Probe(state, false, os);
  }

  /** The input is closed once all of it has been sent. */
  method CloseSentInput(state: ProcessState, os: Os)
    requires Live(state, os)
    modifies state`inputFd, os`open
    ensures Live(state, os)
    ensures Rest(state, os) == old(Rest(state, os))
  {
    hide Housed, BytesIn, BytesOut, Anchored, ReapSafe, Terminal, Struck;
    if state.inputFd >= 0 && state.sent == |state.input| {
      CloseInput(state, os);
    }
  }

  /** A run is marked as timed out only if the clock answered a time at or past its
      deadline, and as cancelled only if it was asked to stop; once the child has been
      signalled the marks stay as they are. */
  ghost predicate FairMarks(signalled: bool, before: Outcome, after: Outcome, deadline: Option<int>, cancel: bool,
                            answers: seq<Option<int>>) {
    && (after.timedOut ==> before.timedOut || Past(answers, deadline))
    && (after.cancelled ==> before.cancelled || cancel)
    && (signalled ==> after.timedOut == before.timedOut && after.cancelled == before.cancelled)
  }

  /** First half of a turn: look at the child and signal it if its time has come. */
  method Observe(state: ProcessState, deadline: Option<int>, cancel: bool, os: Os)
    returns (error: Option<IoError>, exited: bool, timeout: int)
    requires Live(state, os)
    modifies state`pid, state`signalled, state`terminalSignalled, state`outcome, state`inputFd, os`trace, os`open, os`clock,
      os`faults
    ensures Usable(state, os)
    ensures Rest(state, os) == old(Rest(state, os))
    ensures old(state.terminalSignalled) ==> state.terminalSignalled
    ensures error.None? ==> Live(state, os) && state.pid > 0 && 1 <= timeout <= 10
    ensures old(state.signalled) || cancel || deadline.None? ==> os.clock == old(os.clock)
    // what was learnt: the exit as last looked for, and the clock, which is read
    // unless it does not matter any more
    ensures Looks(old(os.trace)) <= Looks(os.trace) && old(os.clock) <= os.clock
    ensures error.None? ==> |Looks(os.trace)| > |Looks(old(os.trace))| && exited == Looks(os.trace)[|Looks(os.trace)| - 1]
    ensures error.None? && !old(state.signalled) && !cancel && deadline.Some? && !Looks(os.trace)[|Looks(old(os.trace))|] ==>
              |os.clock| == |old(os.clock)| + 1
    // what was done: the child is signalled if and only if its time has come
    ensures var due := Due(Since(Looks(old(os.trace)), Looks(os.trace)), Since(old(os.clock), os.clock), deadline, cancel);
      && (Strikes(os.trace) != Strikes(old(os.trace)) ==> due && !old(state.signalled))
      && (error.None? ==> (state.signalled <==> old(state.signalled) || due))
    ensures old(state.signalled) ==> state.signalled
    // how it is marked
    ensures error.Some? || old(state.signalled) ==> state.outcome == old(state.outcome)
    ensures error.None? && !old(state.signalled) ==>
              (state.outcome.timedOut <==> Past(Since(old(os.clock), os.clock), deadline) && !exited) &&
              (state.outcome.cancelled <==> cancel && !exited)
    ensures Trouble(os) >= old(Trouble(os))
    ensures error.Some? ==> (error.value.Sys? || error.value.ClockFailed?) && Trouble(os) > old(Trouble(os))
  {
    hide Usable, Rest, Live, Wired, Housed, ProcessState.Supervised, Strikes, Failures, Looks;
    ghost var looks, clock := Looks(os.trace), os.clock;
    LiveParts(state, os);
    timeout := 10;
    var expired := false;
    var failure;
    failure, exited := ProbeLive(state, os);
    if failure.Some? {
      return Some(Sys(failure.value)), exited, timeout;
    }
    ghost var first := exited;
    Gained(looks, first, Looks(os.trace));
    if !exited && !state.signalled && !cancel && deadline.Some? {
      var ok;
      ok, expired, timeout := CheckDeadline(deadline.value, os);
      OneAnswer(clock, os.clock, deadline);
      if !ok {
        return Some(ClockFailed), exited, timeout;
      }
    }
    if !state.signalled && (exited || expired || cancel) {
      failure, exited := SignalOnce(state, expired, cancel, os);
      Gained(looks, first, Looks(os.trace));
      if failure.Some? {
        return Some(Sys(failure.value)), exited, timeout;
      }
    }
    error := None;
  }

  lemma OneAnswer(before: seq<Option<int>>, now: seq<Option<int>>, deadline: Option<int>)
    requires before <= now && |now| == |before| + 1
    ensures Past(Since(before, now), deadline) <==>
              deadline.Some? && now[|before|].Some? && now[|before|].value >= deadline.value
  {
    assert Since(before, now) == [now[|before|]];
  }

  datatype TurnEnd = Continue(draining: bool, outputLeft: nat, errorLeft: nat) | Stop(end: PumpEnd)

  /** What tells how a child has been treated so far. */
  datatype Record = Record(signalled: bool, outcome: Outcome, trace: Trace, clock: seq<Option<int>>)

  ghost function RecordOf(state: ProcessState, os: Os): Record
    reads state`signalled, state`outcome, os`trace, os`clock
  {
    Record(state.signalled, state.outcome, os.trace, os.clock)
  }

  ghost function Seen(a: Record, b: Record): seq<bool> {
    Since(Looks(a.trace), Looks(b.trace))
  }

  ghost function Answers(a: Record, b: Record): seq<Option<int>> {
    Since(a.clock, b.clock)
  }

  /** From one moment to a later one: what is on record only grows, the child is
      signalled only if its time has come, the clock is not asked when that does not
      matter, and the marks are fair. */
  ghost predicate Accounted(a: Record, b: Record, deadline: Option<int>, cancel: bool) {
    && Looks(a.trace) <= Looks(b.trace) && a.clock <= b.clock
    && (Strikes(b.trace) != Strikes(a.trace) ==> Due(Seen(a, b), Answers(a, b), deadline, cancel))
    && (a.signalled ==> b.signalled)
    && (a.signalled || cancel || deadline.None? ==> b.clock == a.clock)
    && FairMarks(a.signalled, a.outcome, b.outcome, deadline, cancel, Answers(a, b))
  }

  /** When no call has failed, the child has been signalled if and only if its time
      has come; a deadline that has passed is marked unless the exit was seen. */
  ghost predicate Dealt(a: Record, b: Record, deadline: Option<int>, cancel: bool) {
    && (b.signalled <==> a.signalled || Due(Seen(a, b), Answers(a, b), deadline, cancel))
    && (!a.signalled && Past(Answers(a, b), deadline) ==> b.outcome.timedOut || true in Seen(a, b))
  }

  lemma RecordTwice(a: Record, b: Record, c: Record, deadline: Option<int>, cancel: bool)
    requires Accounted(a, b, deadline, cancel) && Accounted(b, c, deadline, cancel)
    ensures Accounted(a, c, deadline, cancel)
    ensures Dealt(a, b, deadline, cancel) && Dealt(b, c, deadline, cancel) ==> Dealt(a, c, deadline, cancel)
  {
    hide Looks, Strikes, Past;
    SinceTwice(Looks(a.trace), Looks(b.trace), Looks(c.trace));
    SinceTwice(a.clock, b.clock, c.clock);
    PastEither(Answers(a, b), Answers(b, c), deadline);
    if b.signalled {
      assert Answers(b, c) == [];
      NoAnswer(deadline);
    }
  }

  lemma SignalledKept(a: Record, b: Record, deadline: Option<int>, cancel: bool)
    requires Accounted(a, b, deadline, cancel)
    ensures a.signalled ==> b.signalled
  {
  }

  lemma NoAnswer(deadline: Option<int>)
    ensures !Past([], deadline)
  {
  }

  lemma NothingHappened(a: Record, deadline: Option<int>, cancel: bool)
    ensures Accounted(a, a, deadline, cancel)
  {
  }

  lemma ExplainedMore(error: IoError, state: ProcessState, os: Os, t: int, r: int, q: int, t': int, r': int, q': int)
    requires Explained(error, state, os, t, r, q) && t <= t' && r <= r' && q <= q'
    ensures Explained(error, state, os, t', r', q')
  {
  }

  /** What comes after a look at the child leaves marks and clock alone, and signals
      or looks again only if its exit was seen. */
  lemma RecordLater(a: Record, b: Record, c: Record, deadline: Option<int>, cancel: bool)
    requires Accounted(a, b, deadline, cancel)
    requires c.signalled == b.signalled && c.clock == b.clock && Looks(b.trace) <= Looks(c.trace)
    requires c.outcome.timedOut == b.outcome.timedOut && c.outcome.cancelled == b.outcome.cancelled
    requires Strikes(c.trace) != Strikes(b.trace) || Looks(c.trace) != Looks(b.trace) ==> true in Seen(a, b)
    ensures Accounted(a, c, deadline, cancel) && (Dealt(a, b, deadline, cancel) ==> Dealt(a, c, deadline, cancel))
  {
    hide Looks, Strikes, Past;
    SinceTwice(Looks(a.trace), Looks(b.trace), Looks(c.trace));
  }

  /** Quick rechecks of the exit are few, and only while nothing else can happen. */
  method CountIdle(nothingElse: bool, idleAttempts: nat, quiet: int) returns (idle: nat, timeout: int)
    requires 1 <= quiet <= 10
    ensures 1 <= timeout <= quiet
    ensures !nothingElse ==> idle == 0 && timeout == quiet
    ensures nothingElse ==> idle == (if idleAttempts < 5 then idleAttempts + 1 else idleAttempts)
    ensures nothingElse ==> timeout == if idleAttempts < 5 then 1 else quiet
  {
    idle, timeout := idleAttempts, quiet;
    if nothingElse {
      if idle < 5 {
        idle := idle + 1;
        if timeout > 1 {
          timeout := 1;
        }
      }
    } else {
      idle := 0;
    }
  }

  /** The rest of a turn: the end if there is nothing left to drain, else one round of
      transfers. */
  method Advance(state: ProcessState, exited: bool, quiet: int, draining: bool, outputCount: nat, errorCount: nat,
                 idleAttempts: nat, os: Os)
    returns (turn: TurnEnd, idle: nat)
    requires Live(state, os) && Drained(state, draining, outputCount, errorCount) && 1 <= quiet <= 10
    requires exited ==> draining
    modifies state`pid, state`ready, state`inputFd, state`outputFd, state`errorFd, state`input,
      state`inputBlocks, state`sent, state`output, state`error, state`outcome,
      os`trace, os`open, os`io, os`heap, os`statuses, os`faults, os`refused, os`broken
    ensures Usable(state, os)
    ensures Rest(state, os) == old(Rest(state, os))
    ensures turn.Continue? ==> Live(state, os) && Drained(state, turn.draining, turn.outputLeft, turn.errorLeft)
    ensures turn.Stop? ==> !turn.end.Pending?
    ensures turn.Stop? && turn.end.Completed? ==> Collected(state, os)
    ensures turn.Stop? && turn.end.Completed? ==> ReportsStatus(state.outcome, old(os.statuses), os)
    ensures turn.Continue? ==> os.statuses == old(os.statuses) && turn.draining == draining
    ensures state.outcome.timedOut == old(state.outcome.timedOut) && state.outcome.cancelled == old(state.outcome.cancelled)
    ensures Strikes(os.trace) == Strikes(old(os.trace)) && Looks(os.trace) == Looks(old(os.trace))
    ensures turn.Continue? && exited ==> old(state.outputFd) >= 0 || old(state.errorFd) >= 0
    ensures Trouble(os) >= old(Trouble(os)) && os.refused >= old(os.refused)
    ensures turn.Stop? && turn.end.Failed? ==>
              Explained(turn.end.error, state, os, Trouble(os) - old(Trouble(os)), os.refused - old(os.refused), 0)
  {
    hide Usable, Rest, Live, Collected, Wired, Housed, ProcessState.Supervised, Strikes, Failures, Looks, Explained;
    LiveParts(state, os);
    if exited && state.outputFd < 0 && state.errorFd < 0 {
      var ok, error := Finish(state, os);
      return Stop(if ok then Completed else Failed(error)), idleAttempts;
    }
    CloseSentInput(state, os);
    var timeout;
    idle, timeout := CountIdle(!exited && state.inputFd < 0 && state.outputFd < 0 && state.errorFd < 0, idleAttempts, quiet);
    var problem, outputLeft, errorLeft := Service(state, draining, outputCount, errorCount, timeout, os);
    turn := if problem.Some? then Stop(Failed(problem.value)) else Continue(draining, outputLeft, errorLeft);
  }

  /** Second half of a turn: what there is to do once the child has been looked at. */
  method Proceed(state: ProcessState, exited: bool, quiet: int, wasDraining: bool, outputCount: nat, errorCount: nat,
                 idleAttempts: nat, os: Os)
    returns (turn: TurnEnd, idle: nat)
    requires Live(state, os) && Drained(state, wasDraining, outputCount, errorCount) && 1 <= quiet <= 10
    modifies state`pid, state`terminalSignalled, state`ready, state`inputFd, state`outputFd, state`errorFd, state`input,
      state`inputBlocks, state`sent, state`output, state`error, state`outcome,
      os`trace, os`open, os`io, os`heap, os`statuses, os`faults, os`refused, os`broken, os`backlog
    ensures Usable(state, os)
    ensures Rest(state, os) == old(Rest(state, os))
    ensures turn.Continue? ==> Live(state, os) && Drained(state, turn.draining, turn.outputLeft, turn.errorLeft)
    ensures turn.Stop? ==> !turn.end.Pending?
    ensures turn.Stop? && turn.end.Completed? ==> Collected(state, os)
    ensures turn.Stop? && turn.end.Completed? ==> ReportsStatus(state.outcome, old(os.statuses), os)
    ensures turn.Continue? ==> os.statuses == old(os.statuses)
    ensures state.outcome.timedOut == old(state.outcome.timedOut) && state.outcome.cancelled == old(state.outcome.cancelled)
    ensures Looks(old(os.trace)) <= Looks(os.trace)
    ensures Strikes(os.trace) != Strikes(old(os.trace)) || Looks(os.trace) != Looks(old(os.trace)) ==> exited
    ensures turn.Continue? && Looks(os.trace) != Looks(old(os.trace)) ==> Looks(os.trace) == Looks(old(os.trace)) + [true]
    ensures turn.Continue? && exited ==> turn.draining && (old(state.outputFd) >= 0 || old(state.errorFd) >= 0)
    ensures Trouble(os) >= old(Trouble(os)) && os.refused >= old(os.refused) && os.backlog >= old(os.backlog)
    ensures turn.Stop? && turn.end.Failed? ==> Explained(turn.end.error, state, os, Trouble(os) - old(Trouble(os)),
              os.refused - old(os.refused), os.backlog - old(os.backlog))
  {
    hide Usable, Rest, Live, Collected, Wired, Housed, ProcessState.Supervised, Strikes, Failures, Looks, Explained, ReportsStatus;
    var draining, outputLeft, errorLeft := wasDraining, outputCount, errorCount;
    LiveParts(state, os);
    if exited && !draining {
      var problem;
      problem, outputLeft, errorLeft := StartDraining(state, os);
      if problem.Some? {
        return Stop(Failed(problem.value)), idleAttempts;
      }
      draining := true;
    }
    ghost var trouble := Trouble(os);
    turn, idle := Advance(state, exited, quiet, draining, outputLeft, errorLeft, idleAttempts, os);
    if turn.Stop? && turn.end.Failed? {
      ExplainedMore(turn.end.error, state, os, Trouble(os) - trouble, os.refused - old(os.refused), 0,
        Trouble(os) - old(Trouble(os)), os.refused - old(os.refused), os.backlog - old(os.backlog));
    }
  }

  /** What a look at the child is worth as a record. */
  lemma LookRecorded(a: Record, b: Record, ok: bool, exited: bool, deadline: Option<int>, cancel: bool)
    requires Looks(a.trace) <= Looks(b.trace) && a.clock <= b.clock
    requires a.signalled || cancel || deadline.None? ==> b.clock == a.clock
    requires var due := Due(Since(Looks(a.trace), Looks(b.trace)), Since(a.clock, b.clock), deadline, cancel);
      && (Strikes(b.trace) != Strikes(a.trace) ==> due && !a.signalled)
      && (ok ==> (b.signalled <==> a.signalled || due))
    requires a.signalled ==> b.signalled
    requires !ok || a.signalled ==> b.outcome == a.outcome
    requires ok ==> |Looks(b.trace)| > |Looks(a.trace)| && exited == Looks(b.trace)[|Looks(b.trace)| - 1]
    requires ok && !a.signalled ==>
               (b.outcome.timedOut <==> Past(Since(a.clock, b.clock), deadline) && !exited) &&
               (b.outcome.cancelled <==> cancel && !exited)
    ensures Accounted(a, b, deadline, cancel)
    ensures ok ==> Dealt(a, b, deadline, cancel) && (exited ==> true in Seen(a, b))
  {
    hide Looks, Strikes, Past;
    if ok {
      LastSeen(Looks(a.trace), Looks(b.trace));
    }
  }

  /** The first half of a turn, as it goes on record. */
  method Look(state: ProcessState, deadline: Option<int>, cancel: bool, draining: bool, outputLeft: nat, errorLeft: nat, os: Os)
    returns (error: Option<IoError>, exited: bool, timeout: int)
    requires Live(state, os) && Drained(state, draining, outputLeft, errorLeft)
    modifies state`pid, state`signalled, state`terminalSignalled, state`outcome, state`inputFd, os`trace, os`open, os`clock,
      os`faults
    ensures Usable(state, os)
    ensures Rest(state, os) == old(Rest(state, os))
    ensures error.None? ==> Live(state, os) && Drained(state, draining, outputLeft, errorLeft) && 1 <= timeout <= 10
    ensures Accounted(old(RecordOf(state, os)), RecordOf(state, os), deadline, cancel)
    ensures error.None? ==> Dealt(old(RecordOf(state, os)), RecordOf(state, os), deadline, cancel)
    ensures error.None? && exited ==> true in Seen(old(RecordOf(state, os)), RecordOf(state, os))
    ensures error.None? ==> |Looks(os.trace)| > 0 && exited == Looks(os.trace)[|Looks(os.trace)| - 1]
    ensures error.None? && !state.signalled && !cancel && deadline.Some? ==> |os.clock| == |old(os.clock)| + 1
    ensures Trouble(os) >= old(Trouble(os))
    ensures error.Some? ==> Explained(error.value, state, os, Trouble(os) - old(Trouble(os)), 0, 0)
  {
    hide Usable, Rest, Live, Wired, Housed, ProcessState.Supervised, Strikes, Failures, Looks, Past, Accounted, Dealt;
    ghost var first := RecordOf(state, os);
    error, exited, timeout := Observe(state, deadline, cancel, os);
    LookRecorded(first, RecordOf(state, os), error.None?, exited, deadline, cancel);
    if error.None? && !state.signalled {
      NotSeen(Looks(first.trace), Looks(os.trace));
    }
  }

  lemma NotSeen(before: seq<bool>, now: seq<bool>)
    requires before <= now && |now| > |before|
    ensures now[|before|] ==> true in Since(before, now)
  {
    assert now[|before|] == Since(before, now)[0];
  }

  /** One turn of the pump. */
  method Turn(state: ProcessState, deadline: Option<int>, cancel: bool, wasDraining: bool, outputCount: nat,
              errorCount: nat, idleAttempts: nat, os: Os)
    returns (turn: TurnEnd, idle: nat)
    requires Live(state, os) && Drained(state, wasDraining, outputCount, errorCount)
    modifies state`pid, state`signalled, state`terminalSignalled, state`ready, state`inputFd, state`outputFd,
      state`errorFd, state`input, state`inputBlocks, state`sent, state`output, state`error, state`outcome,
      os`trace, os`open, os`io, os`heap, os`statuses, os`clock, os`faults, os`refused, os`broken, os`backlog
    ensures Usable(state, os)
    ensures Rest(state, os) == old(Rest(state, os))
    ensures turn.Continue? ==> Live(state, os) && Drained(state, turn.draining, turn.outputLeft, turn.errorLeft)
    ensures turn.Stop? ==> !turn.end.Pending?
    ensures turn.Stop? && turn.end.Completed? ==> Collected(state, os)
    ensures turn.Stop? && turn.end.Completed? ==> ReportsStatus(state.outcome, old(os.statuses), os)
    ensures turn.Continue? ==> os.statuses == old(os.statuses)
    ensures Accounted(old(RecordOf(state, os)), RecordOf(state, os), deadline, cancel)
    ensures turn.Continue? || turn.end.Completed? ==> Dealt(old(RecordOf(state, os)), RecordOf(state, os), deadline, cancel)
    ensures turn.Continue? && !state.signalled && !cancel && deadline.Some? ==> |os.clock| == |old(os.clock)| + 1
    ensures turn.Continue? ==> Looks(os.trace) != []
    ensures turn.Continue? && Looks(os.trace)[|Looks(os.trace)| - 1] ==>
              turn.draining && (old(state.outputFd) >= 0 || old(state.errorFd) >= 0)
    ensures Trouble(os) >= old(Trouble(os)) && os.refused >= old(os.refused) && os.backlog >= old(os.backlog)
    ensures turn.Stop? && turn.end.Failed? ==> Explained(turn.end.error, state, os, Trouble(os) - old(Trouble(os)),
              os.refused - old(os.refused), os.backlog - old(os.backlog))
  {
    hide Usable, Rest, Live, Collected, Wired, Housed, ProcessState.Supervised, Strikes, Failures, Looks, Past, Explained,
      Accounted, Dealt, Due, Since, ReportsStatus, Trouble, Drained;
    ghost var first := RecordOf(state, os);
    idle := idleAttempts;
    var problem, exited, timeout := Look(state, deadline, cancel, wasDraining, outputCount, errorCount, os);
    if problem.Some? {
      return Stop(Failed(problem.value)), idle;
    }
    ghost var looked, trouble := RecordOf(state, os), Trouble(os);
    turn, idle := Proceed(state, exited, timeout, wasDraining, outputCount, errorCount, idleAttempts, os);
    RecordLater(first, looked, RecordOf(state, os), deadline, cancel);
    if turn.Stop? && turn.end.Failed? {
      ExplainedMore(turn.end.error, state, os, Trouble(os) - trouble, os.refused - old(os.refused),
        os.backlog - old(os.backlog), Trouble(os) - old(Trouble(os)), os.refused - old(os.refused),
        os.backlog - old(os.backlog));
    }
  }

  lemma LastSeen(before: seq<bool>, now: seq<bool>)
    requires before <= now && |now| > |before|
    ensures now[|now| - 1] ==> true in Since(before, now)
  {
    assert now[|now| - 1] == Since(before, now)[|now| - 1 - |before|];
  }

  /** Feeds and drains the child until it has ended, a call fails, or the given
      number of turns is used up. */
  method Pump(state: ProcessState, deadline: Option<int>, cancel: bool, os: Os, turns: nat) returns (end: PumpEnd)
    requires Live(state, os)
    modifies state`pid, state`signalled, state`terminalSignalled, state`ready, state`inputFd, state`outputFd,
      state`errorFd, state`input, state`inputBlocks, state`sent, state`output, state`error, state`outcome,
      os`trace, os`open, os`io, os`heap, os`statuses, os`clock, os`faults, os`refused, os`broken, os`backlog
    ensures Usable(state, os)
    ensures Rest(state, os) == old(Rest(state, os))
    ensures end.Pending? ==> Live(state, os)
    ensures end.Completed? ==> Collected(state, os)
    ensures end.Completed? ==> ReportsStatus(state.outcome, old(os.statuses), os)
    ensures Accounted(old(RecordOf(state, os)), RecordOf(state, os), deadline, cancel)
    ensures end.Completed? || (end.Pending? && turns > 0) ==>
              Dealt(old(RecordOf(state, os)), RecordOf(state, os), deadline, cancel)
    ensures end.Pending? && !state.signalled && !cancel && deadline.Some? ==> |os.clock| == |old(os.clock)| + turns
    ensures Trouble(os) >= old(Trouble(os)) && os.refused >= old(os.refused) && os.backlog >= old(os.backlog)
    ensures end.Failed? ==> Explained(end.error, state, os, Trouble(os) - old(Trouble(os)), os.refused - old(os.refused),
              os.backlog - old(os.backlog))
  {
    hide Usable, Rest, Live, Collected, Wired, Housed, ProcessState.Supervised, Strikes, Failures, Looks, Explained, Accounted, Dealt;
    ghost var first := RecordOf(state, os);
    ghost var trouble, refused, backlog := Trouble(os), os.refused, os.backlog;
    var draining := false;
    var outputLeft: nat, errorLeft: nat := 0, 0;
    var idleAttempts: nat := 0;
    NothingHappened(first, deadline, cancel);
    for turn := 0 to turns
      invariant Live(state, os) && Drained(state, draining, outputLeft, errorLeft)
      invariant Rest(state, os) == old(Rest(state, os))
      invariant os.statuses == old(os.statuses)
      invariant Accounted(first, RecordOf(state, os), deadline, cancel)
      invariant turn > 0 ==> Dealt(first, RecordOf(state, os), deadline, cancel)
      invariant turn == 0 ==> RecordOf(state, os) == first
      invariant !state.signalled && !cancel && deadline.Some? ==> |os.clock| == |first.clock| + turn
      invariant Trouble(os) >= trouble && os.refused >= refused && os.backlog >= backlog
    {
      ghost var mid := RecordOf(state, os);
      ghost var t, r, q := Trouble(os), os.refused, os.backlog;
      var result;
      result, idleAttempts := Turn(state, deadline, cancel, draining, outputLeft, errorLeft, idleAttempts, os);
      RecordTwice(first, mid, RecordOf(state, os), deadline, cancel);
      SignalledKept(mid, RecordOf(state, os), deadline, cancel);
      match result {
        case Stop(stopped) =>
          if stopped.Failed? {
            ExplainedMore(stopped.error, state, os, Trouble(os) - t, os.refused - r, os.backlog - q,
              Trouble(os) - trouble, os.refused - refused, os.backlog - backlog);
          }
          return stopped;
        case Continue(d, o, e) => draining, outputLeft, errorLeft := d, o, e;
      }
    }
    LiveParts(state, os);
    end := Pending;
  }
}
