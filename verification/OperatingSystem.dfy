/** The operating system as an adversary: every call may fail in any way, or be
    interrupted any finite number of times, and what was asked and answered is
    recorded. */
module OperatingSystem {
  import opened ProcessTrace

  function KillEvent(target: int, error: Option<Errno>): Event {
    match error
    case None => Killed(target)
    case Some(e) => if e.ESRCH? then Killed(target) else KillFailed(target, e)
  }

  function LookEvent(pid: int, block: bool, error: Option<Errno>, siPid: int): Event {
    if error.Some? then ProbeFailed(pid, error.value)
    else if block && siPid != pid then ProbeFailed(pid, EIO)
    else Probed(pid, siPid == pid)
  }

  /** How a reaped child ended. */
  datatype ExitStatus = ExitedWith(code: int) | KilledBy(signal: int)

  class Os {
    var trace: Trace
    var statuses: seq<ExitStatus>
    var io: seq<Transfer>
    var open: set<int>
    var heap: set<int>

    /** What the clock answered, and how many calls and how many allocations did not
        do what was asked of them. */
    var clock: seq<Option<int>>
    var faults: nat
    var refused: nat

    /** Descriptors whose reader has gone, and how much was reported as queued. */
    var broken: set<int>
    var backlog: nat

    constructor ()
      ensures trace == [] && statuses == [] && io == [] && open == {} && heap == {}
      ensures clock == [] && faults == 0 && refused == 0 && broken == {} && backlog == 0
    {
      trace, statuses, io, open, heap := [], [], [], {}, {};
      clock, faults, refused, broken, backlog := [], 0, 0, {}, 0;
    }

    method Fault(bad: bool)
      modifies `faults
      ensures faults == old(faults) + if bad then 1 else 0
    {
      faults := faults + if bad then 1 else 0;
    }

    /** A call comes back interrupted and is about to be retried, n times over. */
    method Interruptions() returns (n: nat)
    {
      n := *;
    }

    method Interrupt()
      modifies `trace
      ensures trace == old(trace) + [Interrupted]
    {
      trace := trace + [Interrupted];
    }

    /** Looks at pid without reaping it, waiting for its exit or not. With no error,
        siPid tells whether its exit was seen; having waited without seeing it is a
        failure. */
    method Waitid(pid: int, block: bool) returns (error: Option<Errno>, siPid: int)
      modifies `trace
      ensures trace == old(trace) + [LookEvent(pid, block, error, siPid)]
    {
      error, siPid := *, *;
      trace := trace + [LookEvent(pid, block, error, siPid)];
    }

    /** Sends SIGKILL. A missing process counts as already killed. */
    method Kill(target: int) returns (error: Option<Errno>)
      modifies `trace
      ensures trace == old(trace) + [KillEvent(target, error)]
    {
      error := *;
      trace := trace + [KillEvent(target, error)];
    }

    /** Reaps pid. A negative result is an error; a result that is neither an
        error nor pid reaps nothing. */
    method Waitpid(pid: int) returns (waited: int, error: Errno)
      requires pid > 0
      modifies `trace
      ensures trace == old(trace) +
        [if waited == pid then Reaped(pid) else ReapFailed(pid, if waited < 0 then error else EIO)]
    {
      waited, error := *, *;
      trace := trace +
        [if waited == pid then Reaped(pid) else ReapFailed(pid, if waited < 0 then error else EIO)];
    }

    method Close(fd: int)
      requires fd in open
      modifies `open
      ensures open == old(open) - {fd}
    {
      open := open - {fd};
    }

    /** At most amount bytes from fd, or an error. No bytes means end of input. */
    method Read(fd: int, amount: nat) returns (error: Option<Errno>, bytes: seq<Byte>)
      requires fd in open && amount > 0
      modifies `io, `faults
      ensures faults == old(faults) + if error.Some? then 1 else 0
      ensures |bytes| <= amount
      ensures io == old(io) + if error.None? then [Received(fd, bytes)] else []
    {
      error, bytes := *, *;
      Fault(error.Some?);
      if |bytes| > amount {
        bytes := bytes[..amount];
      }
      if error.None? {
        io := io + [Received(fd, bytes)];
      }
    }

    /** Sends a prefix of data to fd, or fails; sending nothing is a fault. */
    method Write(fd: int, data: seq<Byte>) returns (error: Option<Errno>, count: nat)
      requires fd in open
      modifies `io, `faults, `broken
      ensures faults == old(faults) + if error.Some? || count == 0 then 1 else 0
      ensures broken == old(broken) + if error == Some(EPIPE) then {fd} else {}
      ensures count <= |data|
      ensures io == old(io) + if error.None? then [Sent(fd, data[..count])] else []
    {
      error, count := *, *;
      if count > |data| {
        count := |data|;
      }
      Fault(error.Some? || count == 0);
      if error == Some(EPIPE) {
        broken := broken + {fd};
      }
      if error.None? {
        io := io + [Sent(fd, data[..count])];
      }
    }

    /** How many bytes are queued on fd; a negative count is a fault. */
    method QueuedBytes(fd: int) returns (error: Option<Errno>, count: int)
      requires fd in open
      modifies `faults, `backlog
      ensures faults == old(faults) + if error.Some? || count < 0 then 1 else 0
      ensures backlog == old(backlog) + if error.None? && count > 0 then count else 0
    {
      error, count := *, *;
      Fault(error.Some? || count < 0);
      if error.None? && count > 0 {
        backlog := backlog + count;
      }
    }

    /** Which of three descriptors are ready or in error, waiting at most timeout
        milliseconds. A negative descriptor is ignored; nval flags a bad one. */
    method Poll(fds: seq<int>, timeout: int) returns (error: Option<Errno>, ready: seq<bool>, nval: bool)
      requires |fds| == 3 && 1 <= timeout <= 10
      modifies `faults
      ensures faults == old(faults) + if error.Some? || nval then 1 else 0
      ensures |ready| == 3 && forall i | 0 <= i < 3 && fds[i] < 0 :: !ready[i]
    {
      error, nval := *, *;
      Fault(error.Some? || nval);
      var a: bool, b: bool, c: bool := *, *, *;
      ready := [a && fds[0] >= 0, b && fds[1] >= 0, c && fds[2] >= 0];
    }

    /** The exit code or terminating signal of the child just reaped. */
    method Status() returns (exited: bool, code: int)
      modifies `statuses
      ensures statuses == old(statuses) + [if exited then ExitedWith(code) else KilledBy(code)]
    {
      exited, code := *, *;
      statuses := statuses + [if exited then ExitedWith(code) else KilledBy(code)];
    }

    method Clock() returns (now: Option<int>)
      modifies `clock, `faults
      ensures clock == old(clock) + [now] && faults == old(faults) + if now.None? then 1 else 0
    {
      now := *;
      Fault(now.None?);
      clock := clock + [now];
    }

    /** A fresh block, or 0 when memory or a size limit is exhausted. */
    method Alloc() returns (block: nat)
      modifies `heap, `refused
      ensures refused == old(refused) + if block == 0 then 1 else 0
      ensures block == 0 ==> heap == old(heap)
      ensures block != 0 ==> block !in old(heap) && heap == old(heap) + {block}
    {
      block := *;
      if block in heap {
        block := 0;
      }
      if block != 0 {
        heap := heap + {block};
      } else {
        refused := refused + 1;
      }
    }

    /** Frees a live block; freeing the null block does nothing. */
    method Free(block: nat)
      requires block != 0 ==> block in heap
      modifies `heap
      ensures block == 0 ==> heap == old(heap)
      ensures block != 0 ==> heap == old(heap) - {block}
    {
      if block != 0 {
        heap := heap - {block};
      }
    }

    /** Moves a live block to a larger one, or leaves it and answers 0. */
    method Realloc(block: nat) returns (next: nat)
      requires block != 0 && block in heap
      modifies `heap, `refused
      ensures refused == old(refused) + if next == 0 then 1 else 0
      ensures next == 0 ==> heap == old(heap)
      ensures next != 0 ==> (next == block || next !in old(heap)) && heap == old(heap) - {block} + {next}
    {
      next := *;
      if next != block && next in heap {
        next := 0;
      }
      if next != 0 {
        heap := heap - {block} + {next};
      } else {
        refused := refused + 1;
      }
    }

    /** Two fresh descriptors, or an error. */
    method Pipe() returns (error: Option<Errno>, readEnd: int, writeEnd: int)
      modifies `open, `faults
      ensures faults == old(faults) + if error.Some? then 1 else 0
      ensures error.Some? ==> open == old(open)
      ensures error.None? ==> readEnd >= 0 && writeEnd >= 0 && readEnd != writeEnd &&
                              readEnd !in old(open) && writeEnd !in old(open) && open == old(open) + {readEnd, writeEnd}
    {
      error, readEnd, writeEnd := *, *, *;
      if readEnd < 0 || writeEnd < 0 || readEnd == writeEnd || readEnd in open || writeEnd in open {
        error := Some(EIO);
      }
      Fault(error.Some?);
      if error.None? {
        open := open + {readEnd, writeEnd};
      }
    }

    /** Duplicates a descriptor onto a fresh number above the standard three, or
        answers -1. */
    method DuplicateAbove(fd: int) returns (copy: int)
      requires fd in open
      modifies `open, `faults
      ensures faults == old(faults) + if copy < 0 then 1 else 0
      ensures copy < 0 ==> copy == -1 && open == old(open)
      ensures copy >= 0 ==> copy > 2 && copy !in old(open) && open == old(open) + {copy}
    {
      copy := *;
      if copy <= 2 || copy in open {
        copy := -1;
      }
      Fault(copy < 0);
      if copy >= 0 {
        open := open + {copy};
      }
    }

    /** A call on a descriptor that either works or fails: setting a flag. */
    method Control(fd: int) returns (error: Option<Errno>)
      requires fd in open
      modifies `faults
      ensures faults == old(faults) + if error.Some? then 1 else 0
    {
      error := *;
      Fault(error.Some?);
    }

    /** Starts a child. The parent learns its number. */
    method Fork() returns (error: Option<Errno>, pid: int)
      modifies `trace, `faults
      ensures faults == old(faults) + if error.Some? then 1 else 0
      ensures error.None? ==> pid > 0
      ensures trace == old(trace) + if error.None? then [Forked(pid)] else []
    {
      error, pid := *, *;
      if pid <= 0 {
        error := Some(EAGAIN);
      }
      Fault(error.Some?);
      if error.None? {
        trace := trace + [Forked(pid)];
      }
    }

    method SetGroup(pid: int) returns (error: Option<Errno>)
      modifies `faults
      ensures faults == old(faults) + if error.Some? then 1 else 0
    {
      error := *;
      Fault(error.Some?);
    }

    /** What the child reported before it could run the program, if anything. */
    method ExecReport(fd: int) returns (error: Option<Errno>)
      requires fd in open
      modifies `faults
      ensures faults == old(faults) + if error.Some? then 1 else 0
    {
      error := *;
      Fault(error.Some?);
    }

    /** Whether the next allocation would succeed. */
    method CanAllocate() returns (ok: bool)
      modifies `refused
      ensures refused == old(refused) + if ok then 0 else 1
    {
      ok := *;
      refused := refused + if ok then 0 else 1;
    }
  }
}
