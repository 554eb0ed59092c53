/** The supervisor's hold on its child: probing without reaping, signalling only
    what it still owns, and giving the child up for good. */
module Supervisor {
  import opened ProcessTrace
  import opened OperatingSystem

  datatype Outcome = Outcome(exitCode: int, timedOut: bool, cancelled: bool, stdout: seq<Byte>, stderr: seq<Byte>)

  const EMPTY_OUTCOME: Outcome := Outcome(0, false, false, [], [])

  /** The history of the child p, which began at position origin, is safe; it is
      still ours to signal exactly while pid names it. */
  ghost predicate Anchored(tr: Trace, origin: nat, p: int, pid: int) {
    && origin <= |tr| && p > 0
    && AnchorSafe(tr[origin..], p)
    && (pid > 0 ==> pid == p && Alive(tr[origin..], p))
    && (pid <= 0 ==> !Alive(tr[origin..], p))
  }

  lemma SuffixStep(tr: Trace, origin: nat, ev: Event)
    requires origin <= |tr|
    ensures (tr + [ev])[origin..] == tr[origin..] + [ev]
  {
  }

  /** Completed calls from one moment to a later one. */
  ghost predicate Within(before: Trace, after: Trace, calls: nat) {
    Calls(after) <= Calls(before) + calls
  }

  /** What is known about the child p from its history. */
  ghost predicate SameKnowledge(a: Trace, b: Trace, p: int) {
    && (AnchorSafe(a, p) ==> AnchorSafe(b, p))
    && (AnchorSafe(a, p) && ReapSafe(a, p) ==> ReapSafe(b, p))
    && (Alive(b, p) <==> Alive(a, p))
    && (Fresh(a, p) ==> Fresh(b, p))
    && (Terminal(a, p) ==> Terminal(b, p))
    && (SawExit(a, p) ==> SawExit(b, p))
  }

  /** Interrupted attempts teach nothing and spoil nothing. */
  method RetryInterrupted(os: Os, ghost origin: nat, ghost p: int)
    requires origin <= |os.trace| && AnchorSafe(os.trace[origin..], p)
    modifies os`trace
    ensures origin <= |os.trace| && SameKnowledge(old(os.trace)[origin..], os.trace[origin..], p)
    ensures Calls(os.trace) == Calls(old(os.trace)) && Strikes(os.trace) == Strikes(old(os.trace))
    ensures Failures(os.trace) == Failures(old(os.trace)) && Looks(os.trace) == Looks(old(os.trace))
    ensures old(os.trace) <= os.trace
  {
    hide AnchorSafe, ReapSafe, Alive, Fresh, Terminal, SawExit, Calls, Strikes, Failures, Looks;
    var n := os.Interruptions();
    while n > 0
      invariant origin <= |os.trace|
      invariant SameKnowledge(old(os.trace)[origin..], os.trace[origin..], p)
      invariant Calls(os.trace) == Calls(old(os.trace)) && Strikes(os.trace) == Strikes(old(os.trace))
      invariant Failures(os.trace) == Failures(old(os.trace)) && Looks(os.trace) == Looks(old(os.trace))
      invariant old(os.trace) <= os.trace
    {
      SuffixStep(os.trace, origin, Interrupted);
      Step(os.trace[origin..], Interrupted, p);
      CallsStep(os.trace, Interrupted);
      os.Interrupt();
      n := n - 1;
    }
  }

  /** Looks at the child without reaping it. ECHILD gives the number up. */
  method ProbePid(pid: int, block: bool, os: Os, ghost origin: nat, ghost p: int)
    returns (newPid: int, error: Option<Errno>, exited: bool)
    requires Anchored(os.trace, origin, p, pid)
    modifies os`trace
    ensures Anchored(os.trace, origin, p, newPid)
    ensures newPid == pid || newPid == 0
    ensures error == Some(ECHILD) ==> newPid <= 0
    ensures error.None? ==> newPid > 0 && Fresh(os.trace[origin..], p) && (block ==> exited)
    ensures error.None? && exited ==> SawExit(os.trace[origin..], p)
    ensures ReapSafe(old(os.trace)[origin..], p) ==> ReapSafe(os.trace[origin..], p)
    ensures Terminal(old(os.trace)[origin..], p) ==> Terminal(os.trace[origin..], p)
    ensures Within(old(os.trace), os.trace, 1)
    ensures old(os.trace) <= os.trace
    ensures Looks(os.trace) == Looks(old(os.trace)) + if error.None? then [exited] else []
    ensures Strikes(os.trace) == Strikes(old(os.trace))
    ensures Failures(os.trace) == Failures(old(os.trace)) + if error.Some? && pid > 0 then 1 else 0
  {
    hide AnchorSafe, ReapSafe, Alive, Fresh, Terminal, SawExit, Struck, Calls, Strikes, Failures, Looks;
    newPid, exited := pid, false;
    if pid <= 0 {
      return newPid, Some(ECHILD), exited;
    }
    RetryInterrupted(os, origin, p);
    ghost var before := os.trace;
    var siPid;
    error, siPid := os.Waitid(pid, block);
    ghost var ev := LookEvent(pid, block, error, siPid);
    SuffixStep(before, origin, ev);
    Step(before[origin..], ev, p);
    CallsStep(before, ev);
    if error.Some? {
      if error.value.ECHILD? {
        newPid := 0;
      }
      return;
    }
    exited := siPid == pid;
    if block && !exited {
      error := Some(EIO);
    }
  }

  /** Reaps the child. Success and ECHILD alike give the number up. */
  method ReapPid(pid: int, os: Os, ghost origin: nat, ghost p: int)
    returns (newPid: int, error: Option<Errno>)
    requires Anchored(os.trace, origin, p, pid)
    modifies os`trace
    ensures Anchored(os.trace, origin, p, newPid)
    ensures newPid == pid || newPid == 0
    ensures error.None? || error == Some(ECHILD) ==> newPid <= 0
    ensures ReapSafe(old(os.trace)[origin..], p) && (pid > 0 ==> Terminal(old(os.trace)[origin..], p)) ==>
              ReapSafe(os.trace[origin..], p)
    ensures Terminal(old(os.trace)[origin..], p) ==> Terminal(os.trace[origin..], p)
    ensures Within(old(os.trace), os.trace, 1)
    ensures old(os.trace) <= os.trace
    ensures Looks(os.trace) == Looks(old(os.trace)) && Strikes(os.trace) == Strikes(old(os.trace))
    ensures Failures(os.trace) == Failures(old(os.trace)) + if error.Some? && pid > 0 then 1 else 0
  {
    hide AnchorSafe, ReapSafe, Alive, Fresh, Terminal, SawExit, Struck, Calls, Strikes, Failures, Looks;
    newPid := pid;
    if pid <= 0 {
      return newPid, Some(ECHILD);
    }
    RetryInterrupted(os, origin, p);
    ghost var before := os.trace;
    var waited, failure := os.Waitpid(pid);
    error := if waited == pid then None else if waited < 0 then Some(failure) else Some(EIO);
    ghost var ev := if error.None? then Reaped(pid) else ReapFailed(pid, error.value);
    SuffixStep(before, origin, ev);
    Step(before[origin..], ev, p);
    CallsStep(before, ev);
    if error.None? || error.value.ECHILD? {
      newPid := 0;
    }
  }

  /** Sends SIGKILL to the child or its group, which must just have been probed. */
  method KillAnchored(target: int, os: Os, ghost origin: nat, ghost p: int) returns (error: Option<Errno>)
    requires target == p || target == -p
    requires Anchored(os.trace, origin, p, p) && Fresh(os.trace[origin..], p)
    modifies os`trace
    ensures Anchored(os.trace, origin, p, p) && Fresh(os.trace[origin..], p)
    ensures ReapSafe(old(os.trace)[origin..], p) ==> ReapSafe(os.trace[origin..], p)
    ensures Terminal(old(os.trace)[origin..], p) ==> Terminal(os.trace[origin..], p)
    ensures SawExit(old(os.trace)[origin..], p) ==> SawExit(os.trace[origin..], p)
    ensures SawExit(old(os.trace)[origin..], p) && target == -p && error.None? ==> Terminal(os.trace[origin..], p)
    ensures Within(old(os.trace), os.trace, 1)
    ensures old(os.trace) <= os.trace
    ensures error.None? ==> Killed(target) in os.trace[origin..]
    ensures Looks(os.trace) == Looks(old(os.trace)) && Strikes(os.trace) == Strikes(old(os.trace)) + 1
    ensures Failures(os.trace) == Failures(old(os.trace)) + if error.Some? then 1 else 0
  {
    hide AnchorSafe, ReapSafe, Alive, Fresh, Terminal, SawExit, Struck, Calls, Strikes, Failures, Looks;
    RetryInterrupted(os, origin, p);
    ghost var before := os.trace;
    error := os.Kill(target);
    ghost var ev := KillEvent(target, error);
    SuffixStep(before, origin, ev);
    Step(before[origin..], ev, p);
    CallsStep(before, ev);
    if error == Some(ESRCH) {
      error := None;
    }
  }

  // ----- the supervised child -----

  class ProcessState {
    var pid: int
    var group: bool
    var ready: bool
    var signalled: bool
    var terminalSignalled: bool
    var inputFd: int
    var outputFd: int
    var errorFd: int
    var input: seq<Byte>
    var sent: nat
    var limit: nat
    var output: seq<Byte>
    var error: seq<Byte>
    var outcome: Outcome

    /** The child's number and where its history and its transfers begin. */
    ghost var child: int
    ghost var origin: nat
    ghost var transfers: nat

    /** The parent's pipe ends as they were opened, -1 for none, and the input as
        it was given. */
    ghost var stdinFd: int
    ghost var stdoutFd: int
    ghost var stderrFd: int
    ghost var wholeInput: seq<Byte>

    /** The blocks that hold this state and its copy of the input. */
    var block: nat
    var inputBlocks: seq<nat>

    ghost function Past(os: Os): Trace
      reads `origin, os`trace
      requires origin <= |os.trace|
    {
      os.trace[origin..]
    }

    /** The child's history is safe, no reap in it came too early, and the two
        flags about signals tell the truth. */
    ghost predicate Supervised(os: Os)
      reads `pid, `signalled, `terminalSignalled, `child, `origin, os`trace
    {
      && Anchored(os.trace, origin, child, pid)
      && ReapSafe(Past(os), child)
      && (terminalSignalled ==> Terminal(Past(os), child))
      && (signalled ==> Struck(Past(os), child))
    }

    /** No child yet, or a supervised one. */
    ghost predicate Sound(os: Os)
      reads `pid, `signalled, `terminalSignalled, `child, `origin, os`trace
    {
      (child == 0 && pid == 0 && !terminalSignalled && !signalled) || Supervised(os)
    }

    /** A state before any child was forked. */
    constructor Unforked(limit: nat, block: nat)
      ensures pid == 0 && !group && !ready && !signalled && !terminalSignalled
      ensures inputFd == -1 && outputFd == -1 && errorFd == -1
      ensures input == [] && sent == 0 && this.limit == limit && output == [] && error == []
      ensures outcome == EMPTY_OUTCOME && child == 0
      ensures stdinFd == -1 && stdoutFd == -1 && stderrFd == -1 && wholeInput == []
      ensures this.block == block && inputBlocks == []
    {
      pid, group, ready, signalled, terminalSignalled := 0, false, false, false, false;
      inputFd, outputFd, errorFd := -1, -1, -1;
      input, sent, output, error := [], 0, [], [];
      this.limit := limit;
      outcome := EMPTY_OUTCOME;
      child, origin, transfers := 0, 0, 0;
      stdinFd, stdoutFd, stderrFd, wholeInput := -1, -1, -1, [];
      this.block, inputBlocks := block, [];
    }
  }

  /** What a history shows, a longer one shows too. */
  lemma HistoryKept(before: Trace, after: Trace, origin: nat, p: int)
    requires origin <= |before| && before <= after
    ensures Struck(before[origin..], p) ==> Struck(after[origin..], p)
    ensures SawExit(before[origin..], p) ==> SawExit(after[origin..], p)
    ensures Killed(p) in before[origin..] ==> Killed(p) in after[origin..]
    ensures Killed(-p) in before[origin..] ==> Killed(-p) in after[origin..]
  {
    var a, b := before[origin..], after[origin..];
    assert a <= b;
    if Struck(a, p) {
      StruckKept(a, b, p);
    }
    if SawExit(a, p) {
      InLonger(a, b, Probed(p, true));
    }
    if Killed(p) in a {
      InLonger(a, b, Killed(p));
    }
    if Killed(-p) in a {
      InLonger(a, b, Killed(-p));
    }
  }

  lemma NowStruck(tr: Trace, p: int)
    requires Killed(-p) in tr && (Killed(p) in tr || SawExit(tr, p))
    ensures Struck(tr, p)
  {
  }

  method Probe(state: ProcessState, block: bool, os: Os) returns (error: Option<Errno>, exited: bool)
    requires state.Supervised(os)
    modifies state`pid, os`trace
    ensures state.Supervised(os)
    ensures state.pid == old(state.pid) || state.pid == 0
    ensures error == Some(ECHILD) ==> state.pid <= 0
    ensures error.None? ==> state.pid > 0 && Fresh(state.Past(os), state.child) && (block ==> exited)
    ensures error.None? && exited ==> SawExit(state.Past(os), state.child)
    ensures Within(old(os.trace), os.trace, 1)
    ensures Looks(os.trace) == Looks(old(os.trace)) + if error.None? then [exited] else []
    ensures Strikes(os.trace) == Strikes(old(os.trace))
    ensures Failures(os.trace) == Failures(old(os.trace)) + if error.Some? && old(state.pid) > 0 then 1 else 0
  {
    hide AnchorSafe, ReapSafe, Alive, Fresh, Terminal, SawExit, Struck, Calls, Strikes, Failures, Looks;
    ghost var before := os.trace;
    var newPid;
    newPid, error, exited := ProbePid(state.pid, block, os, state.origin, state.child);
    HistoryKept(before, os.trace, state.origin, state.child);
    state.pid := newPid;
  }

  /** Probes, then signals what is still ours: the group, and the child itself
      when it may not have joined the group. */
  method SignalOwned(state: ProcessState, os: Os) returns (error: Option<Errno>, observedExit: bool)
    requires state.Supervised(os)
    modifies state`pid, state`signalled, state`terminalSignalled, os`trace
    ensures state.Supervised(os)
    ensures state.pid == old(state.pid) || state.pid == 0
    ensures error.None? ==> state.pid > 0 && state.signalled && (observedExit ==> state.terminalSignalled)
    ensures old(state.terminalSignalled) ==> state.terminalSignalled
    ensures old(state.signalled) ==> state.signalled
    ensures error.None? ==> Struck(state.Past(os), state.child)
    ensures Within(old(os.trace), os.trace, 3)
    ensures error.None? ==> Looks(os.trace) == Looks(old(os.trace)) + [observedExit]
    ensures error.None? ==> Strikes(os.trace) > Strikes(old(os.trace)) && Failures(os.trace) == Failures(old(os.trace))
    ensures error.Some? && old(state.pid) > 0 ==> Failures(os.trace) > Failures(old(os.trace))
    ensures Failures(os.trace) >= Failures(old(os.trace)) && Looks(old(os.trace)) <= Looks(os.trace)
  {
    hide AnchorSafe, ReapSafe, Alive, Fresh, Terminal, SawExit, Struck, Calls, Strikes, Failures, Looks;
    error, observedExit := Probe(state, false, os);
    if error.Some? {
      return;
    }
    if !state.group && !observedExit {
      ghost var probed := os.trace;
      error := KillAnchored(state.pid, os, state.origin, state.child);
      HistoryKept(probed, os.trace, state.origin, state.child);
      if error.Some? {
        return;
      }
    }
    ghost var direct := os.trace;
    error := KillAnchored(-state.pid, os, state.origin, state.child);
    HistoryKept(direct, os.trace, state.origin, state.child);
    if error.Some? {
      return;
    }
    if observedExit {
      state.terminalSignalled := true;
    }
    if state.group && !observedExit {
      ghost var grouped := os.trace;
      error := KillAnchored(state.pid, os, state.origin, state.child);
      HistoryKept(grouped, os.trace, state.origin, state.child);
    }
    if error.None? {
      NowStruck(state.Past(os), state.child);
      state.signalled := true;
    }
  }

  /** Waits for the exit to be observed, then signals the group one last time. */
  method SignalTerminal(state: ProcessState, os: Os) returns (error: Option<Errno>)
    requires state.Supervised(os)
    modifies state`pid, state`terminalSignalled, os`trace
    ensures state.Supervised(os)
    ensures state.pid == old(state.pid) || state.pid == 0
    ensures error.None? ==> state.terminalSignalled && (state.pid > 0 || state.pid == old(state.pid))
    ensures old(state.terminalSignalled) ==> state.terminalSignalled && error.None? && os.trace == old(os.trace)
    ensures Within(old(os.trace), os.trace, 2)
    ensures error.None? && !old(state.terminalSignalled) ==> Looks(os.trace) == Looks(old(os.trace)) + [true]
    ensures error.Some? && old(state.pid) > 0 ==> Failures(os.trace) > Failures(old(os.trace))
    ensures Failures(os.trace) >= Failures(old(os.trace)) && Looks(old(os.trace)) <= Looks(os.trace)
  {
    hide AnchorSafe, ReapSafe, Alive, Fresh, Terminal, SawExit, Struck, Calls, Strikes, Failures, Looks;
    if state.terminalSignalled {
      return None;
    }
    var exited;
    error, exited := Probe(state, true, os);
    if error.None? {
      ghost var probed := os.trace;
      error := KillAnchored(-state.pid, os, state.origin, state.child);
      HistoryKept(probed, os.trace, state.origin, state.child);
    }
    if error.None? {
      state.terminalSignalled := true;
    }
  }

  /** Reaps, which is allowed only after the final signal. */
  method CleanupReap(state: ProcessState, os: Os) returns (error: Option<Errno>)
    requires state.Supervised(os) && state.terminalSignalled
    modifies state`pid, os`trace
    ensures state.Supervised(os)
    ensures state.pid == old(state.pid) || state.pid == 0
    ensures error.None? || error == Some(ECHILD) ==> state.pid <= 0
    ensures Within(old(os.trace), os.trace, 1)
    ensures Looks(os.trace) == Looks(old(os.trace)) && Strikes(os.trace) == Strikes(old(os.trace))
    ensures Failures(os.trace) == Failures(old(os.trace)) + if error.Some? && old(state.pid) > 0 then 1 else 0
  {
    hide AnchorSafe, ReapSafe, Alive, Fresh, Terminal, SawExit, Struck, Calls, Strikes, Failures, Looks;
    ghost var before := os.trace;
    var newPid;
    newPid, error := ReapPid(state.pid, os, state.origin, state.child);
    HistoryKept(before, os.trace, state.origin, state.child);
    state.pid := newPid;
  }

  method CleanupAttempt(state: ProcessState, os: Os) returns (error: Option<Errno>)
    requires state.Supervised(os)
    modifies state`pid, state`signalled, state`terminalSignalled, os`trace
    ensures state.Supervised(os)
    ensures state.pid == old(state.pid) || state.pid == 0
    ensures error.None? ==> state.pid <= 0
    ensures error.Some? && old(state.pid) > 0 ==> Failures(os.trace) > Failures(old(os.trace))
    ensures Failures(os.trace) >= Failures(old(os.trace))
    ensures Within(old(os.trace), os.trace, 6)
  {
    hide AnchorSafe, ReapSafe, Alive, Fresh, Terminal, SawExit, Struck, Calls, Strikes, Failures, Looks;
    error := None;
    if !state.terminalSignalled {
      var observed;
      error, observed := SignalOwned(state, os);
      if error.None? {
        error := SignalTerminal(state, os);
      }
    }
    if error.None? {
      error := CleanupReap(state, os);
    }
  }

  /** How the cleanup of a state ends: the anchor is gone, or the program stops. */
  datatype CleanupEnd = Released | Aborted

  /** Gives the child up. It returns normally only when no unreaped child of this
      state remains, after at most eighteen completed calls; otherwise the program
      stops rather than lose track of a live child. */
  method CleanupAnchor(state: ProcessState, os: Os) returns (end: CleanupEnd)
    requires state.Sound(os)
    modifies state`pid, state`signalled, state`terminalSignalled, os`trace
    ensures state.Sound(os)
    ensures end.Released? <==> state.pid <= 0
    ensures end.Released? && state.child > 0 ==> !Alive(state.Past(os), state.child)
    ensures end.Aborted? ==> Failures(os.trace) > Failures(old(os.trace))
    ensures Failures(os.trace) >= Failures(old(os.trace))
    ensures old(state.pid) <= 0 ==> os.trace == old(os.trace) && state.signalled == old(state.signalled)
    ensures Within(old(os.trace), os.trace, 18)
  {
    hide AnchorSafe, ReapSafe, Alive, Fresh, Terminal, SawExit, Struck, Calls, Strikes, Failures, Looks;
    if state.pid > 0 {
      var error := CleanupAttempt(state, os);
      if error.Some? && state.pid > 0 {
        error := CleanupAttempt(state, os);
      }
      if state.pid > 0 {
        var exited;
        error, exited := Probe(state, false, os);
        if error.Some? && state.pid > 0 {
          error, exited := Probe(state, false, os);
        }
        if error.None? && exited {
          error := SignalTerminal(state, os);
          if error.None? {
            error := CleanupReap(state, os);
          }
        }
        if state.pid > 0 {
          error, exited := Probe(state, false, os);
        }
        if state.pid > 0 {
          return Aborted;
        }
      }
    }
    end := Released;
  }

  // ----- a child without a group -----

  /** Waits for, or stops, a child launched without a process group of its own.
      The number comes back positive only if the child could not be reaped. */
  method LegacyWait(pid: int, abortChild: bool, os: Os, ghost origin: nat, ghost p: int)
    returns (newPid: int, error: Option<Errno>)
    requires Anchored(os.trace, origin, p, pid)
    modifies os`trace
    ensures Anchored(os.trace, origin, p, newPid)
    ensures newPid == pid || newPid == 0
    ensures newPid > 0 ==> error.Some?
    ensures error.Some? && pid > 0 ==> Failures(os.trace) > Failures(old(os.trace))
    ensures Within(old(os.trace), os.trace, 12)
  {
    hide AnchorSafe, ReapSafe, Alive, Fresh, Terminal, SawExit, Struck, Calls, Strikes, Failures, Looks;
    newPid := pid;
    var firstError: Option<Errno> := None;
    if !abortChild {
      newPid, firstError := ReapPid(newPid, os, origin, p);
      if newPid == 0 {
        return newPid, firstError;
      }
    }
    var attempt := 0;
    while attempt < 2 && newPid > 0
      invariant 0 <= attempt <= 2
      invariant Anchored(os.trace, origin, p, newPid)
      invariant newPid == pid || newPid == 0
      invariant Within(old(os.trace), os.trace, 1 + 3 * attempt)
      invariant firstError.Some? && pid > 0 ==> Failures(os.trace) > Failures(old(os.trace))
      invariant Failures(os.trace) >= Failures(old(os.trace))
      invariant attempt > 0 && newPid > 0 ==> firstError.Some?
    {
      var problem, exited;
      newPid, problem, exited := ProbePid(newPid, false, os, origin, p);
      if problem.None? && !exited {
        problem := KillAnchored(newPid, os, origin, p);
      }
      if problem.None? {
        newPid, problem := ReapPid(newPid, os, origin, p);
      }
      if firstError.None? {
        firstError := problem;
      }
      attempt := attempt + 1;
    }
    if newPid > 0 {
      var problem, exited;
      newPid, problem, exited := ProbePid(newPid, false, os, origin, p);
      if problem.Some? && newPid > 0 {
        newPid, problem, exited := ProbePid(newPid, false, os, origin, p);
      }
      if problem.None? && exited {
        newPid, problem := ReapPid(newPid, os, origin, p);
        if problem.Some? && newPid > 0 {
          newPid, problem := ReapPid(newPid, os, origin, p);
        }
      }
      if newPid > 0 {
        newPid, problem, exited := ProbePid(newPid, false, os, origin, p);
      }
    }
    error := if firstError.Some? then firstError else if newPid > 0 then Some(EIO) else None;
  }
}
