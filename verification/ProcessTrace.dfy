/** The system calls a supervisor makes about one child, in order, and what makes
    such a history safe: a kill needs a probe that still found the child, with
    nothing in between that could have given its number away, and a reap needs a
    final signal after the child was seen to have ended. Each notion is a statement
    about positions in the history; lemmas say what one more event does to it. */
module ProcessTrace {

  datatype Option<+T> = None | Some(value: T)

  /** Error numbers the supervisor tells apart. An interrupted call is an event of
      its own, and a kill that finds no process counts as done. */
  datatype Errno = ECHILD | EINTR | EPIPE | EAGAIN | EIO | EBADF | EACCES | ESRCH | ENOMEM | OtherErrno(code: nat)

  type Byte = b: int | 0 <= b < 256

  datatype Event =
    | Interrupted
    | Forked(pid: int)
    | Probed(pid: int, exited: bool)
    | ProbeFailed(pid: int, error: Errno)
    | Killed(target: int)
    | KillFailed(target: int, error: Errno)
    | Reaped(pid: int)
    | ReapFailed(pid: int, error: Errno)

  /** Bytes moved through a descriptor of the supervisor. */
  datatype Transfer =
    | Received(fd: int, bytes: seq<Byte>)
    | Sent(fd: int, bytes: seq<Byte>)

  type Trace = seq<Event>

  /** A SIGKILL aimed at p or at p's group, delivered or not. */
  predicate Kills(ev: Event, p: int) {
    (ev.Killed? || ev.KillFailed?) && (ev.target == p || ev.target == -p)
  }

  /** From here on the number p may belong to somebody else. */
  predicate Gone(ev: Event, p: int) {
    ev == Reaped(p) || ev == ReapFailed(p, ECHILD) || ev == ProbeFailed(p, ECHILD)
  }

  predicate Quiet(ev: Event, p: int) {
    ev == Interrupted || Kills(ev, p)
  }

  /** The last thing learnt about p, up to position j, is a successful probe. */
  ghost predicate FreshAt(tr: Trace, j: nat, p: int)
    requires j <= |tr|
  {
    exists i :: 0 <= i < j && tr[i].Probed? && tr[i].pid == p && forall k | i < k < j :: Quiet(tr[k], p)
  }

  ghost predicate AliveAt(tr: Trace, j: nat, p: int)
    requires j <= |tr|
  {
    forall k | 0 <= k < j :: !Gone(tr[k], p)
  }

  /** Every SIGKILL follows a successful probe with nothing but signals and
      interruptions between, and none follows a reap or an ECHILD. */
  ghost predicate AnchorSafe(tr: Trace, p: int) {
    forall j | 0 <= j < |tr| && Kills(tr[j], p) :: FreshAt(tr, j, p) && AliveAt(tr, j, p)
  }

  /** Up to position j, p's exit was observed and afterwards its group was
      signalled successfully. */
  ghost predicate TerminalAt(tr: Trace, j: nat, p: int)
    requires j <= |tr|
  {
    exists i, k :: 0 <= i < k < j && tr[i] == Probed(p, true) && tr[k] == Killed(-p)
  }

  /** A child is reaped only after its group got the final signal. */
  ghost predicate ReapSafe(tr: Trace, p: int) {
    forall j | 0 <= j < |tr| && tr[j] == Reaped(p) :: TerminalAt(tr, j, p)
  }

  ghost predicate Fresh(tr: Trace, p: int) { FreshAt(tr, |tr|, p) }

  ghost predicate Alive(tr: Trace, p: int) { AliveAt(tr, |tr|, p) }

  ghost predicate Terminal(tr: Trace, p: int) { TerminalAt(tr, |tr|, p) }

  ghost predicate SawExit(tr: Trace, p: int) {
    Probed(p, true) in tr
  }

  /** p's group was killed, and p itself unless it had been seen to exit. */
  ghost predicate Struck(tr: Trace, p: int) {
    Killed(-p) in tr && (Killed(p) in tr || SawExit(tr, p))
  }

  lemma InLonger(tr: Trace, longer: Trace, ev: Event)
    requires tr <= longer && ev in tr
    ensures ev in longer
  {
    var i :| 0 <= i < |tr| && tr[i] == ev;
    assert longer[i] == ev;
  }

  lemma StruckKept(tr: Trace, longer: Trace, p: int)
    requires tr <= longer && Struck(tr, p)
    ensures Struck(longer, p)
  {
    InLonger(tr, longer, Killed(-p));
    if Killed(p) in tr {
      InLonger(tr, longer, Killed(p));
    } else {
      InLonger(tr, longer, Probed(p, true));
    }
  }

  // ----- growing a history by one call -----

  lemma AtPrefix(tr: Trace, more: Trace, j: nat, p: int)
    requires j <= |tr|
    ensures FreshAt(tr + more, j, p) <==> FreshAt(tr, j, p)
    ensures AliveAt(tr + more, j, p) <==> AliveAt(tr, j, p)
    ensures TerminalAt(tr + more, j, p) <==> TerminalAt(tr, j, p)
  {
    var all := tr + more;
    assert forall k | 0 <= k < j :: all[k] == tr[k];
    if FreshAt(tr, j, p) {
      var i :| 0 <= i < j && tr[i].Probed? && tr[i].pid == p && forall k | i < k < j :: Quiet(tr[k], p);
      assert all[i].Probed?;
    }
    if FreshAt(all, j, p) {
      var i :| 0 <= i < j && all[i].Probed? && all[i].pid == p && forall k | i < k < j :: Quiet(all[k], p);
      assert tr[i].Probed?;
      assert forall k | i < k < j :: Quiet(tr[k], p) by {
        assert forall k | i < k < j :: all[k] == tr[k];
      }
    }
    if TerminalAt(tr, j, p) {
      var i, k :| 0 <= i < k < j && tr[i] == Probed(p, true) && tr[k] == Killed(-p);
      assert all[i] == Probed(p, true) && all[k] == Killed(-p);
    }
    if TerminalAt(all, j, p) {
      var i, k :| 0 <= i < k < j && all[i] == Probed(p, true) && all[k] == Killed(-p);
      assert tr[i] == Probed(p, true) && tr[k] == Killed(-p);
    }
  }

  lemma AnchorStep(tr: Trace, ev: Event, p: int)
    requires AnchorSafe(tr, p)
    requires Kills(ev, p) ==> Fresh(tr, p) && Alive(tr, p)
    ensures AnchorSafe(tr + [ev], p)
  {
    hide FreshAt, AliveAt, TerminalAt;
    var all := tr + [ev];
    forall j | 0 <= j < |all| && Kills(all[j], p)
      ensures FreshAt(all, j, p) && AliveAt(all, j, p)
    {
      AtPrefix(tr, [ev], j, p);
    }
  }

  lemma ReapStep(tr: Trace, ev: Event, p: int)
    requires ReapSafe(tr, p)
    requires ev == Reaped(p) ==> Terminal(tr, p)
    ensures ReapSafe(tr + [ev], p)
  {
    hide FreshAt, AliveAt, TerminalAt;
    var all := tr + [ev];
    forall j | 0 <= j < |all| && all[j] == Reaped(p)
      ensures TerminalAt(all, j, p)
    {
      AtPrefix(tr, [ev], j, p);
    }
  }

  lemma AliveStep(tr: Trace, ev: Event, p: int)
    ensures Alive(tr + [ev], p) <==> Alive(tr, p) && !Gone(ev, p)
  {
    var all := tr + [ev];
    if Alive(all, p) {
      assert !Gone(all[|tr|], p);
      forall k | 0 <= k < |tr|
        ensures !Gone(tr[k], p)
      {
        assert !Gone(all[k], p);
      }
    }
  }

  lemma FreshStep(tr: Trace, ev: Event, p: int)
    ensures ev.Probed? && ev.pid == p ==> Fresh(tr + [ev], p)
    ensures Fresh(tr, p) && Quiet(ev, p) ==> Fresh(tr + [ev], p)
  {
    var all := tr + [ev];
    if ev.Probed? && ev.pid == p {
      assert all[|tr|].Probed?;
    }
    if Fresh(tr, p) && Quiet(ev, p) {
      var i :| 0 <= i < |tr| && tr[i].Probed? && tr[i].pid == p && forall k | i < k < |tr| :: Quiet(tr[k], p);
      assert all[i].Probed?;
      assert forall k | i < k < |all| :: Quiet(all[k], p) by {
        assert forall k | i < k < |tr| :: all[k] == tr[k];
      }
    }
  }

  lemma TerminalStep(tr: Trace, ev: Event, p: int)
    ensures Terminal(tr, p) ==> Terminal(tr + [ev], p)
    ensures SawExit(tr, p) && ev == Killed(-p) ==> Terminal(tr + [ev], p)
    ensures SawExit(tr, p) ==> SawExit(tr + [ev], p)
    ensures ev == Probed(p, true) ==> SawExit(tr + [ev], p)
  {
    var all := tr + [ev];
    if Terminal(tr, p) {
      var i, k :| 0 <= i < k < |tr| && tr[i] == Probed(p, true) && tr[k] == Killed(-p);
      assert all[i] == Probed(p, true) && all[k] == Killed(-p);
    }
    if SawExit(tr, p) {
      var i :| 0 <= i < |tr| && tr[i] == Probed(p, true);
      assert all[i] == Probed(p, true);
      if ev == Killed(-p) {
        assert all[|tr|] == Killed(-p);
      }
    }
    if ev == Probed(p, true) {
      assert all[|tr|] == ev;
    }
  }

  /** The effect of one more call on everything tracked about p. */
  lemma Step(tr: Trace, ev: Event, p: int)
    requires AnchorSafe(tr, p)
    requires Kills(ev, p) ==> Fresh(tr, p) && Alive(tr, p)
    ensures AnchorSafe(tr + [ev], p)
    ensures ReapSafe(tr, p) && (ev == Reaped(p) ==> Terminal(tr, p)) ==> ReapSafe(tr + [ev], p)
    ensures Alive(tr + [ev], p) <==> Alive(tr, p) && !Gone(ev, p)
    ensures ev.Probed? && ev.pid == p ==> Fresh(tr + [ev], p)
    ensures Fresh(tr, p) && Quiet(ev, p) ==> Fresh(tr + [ev], p)
    ensures Terminal(tr, p) ==> Terminal(tr + [ev], p)
    ensures SawExit(tr, p) ==> SawExit(tr + [ev], p)
    ensures ev == Probed(p, true) ==> SawExit(tr + [ev], p)
    ensures SawExit(tr, p) && ev == Killed(-p) ==> Terminal(tr + [ev], p)
  {
    hide FreshAt, AliveAt, TerminalAt, AnchorSafe, ReapSafe, Fresh, Alive, Terminal, SawExit;
    AnchorStep(tr, ev, p);
    if ReapSafe(tr, p) && (ev == Reaped(p) ==> Terminal(tr, p)) {
      ReapStep(tr, ev, p);
    }
    AliveStep(tr, ev, p);
    FreshStep(tr, ev, p);
    TerminalStep(tr, ev, p);
  }

  // ----- counting calls, collecting bytes -----

  /** Completed calls: interrupted attempts are not counted. */
  function Calls(tr: Trace): nat {
    if tr == [] then 0 else Calls(tr[..|tr| - 1]) + if tr[|tr| - 1] == Interrupted then 0 else 1
  }

  /** Signals asked for. */
  function Strikes(tr: Trace): nat {
    if tr == [] then 0
    else Strikes(tr[..|tr| - 1]) + if tr[|tr| - 1].Killed? || tr[|tr| - 1].KillFailed? then 1 else 0
  }

  /** Calls that failed. */
  function Failures(tr: Trace): nat {
    if tr == [] then 0
    else
      var ev := tr[|tr| - 1];
      Failures(tr[..|tr| - 1]) + if ev.ProbeFailed? || ev.KillFailed? || ev.ReapFailed? then 1 else 0
  }

  /** What the successful probes answered, in order: was the exit seen? */
  function Looks(tr: Trace): seq<bool> {
    if tr == [] then []
    else Looks(tr[..|tr| - 1]) + if tr[|tr| - 1].Probed? then [tr[|tr| - 1].exited] else []
  }

  lemma CallsStep(tr: Trace, ev: Event)
    ensures Calls(tr + [ev]) == Calls(tr) + if ev == Interrupted then 0 else 1
    ensures Strikes(tr + [ev]) == Strikes(tr) + if ev.Killed? || ev.KillFailed? then 1 else 0
    ensures Failures(tr + [ev]) == Failures(tr) + if ev.ProbeFailed? || ev.KillFailed? || ev.ReapFailed? then 1 else 0
    ensures Looks(tr + [ev]) == Looks(tr) + if ev.Probed? then [ev.exited] else []
  {
    assert (tr + [ev])[..|tr|] == tr;
  }

  /** What came in through fd, in order. */
  function BytesIn(io: seq<Transfer>, fd: int): seq<Byte> {
    if io == [] then []
    else
      var t := io[|io| - 1];
      BytesIn(io[..|io| - 1], fd) + if t.Received? && t.fd == fd then t.bytes else []
  }

  /** What went out through fd, in order. */
  function BytesOut(io: seq<Transfer>, fd: int): seq<Byte> {
    if io == [] then []
    else
      var t := io[|io| - 1];
      BytesOut(io[..|io| - 1], fd) + if t.Sent? && t.fd == fd then t.bytes else []
  }

  lemma BytesStep(io: seq<Transfer>, t: Transfer, fd: int)
    ensures BytesIn(io + [t], fd) == BytesIn(io, fd) + if t.Received? && t.fd == fd then t.bytes else []
    ensures BytesOut(io + [t], fd) == BytesOut(io, fd) + if t.Sent? && t.fd == fd then t.bytes else []
  {
    assert (io + [t])[..|io|] == io;
  }
}
