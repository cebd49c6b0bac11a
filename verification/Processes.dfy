/** Sub-process outcomes, and the wait loop that turns them into one result. */
module Processes {

  const EXIT_CODE_QUIT: nat := 0
  const EXIT_CODE_INTERNAL_ERROR: nat := 12

  const SIGHUP: nat := 1
  const SIGINT: nat := 2
  const SIGQUIT: nat := 3
  const SIGTERM: nat := 15

  /** The signal that killed a process; there is no signal zero. */
  type Signal = n: nat | n > 0 witness 1

  /** What waitpid() says about a terminated child. */
  datatype ExitStatus = Exited(code: nat) | Signaled(sig: Signal)
  {
    /** WEXITSTATUS: the exit code bits are zero when a signal killed the process. */
    function ReturnCode(): nat {
      if Exited? then code else 0
    }

    function TermSignal(): nat {
      if Signaled? then sig else 0
    }
  }

  predicate SignalIsHandled(sig: nat) {
    sig == 0 || sig == SIGINT || sig == SIGTERM || sig == SIGQUIT || sig == SIGHUP
  }

  /** The wait loop's notion of a child that went well. */
  predicate Accepted(status: ExitStatus) {
    status.ReturnCode() == 0 && SignalIsHandled(status.TermSignal())
  }

  /** Which ends are taken for a success: code zero, or death by HUP, INT, QUIT or
      TERM; no other signal, and no other code. */
  lemma AcceptedExactly(status: ExitStatus)
    ensures Accepted(status) <==>
            status in {Exited(0), Signaled(1), Signaled(2), Signaled(3), Signaled(15)}
  {
  }

  /** One return of waitpid(-1, &status, WNOHANG) while children remain. */
  datatype WaitEvent = NoneExited | Interrupted | Reaped(status: ExitStatus)

  ghost predicate AllAccepted(events: seq<WaitEvent>) {
    forall i | 0 <= i < |events| && events[i].Reaped? :: Accepted(events[i].status)
  }

  lemma AllAcceptedAppend(events: seq<WaitEvent>, event: WaitEvent)
    ensures AllAccepted(events + [event]) <==>
            AllAccepted(events) && (event.Reaped? ==> Accepted(event.status))
  {
    var longer := events + [event];
    assert longer[|events|] == event;
    assert forall i | 0 <= i < |events| :: longer[i] == events[i];
  }

  /** The children of this process: pending is what waitpid() is going to
      report, in order, before it fails with ECHILD. */
  class ProcessGroup {
    var pending: seq<WaitEvent>
    var termSignals: nat

    constructor (events: seq<WaitEvent>)
      ensures pending == events && termSignals == 0
    {
      pending, termSignals := events, 0;
    }

    /** kill(0, SIGTERM), which may fail. */
    method SignalGroup() returns (sent: bool)
      modifies this`termSignals
      ensures termSignals == old(termSignals) + 1
    {
      termSignals := termSignals + 1;
      sent := *;
    }

    /** Signals the group, then waits for everyone: true only when the signal was
        sent and every child left well; the wait is skipped when it was not. */
    method FatalExit() returns (ok: bool)
      modifies this
      ensures pending == [] || (pending == old(pending) && !ok)
      ensures ok ==> pending == [] && AllAccepted(old(pending))
      ensures pending == [] && old(pending) != [] ==> (ok <==> AllAccepted(old(pending)))
      ensures pending == [] && old(pending) != [] ==>
                (ok <==> forall i | 0 <= i < |old(pending)| && old(pending)[i].Reaped? ::
                   old(pending)[i].status in {Exited(0), Signaled(1), Signaled(2), Signaled(3), Signaled(15)})
      ensures termSignals == old(termSignals) + 1
      decreases 1
    {
      var sent := SignalGroup();
      if !sent {
        return false;
      }
      ok := WaitForSubprocesses(false);
    }

    /** Every child is reaped, and the result says whether all of them went well:
        neither the fail-fast signal nor its nested wait changes the answer. */
    method WaitForSubprocesses(failFast: bool) returns (allReturnCodeAreZero: bool)
      modifies this
      ensures pending == []
      ensures allReturnCodeAreZero <==> AllAccepted(old(pending))
      ensures allReturnCodeAreZero <==>
              forall i | 0 <= i < |old(pending)| && old(pending)[i].Reaped? ::
                old(pending)[i].status in {Exited(0), Signaled(1), Signaled(2), Signaled(3), Signaled(15)}
      ensures termSignals > old(termSignals) <==> failFast && !AllAccepted(old(pending))
      ensures !failFast ==> termSignals == old(termSignals)
      decreases if failFast then 2 else 0
    {
      allReturnCodeAreZero := true;
      ghost var seen := [];
      while pending != []
        invariant seen + pending == old(pending) || (pending == [] && !AllAccepted(old(pending)))
        invariant seen + pending == old(pending) ==> (allReturnCodeAreZero <==> AllAccepted(seen))
        invariant seen + pending != old(pending) ==> !allReturnCodeAreZero
        invariant termSignals >= old(termSignals)
        invariant termSignals > old(termSignals) <==> failFast && !allReturnCodeAreZero
        decreases |pending|
      {
        var event := pending[0];
        pending := pending[1..];
        ghost var before := seen;
        seen := seen + [event];
        assert seen + pending == old(pending);
        assert event == old(pending)[|before|];
        AllAcceptedAppend(before, event);
        match event {
          case NoneExited =>
          case Interrupted =>
          case Reaped(status) =>
            if !Accepted(status) {
              allReturnCodeAreZero := false;
              if failFast {
                var _ := FatalExit();
              }
            }
        }
      }
      assert seen + [] == seen;
    }
  }
}
