/** One child process per database, a bounded number of them at a time. */
module ForkPool {
  import opened Processes

  /** The children of the parent process, each named by its database. */
  class Pool {
    var live: set<nat>
    var forked: seq<nat>
    var reaped: map<nat, ExitStatus>
    ghost var failedWaits: nat
    ghost var stops: nat
    ghost var peak: nat

    constructor ()
      ensures Fresh()
    {
      live, forked, reaped, failedWaits, stops, peak := {}, [], map[], 0, 0, 0;
    }

    /** Each forked database is either still running or reaped. */
    ghost predicate Valid()
      reads this
    {
      && (forall i, j | 0 <= i < j < |forked| :: forked[i] != forked[j])
      && (forall d :: d in forked <==> d in live || d in reaped)
      && (forall d | d in live :: d !in reaped)
      && |live| <= peak
    }

    /** The first n databases were forked, in order, once each. */
    ghost predicate ForkedUpTo(n: nat)
      reads this
    {
      |forked| == n && forall d | 0 <= d < n :: forked[d] == d
    }

    /** No child yet. */
    ghost predicate Fresh()
      reads this
    {
      live == {} && forked == [] && reaped == map[] && failedWaits == 0 && stops == 0 && peak == 0
    }

    /** Nothing went wrong so far: no signal or failed fork, no failed wait, no
        child that ended badly. */
    ghost predicate Fine()
      reads this
    {
      stops == 0 && failedWaits == 0 && AllWell()
    }

    ghost predicate AllWell()
      reads this
    {
      forall d | d in reaped :: reaped[d] == Exited(EXIT_CODE_QUIT)
    }

    /** A signal asks this process to stop. */
    method AskedToStop() returns (asked: bool)
      modifies this`stops
      ensures stops == old(stops) + if asked then 1 else 0
    {
      asked := *;
      if asked {
        stops := stops + 1;
      }
    }

    method Fork(d: nat) returns (ok: bool)
      requires Valid() && d !in forked
      modifies this
      ensures stops == old(stops) + if ok then 0 else 1
      ensures Valid() && reaped == old(reaped) && failedWaits == old(failedWaits)
      ensures ok ==> live == old(live) + {d} && forked == old(forked) + [d]
      ensures !ok ==> live == old(live) && forked == old(forked)
      ensures peak == if ok && |live| > old(peak) then |live| else old(peak)
    {
      ok := *;
      if ok {
        live, forked := live + {d}, forked + [d];
        if |live| > peak {
          peak := |live|;
        }
      } else {
        stops := stops + 1;
      }
    }

    /** waitpid() fails, or returns any live child with any status. */
    method WaitAnyChild() returns (ok: bool)
      requires Valid()
      modifies this
      ensures Valid() && forked == old(forked) && peak == old(peak) && stops == old(stops)
      ensures failedWaits == old(failedWaits) + 1 || failedWaits == old(failedWaits)
      ensures failedWaits > old(failedWaits) ==> live == old(live) && reaped == old(reaped) && !ok
      ensures failedWaits == old(failedWaits) ==> |live| + 1 == old(|live|)
      ensures AllWell() <==> old(AllWell()) && (ok || failedWaits > old(failedWaits))
    {
      var failed := *;
      if failed || live == {} {
        failedWaits := failedWaits + 1;
        return false;
      }
      var d :| d in live;
      var status: ExitStatus := *;
      live, reaped := live - {d}, reaped[d := status];
      ok := status == Exited(EXIT_CODE_QUIT);
    }

    /** Gives a slot back after one wait. */
    method FreeSlot(ok: bool, ghost activeCount: nat) returns (still: bool)
      requires Valid() && activeCount > 0 && |live| == activeCount + failedWaits && (ok <==> Fine())
      modifies this
      ensures Valid() && |live| == activeCount - 1 + failedWaits && (still <==> Fine())
      ensures forked == old(forked) && peak == old(peak) && stops == old(stops) && failedWaits >= old(failedWaits)
    {
      var reapedWell := WaitAnyChild();
      still := ok && reapedWell;
    }

    method ReapRemaining(ok: bool, active: nat) returns (still: bool)
      requires Valid() && |live| == active + failedWaits && (ok <==> Fine())
      modifies this
      ensures Valid() && |live| == failedWaits && (still <==> Fine())
      ensures forked == old(forked) && peak == old(peak) && stops == old(stops) && failedWaits >= old(failedWaits)
    {
      still := ok;
      var activeCount := active;
      while activeCount > 0
        invariant Valid() && 0 <= activeCount && |live| == activeCount + failedWaits && (still <==> Fine())
        invariant forked == old(forked) && peak == old(peak) && stops == old(stops) && failedWaits >= old(failedWaits)
      {
        still := FreeSlot(still, activeCount);
        activeCount := activeCount - 1;
      }
    }

    /** Forks the next database, after a wait when no slot is free. */
    method ForkNext(i: nat, ok: bool, active: nat, maxWorkers: nat) returns (still: bool, activeNow: nat, stopped: bool)
      requires Valid() && ForkedUpTo(i) && stops == 0 && (ok <==> Fine())
      requires |live| == active + failedWaits && peak <= maxWorkers + failedWaits
      requires 0 < maxWorkers && active <= maxWorkers
      modifies this
      ensures Valid() && (still <==> Fine()) && (stopped <==> stops > 0)
      ensures |live| == activeNow + failedWaits && peak <= maxWorkers + failedWaits && activeNow <= maxWorkers
      ensures stops == 0 ==> ForkedUpTo(i + 1)
      ensures failedWaits >= old(failedWaits)
    {
      still, activeNow, stopped := ok, active, false;
      if activeNow >= maxWorkers {
        still := FreeSlot(still, activeNow);
        activeNow := activeNow - 1;
      }
      var started := Fork(i);
      if started {
        activeNow := activeNow + 1;
      } else {
        still, stopped := false, true;
      }
    }

    /** The loop shared by the two commands that compare all the databases. A
        wait that fails gives up its slot all the same: what is left running, or
        runs beyond the bound, is one child per failed wait and no more. */
    method RunAll(dbCount: nat, tableJobs: nat) returns (ok: bool)
      requires Fresh() && tableJobs >= 1
      modifies this
      ensures Valid()
      ensures ok <==> Fine()
      ensures stops == 0 ==> ForkedUpTo(dbCount)
      ensures ok ==> forall d :: d in reaped <==> 0 <= d < dbCount
      ensures |live| == failedWaits
      ensures peak <= failedWaits + if tableJobs < dbCount then tableJobs else dbCount
    {
      var maxWorkers := if tableJobs < dbCount then tableJobs else dbCount;
      var activeCount := 0;
      ok := true;
      var i := 0;
      var stopped := false;
      while i < dbCount && !stopped
        invariant 0 <= i <= dbCount && Valid() && 0 <= activeCount <= maxWorkers
        invariant |live| == activeCount + failedWaits && peak <= maxWorkers + failedWaits
        invariant (ok <==> Fine()) && (stopped <==> stops > 0) && (!stopped ==> ForkedUpTo(i))
        decreases dbCount - i, !stopped
      {
        stopped := AskedToStop();
        if stopped {
          ok := false;
        } else {
          ok, activeCount, stopped := ForkNext(i, ok, activeCount, maxWorkers);
          i := i + 1;
        }
      }
      ok := ReapRemaining(ok, activeCount);
      if ok {
        AllReaped(dbCount);
      }
    }

    /** Whatever was forked and is not running was reaped. */
    lemma AllReaped(dbCount: nat)
      requires Valid() && ForkedUpTo(dbCount) && |live| == 0
      ensures forall d :: d in reaped <==> 0 <= d < dbCount
    {
      assert live == {};
      forall d | 0 <= d < dbCount
        ensures d in reaped
      {
        assert forked[d] == d;
      }
    }
  }
}
