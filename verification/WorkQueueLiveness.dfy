/** With no failing process and room for one message, the work-queue protocol
    cannot get stuck, and every run ends with all the work done. */
module WorkQueueLiveness {
  import opened Processes
  import opened Sequences
  import opened WorkQueue
  import opened WorkQueueSafety

  /** The events of a run where nothing fails. */
  predicate Good(e: Event) {
    match e
    case Fork => true
    case BeginSending => true
    case Send => true
    case BeginWaiting => true
    case Join => true
    case Finish(ok) => ok
    case Act(_, a) => !a.Leave? && !a.Fail?
    case _ => false
  }

  ghost predicate Healthy(s: State) {
    && s.skipped == 0
    && s.sup != Returned(false)
    && (forall i | 0 <= i < |s.workers| :: s.workers[i].errors == 0)
    && (forall i | 0 <= i < |s.workers| && s.workers[i].pc.Gone? ::
          Finished(s.workers[i]) && s.workers[i].pc.status == Exited(EXIT_CODE_QUIT))
  }

  lemma HealthyStep(s: State, e: Event)
    requires Inv(s) && Healthy(s) && Enabled(s, e) && Good(e)
    ensures Healthy(Fire(s, e))
  {
    if e.Act? {
      assert WorkerInv(s.proto, s.workers[e.w]);
      if e.action.Receive? {
        assert s.queue[0] == MessageAt(s.items, s.taken);
      }
      var t := Fire(s, e);
      assert forall i | 0 <= i < |t.workers| && i != e.w :: t.workers[i] == s.workers[i];
    }
  }

  /* ---- a measure that every good event decreases ---- */

  function WorkerWeight(w: Worker): nat {
    match w.pc
    case Starting => 1
    case Receiving => 0
    case Working(_) => 1
    case Committing => 2
    case Closing => 1
    case Gone(_) => 0
  }

  function WeightUpTo(ws: seq<Worker>, n: nat): nat
    requires n <= |ws|
  {
    if n == 0 then 0 else WeightUpTo(ws, n - 1) + WorkerWeight(ws[n - 1])
  }

  lemma {:induction false} WeightAgrees(ws: seq<Worker>, vs: seq<Worker>, n: nat)
    requires n <= |ws| && n <= |vs|
    requires forall i | 0 <= i < n :: ws[i] == vs[i]
    ensures WeightUpTo(ws, n) == WeightUpTo(vs, n)
  {
    if n > 0 {
      WeightAgrees(ws, vs, n - 1);
    }
  }

  lemma {:induction false} WeightUpdate(ws: seq<Worker>, n: nat, i: nat, w: Worker)
    requires i < n <= |ws|
    ensures WeightUpTo(ws[i := w], n) + WorkerWeight(ws[i]) == WeightUpTo(ws, n) + WorkerWeight(w)
  {
    if i == n - 1 {
      WeightAgrees(ws[i := w], ws, i);
    } else {
      WeightUpdate(ws, n - 1, i, w);
    }
  }

  function SupervisorWeight(sup: Supervisor): nat {
    match sup
    case Forking => 4
    case Sending => 3
    case Waiting => 2
    case Finishing => 1
    case Returned(_) => 0
  }

  /** Unforked workers, unsent and queued messages, and what each process still
      has to go through. */
  function Measure(s: State): int {
    SupervisorWeight(s.sup)
    + 2 * (s.jobs - |s.workers|)
    + 4 * (ProgramLength(s) - s.next)
    + 3 * |s.queue|
    + WeightUpTo(s.workers, |s.workers|)
  }

  lemma MeasureDecreases(s: State, e: Event)
    requires QueueInv(s) && Enabled(s, e) && Good(e)
    ensures 0 <= Measure(Fire(s, e)) < Measure(s)
  {
    var t := Fire(s, e);
    if e.Act? {
      var v := ActOn(s.proto, s.workers[e.w], e.action, Head(s));
      WeightUpdate(s.workers, |s.workers|, e.w, v);
    } else if e.Fork? {
      WeightAgrees(t.workers, s.workers, |s.workers|);
    }
  }

  /* ---- the queued STOPs ---- */

  function StopsIn(q: seq<Message>): nat {
    if q == [] then 0 else StopsIn(q[..|q| - 1]) + (if q[|q| - 1].Stop? then 1 else 0)
  }

  lemma {:induction false} StopsInSegment(items: seq<nat>, q: seq<Message>, start: nat)
    requires forall k | 0 <= k < |q| :: q[k] == MessageAt(items, start + k)
    ensures start + |q| <= |items| ==> StopsIn(q) == 0
    ensures start <= |items| < start + |q| ==> StopsIn(q) == start + |q| - |items|
    ensures |items| < start ==> StopsIn(q) == |q|
  {
    if q != [] {
      StopsInSegment(items, q[..|q| - 1], start);
    }
  }

  /** The STOPs in the queue never outnumber the workers still to stop. */
  lemma QueuedStopsBounded(s: State)
    requires Inv(s)
    ensures StopsIn(s.queue) + StoppedUpTo(s.workers, |s.workers|) <= s.jobs
  {
    StopsInSegment(s.items, s.queue, s.taken);
  }

  /* ---- no good state is stuck ---- */

  /** A worker that still has to stop exists until the last message is taken. */
  lemma SomeoneRuns(s: State) returns (w: nat)
    requires Inv(s) && |s.workers| == s.jobs && s.jobs >= 1 && s.taken < ProgramLength(s)
    ensures w < |s.workers| && !s.workers[w].stopped
  {
    StoppedBounds(s.workers, |s.workers|);
    w :| 0 <= w < |s.workers| && !s.workers[w].stopped;
  }

  lemma AllStopped(s: State)
    requires Inv(s) && |s.workers| == s.jobs && s.jobs >= 1
    ensures (forall i | 0 <= i < |s.workers| :: s.workers[i].stopped) <==> s.taken == ProgramLength(s)
  {
    StoppedBounds(s.workers, |s.workers|);
  }

  lemma BusyWorkerActs(s: State, w: nat) returns (e: Event)
    requires Inv(s) && w < |s.workers|
    requires !s.workers[w].pc.Receiving? && !s.workers[w].pc.Gone?
    requires s.proto.CompareData? ==> Distinct(s.items)
    ensures Good(e) && Enabled(s, e)
  {
    match s.workers[w].pc {
      case Starting => e := Act(w, Start);
      case Working(_) =>
        if s.proto.CompareData? {
          NoDuplicateKey(s, w);
        }
        e := Act(w, Complete);
      case Committing => e := Act(w, Commit);
      case Closing => e := Act(w, Close);
    }
  }

  /** Every good state short of the end has an enabled good event. */
  lemma NeverStuck(s: State) returns (e: Event)
    requires Inv(s) && Healthy(s) && s.jobs >= 1 && s.capacity >= 1
    requires s.proto.CompareData? ==> Distinct(s.items)
    requires !s.sup.Returned?
    ensures Good(e) && Enabled(s, e)
  {
    if s.sup.Forking? {
      e := if |s.workers| < s.jobs then Fork else BeginSending;
    } else if s.sup.Finishing? {
      e := Finish(true);
    } else if w: nat :| w < |s.workers| && !s.workers[w].pc.Receiving? && !s.workers[w].pc.Gone? {
      e := BusyWorkerActs(s, w);
    } else if s.queue != [] {
      var w := SomeoneRuns(s);
      assert WorkerInv(s.proto, s.workers[w]);
      e := Act(w, Receive);
    } else if s.sup.Sending? {
      e := if s.next < ProgramLength(s) then Send else BeginWaiting;
    } else {
      AllStopped(s);
      forall i | 0 <= i < |s.workers|
        ensures s.workers[i].pc.Gone?
      {
        assert WorkerInv(s.proto, s.workers[i]);
      }
      e := Join;
    }
  }

  lemma {:induction false} GoodRun(s: State, events: seq<Event>)
    requires Inv(s) && Healthy(s) && CanRun(s, events) && forall i | 0 <= i < |events| :: Good(events[i])
    ensures Healthy(Run(s, events))
    ensures |events| + Measure(Run(s, events)) <= Measure(s)
    decreases |events|
  {
    if events != [] {
      InvStep(s, events[0]);
      HealthyStep(s, events[0]);
      MeasureDecreases(s, events[0]);
      assert forall i | 0 <= i < |events[1..]| :: events[1..][i] == events[i + 1];
      GoodRun(Fire(s, events[0]), events[1..]);
    }
  }

  /** Without failures no run is longer than the measure of its start, and one
      that cannot go on has returned true, with an empty queue, every worker
      stopped with exit code zero, and every object in the target. */
  lemma GoodRunsEndWell(p: Protocol, items: seq<nat>, jobs: nat, capacity: nat, events: seq<Event>)
    requires jobs >= 1 && capacity >= 1 && (p.CompareData? ==> Distinct(items))
    requires CanRun(Init(p, items, jobs, capacity), events)
    requires forall i | 0 <= i < |events| :: Good(events[i])
    ensures |events| <= Measure(Init(p, items, jobs, capacity))
    ensures var t := Run(Init(p, items, jobs, capacity), events);
            (forall e | Good(e) :: !Enabled(t, e)) ==>
              && t.sup == Returned(true)
              && t.queue == []
              && |t.workers| == jobs
              && (forall i | 0 <= i < jobs :: t.workers[i].stopped && t.workers[i].pc == Gone(Exited(EXIT_CODE_QUIT)))
              && t.target == multiset(items)
  {
    var s := Init(p, items, jobs, capacity);
    var t := Run(s, events);
    InitInv(p, items, jobs, capacity);
    RunInv(s, events);
    GoodRun(s, events);
    if !t.sup.Returned? {
      var e := NeverStuck(t);
    } else {
      forall i | 0 <= i < |t.workers|
        ensures Finished(t.workers[i]) && t.workers[i].stopped
      {
        assert WorkerInv(p, t.workers[i]);
      }
      AllStopped(t);
      CompleteExactly(p, items, jobs, capacity, events);
    }
  }
}
