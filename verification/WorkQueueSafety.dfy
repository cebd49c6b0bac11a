/** What a successful join is worth: safety of the work-queue protocol over
    every interleaving, and the exact case where the promise breaks. */
module WorkQueueSafety {
  import opened Processes
  import opened Sequences
  import opened WorkQueue

  /** The worker went through its STOP with nothing left behind. */
  predicate Finished(w: Worker) {
    w.committed && w.errors == 0
  }

  /** The worker left with a status the wait loop takes for a success, though it
      had not finished: SIGQUIT's handler exits with code zero, at any point. */
  predicate QuietLeaver(w: Worker) {
    w.pc.Gone? && Accepted(w.pc.status) && !Finished(w)
  }

  lemma {:induction false} SumPositive(k: Share, ws: seq<Worker>, n: nat, oid: nat)
    requires n <= |ws|
    ensures SumUpTo(k, ws, n, oid) > 0 ==> exists i :: 0 <= i < n && ShareOf(k, ws[i], oid) > 0
  {
    if n > 0 {
      SumPositive(k, ws, n - 1, oid);
      if ShareOf(k, ws[n - 1], oid) == 0 && SumUpTo(k, ws, n, oid) > 0 {
        var i :| 0 <= i < n - 1 && ShareOf(k, ws[i], oid) > 0;
      }
    }
  }

  lemma DeliveredAtMost(s: State, oid: nat)
    requires QueueInv(s) && AccountInv(s)
    ensures Total(Received, s.workers, oid) <= Count(s.items, oid)
  {
    assert Total(Received, s.workers, oid) == Count(Delivered(s.items, s.taken), oid);
    if s.taken < |s.items| {
      CountPrefix(s.items, s.taken, oid);
    }
  }

  /** A STOP reaches a worker only behind every task. */
  lemma StopComesLast(s: State, i: nat)
    requires AccountInv(s) && i < |s.workers| && s.workers[i].stopped
    ensures Delivered(s.items, s.taken) == s.items
  {
    StoppedBounds(s.workers, |s.workers|);
  }

  /** One task is handed to one worker at most, once at most, in every reachable state. */
  lemma HandedOnce(s: State, i: nat, j: nat, oid: nat)
    requires Inv(s) && Distinct(s.items)
    requires i < |s.workers| && j < |s.workers| && oid in s.workers[i].got
    ensures Count(s.workers[i].got, oid) == 1
    ensures j != i ==> oid !in s.workers[j].got
  {
    CountPositive(s.workers[i].got, oid);
    CountPositive(s.workers[j].got, oid);
    CountDistinct(s.items, oid);
    DeliveredAtMost(s, oid);
    SumHolds(Received, s.workers, |s.workers|, i, oid);
    if i < j {
      SumHoldsBoth(Received, s.workers, |s.workers|, i, j, oid);
    } else if j < i {
      SumHoldsBoth(Received, s.workers, |s.workers|, j, i, oid);
    }
  }

  /** No two workers ever work on the same object at the same time. */
  lemma NeverTwoAtWork(s: State, i: nat, j: nat)
    requires Inv(s) && Distinct(s.items)
    requires i < |s.workers| && j < |s.workers| && i != j
    requires s.workers[i].pc.Working? && s.workers[j].pc.Working?
    ensures s.workers[i].pc.oid != s.workers[j].pc.oid
  {
    assert WorkerInv(s.proto, s.workers[i]) && WorkerInv(s.proto, s.workers[j]);
    HandedOnce(s, i, j, s.workers[i].pc.oid);
  }

  /** The INSERT of a checksum row finds no row under its key. */
  lemma NoDuplicateKey(s: State, w: nat)
    requires Inv(s) && Distinct(s.items) && s.proto.CompareData?
    requires w < |s.workers| && s.workers[w].pc.Working?
    ensures s.workers[w].pc.oid !in s.target
  {
    var oid := s.workers[w].pc.oid;
    assert WorkerInv(s.proto, s.workers[w]);
    assert Total(Effect(s.proto), s.workers, oid) == s.target[oid];
    CountAppend(s.workers[w].done, oid, oid);
    if oid in s.target {
      SumPositive(Effect(s.proto), s.workers, |s.workers|, oid);
      var i :| 0 <= i < |s.workers| && ShareOf(Effect(s.proto), s.workers[i], oid) > 0;
      assert WorkerInv(s.proto, s.workers[i]);
      CountPositive(s.workers[i].got, oid);
      HandedOnce(s, w, i, oid);
    }
  }

  /** What has not been committed does not count. */
  lemma OnlyCommittedCounts(s: State, oid: nat)
    requires Inv(s) && s.proto.LargeObjects? && oid in s.target
    ensures exists i :: 0 <= i < |s.workers| && s.workers[i].committed && oid in s.workers[i].done
  {
    assert Total(Effect(s.proto), s.workers, oid) == s.target[oid];
    SumPositive(Effect(s.proto), s.workers, |s.workers|, oid);
    var i :| 0 <= i < |s.workers| && ShareOf(Effect(s.proto), s.workers[i], oid) > 0;
    CountPositive(s.workers[i].done, oid);
  }

  lemma SameCounts(target: multiset<nat>, items: seq<nat>)
    requires forall oid :: target[oid] == Count(items, oid)
    ensures target == multiset(items)
  {
    forall oid
      ensures target[oid] == multiset(items)[oid]
    {
      CountIsMultiplicity(items, oid);
    }
  }

  /** Whatever was taken short of the end, one more object was queued. */
  lemma DeliveredAll(s: State)
    requires forall oid :: Count(Delivered(s.items, s.taken), oid) == Count(s.items, oid)
    ensures s.taken >= |s.items|
  {
    if s.taken < |s.items| {
      var oid := s.items[s.taken];
      DeliveredNext(s.items, s.taken, oid);
      if s.taken + 1 < |s.items| {
        CountPrefix(s.items, s.taken + 1, oid);
      }
    }
  }

  lemma EffectAtMost(s: State, oid: nat)
    requires Inv(s)
    ensures forall i | 0 <= i < |s.workers| ::
              EffectOf(s.proto, s.workers[i], oid) <= Count(s.workers[i].got, oid)
  {
    forall i | 0 <= i < |s.workers|
      ensures EffectOf(s.proto, s.workers[i], oid) <= Count(s.workers[i].got, oid)
    {
      assert WorkerInv(s.proto, s.workers[i]);
    }
  }

  /** All that the worker received has reached the target. */
  ghost predicate Settled(p: Protocol, w: Worker) {
    forall oid :: EffectOf(p, w, oid) == Count(w.got, oid)
  }

  ghost predicate AllSettled(s: State) {
    forall i | 0 <= i < |s.workers| :: Settled(s.proto, s.workers[i])
  }

  lemma SettledIsComplete(s: State)
    requires Inv(s) && s.taken >= |s.items| && AllSettled(s)
    ensures s.target == multiset(s.items)
  {
    forall oid
      ensures s.target[oid] == Count(s.items, oid)
    {
      EffectAtMost(s, oid);
      SumCompare(s.proto, s.workers, |s.workers|, oid);
      assert forall i | 0 <= i < |s.workers| :: Settled(s.proto, s.workers[i]);
      assert Total(Received, s.workers, oid) == Count(Delivered(s.items, s.taken), oid);
      assert Total(Effect(s.proto), s.workers, oid) == s.target[oid];
    }
    SameCounts(s.target, s.items);
  }

  lemma CompleteCounts(s: State, oid: nat)
    requires Inv(s) && s.target == multiset(s.items)
    ensures Count(Delivered(s.items, s.taken), oid) == Count(s.items, oid)
    ensures forall i | 0 <= i < |s.workers| :: EffectOf(s.proto, s.workers[i], oid) == Count(s.workers[i].got, oid)
  {
    EffectAtMost(s, oid);
    SumCompare(s.proto, s.workers, |s.workers|, oid);
    CountIsMultiplicity(s.items, oid);
    assert Total(Received, s.workers, oid) == Count(Delivered(s.items, s.taken), oid);
    assert Total(Effect(s.proto), s.workers, oid) == s.target[oid];
    DeliveredAtMost(s, oid);
  }

  lemma CompleteIsSettled(s: State)
    requires Inv(s) && s.target == multiset(s.items)
    ensures s.taken >= |s.items| && AllSettled(s)
  {
    forall oid
      ensures Count(Delivered(s.items, s.taken), oid) == Count(s.items, oid)
    {
      CompleteCounts(s, oid);
    }
    DeliveredAll(s);
    forall i, oid | 0 <= i < |s.workers|
      ensures EffectOf(s.proto, s.workers[i], oid) == Count(s.workers[i].got, oid)
    {
      CompleteCounts(s, oid);
    }
  }

  /** What a worker that left quietly may have taken without harm: nothing, where
      only a commit counts; only what it had carried out, elsewhere. */
  predicate LostNothing(p: Protocol, w: Worker) {
    if p.LargeObjects? then w.got == [] else multiset(w.done) == multiset(w.got)
  }

  lemma SettledExactly(p: Protocol, w: Worker)
    requires WorkerInv(p, w) && w.pc.Gone? && Accepted(w.pc.status)
    ensures Settled(p, w) <==> Finished(w) || LostNothing(p, w)
  {
    forall oid
      ensures Count(w.done, oid) == multiset(w.done)[oid] && Count(w.got, oid) == multiset(w.got)[oid]
    {
      CountIsMultiplicity(w.done, oid);
      CountIsMultiplicity(w.got, oid);
    }
    if p.LargeObjects? && !w.committed && w.got != [] {
      CountPositive(w.got, w.got[0]);
      assert EffectOf(p, w, w.got[0]) == 0;
    }
    if Settled(p, w) && !p.LargeObjects? {
      forall oid
        ensures multiset(w.done)[oid] == multiset(w.got)[oid]
      {
        assert EffectOf(p, w, oid) == Count(w.got, oid);
      }
    }
  }

  /** A supervisor of any of the three protocols joined its workers with success,
      and maybe returned true. The target then has every object as often as it
      was queued if and only if everything was delivered, and each worker that
      left quietly had lost nothing. */
  lemma CompleteExactly(p: Protocol, items: seq<nat>, jobs: nat, capacity: nat, events: seq<Event>)
    requires CanRun(Init(p, items, jobs, capacity), events)
    requires var t := Run(Init(p, items, jobs, capacity), events); t.sup.Finishing? || t.sup == Returned(true)
    ensures var t := Run(Init(p, items, jobs, capacity), events);
            t.target == multiset(items) <==>
            && t.taken >= |items|
            && forall i | 0 <= i < |t.workers| && QuietLeaver(t.workers[i]) :: LostNothing(p, t.workers[i])
  {
    var t := Run(Init(p, items, jobs, capacity), events);
    InitInv(p, items, jobs, capacity);
    RunInv(Init(p, items, jobs, capacity), events);
    forall i | 0 <= i < |t.workers|
      ensures Finished(t.workers[i]) || QuietLeaver(t.workers[i])
      ensures Settled(p, t.workers[i]) <==> Finished(t.workers[i]) || LostNothing(p, t.workers[i])
    {
      SettledExactly(p, t.workers[i]);
    }
    if t.target == multiset(items) {
      CompleteIsSettled(t);
    } else if t.taken >= |items| && AllSettled(t) {
      SettledIsComplete(t);
    }
  }

  /** The same for large objects, where a STOP is only read behind every object:
      it suffices that some worker did commit. */
  lemma LargeObjectsCompleteExactly(s: State)
    requires Inv(s) && s.proto.LargeObjects? && s.sup == Returned(true)
    ensures s.target == multiset(s.items) <==>
            && (forall i | 0 <= i < |s.workers| && QuietLeaver(s.workers[i]) :: s.workers[i].got == [])
            && (s.items == [] || exists i :: 0 <= i < |s.workers| && Finished(s.workers[i]))
  {
    forall i | 0 <= i < |s.workers|
      ensures Finished(s.workers[i]) ==> s.workers[i].stopped
      ensures Finished(s.workers[i]) || QuietLeaver(s.workers[i])
      ensures Settled(s.proto, s.workers[i]) <==> Finished(s.workers[i]) || s.workers[i].got == []
    {
      SettledExactly(s.proto, s.workers[i]);
    }
    if s.target == multiset(s.items) {
      CompleteIsSettled(s);
      assert forall i | 0 <= i < |s.workers| :: Settled(s.proto, s.workers[i]);
      if s.items != [] {
        SomeoneCommitted(s);
      }
    } else if
      && (forall i | 0 <= i < |s.workers| && QuietLeaver(s.workers[i]) :: s.workers[i].got == [])
      && (s.items == [] || exists i :: 0 <= i < |s.workers| && Finished(s.workers[i]))
    {
      if s.items != [] {
        var i :| 0 <= i < |s.workers| && Finished(s.workers[i]);
        StopComesLast(s, i);
        StoppedBounds(s.workers, |s.workers|);
      }
      SettledIsComplete(s);
    }
  }

  lemma SomeoneCommitted(s: State)
    requires Inv(s) && s.proto.LargeObjects? && s.sup == Returned(true)
    requires s.items != [] && s.target == multiset(s.items)
    ensures exists i :: 0 <= i < |s.workers| && Finished(s.workers[i])
  {
    var oid := s.items[0];
    assert oid in s.target;
    OnlyCommittedCounts(s, oid);
    var i :| 0 <= i < |s.workers| && s.workers[i].committed && oid in s.workers[i].done;
    assert WorkerInv(s.proto, s.workers[i]);
    assert Finished(s.workers[i]);
  }

  /** The join in plain terms: it succeeds if and only if every worker ended with
      code zero, or by HUP, INT, QUIT or TERM. */
  lemma JoinExactly(s: State)
    requires Enabled(s, Join)
    ensures Fire(s, Join).sup ==
            if forall i | 0 <= i < |s.workers| ::
                 s.workers[i].pc.status in {Exited(0), Signaled(1), Signaled(2), Signaled(3), Signaled(15)}
            then Finishing else Returned(false)
  {
    forall i | 0 <= i < |s.workers|
      ensures Accepted(s.workers[i].pc.status) <==>
              s.workers[i].pc.status in {Exited(0), Signaled(1), Signaled(2), Signaled(3), Signaled(15)}
    {
      AcceptedExactly(s.workers[i].pc.status);
    }
  }

  /** Over every run: a worker killed by any other signal, or that ends with any
      other code, keeps the supervisor from ever returning true. */
  lemma KilledNeverSucceeds(p: Protocol, items: seq<nat>, jobs: nat, capacity: nat, events: seq<Event>, i: nat)
    requires CanRun(Init(p, items, jobs, capacity), events)
    requires var ws := Run(Init(p, items, jobs, capacity), events).workers;
             && i < |ws| && ws[i].pc.Gone?
             && ws[i].pc.status !in {Exited(0), Signaled(1), Signaled(2), Signaled(3), Signaled(15)}
    ensures var t := Run(Init(p, items, jobs, capacity), events);
            && !t.sup.Finishing? && t.sup != Returned(true)
            && (Enabled(t, Join) ==> Fire(t, Join).sup == Returned(false))
  {
    var t := Run(Init(p, items, jobs, capacity), events);
    InitInv(p, items, jobs, capacity);
    RunInv(Init(p, items, jobs, capacity), events);
    AcceptedExactly(t.workers[i].pc.status);
  }

  /* ---- runs where nobody leaves quietly ---- */

  predicate NobodyQuits(events: seq<Event>) {
    forall i | 0 <= i < |events| ::
      events[i].Act? && events[i].action.Leave? ==> !Accepted(events[i].action.status)
  }

  ghost predicate NoQuietLeaver(s: State) {
    forall i | 0 <= i < |s.workers| :: !QuietLeaver(s.workers[i])
  }

  lemma {:induction false} QuietRun(s: State, events: seq<Event>)
    requires Inv(s) && CanRun(s, events) && NobodyQuits(events) && NoQuietLeaver(s)
    ensures NoQuietLeaver(Run(s, events))
    decreases |events|
  {
    if events != [] {
      var e := events[0];
      var t := Fire(s, e);
      InvStep(s, e);
      if e.Act? {
        assert WorkerInv(s.proto, s.workers[e.w]);
        forall i | 0 <= i < |t.workers|
          ensures !QuietLeaver(t.workers[i])
        {
          assert i != e.w ==> t.workers[i] == s.workers[i];
        }
      }
      assert forall i | 0 <= i < |events[1..]| :: events[1..][i] == events[i + 1];
      QuietRun(t, events[1..]);
    }
  }

  /** Over every interleaving, with workers failing anywhere: when the supervisor
      returns true and no process left quietly, each queued object is in the
      target exactly as often as the cursor produced it. */
  lemma SuccessIsComplete(p: Protocol, items: seq<nat>, jobs: nat, capacity: nat, events: seq<Event>)
    requires jobs >= 1 && CanRun(Init(p, items, jobs, capacity), events) && NobodyQuits(events)
    requires Run(Init(p, items, jobs, capacity), events).sup == Returned(true)
    ensures Run(Init(p, items, jobs, capacity), events).target == multiset(items)
  {
    var s := Init(p, items, jobs, capacity);
    var t := Run(s, events);
    InitInv(p, items, jobs, capacity);
    RunInv(s, events);
    QuietRun(s, events);
    forall i | 0 <= i < |t.workers|
      ensures Finished(t.workers[i]) && t.workers[i].stopped
    {
      assert WorkerInv(t.proto, t.workers[i]);
    }
    assert t.workers[0].stopped;
    StoppedBounds(t.workers, |t.workers|);
    CompleteExactly(p, items, jobs, capacity, events);
  }

  /** In every reachable state: what counts in the target was carried out once,
      by exactly one worker, and no other ever received it. */
  lemma DoneByOneWorker(t: State, oid: nat) returns (i: nat)
    requires Inv(t) && Distinct(t.items) && oid in t.target
    ensures i < |t.workers| && Count(t.workers[i].done, oid) == 1
    ensures t.proto.LargeObjects? ==> t.workers[i].committed
    ensures forall j | 0 <= j < |t.workers| && j != i :: oid !in t.workers[j].got
  {
    assert Total(Effect(t.proto), t.workers, oid) == t.target[oid];
    SumPositive(Effect(t.proto), t.workers, |t.workers|, oid);
    i :| 0 <= i < |t.workers| && ShareOf(Effect(t.proto), t.workers[i], oid) > 0;
    assert WorkerInv(t.proto, t.workers[i]);
    CountPositive(t.workers[i].got, oid);
    forall j | 0 <= j < |t.workers| && j != i
      ensures oid !in t.workers[j].got
    {
      HandedOnce(t, i, j, oid);
    }
    HandedOnce(t, i, i, oid);
  }

  /** ... hence, when the supervisor returns true and no process left quietly,
      each object was carried out by exactly one worker, which committed it. */
  lemma SuccessByExactlyOne(p: Protocol, items: seq<nat>, jobs: nat, capacity: nat, events: seq<Event>, oid: nat)
    returns (i: nat)
    requires jobs >= 1 && CanRun(Init(p, items, jobs, capacity), events) && NobodyQuits(events)
    requires Run(Init(p, items, jobs, capacity), events).sup == Returned(true)
    requires Distinct(items) && oid in items
    ensures var ws := Run(Init(p, items, jobs, capacity), events).workers;
            && i < |ws|
            && Finished(ws[i])
            && Count(ws[i].done, oid) == 1
            && forall j | 0 <= j < |ws| && j != i :: oid !in ws[j].got
  {
    var s := Init(p, items, jobs, capacity);
    var t := Run(s, events);
    InitInv(p, items, jobs, capacity);
    RunInv(s, events);
    QuietRun(s, events);
    SuccessIsComplete(p, items, jobs, capacity, events);
    i := DoneByOneWorker(t, oid);
    assert WorkerInv(p, t.workers[i]);
  }

  /** compare data, over every interleaving: a true return leaves exactly one
      checksum row per table, if and only if every table was delivered and each
      worker that left quietly had carried out all it received. */
  lemma OneChecksumExactly(items: seq<nat>, jobs: nat, capacity: nat, events: seq<Event>)
    requires Distinct(items) && CanRun(Init(CompareData, items, jobs, capacity), events)
    requires Run(Init(CompareData, items, jobs, capacity), events).sup == Returned(true)
    ensures var t := Run(Init(CompareData, items, jobs, capacity), events);
            (forall oid :: t.target[oid] == if oid in items then 1 else 0) <==>
            && t.taken >= |items|
            && forall i | 0 <= i < |t.workers| && QuietLeaver(t.workers[i]) ::
                 multiset(t.workers[i].done) == multiset(t.workers[i].got)
  {
    var t := Run(Init(CompareData, items, jobs, capacity), events);
    forall oid
      ensures Count(items, oid) == multiset(items)[oid] == if oid in items then 1 else 0
    {
      CountIsMultiplicity(items, oid);
      CountDistinct(items, oid);
      CountPositive(items, oid);
    }
    CompleteExactly(CompareData, items, jobs, capacity, events);
    if forall oid :: t.target[oid] == if oid in items then 1 else 0 {
      SameCounts(t.target, items);
    }
  }

  /** A STOP that could not be sent is skipped over. Once no worker is left, as
      many workers at least went without one; the join then succeeds if and only
      if all of these left quietly, and the others left well. */
  lemma SkippedStopExactly(p: Protocol, items: seq<nat>, jobs: nat, capacity: nat, events: seq<Event>)
    requires jobs >= 1 && CanRun(Init(p, items, jobs, capacity), events)
    requires var t := Run(Init(p, items, jobs, capacity), events); Enabled(t, Join) && t.skipped > 0
    ensures var t := Run(Init(p, items, jobs, capacity), events);
            && |t.workers| == jobs && t.skipped + StoppedUpTo(t.workers, jobs) <= jobs
            && (Fire(t, Join).sup.Finishing? <==>
                  forall i | 0 <= i < jobs ::
                    if t.workers[i].stopped then Accepted(t.workers[i].pc.status) else QuietLeaver(t.workers[i]))
  {
    var t := Run(Init(p, items, jobs, capacity), events);
    InitInv(p, items, jobs, capacity);
    RunInv(Init(p, items, jobs, capacity), events);
    forall i | 0 <= i < |t.workers|
      ensures WorkerInv(p, t.workers[i])
    {
      assert WorkerInv(t.proto, t.workers[i]);
    }
  }

  /** ... so without quiet exits such a run never returns true. */
  lemma SkippedStopNeverSucceeds(p: Protocol, items: seq<nat>, jobs: nat, capacity: nat, events: seq<Event>)
    requires jobs >= 1 && CanRun(Init(p, items, jobs, capacity), events) && NobodyQuits(events)
    requires Run(Init(p, items, jobs, capacity), events).skipped > 0
    ensures Run(Init(p, items, jobs, capacity), events).sup != Returned(true)
  {
    var s := Init(p, items, jobs, capacity);
    var t := Run(s, events);
    InitInv(p, items, jobs, capacity);
    RunInv(s, events);
    QuietRun(s, events);
    if t.sup == Returned(true) {
      StoppedBounds(t.workers, |t.workers|);
      forall i | 0 <= i < |t.workers|
        ensures t.workers[i].stopped
      {
        assert WorkerInv(t.proto, t.workers[i]);
      }
      assert false;
    }
  }
}
