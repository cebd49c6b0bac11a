/** A run of Phase B in which a worker quits with its table in hand: the join
    succeeds, and the count of what is left makes the supervisor return false. */
module ForeignKeyPhaseRuns {
  import opened Processes
  import opened ForeignKeys
  import opened ForeignKeyQueue
  import opened ForeignKeyPhase
  import Q = WorkQueue
  import Runs = ForeignKeyRuns

  const Seven: Fk := Fk(42, true, false)

  function OneFk(): Source { Source(map[7 := Seven], map[7 := Seven]) }

  /** A step of the queue that neither completes a table nor ends the phase. */
  lemma Go(v: Phase, steps: seq<Step>, t: Phase, e: Q.Event, q: Q.State) returns (more: seq<Step>, u: Phase)
    requires CanTake(v, steps) && TakeAll(v, steps) == t
    requires Q.Enabled(t.q, e) && Q.Fire(t.q, e) == q
    requires !e.Finish? && (e.Act? ==> !e.action.Complete?) && !q.sup.Returned?
    ensures more == steps + [Queue(e)] && CanTake(v, more) && TakeAll(v, more) == u == Phase(t.fk, q)
  {
    TakeExtend(v, steps, Queue(e));
    more := steps + [Queue(e)];
    u := Phase(t.fk, q);
  }

  /** A clone gets to its Phase B with constraint 7 of table 42 to validate. */
  lemma SevenIsPending() returns (before: seq<Event>, start: State)
    ensures CanRun(Init(OneFk()), before) && Run(Init(OneFk()), before) == start
    ensures Starts(start, [42]) && Pending(start.src, start.db, 7) && start.fkJobs == 1
  {
    var s := Init(OneFk());
    var t;
    before, t := Runs.UpToMarked(Seven, false);
    start := t.(pc := Adding({}, Next));
    before := Runs.Go(s, before, t, Comment(true), start);
    before, start := Runs.ThroughPostData(s, before, start);
    RunInv(s, before);
    assert Pending(start.src, start.db, 7);
  }

  /** Table 42 is queued. */
  lemma OneQueued(start: State) returns (steps: seq<Step>, t: Phase)
    requires start.fkJobs == 1
    ensures CanTake(Begin(start, [42], 10), steps) && TakeAll(Begin(start, [42], 10), steps) == t
    ensures t == Phase(start, Q.Init(Q.ValidateForeignKeys, [42], 1, 10).(
                                sup := Q.Sending, next := 1, workers := [Q.NewWorker], queue := [Q.Task(42)]))
  {
    var v := Begin(start, [42], 10);
    var q := v.q.(workers := [Q.NewWorker]);
    steps, t := Go(v, [], v, Q.Fork, q);
    q := q.(sup := Q.Sending);
    steps, t := Go(v, steps, t, Q.BeginSending, q);
    q := q.(next := 1, queue := [Q.Task(42)]);
    steps, t := Go(v, steps, t, Q.Send, q);
  }

  /** The only worker receives it. */
  lemma OneReceived(start: State) returns (steps: seq<Step>, t: Phase)
    requires start.fkJobs == 1
    ensures CanTake(Begin(start, [42], 10), steps) && TakeAll(Begin(start, [42], 10), steps) == t
    ensures t == Phase(start, Q.Init(Q.ValidateForeignKeys, [42], 1, 10).(
                                sup := Q.Sending, next := 1, taken := 1,
                                workers := [Q.Worker(Q.Working(42), [42], [], 0, false, false)]))
  {
    var v := Begin(start, [42], 10);
    steps, t := OneQueued(start);
    var q := t.q.(workers := [Q.NewWorker.(pc := Q.Receiving)]);
    steps, t := Go(v, steps, t, Q.Act(0, Q.Start), q);
    assert Q.NewWorker.got + [42] == [42];
    q := q.(queue := [], taken := 1, workers := [Q.Worker(Q.Working(42), [42], [], 0, false, false)]);
    steps, t := Go(v, steps, t, Q.Act(0, Q.Receive), q);
  }

  /** A worker is gone, its STOP is never read, and the join succeeds. */
  lemma Joined(v: Phase, before: seq<Step>, b: Phase) returns (steps: seq<Step>, t: Phase)
    requires CanTake(v, before) && TakeAll(v, before) == b
    requires b.q.sup.Sending? && b.q.next + 1 == Q.ProgramLength(b.q) && |b.q.items| == b.q.next
    requires b.q.queue == [] && b.q.capacity > 0 && Q.AllGoneWell(b.q.workers)
    ensures CanTake(v, steps) && TakeAll(v, steps) == t
    ensures t.fk == b.fk && t.q.sup.Finishing?
  {
    var q := b.q.(queue := [Q.Stop], next := b.q.next + 1);
    steps, t := Go(v, before, b, Q.Send, q);
    q := q.(sup := Q.Waiting);
    steps, t := Go(v, steps, t, Q.BeginWaiting, q);
    q := q.(sup := Q.Finishing);
    steps, t := Go(v, steps, t, Q.Join, q);
  }

  /** It quits, and the join succeeds. */
  lemma JoinedAfterQuit(start: State) returns (steps: seq<Step>, t: Phase)
    requires start.fkJobs == 1
    ensures CanTake(Begin(start, [42], 10), steps) && TakeAll(Begin(start, [42], 10), steps) == t
    ensures t.fk == start && t.q.sup.Finishing?
  {
    var v := Begin(start, [42], 10);
    steps, t := OneReceived(start);
    var q := t.q.(workers := [Q.Worker(Q.Gone(Exited(EXIT_CODE_QUIT)), [42], [], 0, false, false)]);
    steps, t := Go(v, steps, t, Q.Act(0, Q.Leave(Exited(EXIT_CODE_QUIT))), q);
    steps, t := Joined(v, steps, t);
  }

  lemma OnlyFalse(t: Phase, f: nat)
    requires t.q.sup.Finishing? && t.fk.pc.Validating? && Pending(t.fk.src, t.fk.db, f)
    ensures !CanStep(t, Queue(Q.Finish(true))) && CanStep(t, Queue(Q.Finish(false)))
    ensures Take(t, Queue(Q.Finish(false))).fk.pc == Returned(false)
  {
    assert !NoneLeft(t.fk.src, t.fk.db.rows);
  }

  /** The supervisor cannot return true: constraint 7 is still to validate. */
  lemma QuitIsCounted() returns (before: seq<Event>, start: State, steps: seq<Step>, t: Phase)
    ensures CanRun(Init(OneFk()), before) && Run(Init(OneFk()), before) == start
    ensures Starts(start, [42])
    ensures CanTake(Begin(start, [42], 10), steps) && TakeAll(Begin(start, [42], 10), steps) == t
    ensures t.q.sup.Finishing? && Pending(t.fk.src, t.fk.db, 7)
    ensures !CanStep(t, Queue(Q.Finish(true))) && CanStep(t, Queue(Q.Finish(false)))
    ensures Take(t, Queue(Q.Finish(false))).fk.pc == Returned(false)
  {
    before, start := SevenIsPending();
    steps, t := JoinedAfterQuit(start);
    OnlyFalse(t, 7);
  }
}
