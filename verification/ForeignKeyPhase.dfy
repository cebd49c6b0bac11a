/** Phase B as it runs: the workers of the queue validate and mark constraints of
    the store one at a time, and the supervisor counts what is left. Its steps
    are those of the work-queue protocol and of the command's own machine. */
module ForeignKeyPhase {
  import opened ForeignKeys
  import opened ForeignKeyQueue
  import opened Sequences
  import Q = WorkQueue
  import Safety = WorkQueueSafety

  datatype Phase = Phase(fk: State, q: Q.State)

  datatype Step =
    | Queue(e: Q.Event)
    | ValidateOne(w: nat, f: nat)
    | MarkOne(w: nat, f: nat)

  /** Nothing of this table is left to validate. */
  predicate TableDone(s: State, table: nat) {
    forall f | f in s.db.rows && Pending(s.src, s.db, f) :: s.src.claimable[f].child != table
  }

  predicate AtWorkOn(q: Q.State, w: nat, table: nat) {
    w < |q.workers| && q.workers[w].pc == Q.Working(table)
  }

  /** A worker is through with its table only when none of it is left; and the
      supervisor returns true only when a count finds none left at all. */
  predicate CanStep(v: Phase, step: Step) {
    match step
    case Queue(e) =>
      && Q.Enabled(v.q, e)
      && (e.Act? && e.action.Complete? && v.q.workers[e.w].pc.Working? ==> TableDone(v.fk, v.q.workers[e.w].pc.oid))
      && (e == Q.Finish(true) ==> Enabled(v.fk, EndValidate) && NoneLeft(v.fk.src, v.fk.db.rows))
    case ValidateOne(w, f) => Enabled(v.fk, Validate(f)) && AtWorkOn(v.q, w, Table(v.fk.src, f))
    case MarkOne(w, f) => Enabled(v.fk, MarkValidated(f)) && AtWorkOn(v.q, w, Table(v.fk.src, f))
  }

  function Take(v: Phase, step: Step): Phase
    requires CanStep(v, step)
  {
    match step
    case Queue(e) =>
      var q := Q.Fire(v.q, e);
      if e == Q.Finish(true) then Phase(Fire(v.fk, EndValidate), q)
      else if q.sup == Q.Returned(false) && v.fk.pc.Validating? then Phase(Fire(v.fk, Fail), q)
      else Phase(v.fk, q)
    case ValidateOne(_, f) => Phase(Fire(v.fk, Validate(f)), v.q)
    case MarkOne(_, f) => Phase(Fire(v.fk, MarkValidated(f)), v.q)
  }

  ghost predicate CanTake(v: Phase, steps: seq<Step>)
    decreases |steps|
  {
    steps == [] || (CanStep(v, steps[0]) && CanTake(Take(v, steps[0]), steps[1..]))
  }

  function TakeAll(v: Phase, steps: seq<Step>): Phase
    requires CanTake(v, steps)
    decreases |steps|
  {
    if steps == [] then v else TakeAll(Take(v, steps[0]), steps[1..])
  }

  lemma {:induction false} TakeExtend(v: Phase, steps: seq<Step>, step: Step)
    requires CanTake(v, steps) && CanStep(TakeAll(v, steps), step)
    ensures CanTake(v, steps + [step])
    ensures TakeAll(v, steps + [step]) == Take(TakeAll(v, steps), step)
    decreases |steps|
  {
    if steps != [] {
      TakeExtend(Take(v, steps[0]), steps[1..], step);
      assert (steps + [step])[1..] == steps[1..] + [step];
    }
  }

  /** --fk-jobs workers, none forked yet. */
  function Begin(fk: State, tables: seq<nat>, capacity: nat): Phase {
    Phase(fk, Q.Init(Q.ValidateForeignKeys, tables, fk.fkJobs, capacity))
  }

  /** A command that has just begun Phase B, with its work list. */
  ghost predicate Starts(fk: State, tables: seq<nat>) {
    Inv(fk) && fk.pc == Validating({}) && IsWorkList(fk.src, fk.db, tables)
  }

  /** What a step is for the command's own machine, if anything. */
  function EventOf(v: Phase, step: Step): seq<Event> {
    match step
    case ValidateOne(_, f) => [Validate(f)]
    case MarkOne(_, f) => [MarkValidated(f)]
    case Queue(e) =>
      if e == Q.Finish(true) then [EndValidate]
      else if Q.Fire(v.q, e).sup == Q.Returned(false) && v.fk.pc.Validating? then [Fail]
      else []
  }

  /** However many workers share the phase, it is a run of the command: whatever
      holds over all runs of commands holds with them. */
  lemma {:induction false} PhaseIsARun(v: Phase, steps: seq<Step>) returns (events: seq<Event>)
    requires CanTake(v, steps)
    ensures CanRun(v.fk, events) && Run(v.fk, events) == TakeAll(v, steps).fk
    decreases |steps|
  {
    events := [];
    if steps != [] {
      var here := EventOf(v, steps[0]);
      var after := PhaseIsARun(Take(v, steps[0]), steps[1..]);
      events := here + after;
      if here == [] {
        assert events == after;
      } else {
        assert events[1..] == after;
      }
    }
  }

  /* ---- the invariant ---- */

  ghost predicate Received(q: Q.State, table: nat) {
    exists i :: 0 <= i < |q.workers| && table in q.workers[i].got
  }

  /** Only rows change, and only by being marked: those of a table that some
      worker received. */
  ghost predicate RowsSince(start: State, v: Phase) {
    && v.fk.src == start.src && v.fk.db.rows.Keys == start.db.rows.Keys
    && forall f | f in start.db.rows ::
         && v.fk.db.rows[f].added == start.db.rows[f].added
         && (start.db.rows[f].validated ==> v.fk.db.rows[f].validated)
         && (v.fk.db.rows[f].validated && !start.db.rows[f].validated ==> Received(v.q, Table(start.src, f)))
  }

  ghost predicate DoneTables(v: Phase) {
    forall i, table | 0 <= i < |v.q.workers| && table in v.q.workers[i].done :: TableDone(v.fk, table)
  }

  ghost predicate PhaseInv(start: State, tables: seq<nat>, v: Phase) {
    && Inv(v.fk)
    && Q.Inv(v.q) && v.q.items == tables && v.q.proto == Q.ValidateForeignKeys
    && RowsSince(start, v)
    && DoneTables(v)
    && (!v.q.sup.Returned? ==> v.fk.pc.Validating?)
    && (v.q.sup == Q.Returned(true) ==>
          && NoneLeft(v.fk.src, v.fk.db.rows) && v.fk.db.fkDone
          && (v.fk.pc.Enabling? || v.fk.pc == Returned(true)))
  }

  lemma BeginInv(start: State, tables: seq<nat>, capacity: nat)
    requires Starts(start, tables)
    ensures PhaseInv(start, tables, Begin(start, tables, capacity))
  {
    Q.InitInv(Q.ValidateForeignKeys, tables, start.fkJobs, capacity);
  }

  lemma MarksKeepDone(v: Phase, u: Phase)
    requires u.fk.src == v.fk.src && u.fk.db.rows.Keys == v.fk.db.rows.Keys && DoneTables(v)
    requires forall f | f in v.fk.db.rows :: v.fk.db.rows[f].validated ==> u.fk.db.rows[f].validated
    requires u.q == v.q
    ensures DoneTables(u)
  {
    forall i, table | 0 <= i < |u.q.workers| && table in u.q.workers[i].done
      ensures TableDone(u.fk, table)
    {
      assert TableDone(v.fk, table);
    }
  }

  lemma SameRows(start: State, v: Phase, u: Phase)
    requires u.q == v.q && u.fk.src == v.fk.src && u.fk.db.rows == v.fk.db.rows
    requires RowsSince(start, v) && DoneTables(v)
    ensures RowsSince(start, u) && DoneTables(u)
  {
    MarksKeepDone(v, u);
  }

  lemma ValidateStep(start: State, tables: seq<nat>, v: Phase, w: nat, f: nat)
    requires PhaseInv(start, tables, v) && CanStep(v, ValidateOne(w, f))
    ensures PhaseInv(start, tables, Take(v, ValidateOne(w, f)))
  {
    InvStep(v.fk, Validate(f));
    SameRows(start, v, Take(v, ValidateOne(w, f)));
  }

  lemma MarkedRows(start: State, tables: seq<nat>, v: Phase, w: nat, f: nat)
    requires PhaseInv(start, tables, v) && CanStep(v, MarkOne(w, f))
    ensures RowsSince(start, Take(v, MarkOne(w, f)))
  {
    assert Q.WorkerInv(v.q.proto, v.q.workers[w]);
    assert Table(start.src, f) in v.q.workers[w].got;
    assert Received(v.q, Table(start.src, f));
  }

  lemma MarkStep(start: State, tables: seq<nat>, v: Phase, w: nat, f: nat)
    requires PhaseInv(start, tables, v) && CanStep(v, MarkOne(w, f))
    ensures PhaseInv(start, tables, Take(v, MarkOne(w, f)))
  {
    InvStep(v.fk, MarkValidated(f));
    MarkedRows(start, tables, v, w, f);
    MarksKeepDone(v, Take(v, MarkOne(w, f)));
  }

  /** What a worker has received it has received for good. */
  lemma ReceivedStays(s: Q.State, e: Q.Event, table: nat)
    requires Q.Enabled(s, e) && Received(s, table)
    ensures Received(Q.Fire(s, e), table)
  {
    var i :| 0 <= i < |s.workers| && table in s.workers[i].got;
    assert table in Q.Fire(s, e).workers[i].got;
  }

  /** Only Complete adds to what a worker has carried out. */
  lemma DoneGrows(s: Q.State, e: Q.Event, i: nat, table: nat)
    requires Q.Enabled(s, e) && i < |Q.Fire(s, e).workers| && table in Q.Fire(s, e).workers[i].done
    ensures || (i < |s.workers| && table in s.workers[i].done)
            || (e == Q.Act(i, Q.Complete) && i < |s.workers| && s.workers[i].pc == Q.Working(table))
  {
  }

  lemma QueueRows(start: State, tables: seq<nat>, v: Phase, e: Q.Event)
    requires PhaseInv(start, tables, v) && CanStep(v, Queue(e))
    ensures RowsSince(start, Phase(v.fk, Q.Fire(v.q, e))) && DoneTables(Phase(v.fk, Q.Fire(v.q, e)))
  {
    var q := Q.Fire(v.q, e);
    forall f | f in start.db.rows && v.fk.db.rows[f].validated && !start.db.rows[f].validated
      ensures Received(q, Table(start.src, f))
    {
      ReceivedStays(v.q, e, Table(start.src, f));
    }
    forall i, table | 0 <= i < |q.workers| && table in q.workers[i].done
      ensures TableDone(v.fk, table)
    {
      DoneGrows(v.q, e, i, table);
    }
  }

  /** What a step of the queue makes of the command. */
  lemma QueueCommand(start: State, tables: seq<nat>, v: Phase, e: Q.Event)
    requires PhaseInv(start, tables, v) && CanStep(v, Queue(e))
    ensures var u := Take(v, Queue(e));
            && Inv(u.fk) && u.fk.src == v.fk.src && u.fk.db.rows == v.fk.db.rows
            && (!u.q.sup.Returned? ==> u.fk == v.fk)
            && (u.q.sup == Q.Returned(true) && !v.q.sup.Returned? ==>
                  && NoneLeft(u.fk.src, u.fk.db.rows) && u.fk.db.fkDone
                  && (u.fk.pc.Enabling? || u.fk.pc == Returned(true)))
            && (u.q.sup == Q.Returned(true) && v.q.sup.Returned? ==> v.q.sup.ok && u.fk == v.fk)
  {
    if e == Q.Finish(true) {
      InvStep(v.fk, EndValidate);
    } else if Q.Fire(v.q, e).sup == Q.Returned(false) && v.fk.pc.Validating? {
      InvStep(v.fk, Fail);
    }
  }

  lemma QueueMoves(v: Phase, e: Q.Event)
    requires Q.Inv(v.q) && CanStep(v, Queue(e))
    ensures var q := Take(v, Queue(e)).q; Q.Inv(q) && q.items == v.q.items && q.proto == v.q.proto
  {
    Q.InvStep(v.q, e);
  }

  lemma QueueKeepsRows(start: State, tables: seq<nat>, v: Phase, e: Q.Event)
    requires PhaseInv(start, tables, v) && CanStep(v, Queue(e))
    ensures RowsSince(start, Take(v, Queue(e))) && DoneTables(Take(v, Queue(e)))
  {
    QueueRows(start, tables, v, e);
    QueueCommand(start, tables, v, e);
    SameRows(start, Phase(v.fk, Q.Fire(v.q, e)), Take(v, Queue(e)));
  }

  lemma QueueStep(start: State, tables: seq<nat>, v: Phase, e: Q.Event)
    requires PhaseInv(start, tables, v) && CanStep(v, Queue(e))
    ensures PhaseInv(start, tables, Take(v, Queue(e)))
  {
    QueueMoves(v, e);
    QueueCommand(start, tables, v, e);
    QueueKeepsRows(start, tables, v, e);
    ReturnsOnce(v, e);
  }

  /** A supervisor that has returned does nothing more. */
  lemma ReturnsOnce(v: Phase, e: Q.Event)
    requires CanStep(v, Queue(e))
    ensures v.q.sup.Returned? ==> Take(v, Queue(e)).q.sup == v.q.sup
  {
  }

  lemma {:induction false} PhaseRunInv(start: State, tables: seq<nat>, v: Phase, steps: seq<Step>)
    requires PhaseInv(start, tables, v) && CanTake(v, steps)
    ensures PhaseInv(start, tables, TakeAll(v, steps))
    decreases |steps|
  {
    if steps != [] {
      var u := Take(v, steps[0]);
      match steps[0] {
        case Queue(e) => QueueStep(start, tables, v, e);
        case ValidateOne(w, f) => ValidateStep(start, tables, v, w, f);
        case MarkOne(w, f) => MarkStep(start, tables, v, w, f);
      }
      PhaseRunInv(start, tables, u, steps[1..]);
    }
  }

  lemma RunKeepsInv(start: State, tables: seq<nat>, capacity: nat, steps: seq<Step>)
    requires Starts(start, tables) && CanTake(Begin(start, tables, capacity), steps)
    ensures PhaseInv(start, tables, TakeAll(Begin(start, tables, capacity), steps))
  {
    BeginInv(start, tables, capacity);
    PhaseRunInv(start, tables, Begin(start, tables, capacity), steps);
  }

  /* ---- what the count makes of a true return ---- */

  lemma RowIsRight(fk: State, f: nat)
    requires Inv(fk) && NoneLeft(fk.src, fk.db.rows) && f in fk.db.rows
    requires fk.pc.Enabling? || fk.pc == Returned(true)
    ensures f in fk.src.claimable && fk.db.rows[f].added
    ensures fk.db.rows[f].validated == fk.src.claimable[f].validated
    ensures fk.clone ==> f in fk.db.target
    ensures f in fk.db.target && fk.src.claimable[f].validated ==> fk.db.target[f].valid
  {
    assert Secured(fk.db, f);
  }

  /** Over every run, with processes that quit at any point and tables that were
      never delivered: when the supervisor returns true, every claimed constraint
      is marked as on the source, and so it is on the target. */
  lemma TrueMeansValidated(start: State, tables: seq<nat>, capacity: nat, steps: seq<Step>, f: nat)
    requires Starts(start, tables) && CanTake(Begin(start, tables, capacity), steps)
    requires TakeAll(Begin(start, tables, capacity), steps).q.sup == Q.Returned(true)
    requires f in start.db.rows
    ensures var fk := TakeAll(Begin(start, tables, capacity), steps).fk;
            && fk.db.fkDone && f in fk.db.rows && fk.db.rows[f].added
            && fk.db.rows[f].validated == start.src.claimable[f].validated
            && (fk.clone ==> f in fk.db.target)
            && (f in fk.db.target && start.src.claimable[f].validated ==> fk.db.target[f].valid)
  {
    RunKeepsInv(start, tables, capacity, steps);
    RowIsRight(TakeAll(Begin(start, tables, capacity), steps).fk, f);
  }

  lemma ReceivedWasDelivered(q: Q.State, table: nat)
    requires Q.Inv(q)
    ensures Received(q, table) <==> table in Q.Delivered(q.items, q.taken)
  {
    CountPositive(Q.Delivered(q.items, q.taken), table);
    assert Q.Total(Q.Received, q.workers, table) == Count(Q.Delivered(q.items, q.taken), table);
    if Received(q, table) {
      var i :| 0 <= i < |q.workers| && table in q.workers[i].got;
      CountPositive(q.workers[i].got, table);
      Q.SumHolds(Q.Received, q.workers, |q.workers|, i, table);
    } else if Count(Q.Delivered(q.items, q.taken), table) > 0 {
      Safety.SumPositive(Q.Received, q.workers, |q.workers|, table);
      var i :| 0 <= i < |q.workers| && Q.ShareOf(Q.Received, q.workers[i], table) > 0;
      CountPositive(q.workers[i].got, table);
    }
  }

  /** A table that was never delivered still has its constraints to validate. */
  lemma UndeliveredIsLeft(start: State, tables: seq<nat>, v: Phase)
    requires Starts(start, tables) && PhaseInv(start, tables, v) && v.q.taken < |tables|
    ensures !NoneLeft(v.fk.src, v.fk.db.rows)
  {
    var table := tables[v.q.taken];
    var f :| Pending(start.src, start.db, f) && start.src.claimable[f].child == table;
    ReceivedWasDelivered(v.q, table);
    assert !v.fk.db.rows[f].validated;
  }

  /** All that a worker of a joined phase received is done, unless it is a quiet leaver. */
  lemma FinishedTable(start: State, tables: seq<nat>, v: Phase, i: nat, table: nat)
    requires PhaseInv(start, tables, v) && v.q.sup.Finishing?
    requires i < |v.q.workers| && table in v.q.workers[i].got && !Safety.QuietLeaver(v.q.workers[i])
    ensures TableDone(v.fk, table)
  {
    assert Q.WorkerInv(v.q.proto, v.q.workers[i]);
  }

  /** What every worker that exited quietly had received is validated all the same. */
  ghost predicate QuitsLeftNothing(v: Phase) {
    forall i, table | 0 <= i < |v.q.workers| && Safety.QuietLeaver(v.q.workers[i]) && table in v.q.workers[i].got ::
      TableDone(v.fk, table)
  }

  lemma DeliveredIsDone(start: State, tables: seq<nat>, v: Phase, table: nat)
    requires PhaseInv(start, tables, v) && v.q.sup.Finishing?
    requires v.q.taken >= |tables| && QuitsLeftNothing(v) && table in tables
    ensures TableDone(v.fk, table)
  {
    ReceivedWasDelivered(v.q, table);
    var i :| 0 <= i < |v.q.workers| && table in v.q.workers[i].got;
    if !Safety.QuietLeaver(v.q.workers[i]) {
      FinishedTable(start, tables, v, i, table);
    }
  }

  /** After a join that succeeds, the count finds something left if and only if a
      table was not delivered, or a worker that exited quietly left a constraint
      of one of its tables unmarked. */
  lemma LeftExactly(start: State, tables: seq<nat>, capacity: nat, steps: seq<Step>)
    requires Starts(start, tables) && CanTake(Begin(start, tables, capacity), steps)
    requires TakeAll(Begin(start, tables, capacity), steps).q.sup.Finishing?
    ensures var v := TakeAll(Begin(start, tables, capacity), steps);
            NoneLeft(v.fk.src, v.fk.db.rows) <==> v.q.taken >= |tables| && QuitsLeftNothing(v)
  {
    RunKeepsInv(start, tables, capacity, steps);
    var v := TakeAll(Begin(start, tables, capacity), steps);
    if v.q.taken < |tables| {
      UndeliveredIsLeft(start, tables, v);
    } else if QuitsLeftNothing(v) {
      forall f | f in v.fk.db.rows
        ensures !Pending(v.fk.src, v.fk.db, f)
      {
        if Pending(start.src, start.db, f) {
          DeliveredIsDone(start, tables, v, start.src.claimable[f].child);
        }
      }
    }
  }

  lemma AllDelivered(q: Q.State)
    requires Q.Inv(q) && q.sup.Finishing? && q.jobs >= 1 && Safety.NoQuietLeaver(q)
    ensures q.taken >= |q.items|
  {
    assert Q.WorkerInv(q.proto, q.workers[0]) && q.workers[0].stopped;
    Q.StoppedBounds(q.workers, |q.workers|);
  }

  lemma {:induction false} JobsStay(v: Phase, steps: seq<Step>)
    requires CanTake(v, steps)
    ensures TakeAll(v, steps).q.jobs == v.q.jobs
    decreases |steps|
  {
    if steps != [] {
      JobsStay(Take(v, steps[0]), steps[1..]);
    }
  }

  /** ... so where nobody exited quietly, it finds nothing left. */
  lemma NothingLeftWithoutQuits(start: State, tables: seq<nat>, capacity: nat, steps: seq<Step>)
    requires Starts(start, tables) && CanTake(Begin(start, tables, capacity), steps)
    requires var q := TakeAll(Begin(start, tables, capacity), steps).q;
             q.sup.Finishing? && Safety.NoQuietLeaver(q)
    ensures var fk := TakeAll(Begin(start, tables, capacity), steps).fk; NoneLeft(fk.src, fk.db.rows)
  {
    RunKeepsInv(start, tables, capacity, steps);
    JobsStay(Begin(start, tables, capacity), steps);
    AllDelivered(TakeAll(Begin(start, tables, capacity), steps).q);
    LeftExactly(start, tables, capacity, steps);
  }
}
