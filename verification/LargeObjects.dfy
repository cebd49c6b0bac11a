/** The large-object processes: the producer's fetch loop, the STOP loop, and the
    worker's receive loop. */
module LargeObjects {
  import opened Environment
  import opened Processes
  import opened WorkQueue

  const MAX_BLOB_PER_FETCH: nat := 1000

  /** The sending side of a message queue: everything ever put on it, in order,
      and how many sends failed. */
  class Queue {
    var sent: seq<Message>
    ghost var failures: nat

    constructor ()
      ensures sent == [] && failures == 0
    {
      sent, failures := [], 0;
    }

    /** Waits for room; fails on a signal or an error of msgsnd(). */
    method Send(m: Message) returns (ok: bool)
      modifies this
      ensures sent == old(sent) + (if ok then [m] else [])
      ensures failures == old(failures) + (if ok then 0 else 1)
    {
      ok := *;
      if ok {
        sent := sent + [m];
      } else {
        failures := failures + 1;
      }
    }
  }

  /** A cursor over the metadata of the source's large objects. */
  class Cursor {
    const rows: seq<nat>
    var position: nat
    ghost var failures: nat

    ghost predicate Valid()
      reads this
    {
      position <= |rows|
    }

    constructor (rows: seq<nat>)
      ensures Valid() && this.rows == rows && position == 0 && failures == 0
    {
      this.rows, position, failures := rows, 0, 0;
    }

    /** FETCH: overwrites the front of the buffer with the next rows. */
    method Fetch(buffer: array<nat>) returns (ok: bool, count: nat)
      requires Valid() && buffer.Length > 0
      modifies this, buffer
      ensures Valid() && position == old(position) + count && count <= buffer.Length
      ensures failures == old(failures) + (if ok then 0 else 1)
      ensures buffer[..count] == rows[old(position)..position]
      ensures ok ==> (count == 0 <==> old(position) == |rows|)
    {
      ok := *;
      if !ok {
        failures := failures + 1;
        return false, 0;
      }
      count := if |rows| - position < buffer.Length then |rows| - position else buffer.Length;
      for i := 0 to count
        invariant buffer[..i] == rows[position..position + i]
        modifies buffer
      {
        buffer[i] := rows[position + i];
      }
      position := position + count;
    }

    method Close() returns (ok: bool)
      modifies this`failures
      ensures failures == old(failures) + (if ok then 0 else 1)
    {
      ok := *;
      if !ok {
        failures := failures + 1;
      }
    }
  }

  function Tasks(oids: seq<nat>): seq<Message> {
    seq(|oids|, i requires 0 <= i < |oids| => Task(oids[i]))
  }

  function Stops(n: nat): seq<Message> {
    seq(n, _ => Stop)
  }

  /** Queues one task per row of the cursor, in order, one reused buffer at a
      time, and counts them; fails only if a statement or a send does, and what
      is then queued is a prefix. */
  method QueueLargeObjectMetadata(cursor: Cursor, queue: Queue) returns (ok: bool, count: nat)
    requires cursor.Valid() && cursor.position == 0
    modifies cursor, queue
    ensures ok <==> queue.failures == old(queue.failures) && cursor.failures == old(cursor.failures)
    ensures ok ==> queue.sent == old(queue.sent) + Tasks(cursor.rows) && count == |cursor.rows|
    ensures !ok ==> exists k :: 0 <= k <= |cursor.rows| && queue.sent == old(queue.sent) + Tasks(cursor.rows[..k])
  {
    var rows := cursor.rows;
    var buffer := new nat[MAX_BLOB_PER_FETCH];
    count := 0;
    assert rows[..0] == [];
    while true
      invariant fresh(buffer) && buffer.Length == MAX_BLOB_PER_FETCH
      invariant cursor.Valid() && count == cursor.position
      invariant queue.failures == old(queue.failures) && cursor.failures == old(cursor.failures)
      invariant queue.sent == old(queue.sent) + Tasks(rows[..count])
      modifies cursor, queue, buffer
      decreases |rows| - cursor.position
    {
      var start := cursor.position;
      var fetched;
      ok, fetched := cursor.Fetch(buffer);
      if !ok {
        return;
      }
      if fetched == 0 {
        break;
      }
      count := count + fetched;
      for i := 0 to fetched
        invariant queue.sent == old(queue.sent) + Tasks(rows[..start + i])
        invariant queue.failures == old(queue.failures)
        modifies queue
      {
        assert buffer[i] == buffer[..fetched][i] == rows[start + i];
        ok := queue.Send(Task(buffer[i]));
        if !ok {
          return;
        }
        assert Tasks(rows[..start + i]) + [Task(rows[start + i])] == Tasks(rows[..start + i + 1]);
      }
    }
    assert rows[..count] == rows;
    ok := cursor.Close();
    assert queue.sent == old(queue.sent) + Tasks(rows[..|rows|]);
  }

  /** One STOP per worker, or failure at the first one that is not sent. */
  method SendStop(jobs: nat, queue: Queue) returns (ok: bool)
    modifies queue
    ensures ok <==> queue.failures == old(queue.failures)
    ensures ok ==> queue.sent == old(queue.sent) + Stops(jobs)
    ensures !ok ==> exists k :: 0 <= k < jobs && queue.sent == old(queue.sent) + Stops(k)
  {
    for i := 0 to jobs
      invariant queue.sent == old(queue.sent) + Stops(i)
      invariant queue.failures == old(queue.failures)
    {
      ok := queue.Send(Stop);
      if !ok {
        return;
      }
      assert Stops(i) + [Stop] == Stops(i + 1);
    }
    ok := true;
  }

  lemma ProgramIsTasksThenStops(items: seq<nat>, jobs: nat, k: nat)
    requires k < |items| + jobs
    ensures (Tasks(items) + Stops(jobs))[k] == MessageAt(items, k)
  {
  }

  /** The supervisor's sending: the two loops together put the protocol's message
      program on the queue, as far as they get. */
  method SendProgram(cursor: Cursor, jobs: nat, queue: Queue) returns (ok: bool, count: nat)
    requires cursor.Valid() && cursor.position == 0 && queue.sent == []
    modifies cursor, queue
    ensures ok <==> queue.failures == old(queue.failures) && cursor.failures == old(cursor.failures)
    ensures |queue.sent| <= |cursor.rows| + jobs
    ensures forall k | 0 <= k < |queue.sent| :: queue.sent[k] == MessageAt(cursor.rows, k)
    ensures ok ==> |queue.sent| == |cursor.rows| + jobs && count == |cursor.rows|
  {
    var rows := cursor.rows;
    ok, count := QueueLargeObjectMetadata(cursor, queue);
    if ok {
      ok := SendStop(jobs, queue);
      forall k | 0 <= k < |queue.sent|
        ensures queue.sent[k] == MessageAt(rows, k)
      {
        ProgramIsTasksThenStops(rows, jobs, k);
      }
    }
  }

  /** The protocol's account of a process: its turns, what they received, and
      the worker they lead to. */
  datatype Trace = Trace(turns: seq<Turn>, inbox: seq<Message>, w: Worker)

  ghost predicate Accounted(t: Trace) {
    && Legal(LargeObjects, t.turns)
    && Inbox(t.turns) == t.inbox
    && Acts(LargeObjects, t.turns) == t.w
  }

  ghost function Take(t: Trace, a: Action, m: Message): (next: Trace) {
    Trace(t.turns + [Turn(a, m)],
          t.inbox + (if a.Receive? then [m] else []),
          ActOn(LargeObjects, t.w, a, m))
  }

  lemma TakeAccounted(t: Trace, a: Action, m: Message)
    requires Accounted(t) && CanAct(LargeObjects, t.w, a)
    ensures Accounted(Take(t, a, m))
  {
    ActsExtend(LargeObjects, t.turns, Turn(a, m));
  }

  const Failed: Action := Leave(Exited(EXIT_CODE_INTERNAL_ERROR))

  /** One message of the receive loop. Any failure or signal ends the process: ok
      is then false, and never otherwise. */
  method Handle(message: Message, copied: seq<nat>, errors: nat, world: World, ghost t: Trace)
    returns (ok: bool, stop: bool, copiedNow: seq<nat>, errorsNow: nat, ghost u: Trace)
    requires Accounted(t) && t.w.pc.Receiving? && t.w.done == copied && t.w.errors == errors
    requires !t.w.committed
    modifies world
    ensures ok <==> world.failures == old(world.failures)
    ensures world.failures >= old(world.failures)
    ensures Accounted(u) && u.inbox == t.inbox + [message]
    ensures u.w.done == copiedNow && (ok ==> u.w.errors == errorsNow && u.w.committed == stop)
    ensures ok ==> u.w.pc == if stop then Closing else Receiving
    ensures ok ==> stop == message.Stop?
    ensures ok ==> copiedNow == copied + (if message.Task? then [message.oid] else [])
    ensures ok ==> errorsNow == errors + (if message.Unknown? then 1 else 0)
    ensures !ok ==> u.w.pc == Gone(Exited(EXIT_CODE_INTERNAL_ERROR))
  {
    ok, stop, copiedNow, errorsNow := true, false, copied, errors;
    TakeAccounted(t, Receive, message);
    u := Take(t, Receive, message);
    // interrupted by a signal with the message in hand
    ok := world.Try();
    if ok {
      match message {
        case Stop =>
          stop := true;
          ok := world.Try();
          if ok {
            TakeAccounted(u, Commit, Stop);
            u := Take(u, Commit, Stop);
          }
        case Task(oid) =>
          ok := world.Try();
          if ok {
            copiedNow := copied + [oid];
            TakeAccounted(u, Complete, Stop);
            u := Take(u, Complete, Stop);
            // the timing row may not be updated
            ok := world.Try();
          }
        case Unknown =>
          errorsNow := errors + 1;
      }
    }
    if !ok {
      TakeAccounted(u, Failed, Stop);
      u := Take(u, Failed, Stop);
    }
  }

  /** The first STOP is message k. */
  ghost predicate FirstStop(inbox: seq<Message>, k: nat) {
    k < |inbox| && inbox[k].Stop? && forall i | 0 <= i < k :: !inbox[i].Stop?
  }

  /** Up to a STOP, the messages are tasks. */
  ghost predicate StopsAt(inbox: seq<Message>, k: nat) {
    k < |inbox| && inbox[k].Stop? && forall i | 0 <= i < k :: inbox[i].Task?
  }

  /** The receive loop: it ends well exactly when nothing fails and a STOP comes. */
  method ReceiveAll(inbox: seq<Message>, world: World, ghost start: Trace)
    returns (ok: bool, copied: seq<nat>, errors: nat, ghost t: Trace, ghost n: nat)
    requires Accounted(start) && start.inbox == [] && start.w == NewWorker.(pc := Receiving)
    modifies world
    ensures Accounted(t) && n <= |inbox| && t.inbox == inbox[..n] && t.w.done == copied
    ensures ok <==> world.failures == old(world.failures) && exists k :: FirstStop(inbox, k)
    ensures world.failures >= old(world.failures)
    ensures ok ==> t.w.pc.Closing? && t.w.errors == errors && t.w.committed
    ensures ok ==> n > 0 && FirstStop(inbox, n - 1) && (errors == 0 <==> StopsAt(inbox, n - 1))
    ensures ok && errors == 0 ==> t.inbox == Tasks(copied) + [Stop]
    ensures !ok ==> t.w.pc == Gone(Exited(EXIT_CODE_INTERNAL_ERROR))
  {
    ok, copied, errors, t, n := true, [], 0, start, 0;
    var stop, i := false, 0;
    while ok && !stop
      invariant 0 <= i == n <= |inbox| && t.inbox == inbox[..n]
      invariant Accounted(t) && t.w.done == copied
      invariant ok ==> t.w.errors == errors && t.w.committed == stop
      invariant ok ==> t.w.pc == if stop then Closing else Receiving
      invariant !ok ==> t.w.pc == Gone(Exited(EXIT_CODE_INTERNAL_ERROR))
      invariant world.failures >= old(world.failures)
      invariant ok ==> world.failures == old(world.failures)
      invariant !ok ==> world.failures > old(world.failures) || forall k | 0 <= k < |inbox| :: !inbox[k].Stop?
      invariant ok ==> forall k | 0 <= k < n :: inbox[k].Stop? <==> stop && k == n - 1
      invariant ok ==> (errors == 0 <==> forall k | 0 <= k < n :: !inbox[k].Unknown?)
      invariant ok && stop ==> n > 0
      invariant ok && errors == 0 ==> t.inbox == Tasks(copied) + (if stop then [Stop] else [])
      decreases |inbox| - i, ok
    {
      if i == |inbox| {
        // nothing more comes: the receive call fails
        ok := false;
        TakeAccounted(t, Failed, Stop);
        t := Take(t, Failed, Stop);
      } else {
        ok, stop, copied, errors, t := Handle(inbox[i], copied, errors, world, t);
        i, n := i + 1, n + 1;
      }
    }
    assert ok ==> FirstStop(inbox, n - 1);
  }

  /** A worker process; inbox is what it will receive. Whatever happens, the
      process is one of the protocol's workers: its turns are legal, take a
      prefix of inbox, and lead to the state this process ends in. It succeeds
      exactly when nothing fails, and tasks and then a STOP are what it receives. */
  method Worker(inbox: seq<Message>, world: World) returns (success: bool, copied: seq<nat>, ghost t: Trace)
    modifies world
    ensures Accounted(t) && t.inbox <= inbox && t.w.done == copied
    ensures t.w.pc == Gone(Exited(if success then EXIT_CODE_QUIT else EXIT_CODE_INTERNAL_ERROR))
    ensures success ==> t.w.committed && t.w.errors == 0 && t.inbox == Tasks(copied) + [Stop]
    ensures success <==> world.failures == old(world.failures) && exists k :: StopsAt(inbox, k)
  {
    success, copied := false, [];
    t := Trace([], [], NewWorker);
    var ok := world.Try();
    if ok {
      TakeAccounted(t, Start, Stop);
      t := Take(t, Start, Stop);
      var errors;
      ghost var n;
      ok, copied, errors, t, n := ReceiveAll(inbox, world, t);
      SameStop(inbox);
      if !ok {
        return;
      }
      // the catalog may not close
      ok := world.Try();
      if ok {
        TakeAccounted(t, Close, Stop);
        t := Take(t, Close, Stop);
        success := errors == 0;
        return;
      }
    }
    TakeAccounted(t, Failed, Stop);
    t := Take(t, Failed, Stop);
  }

  /** Only the first STOP matters. */
  lemma SameStop(inbox: seq<Message>)
    ensures forall k | StopsAt(inbox, k) :: FirstStop(inbox, k)
    ensures forall k, n | StopsAt(inbox, k) && FirstStop(inbox, n) :: k == n
  {
  }
}
