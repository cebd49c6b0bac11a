/** The producer of the data comparison: one message per table, then the STOPs,
    where a STOP that cannot be sent is gone past. */
module CompareData {
  import opened Environment
  import opened WorkQueue
  import opened LargeObjects

  /** compare_queue_tables. Each table is queued before any STOP, and a table
      that is not ends it, as does a signal or the end of the iteration in an
      error; but the result says nothing about the STOPs. On an empty queue
      it puts the protocol's program, short of the STOPs skipped. */
  method QueueTables(tables: seq<nat>, tableJobs: nat, world: World, queue: Queue) returns (ok: bool)
    modifies world, queue
    ensures ok <==> world.failures == old(world.failures)
                    && (queue.failures == old(queue.failures) || |queue.sent| >= |old(queue.sent)| + |tables|)
    ensures ok ==>
              var failed := queue.failures - old(queue.failures);
              0 <= failed <= tableJobs && queue.sent == old(queue.sent) + Tasks(tables) + Stops(tableJobs - failed)
    ensures !ok ==> exists k :: 0 <= k < |tables| && queue.sent == old(queue.sent) + Tasks(tables[..k])
    ensures old(queue.sent) == [] ==> forall k | 0 <= k < |queue.sent| :: queue.sent[k] == MessageAt(tables, k)
    ensures ok && old(queue.sent) == [] ==>
              |queue.sent| + (queue.failures - old(queue.failures)) == |tables| + tableJobs
  {
    for i := 0 to |tables|
      invariant queue.sent == old(queue.sent) + Tasks(tables[..i])
      invariant queue.failures == old(queue.failures) && world.failures == old(world.failures)
    {
      // no signal, and a next row
      ok := world.Try();
      if !ok {
        return;
      }
      ok := queue.Send(Task(tables[i]));
      if !ok {
        return;
      }
      assert Tasks(tables[..i]) + [Task(tables[i])] == Tasks(tables[..i + 1]);
    }
    assert tables[..|tables|] == tables;
    ghost var stops := 0;
    for i := 0 to tableJobs
      invariant 0 <= stops <= i && queue.failures == old(queue.failures) + i - stops
      invariant queue.sent == old(queue.sent) + Tasks(tables) + Stops(stops)
      invariant world.failures == old(world.failures)
    {
      var sent := queue.Send(Stop);
      if sent {
        assert Stops(stops) + [Stop] == Stops(stops + 1);
        stops := stops + 1;
      }
    }
    if old(queue.sent) == [] {
      forall k | 0 <= k < |queue.sent|
        ensures queue.sent[k] == MessageAt(tables, k)
      {
        ProgramIsTasksThenStops(tables, stops, k);
      }
    }
    ok := true;
  }
}
