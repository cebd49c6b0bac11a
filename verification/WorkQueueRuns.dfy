/** Concrete runs of the work-queue protocol on which a true return is worth
    less than it seems: SIGQUIT's handler exits with code zero. */
module WorkQueueRuns {
  import opened Processes
  import opened WorkQueue

  const Quit: Action := Leave(Exited(EXIT_CODE_QUIT))

  lemma Go(s: State, events: seq<Event>, t: State, e: Event, u: State) returns (more: seq<Event>)
    requires CanRun(s, events) && Run(s, events) == t && Enabled(t, e) && Fire(t, e) == u
    ensures more == events + [e] && CanRun(s, more) && Run(s, more) == u
  {
    RunExtend(s, events, t, e);
    more := events + [e];
  }

  lemma OneQueued(p: Protocol) returns (events: seq<Event>, t: State)
    ensures CanRun(Init(p, [42], 1, 10), events) && Run(Init(p, [42], 1, 10), events) == t
    ensures t == Init(p, [42], 1, 10).(sup := Sending, next := 1, queue := [Task(42)], workers := [NewWorker])
  {
    var s := Init(p, [42], 1, 10);
    t := s.(workers := [NewWorker]);
    events := Go(s, [], s, Fork, t);
    var u := t.(sup := Sending);
    events := Go(s, events, t, BeginSending, u);
    t := u.(next := 1, queue := [Task(42)]);
    events := Go(s, events, u, Send, t);
  }

  /** Object 42 is queued, and received by the only worker. */
  lemma OneReceived(p: Protocol) returns (events: seq<Event>, t: State)
    ensures CanRun(Init(p, [42], 1, 10), events) && Run(Init(p, [42], 1, 10), events) == t
    ensures t == Init(p, [42], 1, 10).(
                   sup := Sending, next := 1, taken := 1,
                   workers := [Worker(Working(42), [42], [], 0, false, false)])
  {
    var s := Init(p, [42], 1, 10);
    events, t := OneQueued(p);
    var u := t.(workers := [NewWorker.(pc := Receiving)]);
    events := Go(s, events, t, Act(0, Start), u);
    assert NewWorker.got + [42] == [42];
    t := u.(queue := [], taken := 1, workers := [Worker(Working(42), [42], [], 0, false, false)]);
    events := Go(s, events, u, Act(0, Receive), t);
  }

  /** The last message is a STOP that nobody reads; every process is gone, and
      the supervisor returns true. */
  lemma StopUnread(s: State, before: seq<Event>, t: State) returns (events: seq<Event>, u: State)
    requires CanRun(s, before) && Run(s, before) == t
    requires t.sup.Sending? && t.next + 1 == ProgramLength(t) && |t.items| == t.next
    requires t.queue == [] && t.capacity > 0 && AllGoneWell(t.workers)
    ensures CanRun(s, events) && Run(s, events) == u
    ensures u == t.(sup := Returned(true), next := t.next + 1, queue := [Stop])
  {
    u := t.(queue := [Stop], next := t.next + 1);
    events := Go(s, before, t, Send, u);
    var v := u.(sup := Waiting);
    events := Go(s, events, u, BeginWaiting, v);
    u := v.(sup := Finishing);
    events := Go(s, events, v, Join, u);
    v := u.(sup := Returned(true));
    events := Go(s, events, u, Finish(true), v);
    u := v;
  }

  /** The worker quits with the object in hand, and the supervisor returns true
      over an empty target: no large object, or a table without a checksum row. */
  lemma QuitWithTaskInHand(p: Protocol) returns (events: seq<Event>)
    requires !p.ValidateForeignKeys?
    ensures CanRun(Init(p, [42], 1, 10), events)
    ensures Run(Init(p, [42], 1, 10), events).sup == Returned(true)
    ensures Run(Init(p, [42], 1, 10), events).target == multiset{}
  {
    var s := Init(p, [42], 1, 10);
    var t;
    events, t := OneReceived(p);
    var u := t.(workers := [Worker(Gone(Exited(EXIT_CODE_QUIT)), [42], [], 0, false, false)]);
    events := Go(s, events, t, Act(0, Quit), u);
    events, t := StopUnread(s, events, u);
  }

  /** The worker copies large object 42, then quits: the copy goes with its
      transaction, and the supervisor returns true all the same. */
  lemma QuitLosesLargeObject() returns (events: seq<Event>)
    ensures CanRun(Init(LargeObjects, [42], 1, 10), events)
    ensures Run(Init(LargeObjects, [42], 1, 10), events).sup == Returned(true)
    ensures Run(Init(LargeObjects, [42], 1, 10), events).workers ==
            [Worker(Gone(Exited(EXIT_CODE_QUIT)), [42], [42], 0, false, false)]
    ensures Run(Init(LargeObjects, [42], 1, 10), events).target == multiset{}
  {
    var s := Init(LargeObjects, [42], 1, 10);
    var t;
    events, t := OneReceived(LargeObjects);
    assert t.workers[0].done + [42] == [42];
    var u := t.(workers := [Worker(Receiving, [42], [42], 0, false, false)]);
    events := Go(s, events, t, Act(0, Complete), u);
    t := u.(workers := [Worker(Gone(Exited(EXIT_CODE_QUIT)), [42], [42], 0, false, false)]);
    events := Go(s, events, u, Act(0, Quit), t);
    events, u := StopUnread(s, events, t);
  }

  /** With nothing to queue, the one STOP is skipped over, and its worker quits. */
  lemma StopSkipped(p: Protocol) returns (events: seq<Event>, t: State)
    requires !p.LargeObjects?
    ensures CanRun(Init(p, [], 1, 10), events) && Run(Init(p, [], 1, 10), events) == t
    ensures t == Init(p, [], 1, 10).(sup := Sending, next := 1, skipped := 1,
                                     workers := [NewWorker.(pc := Gone(Exited(EXIT_CODE_QUIT)))])
  {
    var s := Init(p, [], 1, 10);
    t := s.(workers := [NewWorker]);
    events := Go(s, [], s, Fork, t);
    var u := t.(sup := Sending);
    events := Go(s, events, t, BeginSending, u);
    t := u.(next := 1, skipped := 1);
    events := Go(s, events, u, SkipStop, t);
    u := t.(workers := [NewWorker.(pc := Gone(Exited(EXIT_CODE_QUIT)))]);
    events := Go(s, events, t, Act(0, Quit), u);
    t := u;
  }

  /** ... then the supervisor returns true all the same. */
  lemma SkippedStopSucceeds(p: Protocol) returns (events: seq<Event>)
    requires !p.LargeObjects?
    ensures CanRun(Init(p, [], 1, 10), events)
    ensures Run(Init(p, [], 1, 10), events).sup == Returned(true)
    ensures Run(Init(p, [], 1, 10), events).skipped > 0
  {
    var s := Init(p, [], 1, 10);
    var u;
    events, u := StopSkipped(p);
    var t := u.(sup := Waiting);
    events := Go(s, events, u, BeginWaiting, t);
    u := t.(sup := Finishing);
    events := Go(s, events, t, Join, u);
    t := u.(sup := Returned(true));
    events := Go(s, events, u, Finish(true), t);
  }
}
