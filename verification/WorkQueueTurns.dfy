/** A worker of the protocol, in any interleaving, is the process that takes its
    own turns: what is proved of one process applies to each of them. */
module WorkQueueTurns {
  import opened WorkQueue

  function OneTurn(s: State, e: Event, w: nat): seq<Turn> {
    if e.Act? && e.w == w && w < |s.workers| then [Turn(e.action, Head(s))] else []
  }

  /** The turns of worker w in a run: its actions, with the messages it took. */
  function TurnsOf(s: State, events: seq<Event>, w: nat): seq<Turn>
    decreases |events|
  {
    if events == [] then [] else OneTurn(s, events[0], w) + TurnsOf(Fire(s, events[0]), events[1..], w)
  }

  /** What worker w did up to s, and what it is there; it is not forked yet
      while it has done nothing. */
  ghost predicate Followed(s: State, w: nat, turns: seq<Turn>) {
    if w < |s.workers| then Legal(s.proto, turns) && Acts(s.proto, turns) == s.workers[w] else turns == []
  }

  lemma FollowStep(s: State, e: Event, w: nat, turns: seq<Turn>)
    requires Enabled(s, e) && Followed(s, w, turns)
    ensures Followed(Fire(s, e), w, turns + OneTurn(s, e, w))
  {
    if e.Act? && e.w == w && w < |s.workers| {
      ActsExtend(s.proto, turns, Turn(e.action, Head(s)));
    } else {
      assert turns + OneTurn(s, e, w) == turns;
    }
  }

  lemma {:induction false} FollowRun(s: State, events: seq<Event>, w: nat, turns: seq<Turn>)
    requires CanRun(s, events) && Followed(s, w, turns)
    ensures Followed(Run(s, events), w, turns + TurnsOf(s, events, w))
    decreases |events|
  {
    if events == [] {
      assert turns + TurnsOf(s, events, w) == turns;
    } else {
      FollowStep(s, events[0], w, turns);
      FollowRun(Fire(s, events[0]), events[1..], w, turns + OneTurn(s, events[0], w));
      TurnsSplit(s, events, w, turns);
    }
  }

  lemma TurnsSplit(s: State, events: seq<Event>, w: nat, turns: seq<Turn>)
    requires events != []
    ensures turns + TurnsOf(s, events, w)
            == turns + OneTurn(s, events[0], w) + TurnsOf(Fire(s, events[0]), events[1..], w)
  {
  }

  /** In every reachable state of the protocol, each worker is where its own
      turns lead a process that starts anew, and these turns are legal. */
  lemma EachWorkerIsAProcess(p: Protocol, items: seq<nat>, jobs: nat, capacity: nat, events: seq<Event>, w: nat)
    requires CanRun(Init(p, items, jobs, capacity), events)
    requires w < |Run(Init(p, items, jobs, capacity), events).workers|
    ensures var turns := TurnsOf(Init(p, items, jobs, capacity), events, w);
            && Legal(p, turns)
            && Acts(p, turns) == Run(Init(p, items, jobs, capacity), events).workers[w]
  {
    var s := Init(p, items, jobs, capacity);
    FollowRun(s, events, w, []);
    InitInv(p, items, jobs, capacity);
    RunInv(s, events);
    assert [] + TurnsOf(s, events, w) == TurnsOf(s, events, w);
  }
}
