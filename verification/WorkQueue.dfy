/** The work-queue protocol shared by the large-object copy, the data comparison
    and the FOREIGN KEY validation: a supervisor forks workers, queues one task
    per object and one STOP per worker, then joins. Every interleaving of the
    supervisor and its workers is a sequence of events. */
module WorkQueue {
  import opened Processes
  import opened Sequences

  datatype Message = Task(oid: nat) | Stop | Unknown

  /** LargeObjects commits its target transaction on STOP and requires every STOP
      to be sent; the two others take effect per task and tolerate a STOP they
      fail to send. Only ValidateForeignKeys survives a failed task. */
  datatype Protocol = LargeObjects | CompareData | ValidateForeignKeys

  datatype WorkerPc =
    | Starting
    | Receiving
    | Working(oid: nat)
    | Committing
    | Closing
    | Gone(status: ExitStatus)

  /** got: tasks received so far; done: tasks carried out so far. */
  datatype Worker =
    Worker(pc: WorkerPc, got: seq<nat>, done: seq<nat>, errors: nat, stopped: bool, committed: bool)

  const NewWorker: Worker := Worker(Starting, [], [], 0, false, false)

  datatype Action =
    | Start
    | Receive
    | Complete
    | Fail
    | Commit
    | Close
    | Leave(status: ExitStatus)

  /** A worker's own transition; Receive takes the message m. */
  predicate CanAct(p: Protocol, w: Worker, a: Action) {
    match a
    case Start => w.pc.Starting?
    case Receive => w.pc.Receiving?
    case Complete => w.pc.Working?
    case Fail => w.pc.Working? && p.ValidateForeignKeys?
    case Commit => w.pc.Committing?
    case Close => w.pc.Closing?
    case Leave(_) => !w.pc.Gone?
  }

  /** An action that cannot be taken changes nothing. */
  function ActOn(p: Protocol, w: Worker, a: Action, m: Message): Worker {
    if !CanAct(p, w, a) then w
    else if a.Start? then w.(pc := Receiving)
    else if a.Receive? then TakeMessage(p, w, m)
    else if a.Complete? then w.(pc := Receiving, done := w.done + [w.pc.oid])
    else if a.Fail? then w.(pc := Receiving, errors := w.errors + 1)
    else if a.Commit? then w.(pc := Closing, committed := true)
    else if a.Close? then w.(pc := Gone(CloseStatus(w)))
    else w.(pc := Gone(a.status))
  }

  function TakeMessage(p: Protocol, w: Worker, m: Message): Worker {
    match m
    case Task(oid) => w.(pc := Working(oid), got := w.got + [oid])
    case Stop =>
      if p.LargeObjects? then w.(pc := Committing, stopped := true)
      else w.(pc := Closing, stopped := true, committed := true)
    case Unknown => if p.LargeObjects? then w.(errors := w.errors + 1) else w
  }

  function CloseStatus(w: Worker): ExitStatus {
    Exited(if w.errors == 0 then EXIT_CODE_QUIT else EXIT_CODE_INTERNAL_ERROR)
  }

  /** What an action adds to the tasks received, and to the target: a large
      object reaches the target with its worker's commit, a checksum or a
      validation at once. */
  function Gained(a: Action, m: Message): multiset<nat> {
    if a.Receive? && m.Task? then multiset{m.oid} else multiset{}
  }

  function Applied(p: Protocol, w: Worker, a: Action): multiset<nat> {
    if a.Commit? then multiset(w.done)
    else if a.Complete? && w.pc.Working? && !p.LargeObjects? then multiset{w.pc.oid}
    else multiset{}
  }

  /** One worker process seen alone: its actions, with the messages it received. */
  datatype Turn = Turn(action: Action, message: Message)

  function Acts(p: Protocol, turns: seq<Turn>): Worker {
    if turns == [] then NewWorker
    else
      var n := |turns| - 1;
      ActOn(p, Acts(p, turns[..n]), turns[n].action, turns[n].message)
  }

  predicate Legal(p: Protocol, turns: seq<Turn>) {
    turns == [] ||
    var n := |turns| - 1;
    Legal(p, turns[..n]) && CanAct(p, Acts(p, turns[..n]), turns[n].action)
  }

  function Inbox(turns: seq<Turn>): seq<Message> {
    if turns == [] then []
    else
      var n := |turns| - 1;
      Inbox(turns[..n]) + (if turns[n].action.Receive? then [turns[n].message] else [])
  }

  lemma ActsExtend(p: Protocol, turns: seq<Turn>, t: Turn)
    ensures Acts(p, turns + [t]) == ActOn(p, Acts(p, turns), t.action, t.message)
    ensures Legal(p, turns + [t]) <==> Legal(p, turns) && CanAct(p, Acts(p, turns), t.action)
    ensures Inbox(turns + [t]) == Inbox(turns) + (if t.action.Receive? then [t.message] else [])
  {
    assert (turns + [t])[..|turns|] == turns;
  }

  datatype Supervisor = Forking | Sending | Waiting | Finishing | Returned(ok: bool)

  /** next counts the messages the supervisor is through with, skipped those it
      failed to send and went past, taken those received by some worker. target
      is what the database has to show for it. */
  datatype State = State(
    proto: Protocol,
    items: seq<nat>,
    jobs: nat,
    capacity: nat,
    sup: Supervisor,
    next: nat,
    skipped: nat,
    workers: seq<Worker>,
    queue: seq<Message>,
    taken: nat,
    target: multiset<nat>)

  function Init(p: Protocol, items: seq<nat>, jobs: nat, capacity: nat): State {
    State(p, items, jobs, capacity, Forking, 0, 0, [], [], 0, multiset{})
  }

  function MessageAt(items: seq<nat>, k: nat): Message {
    if k < |items| then Task(items[k]) else Stop
  }

  function ProgramLength(s: State): nat { |s.items| + s.jobs }

  /** Finish is what the supervisor does after the join: any result here. That of
      the validation rests on a count, which the module ForeignKeyPhase adds. */
  datatype Event =
    | Fork
    | ForkFails
    | BeginSending
    | Send
    | SkipStop
    | SendFails
    | BeginWaiting
    | Join
    | Finish(ok: bool)
    | Act(w: nat, action: Action)

  predicate AllGone(ws: seq<Worker>) {
    forall i | 0 <= i < |ws| :: ws[i].pc.Gone?
  }

  predicate AllGoneWell(ws: seq<Worker>) {
    forall i | 0 <= i < |ws| :: ws[i].pc.Gone? && Accepted(ws[i].pc.status)
  }

  predicate Enabled(s: State, e: Event) {
    match e
    case Fork => s.sup.Forking? && |s.workers| < s.jobs
    case ForkFails => s.sup.Forking? && |s.workers| < s.jobs
    case BeginSending => s.sup.Forking? && |s.workers| == s.jobs
    case Send => s.sup.Sending? && s.next < ProgramLength(s) && |s.queue| < s.capacity
    case SkipStop => s.sup.Sending? && |s.items| <= s.next < ProgramLength(s) && !s.proto.LargeObjects?
    case SendFails =>
      && s.sup.Sending?
      && s.next < ProgramLength(s)
      && (s.next < |s.items| || s.proto.LargeObjects?)
    case BeginWaiting => s.sup.Sending? && s.next == ProgramLength(s)
    case Join => s.sup.Waiting? && AllGone(s.workers)
    case Finish(_) => s.sup.Finishing?
    case Act(w, a) =>
      && w < |s.workers|
      && CanAct(s.proto, s.workers[w], a)
      && (a.Receive? ==> s.queue != [])
      // the checksum row is a plain INSERT under a primary key
      && (a.Complete? && s.proto.CompareData? ==> s.workers[w].pc.oid !in s.target)
  }

  function Fire(s: State, e: Event): State {
    match e
    case Fork => s.(workers := s.workers + [NewWorker])
    case ForkFails => s.(sup := Returned(false))
    case BeginSending => s.(sup := Sending)
    case Send => s.(queue := s.queue + [MessageAt(s.items, s.next)], next := s.next + 1)
    case SkipStop => s.(next := s.next + 1, skipped := s.skipped + 1)
    case SendFails => s.(sup := Returned(false))
    case BeginWaiting => s.(sup := Waiting)
    case Join => s.(sup := if AllGoneWell(s.workers) then Finishing else Returned(false))
    case Finish(ok) => s.(sup := Returned(ok))
    case Act(w, a) => if w < |s.workers| then FireAct(s, w, a) else s
  }

  function Head(s: State): Message {
    if s.queue != [] then s.queue[0] else Stop
  }

  function FireAct(s: State, w: nat, a: Action): State
    requires w < |s.workers|
  {
    var me := s.workers[w];
    var taking := a.Receive? && s.queue != [];
    s.(workers := s.workers[w := ActOn(s.proto, me, a, Head(s))],
       queue := if taking then s.queue[1..] else s.queue,
       taken := if taking then s.taken + 1 else s.taken,
       target := s.target + Applied(s.proto, me, a))
  }

  /** Runs: the events of one interleaving, each enabled where it fires. */
  predicate CanRun(s: State, events: seq<Event>)
    decreases |events|
  {
    events == [] || (Enabled(s, events[0]) && CanRun(Fire(s, events[0]), events[1..]))
  }

  function Run(s: State, events: seq<Event>): State
    decreases |events|
  {
    if events == [] then s else Run(Fire(s, events[0]), events[1..])
  }

  /** A run that got to t goes on with any event enabled there. */
  lemma {:induction false} RunExtend(s: State, events: seq<Event>, t: State, e: Event)
    requires CanRun(s, events) && Run(s, events) == t && Enabled(t, e)
    ensures CanRun(s, events + [e])
    ensures Run(s, events + [e]) == Fire(t, e)
    decreases |events|
  {
    if events != [] {
      RunExtend(Fire(s, events[0]), events[1..], t, e);
      assert (events + [e])[1..] == events[1..] + [e];
    }
  }

  /* ---- counting one object over all the workers ---- */

  datatype Share = Received | Effect(p: Protocol)

  function EffectOf(p: Protocol, w: Worker, oid: nat): nat {
    if p.LargeObjects? && !w.committed then 0 else Count(w.done, oid)
  }

  function ShareOf(k: Share, w: Worker, oid: nat): nat {
    match k
    case Received => Count(w.got, oid)
    case Effect(p) => EffectOf(p, w, oid)
  }

  function SumUpTo(k: Share, ws: seq<Worker>, n: nat, oid: nat): nat
    requires n <= |ws|
  {
    if n == 0 then 0 else SumUpTo(k, ws, n - 1, oid) + ShareOf(k, ws[n - 1], oid)
  }

  function Total(k: Share, ws: seq<Worker>, oid: nat): nat {
    SumUpTo(k, ws, |ws|, oid)
  }

  lemma {:induction false} SumAgrees(k: Share, ws: seq<Worker>, vs: seq<Worker>, n: nat, oid: nat)
    requires n <= |ws| && n <= |vs|
    requires forall i | 0 <= i < n :: ws[i] == vs[i]
    ensures SumUpTo(k, ws, n, oid) == SumUpTo(k, vs, n, oid)
  {
    if n > 0 {
      SumAgrees(k, ws, vs, n - 1, oid);
    }
  }

  /** When one worker's share grows by x, so does every sum that covers it. */
  lemma {:induction false} SumGrow(k: Share, ws: seq<Worker>, n: nat, i: nat, w: Worker, oid: nat, x: nat)
    requires i < n <= |ws|
    requires ShareOf(k, w, oid) == ShareOf(k, ws[i], oid) + x
    ensures SumUpTo(k, ws[i := w], n, oid) == SumUpTo(k, ws, n, oid) + x
  {
    if i == n - 1 {
      SumAgrees(k, ws[i := w], ws, i, oid);
    } else {
      SumGrow(k, ws, n - 1, i, w, oid, x);
    }
  }

  lemma {:induction false} SumHolds(k: Share, ws: seq<Worker>, n: nat, i: nat, oid: nat)
    requires i < n <= |ws|
    ensures ShareOf(k, ws[i], oid) <= SumUpTo(k, ws, n, oid)
  {
    if i < n - 1 {
      SumHolds(k, ws, n - 1, i, oid);
    }
  }

  /** Two workers' shares add up inside the sum. */
  lemma {:induction false} SumHoldsBoth(k: Share, ws: seq<Worker>, n: nat, i: nat, j: nat, oid: nat)
    requires i < j < n <= |ws|
    ensures ShareOf(k, ws[i], oid) + ShareOf(k, ws[j], oid) <= SumUpTo(k, ws, n, oid)
  {
    if j < n - 1 {
      SumHoldsBoth(k, ws, n - 1, i, j, oid);
    } else {
      SumHolds(k, ws, n - 1, i, oid);
    }
  }

  /** A sum over shares that dominates another one, and equals it only share by share. */
  lemma {:induction false} SumCompare(p: Protocol, ws: seq<Worker>, n: nat, oid: nat)
    requires n <= |ws|
    requires forall i | 0 <= i < n :: EffectOf(p, ws[i], oid) <= Count(ws[i].got, oid)
    ensures SumUpTo(Effect(p), ws, n, oid) <= SumUpTo(Received, ws, n, oid)
    ensures SumUpTo(Effect(p), ws, n, oid) == SumUpTo(Received, ws, n, oid) <==>
            forall i | 0 <= i < n :: EffectOf(p, ws[i], oid) == Count(ws[i].got, oid)
  {
    if n > 0 {
      SumCompare(p, ws, n - 1, oid);
    }
  }

  /** How many of the first n workers have received their STOP. */
  function StoppedUpTo(ws: seq<Worker>, n: nat): nat
    requires n <= |ws|
  {
    if n == 0 then 0 else StoppedUpTo(ws, n - 1) + (if ws[n - 1].stopped then 1 else 0)
  }

  lemma {:induction false} StoppedAgrees(ws: seq<Worker>, vs: seq<Worker>, n: nat)
    requires n <= |ws| && n <= |vs|
    requires forall i | 0 <= i < n :: ws[i] == vs[i]
    ensures StoppedUpTo(ws, n) == StoppedUpTo(vs, n)
  {
    if n > 0 {
      StoppedAgrees(ws, vs, n - 1);
    }
  }

  lemma {:induction false} StoppedUpdate(ws: seq<Worker>, n: nat, i: nat, w: Worker)
    requires i < n <= |ws|
    requires ws[i].stopped ==> w.stopped
    ensures StoppedUpTo(ws[i := w], n) == StoppedUpTo(ws, n) + (if w.stopped && !ws[i].stopped then 1 else 0)
  {
    if i == n - 1 {
      StoppedAgrees(ws[i := w], ws, i);
    } else {
      StoppedUpdate(ws, n - 1, i, w);
    }
  }

  lemma {:induction false} StoppedBounds(ws: seq<Worker>, n: nat)
    requires n <= |ws|
    ensures StoppedUpTo(ws, n) <= n
    ensures StoppedUpTo(ws, n) == n <==> forall i | 0 <= i < n :: ws[i].stopped
    ensures StoppedUpTo(ws, n) == 0 <==> forall i | 0 <= i < n :: !ws[i].stopped
  {
    if n > 0 {
      StoppedBounds(ws, n - 1);
    }
  }

  /* ---- the invariant ---- */

  ghost predicate WorkerInv(p: Protocol, w: Worker) {
    && (w.pc.Starting? ==> w == NewWorker)
    && (w.pc.Receiving? ==> !w.stopped && (w.errors == 0 ==> w.done == w.got))
    && (w.pc.Working? ==>
          && !w.stopped
          && |w.got| > 0
          && w.got[|w.got| - 1] == w.pc.oid
          && (forall oid :: Count(w.done, oid) <= Count(w.got[..|w.got| - 1], oid))
          && (w.errors == 0 ==> w.got == w.done + [w.pc.oid]))
    && (w.pc.Committing? ==>
          w.stopped && !w.committed && p.LargeObjects? && (w.errors == 0 ==> w.done == w.got))
    && (w.pc.Closing? ==> w.committed)
    && (w.committed ==> w.stopped && (w.errors == 0 ==> w.done == w.got))
    && (w.errors > 0 ==> p.ValidateForeignKeys?)
    && (forall oid :: Count(w.done, oid) <= Count(w.got, oid))
  }

  function Delivered(items: seq<nat>, taken: nat): seq<nat> {
    if taken < |items| then items[..taken] else items
  }

  /** The supervisor's side: the queue is the segment of the message program
      between what was taken and what was sent (FIFO, nothing lost), and never
      longer than its capacity. */
  ghost predicate QueueInv(s: State) {
    && s.next <= ProgramLength(s)
    && s.skipped <= s.next
    && (s.skipped > 0 ==> s.next - s.skipped >= |s.items|)
    && (s.proto.LargeObjects? ==> s.skipped == 0)
    && s.taken + |s.queue| == s.next - s.skipped && |s.queue| <= s.capacity
    && (forall k | 0 <= k < |s.queue| :: s.queue[k] == MessageAt(s.items, s.taken + k))
    && |s.workers| <= s.jobs
    && (s.sup.Forking? ==> s.next == 0)
    && (s.sup.Sending? || s.sup.Waiting? || s.sup.Finishing? || s.sup == Returned(true) ==> |s.workers| == s.jobs)
    && (s.sup.Waiting? || s.sup.Finishing? || s.sup == Returned(true) ==> s.next == ProgramLength(s))
    && (s.sup.Finishing? || s.sup == Returned(true) ==> AllGoneWell(s.workers))
  }

  ghost predicate AccountInv(s: State) {
    && (forall i | 0 <= i < |s.workers| :: WorkerInv(s.proto, s.workers[i]))
    && StoppedUpTo(s.workers, |s.workers|) == (if s.taken <= |s.items| then 0 else s.taken - |s.items|)
    && (forall oid :: Total(Received, s.workers, oid) == Count(Delivered(s.items, s.taken), oid))
    && (forall oid :: Total(Effect(s.proto), s.workers, oid) == s.target[oid])
  }

  ghost predicate Inv(s: State) {
    QueueInv(s) && AccountInv(s)
  }

  lemma InvFork(s: State)
    requires AccountInv(s)
    ensures AccountInv(Fire(s, Fork))
  {
    var t := Fire(s, Fork);
    forall oid
      ensures Total(Received, t.workers, oid) == Total(Received, s.workers, oid)
      ensures Total(Effect(s.proto), t.workers, oid) == Total(Effect(s.proto), s.workers, oid)
    {
      SumAgrees(Received, t.workers, s.workers, |s.workers|, oid);
      SumAgrees(Effect(s.proto), t.workers, s.workers, |s.workers|, oid);
    }
    StoppedAgrees(t.workers, s.workers, |s.workers|);
  }

  lemma WorkerStepInv(p: Protocol, w: Worker, a: Action, m: Message)
    requires WorkerInv(p, w) && CanAct(p, w, a) && !m.Unknown?
    ensures WorkerInv(p, ActOn(p, w, a, m))
  {
    var v := ActOn(p, w, a, m);
    if a.Receive? && m.Task? {
      assert v.got[..|v.got| - 1] == w.got;
      forall oid { CountAppend(w.got, m.oid, oid); }
    } else if a.Complete? {
      var n := |w.got| - 1;
      assert w.got == w.got[..n] + [w.pc.oid];
      forall oid { CountAppend(w.done, w.pc.oid, oid); }
      forall oid { CountAppend(w.got[..n], w.pc.oid, oid); }
    }
  }

  lemma WorkerStepShares(p: Protocol, w: Worker, a: Action, m: Message, oid: nat)
    requires WorkerInv(p, w) && CanAct(p, w, a)
    ensures ShareOf(Received, ActOn(p, w, a, m), oid) == ShareOf(Received, w, oid) + Gained(a, m)[oid]
    ensures ShareOf(Effect(p), ActOn(p, w, a, m), oid) == ShareOf(Effect(p), w, oid) + Applied(p, w, a)[oid]
  {
    if a.Receive? && m.Task? {
      CountAppend(w.got, m.oid, oid);
    } else if a.Complete? {
      CountAppend(w.done, w.pc.oid, oid);
    } else if a.Commit? {
      CountIsMultiplicity(w.done, oid);
    }
  }

  lemma DeliveredNext(items: seq<nat>, taken: nat, oid: nat)
    ensures taken < |items| ==>
              Count(Delivered(items, taken + 1), oid)
              == Count(Delivered(items, taken), oid) + (if items[taken] == oid then 1 else 0)
    ensures taken >= |items| ==> Delivered(items, taken + 1) == Delivered(items, taken)
  {
    if taken < |items| {
      CountAppend(items[..taken], items[taken], oid);
      assert items[..taken + 1] == items[..taken] + [items[taken]];
      assert taken + 1 == |items| ==> items[..taken + 1] == items;
    }
  }

  lemma QueueInvAct(s: State, w: nat, a: Action)
    requires QueueInv(s) && Enabled(s, Act(w, a))
    ensures QueueInv(FireAct(s, w, a))
  {
    var t := FireAct(s, w, a);
    if a.Receive? {
      assert forall k | 0 <= k < |t.queue| :: t.queue[k] == s.queue[k + 1];
    }
  }

  lemma ReceivedAct(s: State, w: nat, a: Action, oid: nat)
    requires AccountInv(s) && QueueInv(s) && Enabled(s, Act(w, a))
    ensures Total(Received, FireAct(s, w, a).workers, oid) == Count(Delivered(s.items, FireAct(s, w, a).taken), oid)
  {
    var me, m := s.workers[w], Head(s);
    assert WorkerInv(s.proto, me);
    WorkerStepShares(s.proto, me, a, m, oid);
    SumGrow(Received, s.workers, |s.workers|, w, ActOn(s.proto, me, a, m), oid, Gained(a, m)[oid]);
    DeliveredNext(s.items, s.taken, oid);
    assert a.Receive? ==> m == MessageAt(s.items, s.taken);
  }

  lemma EffectAct(s: State, w: nat, a: Action, oid: nat)
    requires AccountInv(s) && Enabled(s, Act(w, a))
    ensures Total(Effect(s.proto), FireAct(s, w, a).workers, oid) == FireAct(s, w, a).target[oid]
  {
    var me, m := s.workers[w], Head(s);
    assert WorkerInv(s.proto, me);
    WorkerStepShares(s.proto, me, a, m, oid);
    SumGrow(Effect(s.proto), s.workers, |s.workers|, w, ActOn(s.proto, me, a, m), oid, Applied(s.proto, me, a)[oid]);
  }

  lemma AccountInvAct(s: State, w: nat, a: Action)
    requires AccountInv(s) && QueueInv(s) && Enabled(s, Act(w, a))
    ensures AccountInv(FireAct(s, w, a))
  {
    var me, m := s.workers[w], Head(s);
    var v := ActOn(s.proto, me, a, m);
    assert WorkerInv(s.proto, me);
    WorkerStepInv(s.proto, me, a, m);
    StoppedUpdate(s.workers, |s.workers|, w, v);
    forall oid { ReceivedAct(s, w, a, oid); }
    forall oid { EffectAct(s, w, a, oid); }
    assert a.Receive? ==> m == MessageAt(s.items, s.taken);
  }

  lemma QueueInvSupervisor(s: State, e: Event)
    requires QueueInv(s) && Enabled(s, e) && !e.Act?
    ensures QueueInv(Fire(s, e))
  {
    if e.Send? {
      var t := Fire(s, e);
      assert forall k | 0 <= k < |s.queue| :: t.queue[k] == s.queue[k];
    }
  }

  lemma InvStep(s: State, e: Event)
    requires Inv(s) && Enabled(s, e)
    ensures Inv(Fire(s, e))
  {
    if e.Act? {
      QueueInvAct(s, e.w, e.action);
      AccountInvAct(s, e.w, e.action);
    } else {
      QueueInvSupervisor(s, e);
      if e.Fork? {
        InvFork(s);
      }
    }
  }

  lemma InitInv(p: Protocol, items: seq<nat>, jobs: nat, capacity: nat)
    ensures Inv(Init(p, items, jobs, capacity))
  {
    assert items[..0] == [];
  }

  lemma {:induction false} RunInv(s: State, events: seq<Event>)
    requires Inv(s) && CanRun(s, events)
    ensures Inv(Run(s, events))
    ensures Run(s, events).items == s.items && Run(s, events).jobs == s.jobs && Run(s, events).proto == s.proto
    ensures Run(s, events).capacity == s.capacity
    decreases |events|
  {
    if events != [] {
      InvStep(s, events[0]);
      RunInv(Fire(s, events[0]), events[1..]);
    }
  }
}
