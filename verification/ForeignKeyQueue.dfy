/** Phase B over the work queue: one message per referencing table. */
module ForeignKeyQueue {
  import opened ForeignKeys
  import opened Sequences
  import Q = WorkQueue
  import Safety = WorkQueueSafety

  /** A claimed constraint still to be validated. */
  predicate Pending(src: Source, db: Store, f: nat) {
    f in db.rows && f in src.claimable && src.claimable[f].validated && !db.rows[f].validated
  }

  /** select distinct conrelid ... order by conrelid */
  ghost predicate IsWorkList(src: Source, db: Store, tables: seq<nat>) {
    && (forall i, j | 0 <= i < j < |tables| :: tables[i] < tables[j])
    && (forall i | 0 <= i < |tables| :: exists f :: Pending(src, db, f) && src.claimable[f].child == tables[i])
    && (forall f | Pending(src, db, f) :: src.claimable[f].child in tables)
  }

  /** Each pending constraint is covered by exactly one message. */
  lemma CoveredByOneMessage(src: Source, db: Store, tables: seq<nat>, f: nat) returns (k: nat)
    requires IsWorkList(src, db, tables) && Pending(src, db, f)
    ensures k < |tables| && tables[k] == src.claimable[f].child
    ensures forall i | 0 <= i < |tables| && tables[i] == src.claimable[f].child :: i == k
    ensures Distinct(tables)
  {
    k :| 0 <= k < |tables| && tables[k] == src.claimable[f].child;
  }

  /** Two workers never validate constraints of one table at the same time,
      whose locks conflict. */
  lemma NoLockConflict(src: Source, db: Store, tables: seq<nat>, jobs: nat, capacity: nat,
                       events: seq<Q.Event>, i: nat, j: nat, f: nat, g: nat)
    requires IsWorkList(src, db, tables) && Pending(src, db, f) && Pending(src, db, g)
    requires Q.CanRun(Q.Init(Q.ValidateForeignKeys, tables, jobs, capacity), events)
    requires var ws := Q.Run(Q.Init(Q.ValidateForeignKeys, tables, jobs, capacity), events).workers;
             && i < |ws| && j < |ws| && i != j
             && ws[i].pc == Q.Working(src.claimable[f].child)
             && ws[j].pc == Q.Working(src.claimable[g].child)
    ensures src.claimable[f].child != src.claimable[g].child
  {
    var s := Q.Init(Q.ValidateForeignKeys, tables, jobs, capacity);
    Q.InitInv(Q.ValidateForeignKeys, tables, jobs, capacity);
    Q.RunInv(s, events);
    var _ := CoveredByOneMessage(src, db, tables, f);
    Safety.NeverTwoAtWork(Q.Run(s, events), i, j);
  }

  function Table(src: Source, f: nat): nat {
    if f in src.claimable then src.claimable[f].child else 0
  }

  /** When the queue's supervisor has joined its workers with success, and is
      about to count, the table of every pending constraint went through its
      VALIDATE if and only if every table was delivered and each worker that left
      quietly had carried out all it got. */
  lemma ValidatedExactly(src: Source, db: Store, tables: seq<nat>, jobs: nat, capacity: nat, events: seq<Q.Event>)
    requires IsWorkList(src, db, tables)
    requires Q.CanRun(Q.Init(Q.ValidateForeignKeys, tables, jobs, capacity), events)
    requires Q.Run(Q.Init(Q.ValidateForeignKeys, tables, jobs, capacity), events).sup.Finishing?
    ensures var t := Q.Run(Q.Init(Q.ValidateForeignKeys, tables, jobs, capacity), events);
            (forall f | Pending(src, db, f) :: Table(src, f) in t.target) <==>
            && t.taken >= |tables|
            && forall i | 0 <= i < |t.workers| && Safety.QuietLeaver(t.workers[i]) ::
                 multiset(t.workers[i].done) == multiset(t.workers[i].got)
  {
    var s := Q.Init(Q.ValidateForeignKeys, tables, jobs, capacity);
    Safety.CompleteExactly(Q.ValidateForeignKeys, tables, jobs, capacity, events);
    Q.InitInv(Q.ValidateForeignKeys, tables, jobs, capacity);
    Q.RunInv(s, events);
    AllTables(src, db, tables, Q.Run(s, events));
  }

  lemma AllTables(src: Source, db: Store, tables: seq<nat>, t: Q.State)
    requires IsWorkList(src, db, tables) && Q.Inv(t) && t.items == tables
    ensures (forall f | Pending(src, db, f) :: Table(src, f) in t.target) <==> t.target == multiset(tables)
  {
    assert forall f | Pending(src, db, f) :: Table(src, f) in tables;
    if forall f | Pending(src, db, f) :: Table(src, f) in t.target {
      forall oid
        ensures t.target[oid] == Count(tables, oid)
      {
        TableCount(src, db, tables, t, oid);
      }
      Safety.SameCounts(t.target, tables);
    }
  }

  lemma TableCount(src: Source, db: Store, tables: seq<nat>, t: Q.State, oid: nat)
    requires IsWorkList(src, db, tables) && Q.Inv(t) && t.items == tables
    requires forall f | Pending(src, db, f) :: Table(src, f) in t.target
    ensures t.target[oid] == Count(tables, oid)
  {
    Safety.EffectAtMost(t, oid);
    Q.SumCompare(t.proto, t.workers, |t.workers|, oid);
    assert Q.Total(Q.Effect(t.proto), t.workers, oid) == t.target[oid];
    Safety.DeliveredAtMost(t, oid);
    CountDistinct(tables, oid);
    CountPositive(tables, oid);
    if oid in tables {
      var i :| 0 <= i < |tables| && tables[i] == oid;
      var f :| Pending(src, db, f) && src.claimable[f].child == tables[i];
      assert Table(src, f) in t.target;
    }
  }

  /** In every reachable state, a table that went through its VALIDATE did so in
      exactly one worker, and no other ever received it. */
  lemma ValidatedByOneWorker(src: Source, db: Store, tables: seq<nat>, jobs: nat, capacity: nat,
                             events: seq<Q.Event>, f: nat) returns (i: nat)
    requires IsWorkList(src, db, tables) && Pending(src, db, f)
    requires Q.CanRun(Q.Init(Q.ValidateForeignKeys, tables, jobs, capacity), events)
    requires Table(src, f) in Q.Run(Q.Init(Q.ValidateForeignKeys, tables, jobs, capacity), events).target
    ensures var ws := Q.Run(Q.Init(Q.ValidateForeignKeys, tables, jobs, capacity), events).workers;
            && i < |ws|
            && Count(ws[i].done, Table(src, f)) == 1
            && forall j | 0 <= j < |ws| && j != i :: Table(src, f) !in ws[j].got
  {
    var s := Q.Init(Q.ValidateForeignKeys, tables, jobs, capacity);
    Q.InitInv(Q.ValidateForeignKeys, tables, jobs, capacity);
    Q.RunInv(s, events);
    var _ := CoveredByOneMessage(src, db, tables, f);
    i := Safety.DoneByOneWorker(Q.Run(s, events), Table(src, f));
  }
}
