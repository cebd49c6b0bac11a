/** The commands themselves: copydb_clone_database and its FOREIGN KEY steps as
    they run, each outcome of the environment being an arbitrary choice. */
module ForeignKeyBuild {
  import opened Environment
  import opened ForeignKeys
  import opened ForeignKeySafety

  /* ---- what the history of a command says at the end of each of its steps ---- */

  ghost predicate Leads(s: State, e: Event, t: State) {
    Enabled(s, e) && Fire(s, e) == t
  }

  ghost predicate Follows(s: State, t: State) {
    exists e :: Leads(s, e, t)
  }

  ghost predicate StepAt(history: seq<State>, i: nat)
    requires 0 < i < |history|
  {
    Follows(history[i - 1], history[i])
  }

  /** The states gone through, from nothing to s. */
  ghost predicate LeadsTo(history: seq<State>, s: State) {
    && history != [] && Agree(s.src) && history[0] == Init(s.src) && history[|history| - 1] == s
    && forall i | 0 < i < |history| :: StepAt(history, i)
  }

  lemma HistoryExtend(history: seq<State>, s: State, e: Event)
    requires LeadsTo(history, s) && Enabled(s, e)
    ensures LeadsTo(history + [Fire(s, e)], Fire(s, e)) && Fire(s, e).src == s.src
    ensures !e.Start? ==> SameCommand(s, Fire(s, e))
  {
    SourceFixed(s, e);
    var longer := history + [Fire(s, e)];
    forall i | 0 < i < |longer|
      ensures StepAt(longer, i)
    {
      assert i < |history| ==> StepAt(history, i);
      assert i == |history| ==> Leads(s, e, longer[i]);
    }
  }

  lemma HistoryFront(history: seq<State>, s: State) returns (before: State, e: Event)
    requires LeadsTo(history, s) && |history| > 1
    ensures LeadsTo(history[..|history| - 1], before) && Leads(before, e, s) && before.src == s.src
  {
    var n := |history| - 1;
    assert StepAt(history, n);
    before := history[n - 1];
    e :| Leads(before, e, s);
    SourceFixed(before, e);
    forall i | 0 < i < n
      ensures StepAt(history[..n], i)
    {
      assert StepAt(history, i);
    }
  }

  lemma {:induction false} HistoryRuns(history: seq<State>, s: State) returns (events: seq<Event>)
    requires LeadsTo(history, s)
    ensures CanRun(Init(s.src), events) && Run(Init(s.src), events) == s
    decreases |history|
  {
    events := [];
    if |history| > 1 {
      var before, e := HistoryFront(history, s);
      events := HistoryRuns(history[..|history| - 1], before);
      RunExtend(Init(s.src), events, e);
      events := events + [e];
    }
  }

  lemma ReachedNow(history: seq<State>, s: State)
    requires LeadsTo(history, s)
    ensures Inv(s) && Hist(s)
  {
    var events := HistoryRuns(history, s);
    var t := Reachable(s.src, events);
  }

  lemma AllAddedNow(history: seq<State>, s: State)
    requires LeadsTo(history, s) && (s.pc.Listing? || PastRestore(s)) && s.fkJobs > 0
    ensures !s.errors && forall f | f in s.db.rows :: s.db.rows[f].added
  {
    ReachedNow(history, s);
  }

  lemma AddingNow(history: seq<State>, s: State)
    requires LeadsTo(history, s) && s.pc.Adding?
    ensures s.fkJobs > 0 && forall f | f in s.pc.todo :: f in s.db.rows
    ensures s.pc.step.Mark? ==> s.pc.step.f in s.db.rows
  {
    ReachedNow(history, s);
  }

  lemma PendingNow(history: seq<State>, s: State)
    requires LeadsTo(history, s) && s.pc.Listing?
    ensures WillRestore(s)
  {
    ReachedNow(history, s);
  }

  lemma ListedNow(history: seq<State>, s: State)
    requires LeadsTo(history, s)
    ensures forall f | f in s.db.listed :: f in s.src.archive
  {
    ReachedNow(history, s);
  }

  lemma RestoredNow(history: seq<State>, s: State)
    requires LeadsTo(history, s) && WillRestore(s) && PastRestore(s)
    ensures s.db.postDataDone
    ensures forall f | f in s.db.listed :: AsDumped(s, f)
    ensures forall f | f in s.src.archive :: f in s.db.listed || Claimed(s, f)
  {
    ReachedNow(history, s);
  }

  lemma ValidatingNow(history: seq<State>, s: State)
    requires LeadsTo(history, s) && s.pc.Validating?
    ensures forall f | f in s.db.rows :: f in s.src.claimable && s.db.rows[f].added
    ensures s.clone ==> forall f | f in s.db.rows :: f in s.db.target
  {
    ReachedNow(history, s);
    forall f | f in s.db.rows
      ensures s.db.rows[f].added && Secured(s.db, f)
    {
    }
  }

  lemma EnablingNow(history: seq<State>, s: State)
    requires LeadsTo(history, s) && s.pc.Enabling?
    ensures s.clone && s.follow
  {
    ReachedNow(history, s);
  }

  lemma ClonedNow(history: seq<State>, s: State)
    requires LeadsTo(history, s) && s.clone && s.pc == Returned(true)
    ensures forall f | f in s.src.archive :: f in s.db.target
    ensures s.fkJobs > 0 ==> forall f | f in s.db.rows :: Right(s.src, s.db, f)
  {
    var events := HistoryRuns(history, s);
    NoFkLost(s.src, events);
    forall f | f in s.db.rows && s.fkJobs > 0
      ensures Right(s.src, s.db, f)
    {
      ClaimedRightExactly(s.src, events, f);
    }
  }

  lemma CreatedNow(history: seq<State>, s: State)
    requires LeadsTo(history, s) && !s.clone && s.fkJobs > 0
    ensures s.db.unclaimed == s.start.unclaimed
    ensures s.pc == Returned(true) ==> s.db.fetched && NoneLeft(s.src, s.db.rows)
  {
    ReachedNow(history, s);
  }

  /* ---- what makes a command succeed when nothing fails ---- */

  /** What ADD and VALIDATE leave alone. */
  predicate OnlyBuilds(a: Store, b: Store) {
    && b.fetched == a.fetched && b.listed == a.listed
    && b.postDataDone == a.postDataDone && b.fkDone == a.fkDone && b.apply == a.apply
  }

  predicate OnlyTarget(a: Store, b: Store) {
    OnlyBuilds(a, b) && b.rows == a.rows && b.unclaimed == a.unclaimed
  }

  /** What STEP 11 leaves alone. */
  predicate OnlyRestores(a: Store, b: Store) {
    && b.fetched == a.fetched && b.rows == a.rows && b.unclaimed == a.unclaimed
    && b.fkDone == a.fkDone && b.apply == a.apply
  }

  /** Every constraint of the list is on the target, and recorded. */
  predicate AllBuilt(a: State, b: Store)
    requires a.pc.Adding?
  {
    && b.target.Keys == a.db.target.Keys + a.pc.todo
    && b.rows == Marks(a.db.rows, a.pc.todo)
  }

  function Marks(rows: map<nat, Row>, done: set<nat>): map<nat, Row> {
    map f | f in rows :: if f in done then rows[f].(added := true) else rows[f]
  }

  /** The constraints of done are through; fine: nothing failed so far. */
  ghost predicate AddedSoFar(a: State, b: State, done: set<nat>, fine: bool) {
    && a.pc.Adding? && b.pc.Adding? && b.pc.step.Next?
    && SameCommand(a, b) && OnlyBuilds(a.db, b.db)
    && (forall f :: f in a.pc.todo <==> f in done || f in b.pc.todo)
    && (fine && !a.errors ==>
          !b.errors && b.db.rows == Marks(a.db.rows, done) && b.db.target.Keys == a.db.target.Keys + done)
  }

  lemma AddedOneMore(a: State, b: State, c: State, done: set<nat>, f: nat, fine: bool, still: bool)
    requires AddedSoFar(a, b, done, fine) && f in b.pc.todo && (still ==> fine)
    requires c.pc.Adding? && c.pc.step.Next? && c.pc.todo == b.pc.todo - {f}
    requires SameCommand(b, c) && OnlyBuilds(b.db, c.db)
    requires still ==> && c.errors == b.errors
                       && c.db.rows == Marks(b.db.rows, {f}) && c.db.target.Keys == b.db.target.Keys + {f}
    ensures AddedSoFar(a, c, done + {f}, still)
  {
    MarksMore(a.db.rows, done, f);
  }

  lemma AddedThemAll(a: State, b: State, done: set<nat>, fine: bool)
    requires AddedSoFar(a, b, done, fine) && b.pc.todo == {}
    ensures fine && !a.errors ==> !b.errors && AllBuilt(a, b.db)
  {
    assert done == a.pc.todo;
  }

  predicate EntryRestored(a: State, b: State, f: nat)
    requires a.pc.Restoring? && b.pc.Restoring?
  {
    && f !in a.db.target
    && b.pc.restored == a.pc.restored + {f}
    && b.db.target.Keys == a.db.target.Keys + {f}
  }

  /** The entries of the list but those left are restored. */
  ghost predicate RestoredBut(a: State, b: State, left: set<nat>) {
    && a.pc.Restoring? && b.pc.Restoring? && SameCommand(a, b) && OnlyTarget(a.db, b.db)
    && (forall f :: f in a.db.listed <==> f in left || f in b.pc.restored)
    && (forall f :: f in b.db.target <==> f in a.db.target || f in b.pc.restored)
    && (forall f | f in b.pc.restored :: f !in left && f !in a.db.target)
  }

  lemma RestoredOneMore(a: State, b: State, c: State, left: set<nat>, f: nat)
    requires RestoredBut(a, b, left) && f in left
    requires c.pc.Restoring? && SameCommand(b, c) && OnlyTarget(b.db, c.db) && EntryRestored(b, c, f)
    ensures RestoredBut(a, c, left - {f})
  {
  }

  lemma InTheWay(a: State, b: State, left: set<nat>, f: nat)
    requires RestoredBut(a, b, left) && f in left && f in b.db.target
    ensures f in a.db.listed && f in a.db.target
  {
  }

  lemma NothingInTheWay(a: State, b: State)
    requires RestoredBut(a, b, {})
    ensures b.pc.restored == b.db.listed && forall f | f in a.db.listed :: f !in a.db.target
  {
  }

  lemma MarksMore(rows: map<nat, Row>, done: set<nat>, f: nat)
    ensures Marks(Marks(rows, done), {f}) == Marks(rows, done + {f})
  {
  }

  lemma MarksNone(rows: map<nat, Row>)
    ensures Marks(rows, {}) == rows
  {
  }

  /** A row that still has to go through its VALIDATE. */
  predicate ToValidate(s: State, f: nat) {
    f in s.db.rows && f in s.src.claimable && s.src.claimable[f].validated && !s.db.rows[f].validated
  }

  /** The rows but those left are through their VALIDATE. */
  ghost predicate ValidatedBut(a: State, b: State, left: set<nat>, fine: bool) {
    && SameCommand(a, b) && b.pc.Validating?
    && OnlyBuilds(a.db, b.db) && b.db.unclaimed == a.db.unclaimed
    && (forall f :: f in b.db.rows <==> f in a.db.rows)
    && (forall f :: f in b.db.target <==> f in a.db.target)
    && (forall f | f in left :: f in a.db.rows)
    && (forall f | f in a.db.rows :: RowKept(a, b, f, f in left, fine))
  }

  predicate RowKept(a: State, b: State, f: nat, left: bool, fine: bool)
    requires f in a.db.rows && f in b.db.rows && (f in a.db.target <==> f in b.db.target)
  {
    && b.db.rows[f].added == a.db.rows[f].added
    && (a.db.rows[f].validated ==> b.db.rows[f].validated)
    && (ToValidate(a, f) && f !in a.db.target ==> !b.db.rows[f].validated)
    && (left ==> b.db.rows[f] == a.db.rows[f])
    && (!left && fine && ToValidate(a, f) && f in a.db.target ==> b.db.rows[f].validated && b.db.target[f].valid)
  }

  /** What one row's turn does to it, and to no other. */
  ghost predicate OneValidated(a: State, b: State, f: nat, fine: bool)
    requires f in a.db.rows
  {
    && SameCommand(a, b) && b.pc.Validating? && OnlyBuilds(a.db, b.db) && b.db.unclaimed == a.db.unclaimed
    && (b.db.rows == a.db.rows || (ToValidate(a, f) && f in a.db.target
                                   && b.db.rows == a.db.rows[f := Row(a.db.rows[f].added, true)]))
    && (b.db.target == a.db.target || (f in a.db.target
                                       && b.db.target == a.db.target[f := Built(true, a.db.target[f].comment)]))
    && (fine && ToValidate(a, f) && f in a.db.target ==> b.db.rows[f].validated && b.db.target[f].valid)
  }

  lemma ValidatedOneMore(a: State, b: State, c: State, left: set<nat>, f: nat, fine: bool, still: bool)
    requires ValidatedBut(a, b, left, fine) && f in left && (still ==> fine)
    requires OneValidated(b, c, f, still)
    ensures ValidatedBut(a, c, left - {f}, still)
  {
    forall g | g in a.db.rows
      ensures g in c.db.rows && (g in a.db.target <==> g in c.db.target)
      ensures RowKept(a, c, g, g in left - {f}, still)
    {
      assert RowKept(a, b, g, g in left, fine);
    }
  }

  /** The command that begins in s claims this constraint, and adds it. */
  predicate WillClaim(s: State, f: nat) {
    s.fkJobs > 0 && if s.db.fetched then f in s.db.rows else f in s.src.claimable
  }

  predicate WillAdd(s: State, f: nat) {
    WillClaim(s, f) && !s.db.fkDone && (s.db.fetched ==> !s.db.rows[f].added)
  }

  /** Where the fetch and the ADD phase lead when nothing fails. */
  ghost predicate Prepared(a: State, b: State) {
    && SameCommand(a, b) && !b.errors && b == AfterAdd(b)
    && b.db.listed == a.db.listed && b.db.postDataDone == a.db.postDataDone && b.db.fkDone == a.db.fkDone
    && (forall f :: f in b.db.target <==> f in a.db.target || WillAdd(a, f))
    && (forall f :: Claimed(b, f) <==> WillClaim(a, f))
    && (forall f | WillClaim(a, f) :: b.db.rows[f].validated == (a.db.fetched && a.db.rows[f].validated))
  }

  lemma PreparedBy(a: State, b: State, c: State)
    requires a.start == a.db && AfterFetch(a, b) && SameCommand(b, c)
    requires if b.pc.Adding? then c == AfterAdd(c) && AllBuilt(b, c.db) && OnlyBuilds(b.db, c.db) && !c.errors
             else c == b
    ensures Prepared(a, c)
  {
    forall f
      ensures f in c.db.target <==> f in a.db.target || WillAdd(a, f)
    {
      if b.pc.Adding? {
        assert f in c.db.target <==> f in b.db.target.Keys + b.pc.todo;
        assert WillAdd(a, f) <==> f in b.pc.todo;
      } else {
        assert WillClaim(a, f) ==> f in b.db.rows;
      }
    }
  }

  /** The claims are there, and the ADD phase is next, if there is one. */
  ghost predicate AfterFetch(a: State, b: State) {
    && SameCommand(a, b) && !b.errors && OnlyTarget(a.db.(fetched := b.db.fetched, rows := b.db.rows), b.db)
    && b.db.target == a.db.target
    && b.db.rows == (if a.fkJobs > 0 && !a.db.fetched then Claim(a.src) else a.db.rows)
    && (if a.fkJobs > 0 && !a.db.fkDone && b.db.rows != map[]
        then b.pc == Adding(Unadded(b.db.rows), Next) else b == AfterAdd(b))
  }

  lemma RestoreFitsExactly(a: State, b: State)
    requires Prepared(a, b)
    ensures RestoreFits(a) <==>
            forall f | f in b.db.listed || (f in b.src.archive && !Claimed(b, f)) :: f !in b.db.target
  {
  }

  lemma ValidateFitsExactly(a: State, b: State)
    requires Prepared(a, b) && StoreInv(a.src, a.db) && !a.clone && a.start == a.db
    ensures b.pc.Validating? ==>
              (ValidateFits(a) <==> forall f | ToValidate(b, f) :: f in b.db.target)
    ensures !b.pc.Validating? ==> ValidateFits(a) && b.pc.Returned? && b.pc.ok
  {
    forall f | ToValidate(a, f) && a.fkJobs > 0
      ensures ToValidate(b, f) && !a.db.fkDone
    {
      assert WillClaim(a, f) && Claimed(b, f);
    }
    forall f | ToValidate(b, f) && b.fkJobs > 0 && !a.db.fkDone
      ensures f !in b.db.target <==> ToValidate(a, f) && a.db.rows[f].added && f !in a.db.target
    {
      assert Claimed(b, f) && WillClaim(a, f);
    }
  }

  /** pg_restore finds nothing of its list on the target. */
  ghost predicate RestoreFits(s: State) {
    forall f | f in s.db.listed || (f in s.src.archive && !WillClaim(s, f)) ::
      f !in s.db.target && !WillAdd(s, f)
  }

  /** What was added before, and is still to validate, is still on the target. */
  ghost predicate ValidateFits(s: State) {
    forall f | ToValidate(s, f) && s.fkJobs > 0 && s.db.rows[f].added :: f in s.db.target
  }

  /** world is about statements and processes; link about signals, and the
      connection to the target. */
  class Session {
    const world: World
    const link: World
    var s: State
    ghost var history: seq<State>

    ghost predicate Valid()
      reads this
    {
      world != link && LeadsTo(history, s)
    }

    ghost function Failures(): nat
      reads world, link
    {
      world.failures + link.failures
    }

    constructor (src: Source, world: World, link: World)
      requires Agree(src) && world != link
      ensures Valid() && s == Init(src) && this.world == world && this.link == link
    {
      this.world, this.link, s, history := world, link, Init(src), [Init(src)];
    }

    method Do(e: Event)
      requires Valid() && Enabled(s, e)
      modifies this
      ensures Valid() && s == Fire(old(s), e) && s.src == old(s.src)
      ensures !e.Start? ==> SameCommand(old(s), s)
    {
      HistoryExtend(history, s, e);
      s := Fire(s, e);
      history := history + [s];
    }

    method GiveUp() returns (ok: bool)
      requires Valid() && Enabled(s, Fail)
      modifies this
      ensures Valid() && s == old(s).(pc := Returned(false)) && !ok
    {
      Do(Fail);
      ok := false;
    }

    predicate AddNext()
      reads this
    {
      s.pc.Adding? && s.pc.step.Next?
    }

    /** ALTER TABLE ... ADD CONSTRAINT: an existing constraint counts as added. */
    method Add(f: nat) returns (done: bool)
      requires Valid() && AddNext() && f in s.pc.todo
      modifies this, world
      ensures Valid() && SameCommand(old(s), s) && s.pc.Adding?
      ensures done <==> world.failures == old(world.failures)
      ensures world.failures >= old(world.failures)
      ensures OnlyBuilds(old(s).db, s.db)
      ensures done ==> s.pc.step == Mark(f) && s.pc.todo == old(s.pc.todo)
      ensures done ==> s.errors == old(s).errors && s.db.rows == old(s).db.rows
      ensures done ==> s.db.target.Keys == old(s).db.target.Keys + {f}
      ensures done ==> s == Fire(old(s), if f in old(s).db.target then AddDuplicate(f) else AddOk(f))
      ensures !done ==> AddNext() && s.pc.todo == old(s.pc.todo) - {f}
      ensures !done ==> exists applied, deleted :: s == Fire(old(s), AddFails(f, applied, deleted))
    {
      done := world.Try();
      if !done {
        var applied, deleted := *, *;
        Do(AddFails(f, applied, deleted));
        assert s == Fire(old(s), AddFails(f, applied, deleted));
      } else if f in s.db.target {
        Do(AddDuplicate(f));
      } else {
        Do(AddOk(f));
      }
    }

    /** The row, when its ADD is recorded. */
    method RecordAdd(f: nat) returns (ok: bool)
      requires Valid() && s.pc.Adding? && s.pc.step == Mark(f)
      modifies this, world
      ensures Valid() && SameCommand(old(s), s) && s.pc.Adding? && s.pc.todo == old(s.pc.todo) - {f}
      ensures s.pc.step == if ok then Remark(f) else Next
      ensures OnlyBuilds(old(s).db, s.db) && s.db.target == old(s).db.target && s.db.unclaimed == old(s).db.unclaimed
      ensures ok <==> world.failures == old(world.failures)
      ensures world.failures >= old(world.failures)
      ensures s.errors == (old(s).errors || !ok)
      ensures s.db.rows == if ok then Marks(old(s).db.rows, {f}) else old(s).db.rows
    {
      AddingNow(history, s);
      ok := world.Try();
      Do(MarkAdded(ok));
    }

    method ApplyComment(f: nat)
      requires Valid() && s.pc.Adding? && s.pc.step == Remark(f)
      modifies this, world
      ensures Valid() && SameCommand(old(s), s) && AddNext() && s.pc.todo == old(s.pc.todo)
      ensures OnlyBuilds(old(s).db, s.db) && s.db.rows == old(s).db.rows && s.db.unclaimed == old(s).db.unclaimed
      ensures s.db.target.Keys == old(s).db.target.Keys
      ensures world.failures >= old(world.failures)
      ensures world.failures == old(world.failures) ==> s.errors == old(s).errors
    {
      var commented := world.Try();
      Do(Comment(commented));
    }

    /** One constraint: added, recorded, and only then given its comment. */
    method AddOne(f: nat)
      requires Valid() && AddNext() && f in s.pc.todo
      modifies this, world
      ensures Valid() && SameCommand(old(s), s) && AddNext() && s.pc.todo == old(s.pc.todo) - {f}
      ensures world.failures >= old(world.failures) && OnlyBuilds(old(s).db, s.db)
      ensures world.failures == old(world.failures) ==>
                && s.errors == old(s).errors
                && s.db.rows == Marks(old(s).db.rows, {f})
                && s.db.target.Keys == old(s).db.target.Keys + {f}
    {
      var done := Add(f);
      if done {
        var recorded := RecordAdd(f);
        if recorded {
          ApplyComment(f);
        }
      }
    }

    /** STEP 10, sequential; stops early only at an error under --fail-fast. When
        nothing fails, every constraint of the list ends up added and recorded. */
    method AddNotValid(failFast: bool) returns (ok: bool)
      requires Valid() && (AddNext() || s.pc.Listing? || PastRestore(s))
      modifies this, world
      ensures Valid() && SameCommand(old(s), s)
      ensures !old(AddNext()) ==> ok && s == old(s) && world.failures == old(world.failures)
      ensures ok ==> s.pc.Listing? || PastRestore(s)
      ensures ok && old(AddNext()) ==> !s.errors && forall f | f in s.db.rows :: s.db.rows[f].added
      ensures ok && old(AddNext()) ==> s == AfterAdd(s)
      ensures !ok ==> s.pc == Returned(false) && s.errors
      ensures world.failures >= old(world.failures) && OnlyBuilds(old(s).db, s.db)
      ensures old(AddNext()) && !old(s).errors && world.failures == old(world.failures) ==>
                ok && AllBuilt(old(s), s.db)
    {
      if !s.pc.Adding? {
        return true;
      }
      AddingNow(history, s);
      AddEach(failFast);
      Do(EndAdd);
      ok := !s.pc.Returned? || s.pc.ok;
      if ok {
        AllAddedNow(history, s);
      }
    }

    method AddEach(failFast: bool)
      requires Valid() && AddNext()
      modifies this, world
      ensures Valid() && SameCommand(old(s), s) && AddNext() && (s.pc.todo == {} || s.errors)
      ensures world.failures >= old(world.failures) && OnlyBuilds(old(s).db, s.db)
      ensures !old(s).errors && world.failures == old(world.failures) ==> !s.errors && AllBuilt(old(s), s.db)
    {
      ghost var before, done := s, {};
      MarksNone(s.db.rows);
      while s.pc.todo != {} && !(failFast && s.errors)
        invariant Valid() && AddNext() && world.failures >= old(world.failures)
        invariant AddedSoFar(before, s, done, world.failures == old(world.failures))
        decreases |s.pc.todo|
      {
        var f :| f in s.pc.todo;
        AddAnother(f, before, done, old(world.failures));
        done := done + {f};
      }
      if s.pc.todo == {} {
        AddedThemAll(before, s, done, world.failures == old(world.failures));
      }
    }

    method AddAnother(f: nat, ghost before: State, ghost done: set<nat>, ghost failures: nat)
      requires Valid() && AddNext() && f in s.pc.todo && world.failures >= failures
      requires AddedSoFar(before, s, done, world.failures == failures)
      modifies this, world
      ensures Valid() && AddNext() && s.pc.todo == old(s.pc.todo) - {f} && world.failures >= old(world.failures)
      ensures AddedSoFar(before, s, done + {f}, world.failures == failures)
    {
      ghost var here, fine := s, world.failures == failures;
      AddOne(f);
      AddedOneMore(before, here, s, done, f, fine, world.failures == failures);
    }

    /** The archive entries that are not ours to build. */
    method WriteRestoreList()
      requires Valid() && s.pc.Listing?
      modifies this
      ensures Valid() && SameCommand(old(s), s) && s.pc == Restoring({})
      ensures s.db == old(s).db.(listed := s.db.listed)
      ensures forall f | f in s.src.archive :: f in s.db.listed || Claimed(s, f)
      ensures forall f | f in s.db.listed && f !in old(s).db.listed :: f in s.src.archive && !Claimed(s, f)
      ensures old(s).db.listed <= s.db.listed
    {
      var left := s.src.archive.Keys;
      while left != {}
        invariant Valid() && SameCommand(old(s), s) && s.pc.Listing?
        invariant s.db == old(s).db.(listed := s.db.listed) && old(s).db.listed <= s.db.listed
        invariant forall f | f in s.db.listed && f !in old(s).db.listed :: f in s.src.archive && !Claimed(s, f)
        invariant forall f | f in s.src.archive :: f in left || f in s.db.listed || Claimed(s, f)
        invariant left <= s.src.archive.Keys
        decreases |left|
      {
        var f :| f in left;
        if !Claimed(s, f) {
          Do(List(f));
        }
        left := left - {f};
      }
      Do(EndListing);
    }

    method DropOne(f: nat)
      requires Valid() && s.pc == Restoring({}) && f in s.db.listed
      modifies this
      ensures Valid() && SameCommand(old(s), s) && s.pc == Restoring({})
      ensures OnlyTarget(old(s).db, s.db) && s.db.target == old(s).db.target - {f}
    {
      Do(RestoreDrop(f));
    }

    /** pg_restore --clean: what the list names is dropped first, and no more. */
    method DropListed()
      requires Valid() && s.pc == Restoring({})
      modifies this
      ensures Valid() && SameCommand(old(s), s) && s.pc == Restoring({})
      ensures OnlyTarget(old(s).db, s.db) && s.db.target == old(s).db.target - old(s).db.listed
    {
      var left := s.db.listed;
      while left != {}
        invariant Valid() && SameCommand(old(s), s) && s.pc == Restoring({})
        invariant OnlyTarget(old(s).db, s.db) && s.db.target == old(s).db.target - (old(s).db.listed - left)
        invariant left <= s.db.listed
        decreases |left|
      {
        var f :| f in left;
        DropOne(f);
        left := left - {f};
      }
    }

    method RestoreOne(f: nat)
      requires Valid() && s.pc.Restoring? && f in s.db.listed && f in s.src.archive && f !in s.db.target
      modifies this
      ensures Valid() && SameCommand(old(s), s) && s.pc == Restoring(old(s).pc.restored + {f})
      ensures OnlyTarget(old(s).db, s.db)
      ensures s.db.target == old(s).db.target[f := Built(s.src.archive[f].validated, s.src.archive[f].comment)]
    {
      Do(RestoreAdd(f));
    }

    /** One entry of the list: the constraint, with its comment. */
    method RestoreEntry(f: nat) returns (ok: bool)
      requires Valid() && s.pc.Restoring? && f in s.db.listed
      modifies this, world
      ensures Valid() && SameCommand(old(s), s) && s.pc.Restoring? && OnlyTarget(old(s).db, s.db)
      ensures ok ==> EntryRestored(old(s), s, f)
      ensures !ok ==> s == old(s)
      ensures ok <==> world.failures == old(world.failures) && f !in old(s).db.target
      ensures world.failures >= old(world.failures)
    {
      ListedNow(history, s);
      ok := world.Try();
      ok := ok && f !in s.db.target;
      if ok {
        RestoreOne(f);
      }
    }

    method EndRestore()
      requires Valid() && s.pc.Restoring? && s.pc.restored == s.db.listed
      modifies this
      ensures Valid() && SameCommand(old(s), s) && PastRestore(s) && s == BeginValidate(s)
      ensures OnlyRestores(old(s).db, s.db) && s.db.listed == old(s).db.listed
    {
      Do(RestoreDone);
    }

    /** pg_restore --section=post-data --use-list: any error fails it. */
    method Restore() returns (ok: bool)
      requires Valid() && s.pc == Restoring({})
      modifies this, world
      ensures Valid() && SameCommand(old(s), s)
      ensures ok ==> PastRestore(s) && s == BeginValidate(s)
      ensures !ok ==> s.pc == Returned(false)
      ensures OnlyRestores(old(s).db, s.db) && s.db.listed == old(s).db.listed
      ensures ok <==> world.failures == old(world.failures)
                      && forall f | f in old(s).db.listed :: f !in old(s).db.target
      ensures world.failures >= old(world.failures)
    {
      ok := RestoreEach();
      if ok {
        EndRestore();
      } else {
        ok := GiveUp();
      }
    }

    method RestoreEach() returns (ok: bool)
      requires Valid() && s.pc == Restoring({})
      modifies this, world
      ensures Valid() && SameCommand(old(s), s) && s.pc.Restoring? && OnlyTarget(old(s).db, s.db)
      ensures ok ==> s.pc.restored == s.db.listed
      ensures ok <==> world.failures == old(world.failures)
                      && forall f | f in old(s).db.listed :: f !in old(s).db.target
      ensures world.failures >= old(world.failures)
    {
      ghost var before := s;
      var left := s.db.listed;
      while left != {}
        invariant Valid() && RestoredBut(before, s, left) && world.failures == old(world.failures)
        decreases |left|
      {
        var f :| f in left;
        ok := RestoreAnother(f, before, left);
        if !ok {
          return;
        }
        left := left - {f};
      }
      NothingInTheWay(before, s);
      ok := true;
    }

    method RestoreAnother(f: nat, ghost before: State, ghost left: set<nat>) returns (ok: bool)
      requires Valid() && RestoredBut(before, s, left) && f in left
      modifies this, world
      ensures Valid() && SameCommand(before, s) && OnlyTarget(before.db, s.db) && s.pc.Restoring?
      ensures ok ==> RestoredBut(before, s, left - {f}) && world.failures == old(world.failures)
      ensures !ok ==> world.failures > old(world.failures) || (f in before.db.listed && f in before.db.target)
      ensures world.failures >= old(world.failures)
    {
      ghost var here := s;
      ok := RestoreEntry(f);
      if ok {
        RestoredOneMore(before, here, s, left, f);
      } else if f in here.db.target {
        InTheWay(before, here, left, f);
      }
    }

    /** STEP 11: nothing to do when it was done when this command started;
        otherwise everything listed is built as it was dumped. It succeeds exactly
        when nothing fails, and nothing of the list is in the way. */
    method FinalizeSchema(clean: bool) returns (ok: bool)
      requires Valid() && (s.pc.Listing? || PastRestore(s))
      modifies this, world
      ensures Valid() && SameCommand(old(s), s)
      ensures !old(s).pc.Listing? ==> ok && s == old(s) && world.failures == old(world.failures)
      ensures ok ==> PastRestore(s)
      ensures ok && old(s).pc.Listing? ==> s == BeginValidate(s)
      ensures OnlyRestores(old(s).db, s.db)
      ensures world.failures >= old(world.failures)
      ensures old(s).pc.Listing? ==>
                (ok <==> && world.failures == old(world.failures)
                         && (clean || forall f | f in old(s).db.listed
                                                 || (f in s.src.archive && !Claimed(old(s), f)) ::
                               f !in old(s).db.target))
      ensures ok && old(s).pc.Listing? ==>
                && s.db.postDataDone
                && (forall f | f in s.db.listed :: AsDumped(s, f))
                && (forall f | f in s.src.archive :: f in s.db.listed || Claimed(s, f))
      ensures !ok ==> s.pc == Returned(false)
    {
      if !s.pc.Listing? {
        return true;
      }
      PendingNow(history, s);
      WriteRestoreList();
      if clean {
        DropListed();
      }
      ok := Restore();
      if ok {
        RestoredNow(history, s);
      }
    }

    /** VALIDATE CONSTRAINT, retried at once; a signal, or a connection that cannot
        be made again, ends that. It fails on a constraint that is not there. */
    method TryValidate(f: nat, attempts: nat) returns (success: bool)
      requires Valid() && attempts > 0
      modifies world, link
      ensures world.failures >= old(world.failures) && link.failures >= old(link.failures)
      ensures success ==> f in s.db.target
      ensures success ==> link.failures == old(link.failures) && world.failures < old(world.failures) + attempts
      ensures link.failures == old(link.failures) && f in s.db.target ==>
                (success <==> world.failures < old(world.failures) + attempts)
    {
      success := false;
      var i, on := 0, true;
      while !success && on && i < attempts
        invariant 0 <= i <= attempts && Valid()
        invariant on <==> link.failures == old(link.failures)
        invariant link.failures >= old(link.failures) && world.failures >= old(world.failures)
        invariant world.failures <= old(world.failures) + i
        invariant success ==> on && f in s.db.target && world.failures < old(world.failures) + i
        invariant !success && f in s.db.target ==> world.failures == old(world.failures) + i
        decreases attempts - i, !success, on
      {
        success := world.Try();
        success := success && f in s.db.target;
        i := i + 1;
        if !success {
          on := link.Try();
        }
      }
    }

    method Validated(f: nat)
      requires Valid() && s.pc.Validating? && ToValidate(s, f) && f in s.db.target
      modifies this
      ensures Valid() && SameCommand(old(s), s) && s.pc.Validating? && f in s.pc.verified
      ensures OnlyTarget(old(s).db, s.db)
      ensures s.db.target == old(s).db.target[f := old(s).db.target[f].(valid := true)]
    {
      Do(Validate(f));
    }

    method RecordValidate(f: nat) returns (ok: bool)
      requires Valid() && s.pc.Validating? && f in s.pc.verified && f in s.db.rows
      modifies this, world
      ensures Valid() && SameCommand(old(s), s) && s.pc.Validating?
      ensures OnlyBuilds(old(s).db, s.db) && s.db.target == old(s).db.target && s.db.unclaimed == old(s).db.unclaimed
      ensures ok <==> world.failures == old(world.failures)
      ensures world.failures >= old(world.failures)
      ensures s.db.rows == if ok then old(s).db.rows[f := old(s).db.rows[f].(validated := true)] else old(s).db.rows
    {
      ok := world.Try();
      if ok {
        Do(MarkValidated(f));
      }
    }

    /** One row: a constraint NOT VALID on the source is left alone, one that is on
        the target is validated unless every attempt fails, and then marked. */
    method ValidateOne(f: nat, attempts: nat)
      requires Valid() && s.pc.Validating? && f in s.db.rows && attempts > 0
      modifies this, world, link
      ensures Valid() && OneValidated(old(s), s, f, Failures() == old(Failures()))
      ensures world.failures >= old(world.failures) && link.failures >= old(link.failures)
      ensures ToValidate(old(s), f) && f in old(s).db.target
              && link.failures == old(link.failures) && world.failures < old(world.failures) + attempts
              ==> s.db.target[f].valid
    {
      if f !in s.src.claimable || !s.src.claimable[f].validated || s.db.rows[f].validated {
        return;
      }
      var success := TryValidate(f, attempts);
      if success {
        Validated(f);
        var _ := RecordValidate(f);
      }
    }

    /** The rows, one after the other: when nothing fails, each one to validate that
        is on the target ends validated there, and marked. */
    method ValidateEach(attempts: nat)
      requires Valid() && s.pc.Validating? && attempts > 0
      modifies this, world, link
      ensures Valid() && ValidatedBut(old(s), s, {}, Failures() == old(Failures()))
      ensures world.failures >= old(world.failures) && link.failures >= old(link.failures)
    {
      ghost var before := s;
      var left := s.db.rows.Keys;
      while left != {}
        invariant Valid() && ValidatedBut(before, s, left, Failures() == old(Failures()))
        invariant world.failures >= old(world.failures) && link.failures >= old(link.failures)
        decreases |left|
      {
        var f :| f in left;
        ValidateAnother(f, attempts, before, left, old(Failures()));
        left := left - {f};
      }
    }

    method ValidateAnother(f: nat, attempts: nat, ghost before: State, ghost left: set<nat>, ghost failures: nat)
      requires Valid() && attempts > 0 && f in left && Failures() >= failures
      requires ValidatedBut(before, s, left, Failures() == failures)
      modifies this, world, link
      ensures Valid() && ValidatedBut(before, s, left - {f}, Failures() == failures)
      ensures world.failures >= old(world.failures) && link.failures >= old(link.failures)
    {
      ghost var here, fine := s, Failures() == failures;
      ValidateOne(f, attempts);
      ValidatedOneMore(before, here, s, left, f, fine, Failures() == failures);
    }

    /** STEP 12: the phase is done only when a count finds nothing left. When
        nothing fails, that is when each constraint to validate is on the target. */
    method ValidateAll(retryCount: nat) returns (ok: bool)
      requires Valid() && PastRestore(s)
      modifies this, world, link
      ensures Valid() && SameCommand(old(s), s)
      ensures !old(s).pc.Validating? ==> ok && s == old(s) && Failures() == old(Failures())
      ensures ok ==> s.pc.Enabling? || s.pc == Returned(true)
      ensures ok && old(s).pc.Validating? ==> s.db.fkDone && NoneLeft(s.src, s.db.rows) && s == AfterValidate(s)
      ensures !ok ==> s.pc == Returned(false)
      ensures s.db.rows.Keys == old(s).db.rows.Keys && s.db.target.Keys == old(s).db.target.Keys
      ensures s.db.apply == old(s).db.apply
      ensures Failures() >= old(Failures())
      ensures ok && old(s).pc.Validating? ==> forall f | ToValidate(old(s), f) :: f in old(s).db.target
      ensures Failures() == old(Failures()) && old(s).pc.Validating? ==>
                (ok <==> forall f | ToValidate(old(s), f) :: f in old(s).db.target)
      ensures Failures() == old(Failures()) && old(s).pc.Validating? ==>
                forall f | ToValidate(old(s), f) && f in old(s).db.target ::
                  s.db.rows[f].validated && s.db.target[f].valid
    {
      if !s.pc.Validating? {
        return true;
      }
      ValidatingNow(history, s);
      ValidateEach(1 + retryCount);
      var joined := world.Try();
      if !joined {
        ok := GiveUp();
        return;
      }
      Do(EndValidate);
      ok := !s.pc.Returned? || s.pc.ok;
    }

    /** The claims are fetched, or found from a run before. */
    method FetchClaims() returns (ok: bool)
      requires Valid() && s.pc.Fetching? && s.start == s.db && !s.errors
      modifies this, world
      ensures Valid() && SameCommand(old(s), s) && s.db.apply == old(s).db.apply
      ensures ok <==> world.failures == old(world.failures)
      ensures world.failures >= old(world.failures)
      ensures ok ==> AfterFetch(old(s), s) && (AddNext() || s.pc.Listing? || PastRestore(s))
      ensures !ok ==> s.pc == Returned(false)
    {
      ok := world.Try();
      if ok {
        Do(Fetch);
      } else {
        ok := GiveUp();
      }
    }

    method Prepare(failFast: bool) returns (ok: bool)
      requires Valid() && s.pc.Fetching? && s.start == s.db && !s.errors
      modifies this, world
      ensures Valid() && SameCommand(old(s), s) && s.db.apply == old(s).db.apply
      ensures world.failures >= old(world.failures)
      ensures ok ==> (s.pc.Listing? || PastRestore(s)) && s == AfterAdd(s)
      ensures !ok ==> s.pc == Returned(false)
      ensures world.failures == old(world.failures) ==> ok && Prepared(old(s), s)
    {
      ok := FetchClaims();
      if ok {
        ghost var fetched := s;
        ok := AddNotValid(failFast);
        if world.failures == old(world.failures) {
          PreparedBy(old(s), fetched, s);
        }
      }
    }

    /** What follows the ADD phase, up to enabling apply. */
    method Conclude(clean: bool, retryCount: nat, ghost before: State) returns (ok: bool)
      requires Valid() && (s.pc.Listing? || PastRestore(s)) && SameCommand(before, s)
      requires s == AfterAdd(s) && StoreInv(before.src, before.db) && before.start == before.db
      modifies this, world, link
      ensures Valid() && SameCommand(old(s), s) && s.db.apply == old(s).db.apply && Failures() >= old(Failures())
      ensures ok ==> (s.pc.Enabling? || s.pc == Returned(true)) && s == AfterValidate(s)
      ensures !ok ==> s.pc == Returned(false)
      ensures Prepared(before, old(s)) && Failures() == old(Failures()) ==>
                (ok <==> if s.clone then before.db.postDataDone || clean || RestoreFits(before)
                         else ValidateFits(before))
    {
      ghost var prepared := Prepared(before, s);
      if prepared {
        RestoreFitsExactly(before, s);
        if !s.clone {
          ValidateFitsExactly(before, s);
        }
      }
      ok := FinalizeSchema(clean);
      if ok {
        if s.pc.Validating? {
          ValidatingNow(history, s);
        }
        ok := ValidateAll(retryCount);
      }
    }

    /** The steps of copydb_clone_database, from the fetch to enabling apply. */
    method RunPhases(failFast: bool, clean: bool, retryCount: nat) returns (ok: bool)
      requires Valid() && s.pc.Fetching? && s.start == s.db && !s.errors
      modifies this, world, link
      ensures Valid() && SameCommand(old(s), s) && s.pc == Returned(ok)
      ensures Failures() >= old(Failures())
      ensures ok && s.clone && s.follow ==> s.db.apply
      ensures !(s.clone && s.follow) ==> s.db.apply == old(s).db.apply
      ensures Failures() == old(Failures()) ==>
                (ok <==> if s.clone then old(s).db.postDataDone || clean || RestoreFits(old(s))
                         else ValidateFits(old(s)))
    {
      ReachedNow(history, s);
      ok := Prepare(failFast);
      if ok {
        ok := Conclude(clean, retryCount, old(s));
      }
      if ok && s.pc.Enabling? {
        EnablingNow(history, s);
        ok := world.Try();
        Do(EnableApply(ok));
      }
    }

    /** pgcopydb clone. What it promises on success holds whatever commands ran,
        and crashed, before it. When nothing fails, it succeeds exactly when its
        post-data restore was done before, or finds nothing in its way. */
    method CloneDatabase(fkJobs: nat, follow: bool, failFast: bool, clean: bool, retryCount: nat)
      returns (ok: bool)
      requires Valid() && (s.pc.Down? || s.pc.Returned?)
      modifies this, world, link
      ensures Valid() && s.src == old(s.src) && s.pc == Returned(ok)
      ensures ok ==> forall f | f in s.src.archive :: f in s.db.target
      ensures ok && fkJobs > 0 ==> forall f | f in s.db.rows :: Right(s.src, s.db, f)
      ensures ok && follow ==> s.db.apply
      ensures !follow ==> s.db.apply == old(s).db.apply
      ensures Failures() == old(Failures()) ==>
                (ok <==> old(s).db.postDataDone || clean || RestoreFits(old(s).(fkJobs := fkJobs)))
      ensures Failures() == old(Failures()) && old(s).db == Blank ==> ok
    {
      Do(Start(true, fkJobs, follow));
      ok := RunPhases(failFast, clean, retryCount);
      if ok {
        ClonedNow(history, s);
      }
    }

    /** pgcopydb copy fk-constraints: both phases back to back, no fallback. */
    method CreateFkConstraints(fkJobs: nat, failFast: bool, retryCount: nat) returns (ok: bool)
      requires Valid() && (s.pc.Down? || s.pc.Returned?) && fkJobs > 0
      modifies this, world, link
      ensures Valid() && s.src == old(s.src) && s.pc == Returned(ok)
      ensures ok ==> s.db.fetched && NoneLeft(s.src, s.db.rows)
      ensures s.db.unclaimed == old(s.db.unclaimed)
      ensures Failures() == old(Failures()) ==> (ok <==> ValidateFits(old(s).(fkJobs := fkJobs)))
    {
      Do(Start(false, fkJobs, false));
      ok := RunPhases(failFast, false, retryCount);
      CreatedNow(history, s);
    }
  }
}
