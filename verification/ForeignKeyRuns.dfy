/** Three concrete runs on which the two-phase build falls short of what its
    design promises: each is the failing side of an exact result. */
module ForeignKeyRuns {
  import opened ForeignKeys
  import opened ForeignKeySafety
  import Build = ForeignKeyBuild

  lemma Go(s: State, events: seq<Event>, t: State, e: Event, u: State) returns (more: seq<Event>)
    requires CanRun(s, events) && Run(s, events) == t && Enabled(t, e) && Fire(t, e) == u
    ensures more == events + [e] && CanRun(s, more) && Run(s, more) == u
  {
    RunExtend(s, events, e);
    more := events + [e];
  }

  /** A clone with --fk-jobs adds its only constraint and records that. */
  lemma UpToMarked(fk: Fk, follow: bool) returns (events: seq<Event>, t: State)
    ensures CanRun(Init(Source(map[7 := fk], map[7 := fk])), events)
    ensures Run(Init(Source(map[7 := fk], map[7 := fk])), events) == t
    ensures t == State(Source(map[7 := fk], map[7 := fk]),
                       Store(true, map[7 := Row(true, false)], {}, {}, false, false, false,
                             map[7 := Built(false, false)]),
                       Adding({}, Remark(7)), true, 1, follow, false, Blank)
  {
    var src := Source(map[7 := fk], map[7 := fk]);
    var s := Init(src);
    t := State(src, Blank, Fetching, true, 1, follow, false, Blank);
    events := Go(s, [], s, Start(true, 1, follow), t);
    var db := Blank.(fetched := true, rows := map[7 := Row(false, false)]);
    assert Claim(src) == db.rows && Unadded(db.rows) == {7};
    var u := t.(db := db, pc := Adding({7}, Next));
    events := Go(s, events, t, Fetch, u);
    db := db.(target := map[7 := Built(false, false)]);
    t := u.(db := db, pc := Adding({7}, Mark(7)));
    events := Go(s, events, u, AddOk(7), t);
    db := db.(rows := map[7 := Row(true, false)]);
    u := t.(db := db, pc := Adding({}, Remark(7)));
    assert t.pc.todo - {7} == {} && t.db.rows[7 := Row(true, false)] == db.rows;
    events := Go(s, events, t, MarkAdded(true), u);
    t := u;
  }

  /** With nothing left to add, a clone goes through its post-data restore. */
  lemma ThroughPostData(s: State, before: seq<Event>, t: State) returns (events: seq<Event>, u: State)
    requires CanRun(s, before) && Run(s, before) == t
    requires t.pc == Adding({}, Next) && !t.errors && t.clone && t.fkJobs == 1
    requires !t.start.postDataDone && !t.start.fkDone
    requires t.db.listed == {} && 7 in t.db.rows && t.src.archive.Keys == {7}
    ensures CanRun(s, events) && Run(s, events) == u
    ensures u == t.(db := t.db.(postDataDone := true), pc := Validating({}))
  {
    u := t.(pc := Listing);
    events := Go(s, before, t, EndAdd, u);
    var v := u.(pc := Restoring({}));
    assert 7 in u.src.archive.Keys;
    events := Go(s, events, u, EndListing, v);
    u := v.(db := v.db.(postDataDone := true), pc := Validating({}));
    events := Go(s, events, v, RestoreDone, u);
  }

  /** Interrupted before it validates, then resumed without --fk-jobs, that clone
      succeeds and enables apply over a constraint that the source has validated
      and the target has not. */
  lemma ResumedWithoutJobs() returns (events: seq<Event>)
    ensures var src := Source(map[7 := Fk(1, true, false)], map[7 := Fk(1, true, false)]);
            && CanRun(Init(src), events)
            && CloneSucceeds(Run(Init(src), events))
            && Run(Init(src), events).db.apply
            && !Right(src, Run(Init(src), events).db, 7)
  {
    var fk := Fk(1, true, false);
    var s := Init(Source(map[7 := fk], map[7 := fk]));
    var t;
    events, t := UpToMarked(fk, true);
    var u := t.(pc := Adding({}, Next));
    events := Go(s, events, t, Comment(true), u);
    events, u := ThroughPostData(s, events, u);
    t := u.(pc := Down);
    events := Go(s, events, u, Crash, t);
    u := State(t.src, t.db, Fetching, true, 0, true, false, t.db);
    events := Go(s, events, t, Start(true, 0, true), u);
    t := u.(pc := Enabling);
    events := Go(s, events, u, Fetch, t);
    u := t.(db := t.db.(apply := true), pc := Returned(true));
    events := Go(s, events, t, EnableApply(true), u);
  }

  /** A crash between recording the ADD and applying the comment: the resumed
      clone skips the constraint, succeeds, and the comment is gone. */
  lemma CommentLost() returns (events: seq<Event>)
    ensures var src := Source(map[7 := Fk(1, true, true)], map[7 := Fk(1, true, true)]);
            && CanRun(Init(src), events)
            && CloneSucceeds(Run(Init(src), events))
            && Run(Init(src), events).db.target == map[7 := Built(true, false)]
  {
    var fk := Fk(1, true, true);
    var s := Init(Source(map[7 := fk], map[7 := fk]));
    var t;
    events, t := UpToMarked(fk, false);
    var u := t.(pc := Down);
    events := Go(s, events, t, Crash, u);
    t := State(u.src, u.db, Fetching, true, 1, false, false, u.db);
    events := Go(s, events, u, Start(true, 1, false), t);
    assert Unadded(t.db.rows) == {} && 7 in t.db.rows;
    u := t.(pc := Adding({}, Next));
    events := Go(s, events, t, Fetch, u);
    events, u := ThroughPostData(s, events, u);
    events, t := ValidateSeven(s, events, u);
  }

  lemma ValidateSeven(s: State, before: seq<Event>, t: State) returns (events: seq<Event>, u: State)
    requires CanRun(s, before) && Run(s, before) == t
    requires t.pc == Validating({}) && t.clone && !t.follow
    requires t.src.claimable == map[7 := Fk(1, true, true)]
    requires t.db.rows == map[7 := Row(true, false)] && t.db.target == map[7 := Built(false, false)]
    ensures CanRun(s, events) && Run(s, events) == u
    ensures CloneSucceeds(u) && u.db.target == map[7 := Built(true, false)]
  {
    var db := t.db.(target := map[7 := Built(true, false)]);
    u := t.(db := db, pc := Validating({7}));
    assert t.pc.verified + {7} == {7} && t.db.target[7 := Built(true, false)] == db.target;
    events := Go(s, before, t, Validate(7), u);
    db := db.(rows := map[7 := Row(true, true)]);
    var v := u.(db := db);
    assert u.db.rows[7 := Row(true, true)] == db.rows;
    events := Go(s, events, u, MarkValidated(7), v);
    u := v.(db := db.(fkDone := true), pc := Returned(true));
    events := Go(s, events, v, EndValidate, u);
  }

  /* ---- handing back every constraint, whatever the source ---- */

  /** Each ADD that is left fails, and its constraint is handed back. */
  lemma HandBackAll(s: State, before: seq<Event>, t: State) returns (events: seq<Event>, u: State)
    requires CanRun(s, before) && Run(s, before) == t
    requires t.pc.Adding? && t.pc.step.Next? && t.clone && !t.start.postDataDone
    ensures CanRun(s, events) && Run(s, events) == u
    ensures u == t.(db := t.db.(rows := t.db.rows - t.pc.todo, unclaimed := t.db.unclaimed + t.pc.todo),
                    pc := Adding({}, Next))
    decreases t.pc.todo
  {
    if t.pc.todo == {} {
      assert t.db.rows - {} == t.db.rows && t.db.unclaimed + {} == t.db.unclaimed;
      events, u := before, t;
    } else {
      var f :| f in t.pc.todo;
      var v := t.(db := t.db.(rows := t.db.rows - {f}, unclaimed := t.db.unclaimed + {f}),
                  pc := Adding(t.pc.todo - {f}, Next));
      events := Go(s, before, t, AddFails(f, false, true), v);
      events, u := HandBackAll(s, events, v);
      assert {f} + v.pc.todo == t.pc.todo;
      assert v.db.rows - v.pc.todo == t.db.rows - t.pc.todo;
      assert v.db.unclaimed + v.pc.todo == t.db.unclaimed + t.pc.todo;
    }
  }

  lemma ListAll(s: State, before: seq<Event>, t: State, left: set<nat>) returns (events: seq<Event>, u: State)
    requires CanRun(s, before) && Run(s, before) == t
    requires t.pc.Listing? && t.db.rows == map[] && left <= t.src.archive.Keys
    ensures CanRun(s, events) && Run(s, events) == u
    ensures u == t.(db := t.db.(listed := t.db.listed + left))
    decreases left
  {
    if left == {} {
      assert t.db.listed + {} == t.db.listed;
      events, u := before, t;
    } else {
      var f :| f in left;
      var v := t.(db := t.db.(listed := t.db.listed + {f}));
      events := Go(s, before, t, List(f), v);
      events, u := ListAll(s, events, v, left - {f});
      assert t.db.listed + {f} + (left - {f}) == t.db.listed + left;
    }
  }

  lemma RestoreAll(s: State, before: seq<Event>, t: State, left: set<nat>) returns (events: seq<Event>, u: State)
    requires CanRun(s, before) && Run(s, before) == t
    requires t.pc.Restoring? && left <= t.db.listed && left <= t.src.archive.Keys && left !! t.db.target.Keys
    ensures CanRun(s, events) && Run(s, events) == u
    ensures u == t.(db := t.db.(target := u.db.target), pc := Restoring(t.pc.restored + left))
    ensures u.db.target.Keys == t.db.target.Keys + left
    decreases left
  {
    if left == {} {
      assert t.pc.restored + {} == t.pc.restored;
      events, u := before, t;
    } else {
      var f :| f in left;
      var v := Restored(t, f);
      events := Go(s, before, t, RestoreAdd(f), v);
      assert v.db.target.Keys == t.db.target.Keys + {f};
      assert v == t.(db := t.db.(target := v.db.target), pc := Restoring(t.pc.restored + {f}));
      events, u := RestoreAll(s, events, v, left - {f});
      assert t.db.target.Keys + {f} + (left - {f}) == t.db.target.Keys + left;
      assert t.pc.restored + {f} + (left - {f}) == t.pc.restored + left;
    }
  }

  /** A first clone, without --fk-jobs, makes the dump and is interrupted before
      its post-data restore; the second one, with --fk-jobs, claims everything. */
  lemma ResumedClaims(src: Source) returns (events: seq<Event>, t: State)
    requires src.claimable != map[]
    ensures CanRun(Init(src), events) && Run(Init(src), events) == t
    ensures t == State(src, Blank.(fetched := true, rows := Claim(src)), Adding(src.claimable.Keys, Next),
                       true, 1, false, false, Blank)
  {
    var s := Init(src);
    var u := State(src, Blank, Fetching, true, 0, false, false, Blank);
    events := Go(s, [], s, Start(true, 0, false), u);
    t := u.(pc := Listing);
    events := Go(s, events, u, Fetch, t);
    u := t.(pc := Down);
    events := Go(s, events, t, Crash, u);
    t := State(src, Blank, Fetching, true, 1, false, false, Blank);
    events := Go(s, events, u, Start(true, 1, false), t);
    u := t.(db := Blank.(fetched := true, rows := Claim(src)), pc := Adding(src.claimable.Keys, Next));
    assert Unadded(Claim(src)) == src.claimable.Keys && Claim(src).Keys == src.claimable.Keys;
    events := Go(s, events, t, Fetch, u);
    t := u;
  }

  /** Every ADD fails; the restore then builds the archive, and nothing else. */
  lemma HandedBackToArchive(src: Source) returns (events: seq<Event>)
    requires src.claimable != map[]
    ensures CanRun(Init(src), events)
    ensures CloneSucceeds(Run(Init(src), events)) && Run(Init(src), events).fkJobs > 0
    ensures Run(Init(src), events).db.target.Keys == src.archive.Keys
  {
    var s := Init(src);
    var t;
    events, t := ResumedClaims(src);
    var u;
    events, u := HandBackAll(s, events, t);
    assert u.db.rows == map[];
    t := u.(pc := Listing);
    events := Go(s, events, u, EndAdd, t);
    events, u := ListAll(s, events, t, src.archive.Keys);
    events, t := RestoreListed(s, events, u);
  }

  lemma RestoreListed(s: State, before: seq<Event>, u: State) returns (events: seq<Event>, t: State)
    requires CanRun(s, before) && Run(s, before) == u
    requires u.pc.Listing? && u.clone && !u.follow && u.fkJobs > 0 && u.db.rows == map[] && u.db.target == map[]
    requires u.db.listed == u.src.archive.Keys
    ensures CanRun(s, events) && Run(s, events) == t
    ensures CloneSucceeds(t) && t.fkJobs > 0 && t.db.target.Keys == u.src.archive.Keys
  {
    var v := u.(pc := Restoring({}));
    events := Go(s, before, u, EndListing, v);
    events, v := RestoreAll(s, events, v, u.src.archive.Keys);
    assert {} + u.src.archive.Keys == u.src.archive.Keys;
    t := v.(db := v.db.(postDataDone := true), pc := Returned(true));
    events := Go(s, events, v, RestoreDone, t);
  }

  /** Exactly which claimable constraints every successful clone with --fk-jobs
      has on the target, whatever ran, failed and crashed: those of the archive.
      A constraint made after the dump can be handed back to an archive without
      it, and lost. */
  lemma NeverLostExactly(src: Source, f: nat)
    requires Agree(src) && f in src.claimable
    ensures f in src.archive <==>
            forall events | CanRun(Init(src), events) && CloneSucceeds(Run(Init(src), events))
                            && Run(Init(src), events).fkJobs > 0 :: f in Run(Init(src), events).db.target
  {
    if f in src.archive {
      forall events | CanRun(Init(src), events) && CloneSucceeds(Run(Init(src), events))
                      && Run(Init(src), events).fkJobs > 0
        ensures f in Run(Init(src), events).db.target
      {
        NoFkLost(src, events);
      }
    } else {
      var events := HandedBackToArchive(src);
      assert f !in Run(Init(src), events).db.target;
    }
  }

  /** The run at one constraint made after the dump. */
  lemma HandedBackToNobody() returns (events: seq<Event>)
    ensures var src := Source(map[], map[7 := Fk(1, true, false)]);
            && CanRun(Init(src), events)
            && CloneSucceeds(Run(Init(src), events))
            && 7 !in Run(Init(src), events).db.target
  {
    var src := Source(map[], map[7 := Fk(1, true, false)]);
    assert 7 in src.claimable;
    events := HandedBackToArchive(src);
  }

  /** A clone without --fk-jobs is interrupted once it has listed a constraint.
      The next one, with --fk-jobs, claims and adds it: the entry left in the list
      is then in the way of the post-data restore, though nothing fails. */
  lemma StaleListInTheWay() returns (events: seq<Event>)
    ensures var src := Source(map[7 := Fk(1, true, false)], map[7 := Fk(1, true, false)]);
            && CanRun(Init(src), events)
            && Run(Init(src), events).pc.Down?
            && !Run(Init(src), events).db.postDataDone
            && !Build.RestoreFits(Run(Init(src), events).(fkJobs := 1))
  {
    var src := Source(map[7 := Fk(1, true, false)], map[7 := Fk(1, true, false)]);
    var s := Init(src);
    var t := State(src, Blank, Fetching, true, 0, false, false, Blank);
    events := Go(s, [], s, Start(true, 0, false), t);
    var u := t.(pc := Listing);
    events := Go(s, events, t, Fetch, u);
    t := u.(db := Blank.(listed := {7}));
    events := Go(s, events, u, List(7), t);
    u := t.(pc := Down);
    events := Go(s, events, t, Crash, u);
    assert Build.WillAdd(u.(fkJobs := 1), 7);
  }
}
