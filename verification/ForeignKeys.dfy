/** The two-phase FOREIGN KEY build, over every sequence of commands, crashes
    and resumes. A run is a sequence of events; what survives a crash is the
    Store (pgcopydb's catalog, its list file, and the target database). */
module ForeignKeys {

  /** A constraint on the source: its referencing table, whether it is validated
      there, and whether it has a comment. */
  datatype Fk = Fk(child: nat, validated: bool, comment: bool)

  /** archive: the entries of the post-data dump; claimable: what the query for
      constraints with both ends in scope returns. */
  datatype Source = Source(archive: map<nat, Fk>, claimable: map<nat, Fk>)

  predicate Agree(src: Source) {
    forall f | f in src.archive && f in src.claimable :: src.archive[f] == src.claimable[f]
  }

  /** A row of s_fk_constraint, and a constraint on the target. */
  datatype Row = Row(added: bool, validated: bool)
  datatype Built = Built(valid: bool, comment: bool)

  datatype Store = Store(
    fetched: bool,
    rows: map<nat, Row>,
    unclaimed: set<nat>,
    listed: set<nat>,
    postDataDone: bool,
    fkDone: bool,
    apply: bool,
    target: map<nat, Built>)

  const Blank: Store := Store(false, map[], {}, {}, false, false, false, map[])

  datatype AddStep = Next | Mark(f: nat) | Remark(f: nat)

  datatype Pc =
    | Down
    | Fetching
    | Adding(todo: set<nat>, step: AddStep)
    | Listing
    | Restoring(restored: set<nat>)
    | Validating(verified: set<nat>)
    | Enabling
    | Returned(ok: bool)

  /** start is what a command found when it began: pgcopydb clone reads its run
      state from it, and never looks again. */
  datatype State = State(
    src: Source,
    db: Store,
    pc: Pc,
    clone: bool,
    fkJobs: nat,
    follow: bool,
    errors: bool,
    start: Store)

  datatype Event =
    | Start(clone: bool, fkJobs: nat, follow: bool)
    | Crash
    | Fail
    | Fetch
    | AddOk(f: nat)
    | AddDuplicate(f: nat)
    | AddFails(f: nat, applied: bool, deleted: bool)
    | MarkAdded(ok: bool)
    | Comment(ok: bool)
    | EndAdd
    | List(f: nat)
    | EndListing
    | RestoreDrop(f: nat)
    | RestoreAdd(f: nat)
    | RestoreDone
    | Validate(f: nat)
    | MarkValidated(f: nat)
    | EndValidate
    | EnableApply(ok: bool)

  function Init(src: Source): State {
    State(src, Blank, Down, false, 0, false, false, Blank)
  }

  /** Shared short-circuit of both phases: opted in, not done on a previous run,
      and at least one claimed constraint. */
  predicate PhaseRuns(s: State) {
    s.fkJobs > 0 && !s.start.fkDone && s.db.rows != map[]
  }

  function Unadded(rows: map<nat, Row>): set<nat> {
    set f | f in rows && !rows[f].added
  }

  function BeginAdd(s: State): State {
    if PhaseRuns(s) then s.(pc := Adding(Unadded(s.db.rows), Next)) else AfterAdd(s)
  }

  function AfterAdd(s: State): State {
    if s.clone && !s.start.postDataDone then s.(pc := Listing) else BeginValidate(s)
  }

  function BeginValidate(s: State): State {
    if PhaseRuns(s) then s.(pc := Validating({})) else AfterValidate(s)
  }

  function AfterValidate(s: State): State {
    s.(pc := if s.clone && s.follow then Enabling else Returned(true))
  }

  function Claim(src: Source): map<nat, Row> {
    map f | f in src.claimable :: Row(false, false)
  }

  /** Is this constraint ours to build? Only asked when writing the restore list. */
  predicate Claimed(s: State, f: nat) {
    s.fkJobs > 0 && f in s.db.rows
  }

  /** No claimed constraint misses its ADD, or its VALIDATE when it needs one. */
  predicate NoneLeft(src: Source, rows: map<nat, Row>) {
    forall f | f in rows && f in src.claimable ::
      rows[f].added && (src.claimable[f].validated ==> rows[f].validated)
  }

  predicate Enabled(s: State, e: Event) {
    match e
    case Start(clone, fkJobs, follow) =>
      (s.pc.Down? || s.pc.Returned?) && (!clone ==> fkJobs > 0 && !follow)
    case Crash => true
    case Fail => !s.pc.Down? && !s.pc.Returned?
    case Fetch => s.pc.Fetching?
    case AddOk(f) => s.pc.Adding? && s.pc.step.Next? && f in s.pc.todo && f !in s.db.target
    case AddDuplicate(f) => s.pc.Adding? && s.pc.step.Next? && f in s.pc.todo && f in s.db.target
    case AddFails(f, _, _) => s.pc.Adding? && s.pc.step.Next? && f in s.pc.todo
    case MarkAdded(_) => s.pc.Adding? && s.pc.step.Mark?
    case Comment(ok) => s.pc.Adding? && s.pc.step.Remark?
    case EndAdd => s.pc.Adding? && s.pc.step.Next? && (s.pc.todo == {} || s.errors)
    case List(f) => s.pc.Listing? && f in s.src.archive && !Claimed(s, f)
    case EndListing => s.pc.Listing? && forall f | f in s.src.archive :: f in s.db.listed || Claimed(s, f)
    case RestoreDrop(f) => s.pc.Restoring? && f in s.db.listed && f !in s.pc.restored
    case RestoreAdd(f) => s.pc.Restoring? && f in s.db.listed && f !in s.db.target && f in s.src.archive
    case RestoreDone => s.pc.Restoring? && s.pc.restored == s.db.listed
    case Validate(f) =>
      && s.pc.Validating?
      && f in s.db.rows && f in s.src.claimable && f in s.db.target
      && s.src.claimable[f].validated && !s.db.rows[f].validated
    case MarkValidated(f) => s.pc.Validating? && f in s.pc.verified && f in s.db.rows
    case EndValidate => s.pc.Validating?
    case EnableApply(_) => s.pc.Enabling?
  }

  function Added(s: State, f: nat): State
    requires s.pc.Adding?
  {
    s.(db := s.db.(target := s.db.target[f := Built(false, false)]), pc := s.pc.(step := Mark(f)))
  }

  /** A failed ADD hands the constraint back to a post-data restore still to
      come, and is an error otherwise. */
  function AddFailed(s: State, f: nat, applied: bool, deleted: bool): State
    requires s.pc.Adding?
  {
    var db := if applied && f !in s.db.target then s.db.(target := s.db.target[f := Built(false, false)]) else s.db;
    var t := s.(db := db, pc := s.pc.(todo := s.pc.todo - {f}));
    if s.clone && !s.start.postDataDone && deleted then
      t.(db := db.(rows := db.rows - {f}, unclaimed := db.unclaimed + {f}))
    else
      t.(errors := true)
  }

  function Marked(s: State, ok: bool): State
    requires s.pc.Adding? && s.pc.step.Mark?
  {
    var f := s.pc.step.f;
    var todo := s.pc.todo - {f};
    if ok && f in s.db.rows then
      s.(db := s.db.(rows := s.db.rows[f := s.db.rows[f].(added := true)]), pc := Adding(todo, Remark(f)))
    else
      s.(pc := Adding(todo, Next), errors := true)
  }

  function Commented(s: State, ok: bool): State
    requires s.pc.Adding? && s.pc.step.Remark?
  {
    var f := s.pc.step.f;
    var t := s.(pc := s.pc.(step := Next));
    if f !in s.src.claimable || f !in s.db.target || !s.src.claimable[f].comment then t
    else if ok then t.(db := s.db.(target := s.db.target[f := s.db.target[f].(comment := true)]))
    else t.(errors := true)
  }

  function Restored(s: State, f: nat): State
    requires s.pc.Restoring? && f in s.src.archive
  {
    var fk := s.src.archive[f];
    s.(db := s.db.(target := s.db.target[f := Built(fk.validated, fk.comment)]),
       pc := Restoring(s.pc.restored + {f}))
  }

  function Fire(s: State, e: Event): State
    requires Enabled(s, e)
  {
    match e
    case Start(clone, fkJobs, follow) => State(s.src, s.db, Fetching, clone, fkJobs, follow, false, s.db)
    case Crash => s.(pc := Down)
    case Fail => s.(pc := Returned(false))
    case Fetch =>
      BeginAdd(if s.fkJobs > 0 && !s.db.fetched
               then s.(db := s.db.(fetched := true, rows := Claim(s.src))) else s)
    case AddOk(f) => Added(s, f)
    case AddDuplicate(f) => s.(pc := s.pc.(step := Mark(f)))
    case AddFails(f, applied, deleted) => AddFailed(s, f, applied, deleted)
    case MarkAdded(ok) => Marked(s, ok)
    case Comment(ok) => Commented(s, ok)
    case EndAdd => if s.errors then s.(pc := Returned(false)) else AfterAdd(s)
    case List(f) => s.(db := s.db.(listed := s.db.listed + {f}))
    case EndListing => s.(pc := Restoring({}))
    case RestoreDrop(f) => s.(db := s.db.(target := s.db.target - {f}))
    case RestoreAdd(f) => Restored(s, f)
    case RestoreDone => BeginValidate(s.(db := s.db.(postDataDone := true)))
    case Validate(f) =>
      s.(db := s.db.(target := s.db.target[f := s.db.target[f].(valid := true)]),
         pc := Validating(s.pc.verified + {f}))
    case MarkValidated(f) => s.(db := s.db.(rows := s.db.rows[f := s.db.rows[f].(validated := true)]))
    case EndValidate =>
      if NoneLeft(s.src, s.db.rows) then AfterValidate(s.(db := s.db.(fkDone := true)))
      else s.(pc := Returned(false))
    case EnableApply(ok) => s.(db := s.db.(apply := true), pc := Returned(ok))
  }

  predicate AddEvent(e: Event) {
    e.AddOk? || e.AddDuplicate? || e.AddFails? || e.MarkAdded? || e.Comment? || e.EndAdd?
  }

  predicate RestoreEvent(e: Event) {
    e.List? || e.EndListing? || e.RestoreDrop? || e.RestoreAdd? || e.RestoreDone?
  }

  predicate ValidateEvent(e: Event) {
    e.Validate? || e.MarkValidated? || e.EndValidate?
  }

  ghost predicate CanRun(s: State, events: seq<Event>)
    decreases |events|
  {
    events == [] || (Enabled(s, events[0]) && CanRun(Fire(s, events[0]), events[1..]))
  }

  function Run(s: State, events: seq<Event>): State
    requires CanRun(s, events)
    decreases |events|
  {
    if events == [] then s else Run(Fire(s, events[0]), events[1..])
  }

  lemma {:induction false} RunExtend(s: State, events: seq<Event>, e: Event)
    requires CanRun(s, events) && Enabled(Run(s, events), e)
    ensures CanRun(s, events + [e])
    ensures Run(s, events + [e]) == Fire(Run(s, events), e)
    decreases |events|
  {
    if events != [] {
      RunExtend(Fire(s, events[0]), events[1..], e);
      assert (events + [e])[1..] == events[1..] + [e];
    }
  }

  /* ---- the invariant: what a store always satisfies ---- */

  function Definition(src: Source, f: nat): Fk {
    if f in src.claimable then src.claimable[f]
    else if f in src.archive then src.archive[f]
    else Fk(0, false, false)
  }

  /** On the target, or about to be rebuilt there by a post-data restore. */
  predicate Secured(db: Store, f: nat) {
    f in db.target || (f in db.listed && !db.postDataDone)
  }

  ghost predicate ClaimsInv(src: Source, db: Store) {
    && (forall f | f in db.rows :: f in src.claimable && f !in db.unclaimed)
    && (forall f | f in db.unclaimed :: f in src.claimable)
    && (db.fetched ==> forall f | f in src.claimable :: f in db.rows || f in db.unclaimed)
    && (!db.fetched ==> db.rows == map[] && db.unclaimed == {})
    && (forall f | f in db.listed :: f in src.archive)
  }

  ghost predicate RowsInv(src: Source, db: Store) {
    forall f | f in db.rows ::
      && (db.rows[f].validated ==> db.rows[f].added)
      && (db.rows[f].added ==> Secured(db, f))
      && (db.rows[f].validated ==>
            Definition(src, f).validated && (f in db.target ==> db.target[f].valid))
  }

  /** Never more than the source has: what is NOT VALID there stays NOT VALID. */
  ghost predicate TargetInv(src: Source, db: Store) {
    && (forall f | f in db.target ::
          && (db.target[f].valid ==> Definition(src, f).validated)
          && (db.target[f].comment ==> Definition(src, f).comment))
    && (db.postDataDone ==> forall f | f in src.archive :: f in db.target)
    && (db.fkDone ==> db.fetched && NoneLeft(src, db.rows))
    && (db.apply ==> db.postDataDone)
  }

  ghost predicate StoreInv(src: Source, db: Store) {
    ClaimsInv(src, db) && RowsInv(src, db) && TargetInv(src, db)
  }

  /* ---- what the running command knows ---- */

  predicate Live(s: State) {
    !s.pc.Down? && s.pc != Returned(false)
  }

  /** Past the ADD phase. */
  predicate AllAdded(s: State) {
    s.fkJobs > 0 ==> s.db.fetched && forall f | f in s.db.rows :: s.db.rows[f].added
  }

  ghost predicate PcInv(s: State) {
    match s.pc
    case Fetching => s.db == s.start && !s.errors
    case Adding(todo, step) =>
      && s.fkJobs > 0 && !s.start.fkDone && s.db.fetched
      && (forall f | f in todo :: f in s.db.rows && !s.db.rows[f].added)
      && (!s.errors ==> forall f | f in s.db.rows && !s.db.rows[f].added :: f in todo)
      && (step.Mark? ==> step.f in todo && step.f in s.db.target)
      && (step.Remark? ==> step.f in s.db.rows && s.db.rows[step.f].added && step.f in s.db.target)
      && (s.clone && !s.start.postDataDone ==> !s.db.postDataDone)
    case Listing =>
      AllAdded(s) && s.clone && !s.start.postDataDone && !s.db.postDataDone && !s.errors
    case Restoring(restored) =>
      && AllAdded(s) && s.clone && !s.start.postDataDone && !s.db.postDataDone && !s.errors
      && (forall f | f in s.src.archive :: f in s.db.listed || Claimed(s, f))
      && (forall f | f in restored :: f in s.db.listed && f in s.db.target && AsDumped(s, f))
    case Validating(verified) =>
      && AllAdded(s) && s.fkJobs > 0 && !s.start.fkDone && !s.errors
      && (s.clone ==> s.db.postDataDone)
      && (forall f | f in verified ::
            f in s.db.rows && f in s.db.target && s.db.target[f].valid && Definition(s.src, f).validated)
    case Enabling => s.clone && s.follow && Finished(s)
    case Returned(ok) => ok ==> Finished(s)
    case Down => true
  }

  /** The command went through all its steps. */
  predicate Finished(s: State) {
    && AllAdded(s)
    && !s.errors
    && (s.fkJobs > 0 ==> NoneLeft(s.src, s.db.rows))
    && (s.clone ==> s.db.postDataDone)
  }

  predicate AsDumped(s: State, f: nat) {
    f in s.db.target && f in s.src.archive
    && s.db.target[f] == Built(s.src.archive[f].validated, s.src.archive[f].comment)
  }

  ghost predicate Inv(s: State) {
    && Agree(s.src)
    && StoreInv(s.src, s.db)
    && PcInv(s)
    && (s.start.fkDone ==> s.db.fkDone)
    && (s.start.postDataDone ==> s.db.postDataDone)
  }

  /* ---- each change of the store keeps its invariant ---- */

  lemma StoreAdds(src: Source, db: Store, f: nat)
    requires StoreInv(src, db) && f !in db.target && f in db.rows && !db.rows[f].added
    ensures StoreInv(src, db.(target := db.target[f := Built(false, false)]))
  {
  }

  lemma StoreUnclaims(src: Source, db: Store, f: nat)
    requires StoreInv(src, db) && f in db.rows
    ensures StoreInv(src, db.(rows := db.rows - {f}, unclaimed := db.unclaimed + {f}))
  {
  }

  lemma StoreMarksAdded(src: Source, db: Store, f: nat)
    requires StoreInv(src, db) && f in db.rows && f in db.target
    ensures StoreInv(src, db.(rows := db.rows[f := db.rows[f].(added := true)]))
  {
  }

  lemma StoreComments(src: Source, db: Store, f: nat)
    requires StoreInv(src, db) && f in db.target && Definition(src, f).comment
    ensures StoreInv(src, db.(target := db.target[f := db.target[f].(comment := true)]))
  {
  }

  lemma StoreDrops(src: Source, db: Store, f: nat)
    requires StoreInv(src, db) && f in db.listed && !db.postDataDone
    ensures StoreInv(src, db.(target := db.target - {f}))
  {
  }

  lemma StoreRestores(src: Source, db: Store, f: nat)
    requires Agree(src) && StoreInv(src, db) && f in src.archive
    ensures StoreInv(src, db.(target := db.target[f := Built(src.archive[f].validated, src.archive[f].comment)]))
  {
  }

  lemma StoreValidates(src: Source, db: Store, f: nat)
    requires StoreInv(src, db) && f in db.target && Definition(src, f).validated
    ensures StoreInv(src, db.(target := db.target[f := db.target[f].(valid := true)]))
  {
  }

  lemma StoreMarksValidated(src: Source, db: Store, f: nat)
    requires StoreInv(src, db) && f in db.rows && db.rows[f].added
    requires f in db.target && db.target[f].valid && Definition(src, f).validated
    ensures StoreInv(src, db.(rows := db.rows[f := db.rows[f].(validated := true)]))
  {
  }

  lemma PostDataComplete(s: State)
    requires Inv(s) && s.pc.Restoring? && s.pc.restored == s.db.listed
    ensures StoreInv(s.src, s.db.(postDataDone := true))
  {
    forall f | f in s.src.archive
      ensures f in s.db.target
    {
      assert f in s.db.listed || Claimed(s, f);
    }
  }

  lemma AfterValidateInv(s: State)
    requires Inv(s.(pc := Down)) && Finished(s)
    ensures Inv(AfterValidate(s)) && AfterValidate(s).db == s.db
  {
  }

  lemma BeginValidateInv(s: State)
    requires Inv(s.(pc := Down)) && AllAdded(s) && !s.errors
    requires s.clone ==> s.db.postDataDone
    ensures Inv(BeginValidate(s)) && BeginValidate(s).db == s.db
  {
  }

  lemma AfterAddInv(s: State)
    requires Inv(s.(pc := Down)) && AllAdded(s) && !s.errors
    requires s.db.postDataDone == s.start.postDataDone || !s.clone
    ensures Inv(AfterAdd(s)) && AfterAdd(s).db == s.db
  {
  }

  lemma FetchStep(s: State)
    requires Inv(s) && s.pc.Fetching?
    ensures Inv(Fire(s, Fetch))
  {
    var t := if s.fkJobs > 0 && !s.db.fetched
             then s.(db := s.db.(fetched := true, rows := Claim(s.src))) else s;
    assert StoreInv(s.src, t.db);
    if !PhaseRuns(t) {
      AfterAddInv(t);
    }
  }

  lemma AddStepInv(s: State, e: Event)
    requires Inv(s) && Enabled(s, e) && (e.AddOk? || e.AddDuplicate?)
    ensures Inv(Fire(s, e))
  {
    if e.AddOk? {
      StoreAdds(s.src, s.db, e.f);
    }
  }

  lemma MarkStepInv(s: State, ok: bool)
    requires Inv(s) && Enabled(s, MarkAdded(ok))
    ensures Inv(Fire(s, MarkAdded(ok)))
  {
    StoreMarksAdded(s.src, s.db, s.pc.step.f);
  }

  lemma CommentStepInv(s: State, ok: bool)
    requires Inv(s) && Enabled(s, Comment(ok))
    ensures Inv(Fire(s, Comment(ok)))
  {
    if Definition(s.src, s.pc.step.f).comment {
      StoreComments(s.src, s.db, s.pc.step.f);
    }
  }

  lemma AddFailsInv(s: State, f: nat, applied: bool, deleted: bool)
    requires Inv(s) && Enabled(s, AddFails(f, applied, deleted))
    ensures Inv(Fire(s, AddFails(f, applied, deleted)))
  {
    var db := s.db;
    if applied && f !in s.db.target {
      StoreAdds(s.src, s.db, f);
      db := s.db.(target := s.db.target[f := Built(false, false)]);
    }
    StoreUnclaims(s.src, db, f);
  }

  lemma AddPhaseStep(s: State, e: Event)
    requires Inv(s) && Enabled(s, e) && AddEvent(e)
    ensures Inv(Fire(s, e))
  {
    match e {
      case AddOk(_) => AddStepInv(s, e);
      case AddDuplicate(_) => AddStepInv(s, e);
      case AddFails(f, applied, deleted) => AddFailsInv(s, f, applied, deleted);
      case MarkAdded(ok) => MarkStepInv(s, ok);
      case Comment(ok) => CommentStepInv(s, ok);
      case EndAdd =>
        if !s.errors {
          AfterAddInv(s);
        }
    }
  }

  lemma RestoreStep(s: State, e: Event)
    requires Inv(s) && Enabled(s, e) && RestoreEvent(e)
    ensures Inv(Fire(s, e))
  {
    match e {
      case List(f) =>
      case EndListing =>
      case RestoreDrop(f) => StoreDrops(s.src, s.db, f);
      case RestoreAdd(f) => StoreRestores(s.src, s.db, f);
      case RestoreDone =>
        PostDataComplete(s);
        BeginValidateInv(s.(db := s.db.(postDataDone := true)));
    }
  }

  lemma ValidateStep(s: State, e: Event)
    requires Inv(s) && Enabled(s, e) && ValidateEvent(e)
    ensures Inv(Fire(s, e))
  {
    match e {
      case Validate(f) => StoreValidates(s.src, s.db, f);
      case MarkValidated(f) => StoreMarksValidated(s.src, s.db, f);
      case EndValidate => EndValidateStep(s);
    }
  }

  lemma EndValidateStep(s: State)
    requires Inv(s) && s.pc.Validating?
    ensures Inv(Fire(s, EndValidate))
  {
    if NoneLeft(s.src, s.db.rows) {
      AfterValidateInv(s.(db := s.db.(fkDone := true)));
    }
  }

  lemma ControlStep(s: State, e: Event)
    requires Inv(s) && Enabled(s, e) && (e.Start? || e.Crash? || e.Fail? || e.EnableApply?)
    ensures Inv(Fire(s, e))
  {
  }

  /** The invariant is kept by every event: each step of a command, a crash
      between any two, and the start of the next command. */
  lemma InvStep(s: State, e: Event)
    requires Inv(s) && Enabled(s, e)
    ensures Inv(Fire(s, e))
  {
    if AddEvent(e) {
      AddPhaseStep(s, e);
    } else if RestoreEvent(e) {
      RestoreStep(s, e);
    } else if ValidateEvent(e) {
      ValidateStep(s, e);
    } else if e.Fetch? {
      FetchStep(s);
    } else {
      ControlStep(s, e);
    }
  }

  /** Two states of one command. */
  predicate SameCommand(s: State, t: State) {
    && s.src == t.src && s.start == t.start
    && s.clone == t.clone && s.fkJobs == t.fkJobs && s.follow == t.follow
  }

  lemma SourceFixed(s: State, e: Event)
    requires Enabled(s, e)
    ensures Fire(s, e).src == s.src
    ensures !e.Start? ==> SameCommand(s, Fire(s, e))
  {
    if AddEvent(e) {
      AddFixed(s, e);
    } else if RestoreEvent(e) {
      RestoreFixed(s, e);
    } else {
      OthersFixed(s, e);
    }
  }

  lemma AddFixed(s: State, e: Event)
    requires Enabled(s, e) && AddEvent(e)
    ensures SameCommand(s, Fire(s, e))
  {
  }

  lemma RestoreFixed(s: State, e: Event)
    requires Enabled(s, e) && RestoreEvent(e)
    ensures SameCommand(s, Fire(s, e))
  {
  }

  lemma OthersFixed(s: State, e: Event)
    requires Enabled(s, e) && !AddEvent(e) && !RestoreEvent(e)
    ensures Fire(s, e).src == s.src
    ensures !e.Start? ==> SameCommand(s, Fire(s, e))
  {
  }

  lemma {:induction false} RunInv(s: State, events: seq<Event>)
    requires Inv(s) && CanRun(s, events)
    ensures Inv(Run(s, events)) && Run(s, events).src == s.src
    decreases |events|
  {
    if events != [] {
      var t := Fire(s, events[0]);
      InvStep(s, events[0]);
      SourceFixed(s, events[0]);
      RunInv(t, events[1..]);
    }
  }
}
