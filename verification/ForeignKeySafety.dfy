/** What a successful command means for the FOREIGN KEYs of the target, and
    exactly when a resumed command falls short. */
module ForeignKeySafety {
  import opened ForeignKeys

  /** A post-data restore of this command rebuilds what the list file holds. */
  predicate WillRestore(s: State) {
    s.clone && !s.start.postDataDone
  }

  predicate AddedBefore(start: Store, f: nat) {
    f in start.rows && start.rows[f].added
  }

  /** Same presence and same comment on the target. */
  predicate SameComment(a: Store, b: Store, f: nat) {
    && (f in a.target <==> f in b.target)
    && (f in a.target && f in b.target ==> a.target[f].comment == b.target[f].comment)
  }

  predicate SameBuilt(a: Store, b: Store, f: nat) {
    && (f in a.target <==> f in b.target)
    && (f in a.target && f in b.target ==> a.target[f] == b.target[f])
  }

  predicate PastRestore(s: State) {
    s.pc.Validating? || s.pc.Enabling? || s.pc == Returned(true)
  }

  /* ---- the command's history: the store against what it was at the start ---- */

  ghost predicate ListHist(s: State) {
    && (forall f | f in s.start.listed :: f in s.db.listed)
    && (forall f | f in s.db.listed && f !in s.start.listed :: WillRestore(s) && !Claimed(s, f))
    && (WillRestore(s) && PastRestore(s) ==>
          && (forall f | f in s.db.listed :: AsDumped(s, f))
          && (forall f | f in s.src.archive :: f in s.db.listed || Claimed(s, f)))
  }

  ghost predicate PlainHist(s: State) {
    s.fkJobs == 0 ==>
      && s.db.rows == s.start.rows
      && (forall f | f !in s.db.listed || !WillRestore(s) :: SameBuilt(s.start, s.db, f))
  }

  /** A row that this command added has the comment of its constraint. */
  ghost predicate CommentsCarried(s: State) {
    forall f | f in s.db.rows && s.db.rows[f].added && !AddedBefore(s.start, f)
               && !s.errors && !(s.pc.Adding? && s.pc.step == Remark(f)) && f in s.db.target ::
      s.db.target[f].comment == Definition(s.src, f).comment
  }

  ghost predicate CommentHist(s: State) {
    s.fkJobs > 0 ==>
      && (forall f | AddedBefore(s.start, f) :: f in s.db.rows && s.db.rows[f].added)
      && (forall f | AddedBefore(s.start, f) && !(WillRestore(s) && f in s.start.listed) ::
            SameComment(s.start, s.db, f))
      && (s.pc.Adding? && s.pc.step.Remark? ==> !AddedBefore(s.start, s.pc.step.f))
      && CommentsCarried(s)
  }

  /** Nothing is handed back but to a post-data restore still to come. */
  ghost predicate UnclaimHist(s: State) {
    !WillRestore(s) ==> s.db.unclaimed == s.start.unclaimed
  }

  ghost predicate Hist(s: State) {
    && UnclaimHist(s)
    && (Live(s) ==> ListHist(s) && PlainHist(s) && CommentHist(s))
  }

  lemma UnclaimHistStep(s: State, e: Event)
    requires UnclaimHist(s) && Enabled(s, e)
    ensures UnclaimHist(Fire(s, e))
  {
    if AddEvent(e) {
      UnclaimHistAdd(s, e);
    }
  }

  lemma UnclaimHistAdd(s: State, e: Event)
    requires UnclaimHist(s) && Enabled(s, e) && AddEvent(e)
    ensures UnclaimHist(Fire(s, e))
  {
  }

  lemma ListHistStep(s: State, e: Event)
    requires Inv(s) && ListHist(s) && Live(s) && Enabled(s, e)
    ensures Live(Fire(s, e)) ==> ListHist(Fire(s, e))
  {
    if RestoreEvent(e) {
      ListHistRestore(s, e);
    } else if AddEvent(e) {
      ListHistAdd(s, e);
    } else if ValidateEvent(e) {
      ListHistValidate(s, e);
    } else {
      ListHistOther(s, e);
    }
  }

  lemma ListHistOther(s: State, e: Event)
    requires PcInv(s) && ListHist(s) && Live(s) && Enabled(s, e)
    requires !RestoreEvent(e) && !AddEvent(e) && !ValidateEvent(e)
    ensures Live(Fire(s, e)) ==> ListHist(Fire(s, e))
  {
  }

  lemma ListHistRestore(s: State, e: Event)
    requires Inv(s) && ListHist(s) && Enabled(s, e) && RestoreEvent(e)
    ensures ListHist(Fire(s, e))
  {
  }

  lemma ListHistAdd(s: State, e: Event)
    requires ListHist(s) && Enabled(s, e) && AddEvent(e)
    ensures ListHist(Fire(s, e))
  {
    if e.MarkAdded? || e.AddFails? {
      ListHistMark(s, e);
    }
  }

  lemma ListHistMark(s: State, e: Event)
    requires ListHist(s) && Enabled(s, e) && (e.MarkAdded? || e.AddFails?)
    ensures ListHist(Fire(s, e))
  {
  }

  lemma ListHistValidate(s: State, e: Event)
    requires Inv(s) && ListHist(s) && Enabled(s, e) && ValidateEvent(e)
    ensures ListHist(Fire(s, e))
  {
  }

  lemma PlainHistStep(s: State, e: Event)
    requires Inv(s) && ListHist(s) && PlainHist(s) && Live(s) && Enabled(s, e)
    ensures Live(Fire(s, e)) ==> PlainHist(Fire(s, e))
  {
    if RestoreEvent(e) {
      PlainHistRestore(s, e);
    } else if AddEvent(e) || ValidateEvent(e) {
      PlainHistNone(s, e);
    } else if e.Start? {
      StartHist(s, e);
    } else {
      PlainHistOther(s, e);
    }
  }

  lemma PlainHistOther(s: State, e: Event)
    requires PlainHist(s) && Live(s) && Enabled(s, e)
    requires !e.Start? && !RestoreEvent(e) && !AddEvent(e) && !ValidateEvent(e)
    ensures Live(Fire(s, e)) ==> PlainHist(Fire(s, e))
  {
    var t := Fire(s, e);
    assert SameCommand(s, t) && t.db.target == s.db.target && t.db.listed == s.db.listed;
    assert s.fkJobs == 0 ==> t.db.rows == s.db.rows;
    assert forall f | SameBuilt(s.start, s.db, f) :: SameBuilt(t.start, t.db, f);
  }

  lemma PlainHistRestore(s: State, e: Event)
    requires Inv(s) && ListHist(s) && PlainHist(s) && Enabled(s, e) && RestoreEvent(e)
    ensures PlainHist(Fire(s, e))
  {
  }

  /** Without --fk-jobs, neither phase runs. */
  lemma PlainHistNone(s: State, e: Event)
    requires Inv(s) && Enabled(s, e) && (AddEvent(e) || ValidateEvent(e))
    ensures Fire(s, e).fkJobs > 0
  {
  }

  lemma CommentHistStep(s: State, e: Event)
    requires Inv(s) && ListHist(s) && CommentHist(s) && Live(s) && Enabled(s, e)
    ensures Live(Fire(s, e)) ==> CommentHist(Fire(s, e))
  {
    if RestoreEvent(e) {
      CommentHistRestore(s, e);
    } else if AddEvent(e) {
      CommentHistAdd(s, e);
    } else if ValidateEvent(e) {
      CommentHistValidate(s, e);
    } else {
      CommentHistOther(s, e);
    }
  }

  lemma CommentHistOther(s: State, e: Event)
    requires PcInv(s) && ClaimsInv(s.src, s.db) && CommentHist(s) && Live(s) && Enabled(s, e)
    requires !RestoreEvent(e) && !AddEvent(e) && !ValidateEvent(e)
    ensures Live(Fire(s, e)) ==> CommentHist(Fire(s, e))
  {
  }

  lemma CommentHistRestore(s: State, e: Event)
    requires Inv(s) && ListHist(s) && CommentHist(s) && Enabled(s, e) && RestoreEvent(e)
    ensures CommentHist(Fire(s, e))
  {
    if e.RestoreAdd? {
      CommentHistRebuild(s, e.f);
    } else if e.RestoreDrop? {
      CommentHistDrop(s, e.f);
    } else {
      CommentHistSame(s, e);
    }
  }

  lemma CommentHistRebuild(s: State, f: nat)
    requires Agree(s.src) && PcInv(s) && ListHist(s) && CommentHist(s) && Enabled(s, RestoreAdd(f))
    ensures CommentHist(Fire(s, RestoreAdd(f)))
  {
  }

  lemma CommentHistDrop(s: State, f: nat)
    requires PcInv(s) && ListHist(s) && CommentHist(s) && Enabled(s, RestoreDrop(f))
    ensures CommentHist(Fire(s, RestoreDrop(f)))
  {
  }

  lemma CommentHistSame(s: State, e: Event)
    requires CommentHist(s) && Enabled(s, e) && (e.List? || e.EndListing? || e.RestoreDone?)
    ensures CommentHist(Fire(s, e))
  {
    if e.RestoreDone? {
      CommentHistDone(s);
    }
  }

  lemma CommentHistDone(s: State)
    requires CommentHist(s) && Enabled(s, RestoreDone)
    ensures CommentHist(Fire(s, RestoreDone))
  {
    var t := Fire(s, RestoreDone);
    assert t.db == s.db.(postDataDone := true) && SameCommand(s, t) && t.errors == s.errors && !t.pc.Adding?;
  }

  lemma CommentHistAdd(s: State, e: Event)
    requires Inv(s) && ListHist(s) && CommentHist(s) && Enabled(s, e) && AddEvent(e)
    ensures Live(Fire(s, e)) ==> CommentHist(Fire(s, e))
  {
    match e {
      case AddOk(f) => CommentHistBuild(s, e);
      case AddDuplicate(f) => CommentHistBuild(s, e);
      case AddFails(f, _, _) => CommentHistFails(s, e);
      case MarkAdded(ok) => CommentHistMark(s, ok);
      case Comment(ok) => CommentHistComment(s, ok);
      case EndAdd => CommentHistEnd(s);
    }
  }

  lemma CommentHistBuild(s: State, e: Event)
    requires PcInv(s) && CommentHist(s) && Enabled(s, e) && (e.AddOk? || e.AddDuplicate?)
    ensures CommentHist(Fire(s, e))
  {
  }

  lemma CommentHistFails(s: State, e: Event)
    requires PcInv(s) && CommentHist(s) && Enabled(s, e) && e.AddFails?
    ensures CommentHist(Fire(s, e))
  {
  }

  lemma CommentHistMark(s: State, ok: bool)
    requires PcInv(s) && CommentHist(s) && Enabled(s, MarkAdded(ok))
    ensures CommentHist(Fire(s, MarkAdded(ok)))
  {
  }

  lemma CommentHistComment(s: State, ok: bool)
    requires PcInv(s) && TargetInv(s.src, s.db) && ClaimsInv(s.src, s.db)
    requires CommentHist(s) && Enabled(s, Comment(ok))
    ensures CommentHist(Fire(s, Comment(ok)))
  {
    CommentedOnly(s, ok);
    var f, t := s.pc.step.f, Commented(s, ok);
    assert Fire(s, Comment(ok)) == t;
    if s.fkJobs > 0 {
      forall g | g in t.db.rows && t.db.rows[g].added && !AddedBefore(t.start, g) && !t.errors && g in t.db.target
        ensures t.db.target[g].comment == Definition(t.src, g).comment
      {
        assert SameBuilt(s.db, t.db, g) || g == f;
      }
    }
  }

  /** The comment of one constraint is all that changes. */
  lemma CommentedOnly(s: State, ok: bool)
    requires PcInv(s) && TargetInv(s.src, s.db) && ClaimsInv(s.src, s.db) && Enabled(s, Comment(ok))
    ensures var f, t := s.pc.step.f, Commented(s, ok);
            && t == s.(db := s.db.(target := t.db.target), pc := s.pc.(step := Next), errors := t.errors)
            && (s.errors ==> t.errors)
            && (forall g | g != f :: SameBuilt(s.db, t.db, g))
            && f in t.db.target
            && (!t.errors ==> t.db.target[f].comment == Definition(s.src, f).comment)
  {
  }

  lemma CommentHistEnd(s: State)
    requires PcInv(s) && CommentHist(s) && Enabled(s, EndAdd)
    ensures Live(Fire(s, EndAdd)) ==> CommentHist(Fire(s, EndAdd))
  {
  }

  lemma CommentHistValidate(s: State, e: Event)
    requires Inv(s) && CommentHist(s) && Enabled(s, e) && ValidateEvent(e)
    ensures CommentHist(Fire(s, e))
  {
    if e.MarkValidated? {
      CommentHistMarkValidated(s, e);
    } else if e.Validate? {
      CommentHistValid(s, e.f);
    }
  }

  lemma CommentHistValid(s: State, f: nat)
    requires CommentHist(s) && Enabled(s, Validate(f))
    ensures CommentHist(Fire(s, Validate(f)))
  {
    var t := Fire(s, Validate(f));
    assert forall g :: SameComment(s.db, t.db, g);
  }

  lemma CommentHistMarkValidated(s: State, e: Event)
    requires PcInv(s) && CommentHist(s) && Enabled(s, e) && e.MarkValidated?
    ensures CommentHist(Fire(s, e))
  {
  }

  lemma HistStep(s: State, e: Event)
    requires Inv(s) && Hist(s) && Enabled(s, e)
    ensures Hist(Fire(s, e))
  {
    UnclaimHistStep(s, e);
    if Live(s) && !e.Crash? && !e.Fail? {
      if e.Start? {
        StartHist(s, e);
      } else {
        ListHistStep(s, e);
        PlainHistStep(s, e);
        CommentHistStep(s, e);
      }
    } else if e.Start? {
      StartHist(s, e);
    }
  }

  lemma StartHist(s: State, e: Event)
    requires Inv(s) && Enabled(s, e) && e.Start?
    ensures Hist(Fire(s, e))
  {
  }

  lemma {:induction false} RunHist(s: State, events: seq<Event>)
    requires Inv(s) && Hist(s) && CanRun(s, events)
    ensures Inv(Run(s, events)) && Hist(Run(s, events)) && Run(s, events).src == s.src
    decreases |events|
  {
    if events != [] {
      var t := Fire(s, events[0]);
      InvStep(s, events[0]);
      HistStep(s, events[0]);
      SourceFixed(s, events[0]);
      RunHist(t, events[1..]);
    }
  }

  lemma Reachable(src: Source, events: seq<Event>) returns (t: State)
    requires Agree(src) && CanRun(Init(src), events)
    ensures t == Run(Init(src), events) && Inv(t) && Hist(t) && t.src == src
  {
    t := Run(Init(src), events);
    RunHist(Init(src), events);
  }

  /* ---- the results ---- */

  /** The clone returned true, or is about to enable apply. */
  predicate CloneSucceeds(t: State) {
    t.clone && (t.pc.Enabling? || t.pc == Returned(true))
  }

  /** No FOREIGN KEY is lost. Over every sequence of commands, crashes and
      resumes: when a clone succeeds, every constraint of the post-data archive
      is on the target, and with --fk-jobs every claimed one too. The only way
      out is to be handed back to an archive that does not have it. */
  lemma NoFkLost(src: Source, events: seq<Event>)
    requires Agree(src) && CanRun(Init(src), events) && CloneSucceeds(Run(Init(src), events))
    ensures var t := Run(Init(src), events);
            && (forall f | f in src.archive :: f in t.db.target)
            && (t.fkJobs > 0 ==> forall f | f in src.claimable ::
                  f in t.db.target || (f in t.db.unclaimed && f !in src.archive))
  {
    var t := Reachable(src, events);
  }

  /** In every reachable state, crashed or not: nothing is validated, or
      commented, on the target that is not so on the source; and apply has not
      been enabled while a constraint of the archive is missing. */
  lemma NeverMoreThanTheSource(src: Source, events: seq<Event>)
    requires Agree(src) && CanRun(Init(src), events)
    ensures var db := Run(Init(src), events).db;
            && (forall f | f in db.target ::
                  && (db.target[f].valid ==> Definition(src, f).validated)
                  && (db.target[f].comment ==> Definition(src, f).comment))
            && (db.apply ==> forall f | f in src.archive :: f in db.target)
  {
    var t := Reachable(src, events);
  }

  /** On the target, and validated if it is on the source. */
  predicate Right(src: Source, db: Store, f: nat) {
    f in db.target && (Definition(src, f).validated ==> db.target[f].valid)
  }

  /** When a clone succeeds, and in particular when it enables apply, a claimed
      constraint is in place and validated if and only if the command was given
      --fk-jobs, or still had to restore the post-data entry of the constraint,
      or found the constraint right when it started. */
  lemma ClaimedRightExactly(src: Source, events: seq<Event>, f: nat)
    requires Agree(src) && CanRun(Init(src), events) && CloneSucceeds(Run(Init(src), events))
    requires f in Run(Init(src), events).db.rows
    ensures var t := Run(Init(src), events);
            Right(src, t.db, f) <==>
            t.fkJobs > 0 || (f in src.archive && !t.start.postDataDone) || Right(src, t.start, f)
  {
    var t := Reachable(src, events);
    if t.fkJobs > 0 {
      assert t.db.rows[f].added && Secured(t.db, f);
    } else if f in src.archive && !t.start.postDataDone {
      assert AsDumped(t, f);
    } else {
      assert SameBuilt(t.start, t.db, f);
    }
  }

  /** With --fk-jobs, the comment of a claimed constraint is on the target after
      a successful clone if and only if this command added the constraint, or
      rebuilt it from a list file left by an earlier one, or found the comment. */
  lemma CommentExactly(src: Source, events: seq<Event>, f: nat)
    requires Agree(src) && CanRun(Init(src), events) && CloneSucceeds(Run(Init(src), events))
    requires Run(Init(src), events).fkJobs > 0
    requires f in Run(Init(src), events).db.rows && Definition(src, f).comment
    ensures var t := Run(Init(src), events);
            f in t.db.target && t.db.target[f].comment <==>
            || !AddedBefore(t.start, f)
            || (f in t.start.listed && !t.start.postDataDone)
            || (f in t.start.target && t.start.target[f].comment)
  {
    var t := Reachable(src, events);
  }
}
