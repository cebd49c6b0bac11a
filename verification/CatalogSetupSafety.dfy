/** What holds over any sequence of registrations, by any commands, whether they
    succeed or fail half-way. */
module CatalogSetupSafety {
  import opened FilterIndex
  import opened CatalogSetup

  /** A command registers, then may fetch; catalog_update_setup comes after. */
  datatype Step =
    | Call(specs: Specs, env: Env, fetches: bool, tables: bool, split: bool)
    | Update(target: Option<string>, bytes: nat, parts: nat)

  function Apply(d: Stored, step: Step): Stored {
    match step
    case Call(s, env, fetches, tables, split) =>
      var out := Register(d, s, env);
      // filter-agnostic commands have no use for the tables
      if out.ok && fetches && !s.skipFilter then Fetch(out.stored, out.specs.filters, tables, split) else out.stored
    case Update(target, bytes, parts) =>
      if d.setup.None? then d
      else d.(setup := Some(d.setup.value.(target := target, bytes := bytes, parts := parts)))
  }

  function ApplyAll(d: Stored, steps: seq<Step>): Stored
    decreases |steps|
  {
    if steps == [] then d else ApplyAll(Apply(d, steps[0]), steps[1..])
  }

  predicate Unmarked(steps: seq<Step>) {
    forall i | 0 <= i < |steps| && steps[i].Call? :: !MarkedNames(steps[i].specs.filters)
  }

  predicate StoredUnmarked(d: Stored) {
    d.setup.Some? && d.setup.value.filters.Some? ==> !MarkedNames(d.setup.value.filters.value)
  }

  /** No owner yet, an owner without filters, one fixed type of filters. */
  predicate Climbs(a: Option<Filters>, b: Option<Filters>) {
    match a
    case None => true
    case Some(f) => b.Some? && (!f.kind.NoFilter? ==> b.value.kind == f.kind)
  }

  predicate WriteOnce(a: Option<Setup>, b: Option<Setup>) {
    a.Some? ==>
      && b.Some?
      && b.value.source == a.value.source
      && (!IsEmpty(a.value.snapshot) ==> b.value.snapshot == a.value.snapshot)
  }

  lemma ApplyStep(d: Stored, step: Step)
    ensures WriteOnce(d.setup, Apply(d, step).setup)
  {
    if step.Call? && d.setup.Some? {
      FiltersKeepTheRest(AfterSnapshot(d, step.specs), step.specs, step.env);
    }
  }

  /** Registering the filters touches nothing else of the setup. */
  lemma FiltersKeepTheRest(d: Stored, s: Specs, env: Env)
    requires d.setup.Some?
    ensures var e := RegisterFilters(d, s, env).stored;
            e.setup.Some? && e.setup.value.(filters := None) == d.setup.value.(filters := None)
  {
  }

  /** The source, and a snapshot once there is one, are never overwritten. */
  lemma {:induction false} SourceAndSnapshotWriteOnce(d: Stored, steps: seq<Step>)
    ensures WriteOnce(d.setup, ApplyAll(d, steps).setup)
    decreases |steps|
  {
    if steps != [] {
      ApplyStep(d, steps[0]);
      SourceAndSnapshotWriteOnce(Apply(d, steps[0]), steps[1..]);
    }
  }

  lemma ClimbStep(d: Stored, step: Step)
    requires StoredUnmarked(d) && (step.Call? ==> !MarkedNames(step.specs.filters))
    ensures StoredUnmarked(Apply(d, step))
    ensures d.setup.Some? ==>
              Apply(d, step).setup.Some? && Climbs(d.setup.value.filters, Apply(d, step).setup.value.filters)
  {
    if step.Call? && d.setup.Some? {
      FiltersClimb(AfterSnapshot(d, step.specs), step.specs, step.env);
    }
  }

  lemma FiltersClimb(d: Stored, s: Specs, env: Env)
    requires d.setup.Some? && StoredUnmarked(d) && !MarkedNames(s.filters)
    ensures var e := RegisterFilters(d, s, env).stored;
            e.setup.Some? && StoredUnmarked(e) && Climbs(d.setup.value.filters, e.setup.value.filters)
  {
  }

  /** The stored type only climbs: NULL, then none, then one real type that no
      later command, whatever its filters, replaces by another. */
  lemma {:induction false} FilterTypeClimbs(d: Stored, steps: seq<Step>)
    requires StoredUnmarked(d) && Unmarked(steps)
    ensures StoredUnmarked(ApplyAll(d, steps))
    ensures d.setup.Some? ==>
              && ApplyAll(d, steps).setup.Some?
              && Climbs(d.setup.value.filters, ApplyAll(d, steps).setup.value.filters)
    decreases |steps|
  {
    if steps != [] {
      ClimbStep(d, steps[0]);
      assert forall i | 0 <= i < |steps[1..]| :: steps[1..][i] == steps[i + 1];
      FilterTypeClimbs(Apply(d, steps[0]), steps[1..]);
    }
  }

  /** The checks before the comparison of the filters all pass. */
  predicate ReachesFilters(d: Stored, s: Specs, env: Env) {
    && d.setup.Some?
    && UriChecks(d.setup.value, s) && SnapshotChecks(d.setup.value, s)
    && (ClaimsSnapshot(d.setup.value, s) ==> env.snapshot)
    && PartsCheck(d.setup.value, d.partsFetched, s)
  }

  /** Without the assumption on names: one registration replaces a real type by
      another exactly when a stored name holds the marker text, and the command
      has filters of another type where nothing holds it. */
  lemma TypeReplacedExactly(d: Stored, s: Specs, env: Env)
    requires d.setup.Some? && d.setup.value.filters.Some? && !d.setup.value.filters.value.kind.NoFilter?
    ensures var stored := d.setup.value.filters.value;
            var after := Register(d, s, env).stored.setup.value.filters;
            && after.Some?
            && (after.value.kind != stored.kind <==>
                  && ReachesFilters(d, s, env) && !s.skipFilter && env.filter
                  && MarkedNames(stored) && !Mentions(s.filters)
                  && s.filters.kind != stored.kind)
  {
    if ReachesFilters(d, s, env) {
      TypeReplacedByFilters(AfterSnapshot(d, s), s, env);
    }
  }

  lemma TypeReplacedByFilters(d: Stored, s: Specs, env: Env)
    requires d.setup.Some? && d.setup.value.filters.Some? && !d.setup.value.filters.value.kind.NoFilter?
    ensures var stored := d.setup.value.filters.value;
            var e := RegisterFilters(d, s, env).stored;
            && e.setup.Some? && e.setup.value.filters.Some?
            && (e.setup.value.filters.value.kind != stored.kind <==>
                  && !s.skipFilter && env.filter
                  && MarkedNames(stored) && !Mentions(s.filters)
                  && s.filters.kind != stored.kind)
  {
  }

  /** A real type replaced: the owner's filters exclude a table that is called
      like the marker, and a command with other filters takes over. */
  lemma TypeReplaced() returns (d: Stored, s: Specs, env: Env)
    ensures d.setup.Some? && d.setup.value.filters.Some? && d.setup.value.filters.value.kind == Incl
    ensures Register(d, s, env).ok
    ensures var after := Register(d, s, env).stored.setup.value.filters;
            after.Some? && after.value.kind == Excl
  {
    var stored := Filters(Incl, [MARKER], [], []);
    var current := Filters(Excl, [], [], []);
    d := Stored(Some(Setup("src", None, None, 0, 0, Some(stored))), false, None, map[]);
    s := Specs("src", None, "", 0, 0, current, false, true, false, false, false);
    env := Env(true, true, true, true, Both, 0);
    assert MarkerAt(stored.names[0], 0);
    assert Holds(stored.names[0]);
    assert MarkedNames(stored);
    assert AddEntries(map[], current.exclude[..0], Exclude) == map[];
  }

  /* ---- the rows fetched, and the filters stored ---- */

  /** The rows of s_table were fetched under filters of the stored type. */
  predicate RowsAgree(d: Stored) {
    d.rows.Some? ==>
      && d.setup.Some? && d.setup.value.filters.Some?
      && d.rows.value.kind == d.setup.value.filters.value.kind
  }

  /** A command introduces filters over rows that were fetched without any, and
      cannot find out about these, or cannot delete them. */
  predicate KeepsStaleRows(d: Stored, s: Specs, env: Env) {
    && ReachesFilters(d, s, env) && !s.skipFilter
    && d.setup.value.filters.Some? && d.setup.value.filters.value.kind.NoFilter? && !s.filters.kind.NoFilter?
    && d.rows.Some? && env.filter
    && (!env.probe || env.invalidation.Refused?)
  }

  predicate BreaksAgreement(d: Stored, step: Step) {
    step.Call? && KeepsStaleRows(d, step.specs, step.env)
  }

  lemma FiltersAgree(d: Stored, s: Specs, env: Env)
    requires d.setup.Some? && StoredUnmarked(d) && !MarkedNames(s.filters) && RowsAgree(d)
    ensures RowsAgree(RegisterFilters(d, s, env).stored) <==>
            !(&& !s.skipFilter
              && d.setup.value.filters.Some? && d.setup.value.filters.value.kind.NoFilter?
              && !s.filters.kind.NoFilter? && d.rows.Some? && env.filter
              && (!env.probe || env.invalidation.Refused?))
  {
  }

  lemma RowsGoOrStay(d: Stored, s: Specs, env: Env)
    requires d.setup.Some?
    ensures RegisterFilters(d, s, env).stored.rows.Some? ==> RegisterFilters(d, s, env).stored.rows == d.rows
  {
  }

  /** A command that succeeds goes on with filters of the stored type. */
  lemma GoesOnAgreed(d: Stored, s: Specs, env: Env)
    requires d.setup.Some? && StoredUnmarked(d) && !MarkedNames(s.filters)
    requires RegisterFilters(d, s, env).ok && !s.skipFilter
    ensures var out := RegisterFilters(d, s, env);
            && out.stored.setup.Some? && out.stored.setup.value.filters.Some?
            && out.specs.filters.kind == out.stored.setup.value.filters.value.kind
  {
  }

  /** One step breaks the agreement exactly in this way. */
  lemma AgreementStep(d: Stored, step: Step)
    requires StoredUnmarked(d) && RowsAgree(d)
    requires step.Call? ==> !MarkedNames(step.specs.filters)
    ensures RowsAgree(Apply(d, step)) <==> !BreaksAgreement(d, step)
  {
    if step.Call? && d.setup.Some? && ReachesFilters(d, step.specs, step.env) {
      FiltersAgree(AfterSnapshot(d, step.specs), step.specs, step.env);
      RowsGoOrStay(AfterSnapshot(d, step.specs), step.specs, step.env);
      if RegisterFilters(AfterSnapshot(d, step.specs), step.specs, step.env).ok && !step.specs.skipFilter {
        GoesOnAgreed(AfterSnapshot(d, step.specs), step.specs, step.env);
      }
    }
  }

  predicate EverBreaks(d: Stored, steps: seq<Step>)
    decreases |steps|
  {
    steps != [] && (BreaksAgreement(d, steps[0]) || EverBreaks(Apply(d, steps[0]), steps[1..]))
  }

  /** Rows that were fetched without filters, under a stored type of filters. */
  predicate Stale(d: Stored) {
    && d.rows.Some? && d.rows.value.kind.NoFilter?
    && d.setup.Some? && d.setup.value.filters.Some? && !d.setup.value.filters.value.kind.NoFilter?
  }

  lemma BreakIsStale(d: Stored, step: Step)
    requires StoredUnmarked(d) && RowsAgree(d) && BreaksAgreement(d, step)
    requires step.Call? ==> !MarkedNames(step.specs.filters)
    ensures Stale(Apply(d, step))
  {
  }

  lemma StaleFilters(d: Stored, s: Specs, env: Env)
    requires StoredUnmarked(d) && !MarkedNames(s.filters) && Stale(d)
    ensures Stale(RegisterFilters(d, s, env).stored)
  {
  }

  /** Stale rows stay: no later command, whatever its filters, deletes them. */
  lemma StaleStep(d: Stored, step: Step)
    requires StoredUnmarked(d) && Stale(d)
    requires step.Call? ==> !MarkedNames(step.specs.filters)
    ensures Stale(Apply(d, step))
  {
    if step.Call? {
      StaleFilters(AfterSnapshot(d, step.specs), step.specs, step.env);
    }
  }

  lemma {:induction false} StaleForever(d: Stored, steps: seq<Step>)
    requires StoredUnmarked(d) && Unmarked(steps) && Stale(d)
    ensures Stale(ApplyAll(d, steps))
    decreases |steps|
  {
    if steps != [] {
      ClimbStep(d, steps[0]);
      StaleStep(d, steps[0]);
      assert forall i | 0 <= i < |steps[1..]| :: steps[1..][i] == steps[i + 1];
      StaleForever(Apply(d, steps[0]), steps[1..]);
    }
  }

  /** Over any sequence of commands: the rows agree with the stored filters, up to
      the type, or else they are stale, which they are if and only if some command
      introduced filters over them and could not look for them, or delete them. */
  lemma {:induction false} StaleExactly(d: Stored, steps: seq<Step>)
    requires StoredUnmarked(d) && Unmarked(steps) && RowsAgree(d)
    ensures Stale(ApplyAll(d, steps)) <==> EverBreaks(d, steps)
    ensures RowsAgree(ApplyAll(d, steps)) <==> !EverBreaks(d, steps)
    decreases |steps|
  {
    if steps != [] {
      var e := Apply(d, steps[0]);
      ClimbStep(d, steps[0]);
      AgreementStep(d, steps[0]);
      assert forall i | 0 <= i < |steps[1..]| :: steps[1..][i] == steps[i + 1];
      if BreaksAgreement(d, steps[0]) {
        BreakIsStale(d, steps[0]);
        StaleForever(e, steps[1..]);
      } else {
        StaleExactly(e, steps[1..]);
      }
    }
  }

  /** The new filters are stored before the stale rows are looked for and
      deleted. Whatever became of that, doing it again is accepted; the rows are
      still there exactly when the first call could not look, or not delete. */
  lemma RetryKeepsStaleRowsExactly(d: Stored, s: Specs, env: Env, again: Env)
    requires ReachesFilters(d, s, env) && !s.skipFilter && d.rows.Some? && env.filter
    requires d.setup.value.filters.Some? && Mentions(d.setup.value.filters.value) && !Mentions(s.filters)
    requires Smooth(again, s)
    ensures var first := Register(d, s, env);
            var second := Register(first.stored, s, again);
            && first.stored.setup.value.filters == Some(s.filters)
            && second.ok
            && (second.stored.rows.Some? <==> !env.probe || env.invalidation.Refused?)
  {
    IntroducesExactly(d, s, env);
    KeepsAgain(Register(d, s, env).stored, s, again);
  }

  lemma IntroducesExactly(d: Stored, s: Specs, env: Env)
    requires ReachesFilters(d, s, env) && !s.skipFilter && d.rows.Some? && env.filter
    requires d.setup.value.filters.Some? && Mentions(d.setup.value.filters.value) && !Mentions(s.filters)
    ensures var e := Register(d, s, env).stored;
            && e.setup.Some?
            && e.setup.value.(snapshot := None) == d.setup.value.(filters := Some(s.filters), snapshot := None)
            && e.setup.value.snapshot == AfterSnapshot(d, s).setup.value.snapshot
            && (e.partsFetched ==> d.partsFetched)
            && (e.rows.Some? <==> !env.probe || env.invalidation.Refused?)
  {
  }

  lemma KeepsAgain(e: Stored, s: Specs, again: Env)
    requires e.setup.Some? && e.setup.value.filters == Some(s.filters) && Smooth(again, s)
    requires UriChecks(e.setup.value, s) && SnapshotChecks(e.setup.value, s)
    requires PartsCheck(e.setup.value, e.partsFetched, s)
    ensures Register(e, s, again).ok && Register(e, s, again).stored.rows == e.rows
  {
  }

  /** One such call: a clone without filters fetched, one with filters follows,
      its deletion fails, and a retry takes over the rows. */
  lemma StaleRows() returns (d: Stored, step: Step, retry: Step)
    ensures step.Call? && retry.Call? && RowsAgree(d) && KeepsStaleRows(d, step.specs, step.env)
    ensures !Register(d, step.specs, step.env).ok
    ensures Register(Apply(d, step), retry.specs, retry.env).ok
    ensures Stale(ApplyAll(d, [step, retry]))
  {
    var none := Filters(NoFilter, [], [], []);
    d := Stored(Some(Setup("src", None, None, 0, 0, Some(none))), false, Some(none), map[]);
    var s := Specs("src", None, "", 0, 0, Filters(Excl, [], [], []), false, true, false, false, false);
    step := Call(s, Env(true, true, true, true, Refused, 0), true, true, false);
    retry := Call(s, Env(true, true, true, true, Both, 0), true, true, false);
    assert AddEntries(map[], s.filters.exclude[..0], Exclude) == map[];
    StaleExactly(d, [step, retry]);
  }
}
