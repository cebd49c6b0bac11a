/** Registering a command's setup in the source catalog: done again by every
    command and by every worker process, on the same stored row. */
module CatalogSetup {
  import opened Environment
  import opened FilterIndex

  /** The types that a command registers: the complement types exist only while
      the objects that are left out are fetched. */
  datatype FilterType = NoFilter | Incl | Excl | ExclIndex

  /** The filters of a command; serialised to JSON, they are equal as text if and
      only if they are equal. */
  datatype Filters = Filters(kind: FilterType, names: seq<string>, exclude: seq<string>, includeOnly: seq<string>)

  /** The row of the setup table; None is NULL. */
  datatype Setup = Setup(
    source: string,
    target: Option<string>,
    snapshot: Option<string>,
    bytes: nat,
    parts: nat,
    filters: Option<Filters>)

  /** partsFetched: the flag of the table-parts section. rows: the filters under
      which the rows of s_table were fetched, None when it has none.
      extensions: the extension_filter table of the filter catalog. */
  datatype Stored = Stored(
    setup: Option<Setup>,
    partsFetched: bool,
    rows: Option<Filters>,
    extensions: map<string, Action>)

  datatype Specs = Specs(
    source: string,
    target: Option<string>,
    snapshot: string,
    bytes: nat,
    parts: nat,
    filters: Filters,
    skipSource: bool,
    skipSnapshot: bool,
    skipFilter: bool,
    consistent: bool,
    checkParts: bool)

  /** Which of the statements run by one registration succeed; extension entries
      are written until the first failure. */
  datatype Env =
    Env(insert: bool, snapshot: bool, filter: bool, probe: bool, invalidation: Invalidation, extensions: nat)

  /** How far the invalidation gets: the source catalog is one transaction, the
      filter catalog comes after it. */
  datatype Invalidation = Refused | SourceOnly | Both

  const MARKER: string := "SOURCE_FILTER_TYPE_NONE"

  /** strstr() finds the marker in this name. */
  predicate Holds(name: string) {
    exists k | 0 <= k <= |name| :: MarkerAt(name, k)
  }

  predicate MarkerAt(name: string, k: nat) {
    k + |MARKER| <= |name| && name[k..k + |MARKER|] == MARKER
  }

  predicate MarkedNames(f: Filters) {
    || (exists i | 0 <= i < |f.names| :: Holds(f.names[i]))
    || (exists i | 0 <= i < |f.exclude| :: Holds(f.exclude[i]))
    || (exists i | 0 <= i < |f.includeOnly| :: Holds(f.includeOnly[i]))
  }

  /** strstr() finds the marker in the JSON text: as its type, or in a name. */
  predicate Mentions(f: Filters) {
    f.kind.NoFilter? || MarkedNames(f)
  }

  function First(s: Specs): Setup {
    Setup(s.source, s.target,
          if s.skipSnapshot || s.snapshot == "" then None else Some(s.snapshot),
          s.bytes, if s.bytes == 0 then 0 else s.parts,
          if s.skipFilter then None else Some(s.filters))
  }

  predicate IsEmpty(snapshot: Option<string>) {
    snapshot.None? || snapshot.value == ""
  }

  predicate UriChecks(d: Setup, s: Specs) {
    && (s.source == d.source || s.skipSource)
    && (d.target.Some? && s.target.Some? ==> d.target == s.target)
  }

  predicate ClaimsSnapshot(d: Setup, s: Specs) {
    !s.skipSnapshot && s.consistent && IsEmpty(d.snapshot)
  }

  predicate SnapshotChecks(d: Setup, s: Specs) {
    !s.skipSnapshot && s.consistent && !IsEmpty(d.snapshot) ==> d.snapshot == Some(s.snapshot)
  }

  predicate PartsCheck(d: Setup, partsFetched: bool, s: Specs) {
    s.checkParts && partsFetched ==> s.bytes == d.bytes && s.parts == d.parts
  }

  datatype FilterCase = Keep | Claim | Introduce | Conflict | Adopt

  /** The branches of the filter comparison. */
  function CaseOf(stored: Option<Filters>, s: Specs): FilterCase {
    if s.skipFilter then Keep
    else if stored.None? then Claim
    else if s.filters == stored.value then Keep
    else if Mentions(stored.value) && !Mentions(s.filters) then Introduce
    else if !Mentions(stored.value) && Mentions(s.filters) then Adopt
    else Conflict
  }

  function Adopted(stored: Filters, s: Specs): Filters {
    s.filters.(kind := stored.kind)
  }

  function AddEntries(m: map<string, Action>, names: seq<string>, action: Action): map<string, Action>
    decreases |names|
  {
    if names == [] then m else AddEntries(m[names[0] := action], names[1..], action)
  }

  /** The exclude entries, then the include-only ones, up to the first failure. */
  function WithExtensions(m: map<string, Action>, f: Filters, n: nat): map<string, Action> {
    if n <= |f.exclude| then AddEntries(m, f.exclude[..n], Exclude)
    else
      var k := n - |f.exclude|;
      AddEntries(AddEntries(m, f.exclude, Exclude),
                 if k <= |f.includeOnly| then f.includeOnly[..k] else f.includeOnly, IncludeOnly)
  }

  /** Nothing fails, and every extension entry is written. */
  function Unhurt(s: Specs): Env {
    Env(true, true, true, true, Both, |s.filters.exclude| + |s.filters.includeOnly|)
  }

  predicate Smooth(env: Env, s: Specs) {
    env == Unhurt(s)
  }

  datatype Outcome = Outcome(stored: Stored, specs: Specs, ok: bool)

  function Finish(d: Stored, s: Specs, env: Env): Outcome {
    Outcome(d.(extensions := WithExtensions(d.extensions, s.filters, env.extensions)), s,
            env.extensions >= |s.filters.exclude| + |s.filters.includeOnly|)
  }

  function WithFilters(d: Stored, f: Filters): Stored
    requires d.setup.Some?
  {
    d.(setup := Some(d.setup.value.(filters := Some(f))))
  }

  datatype Change = Change(stored: Stored, ok: bool)

  /** The rows fetched without filters are stale: delete them, then start the
      filter catalog anew. */
  function Invalidated(d: Stored, how: Invalidation): Change {
    match how
    case Refused => Change(d, false)
    case SourceOnly => Change(d.(rows := None, partsFetched := false), false)
    case Both => Change(d.(rows := None, partsFetched := false, extensions := map[]), true)
  }

  /** The filters are stored first; then come the rows, if any. */
  function Introduced(d: Stored, f: Filters, env: Env): Change
    requires d.setup.Some?
  {
    if !env.filter then Change(d, false)
    else if !env.probe then Change(WithFilters(d, f), false)
    else if d.rows.None? then Change(WithFilters(d, f), true)
    else Invalidated(WithFilters(d, f), env.invalidation)
  }

  function RegisterFilters(d: Stored, s: Specs, env: Env): Outcome
    requires d.setup.Some?
  {
    match CaseOf(d.setup.value.filters, s)
    case Keep => Finish(d, s, env)
    case Conflict => Outcome(d, s, false)
    case Claim =>
      if env.filter then Finish(WithFilters(d, s.filters), s, env) else Outcome(d, s, false)
    case Introduce =>
      var e := Introduced(d, s.filters, env);
      if e.ok then Finish(e.stored, s, env) else Outcome(e.stored, s, false)
    case Adopt =>
      var t := s.(filters := Adopted(d.setup.value.filters.value, s));
      if env.filter then Finish(WithFilters(d, t.filters), t, env) else Outcome(d, t, false)
  }

  /** One registration, as a function of what is stored and of the specs. */
  function Register(d: Stored, s: Specs, env: Env): Outcome {
    if d.setup.None? then
      (if env.insert then Finish(d.(setup := Some(First(s))), s, env) else Outcome(d, s, false))
    else if !UriChecks(d.setup.value, s) || !SnapshotChecks(d.setup.value, s) then Outcome(d, s, false)
    else if ClaimsSnapshot(d.setup.value, s) && !env.snapshot then Outcome(d, s, false)
    else
      var e := AfterSnapshot(d, s);
      if !PartsCheck(e.setup.value, e.partsFetched, s) then Outcome(e, s, false)
      else RegisterFilters(e, s, env)
  }

  function AfterSnapshot(d: Stored, s: Specs): (e: Stored)
    requires d.setup.Some?
    ensures e.setup.Some?
  {
    if ClaimsSnapshot(d.setup.value, s)
    then d.(setup := Some(d.setup.value.(snapshot := Some(s.snapshot))))
    else d
  }

  /** A fetch by a command with these filters; tables: it finds any. */
  function Fetch(d: Stored, f: Filters, tables: bool, parts: bool): Stored {
    d.(rows := if d.rows.None? && tables then Some(f) else d.rows, partsFetched := d.partsFetched || parts)
  }

  /** The specs of one process, which a registration may rewrite. */
  class Command {
    var specs: Specs

    constructor (specs: Specs)
      ensures this.specs == specs
    {
      this.specs := specs;
    }
  }

  /** What the catalog files hold. */
  class Catalogs {
    var setup: Option<Setup>
    var partsFetched: bool
    var rows: Option<Filters>
    var extensions: map<string, Action>

    function Value(): Stored
      reads this
    {
      Stored(setup, partsFetched, rows, extensions)
    }

    constructor ()
      ensures Value() == Stored(None, false, None, map[])
    {
      setup, partsFetched, rows, extensions := None, false, None, map[];
    }

    /** insert or replace into extension_filter, entry by entry. */
    method AddExtensionFilters(names: seq<string>, action: Action, world: World) returns (ok: bool, done: nat)
      modifies this`extensions, world
      ensures ok <==> world.failures == old(world.failures)
      ensures world.failures >= old(world.failures)
      ensures done <= |names| && (ok <==> done == |names|)
      ensures extensions == AddEntries(old(extensions), names[..done], action)
    {
      done := 0;
      while done < |names|
        invariant done <= |names| && world.failures == old(world.failures)
        invariant extensions == AddEntries(old(extensions), names[..done], action)
      {
        ok := world.Try();
        if !ok {
          return;
        }
        AddEntriesExtend(old(extensions), names[..done], names[done], action);
        assert names[..done + 1] == names[..done] + [names[done]];
        extensions := extensions[names[done] := action];
        done := done + 1;
      }
      ok := true;
    }

    method RegisterExtensions(f: Filters, world: World) returns (ok: bool, done: nat)
      modifies this`extensions, world
      ensures ok <==> world.failures == old(world.failures)
      ensures world.failures >= old(world.failures)
      ensures ok ==> done == |f.exclude| + |f.includeOnly|
      ensures ok <==> done >= |f.exclude| + |f.includeOnly|
      ensures extensions == WithExtensions(old(extensions), f, done)
    {
      ok, done := AddExtensionFilters(f.exclude, Exclude, world);
      if !ok {
        return;
      }
      assert f.exclude[..done] == f.exclude;
      var more;
      ok, more := AddExtensionFilters(f.includeOnly, IncludeOnly, world);
      assert more == 0 ==> f.includeOnly[..more] == [];
      assert more == |f.includeOnly| ==> f.includeOnly[..more] == f.includeOnly;
      done := done + more;
    }

    /** The statements that follow the comparison of the filters. */
    method Complete(f: Filters, world: World, ghost env: Env) returns (ok: bool, ghost final: Env)
      modifies this`extensions, world
      ensures ok <==> world.failures == old(world.failures)
      ensures world.failures >= old(world.failures)
      ensures ok ==> final.extensions == |f.exclude| + |f.includeOnly|
      ensures extensions == WithExtensions(old(extensions), f, final.extensions)
      ensures ok <==> final.extensions >= |f.exclude| + |f.includeOnly|
      ensures final == env.(extensions := final.extensions)
    {
      var done;
      ok, done := RegisterExtensions(f, world);
      final := env.(extensions := done);
    }

    /** catalog_delete_source_schema_data, then the reset of the filter catalog. */
    method InvalidateData(world: World) returns (ok: bool, ghost how: Invalidation)
      modifies this, world
      ensures ok <==> world.failures == old(world.failures)
      ensures world.failures >= old(world.failures)
      ensures Change(Value(), ok) == Invalidated(old(Value()), how)
    {
      ok := world.Try();
      if !ok {
        return false, Refused;
      }
      rows, partsFetched := None, false;
      ok := world.Try();
      if !ok {
        return false, SourceOnly;
      }
      extensions := map[];
      how := Both;
    }

    method UpdateFilters(f: Filters, world: World) returns (ok: bool)
      requires setup.Some?
      modifies this`setup, world
      ensures world.failures == old(world.failures) + (if ok then 0 else 1)
      ensures setup == if ok then Some(old(setup).value.(filters := Some(f))) else old(setup)
    {
      ok := world.Try();
      if ok {
        setup := Some(setup.value.(filters := Some(f)));
      }
    }

    /** Filters where there were none: stored, then the rows fetched without any
        are looked for, and deleted. */
    method IntroduceFilters(f: Filters, world: World, ghost before: Env) returns (ok: bool, ghost env: Env)
      requires setup.Some? && before.filter && before.probe && before.invalidation.Both?
      modifies this, world
      ensures Change(Value(), ok) == Introduced(old(Value()), f, env)
      ensures env == before.(filter := env.filter, probe := env.probe, invalidation := env.invalidation)
      ensures ok <==> world.failures == old(world.failures)
      ensures world.failures >= old(world.failures)
      ensures ok ==> env == before
    {
      env := before;
      ok := UpdateFilters(f, world);
      env := env.(filter := ok);
      if !ok {
        return;
      }
      ok := world.Try();
      env := env.(probe := ok);
      if ok && rows.Some? {
        ghost var how;
        ok, how := InvalidateData(world);
        env := env.(invalidation := how);
      }
    }

    /** The command takes over the stored type, and its own lists are stored. */
    method AdoptFilters(c: Command, storedType: FilterType, world: World) returns (ok: bool)
      requires setup.Some?
      modifies this`setup, c, world
      ensures c.specs == old(c.specs).(filters := if storedType.NoFilter? then old(c.specs).filters
                                                  else old(c.specs).filters.(kind := storedType))
      ensures ok && !storedType.NoFilter? ==> setup == Some(old(setup).value.(filters := Some(c.specs.filters)))
      ensures !ok || storedType.NoFilter? ==> setup == old(setup)
      ensures world.failures == old(world.failures) + (if ok then 0 else 1)
    {
      ok := true;
      if storedType != NoFilter {
        c.specs := c.specs.(filters := c.specs.filters.(kind := storedType));
        ok := UpdateFilters(c.specs.filters, world);
      }
    }

    /** The comparison of the filters, and what it writes. */
    method RegisterFiltersOf(c: Command, world: World) returns (ok: bool, ghost env: Env)
      requires setup.Some?
      modifies this, c, world
      ensures world.failures == old(world.failures) ==> Smooth(env, old(c.specs))
      ensures world.failures >= old(world.failures)
      ensures Outcome(Value(), c.specs, ok) == RegisterFilters(old(Value()), old(c.specs), env)
      ensures env.snapshot
    {
      env := Unhurt(c.specs);
      var stored := setup.value.filters;
      if c.specs.skipFilter {
        // not interested in the filters
      } else if stored.None? {
        ok := UpdateFilters(c.specs.filters, world);
        env := env.(filter := ok);
        if !ok {
          return;
        }
      } else if c.specs.filters != stored.value {
        if Mentions(stored.value) && !Mentions(c.specs.filters) {
          ok, env := IntroduceFilters(c.specs.filters, world, env);
          if !ok {
            return;
          }
        } else if !Mentions(stored.value) && Mentions(c.specs.filters) {
          ok := AdoptFilters(c, stored.value.kind, world);
          env := env.(filter := ok);
          if !ok {
            return;
          }
        } else {
          ok := false;
          return;
        }
      }
      ok, env := Complete(c.specs.filters, world, env);
    }

    /** catalog_register_setup_from_specs: adoption rewrites the filter type of
        the command in place. When no statement fails, the outcome is that of an
        environment in which none does. */
    method RegisterSetup(c: Command, world: World) returns (ok: bool, ghost env: Env)
      modifies this, c, world
      ensures world.failures == old(world.failures) ==> Smooth(env, old(c.specs))
      ensures Outcome(Value(), c.specs, ok) == Register(old(Value()), old(c.specs), env)
    {
      var s := c.specs;
      env := Unhurt(s);
      if setup.None? {
        ok := world.Try();
        env := env.(insert := ok);
        if !ok {
          return;
        }
        setup := Some(First(s));
        ok, env := Complete(s.filters, world, env);
        return;
      }
      var d := setup.value;
      if s.source != d.source && !s.skipSource {
        return false, env;
      }
      if d.target.Some? && s.target.Some? && d.target != s.target {
        return false, env;
      }
      if !s.skipSnapshot && s.consistent {
        if IsEmpty(d.snapshot) {
          ok := world.Try();
          env := env.(snapshot := ok);
          if !ok {
            return;
          }
          setup := Some(d.(snapshot := Some(s.snapshot)));
        } else if d.snapshot != Some(s.snapshot) {
          return false, env;
        }
      }
      if s.checkParts && partsFetched && (s.bytes != d.bytes || s.parts != d.parts) {
        return false, env;
      }
      ok, env := RegisterFiltersOf(c, world);
    }
  }

  lemma {:induction false} AddEntriesExtend(m: map<string, Action>, names: seq<string>, name: string, action: Action)
    ensures AddEntries(m, names + [name], action) == AddEntries(m, names, action)[name := action]
    decreases |names|
  {
    if names == [] {
      assert [name][1..] == [];
    } else {
      assert (names + [name])[1..] == names[1..] + [name];
      AddEntriesExtend(m[names[0] := action], names[1..], name, action);
    }
  }
}
