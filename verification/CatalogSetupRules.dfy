/** Which commands a registration accepts, what it stores, and what it leaves as
    it was: over the stored values and the command's, field by field. */
module CatalogSetupRules {
  import opened FilterIndex
  import opened CatalogSetup
  import opened CatalogSetupSafety
  import opened CatalogSetupAgain

  predicate SameSource(d: Setup, s: Specs) {
    s.source == d.source || s.skipSource
  }

  predicate SameTarget(d: Setup, s: Specs) {
    d.target == None || s.target == None || d.target.value == s.target.value
  }

  /** No snapshot is stored yet, or it is the command's own. */
  predicate SameSnapshot(d: Setup, s: Specs) {
    || s.skipSnapshot || !s.consistent
    || d.snapshot == None || d.snapshot == Some("") || d.snapshot == Some(s.snapshot)
  }

  predicate SameParts(d: Setup, partsFetched: bool, s: Specs) {
    !s.checkParts || !partsFetched || (s.bytes == d.bytes && s.parts == d.parts)
  }

  /** Equal filters, no owner yet, or filters on one side only. */
  predicate FiltersFit(d: Setup, s: Specs) {
    || s.skipFilter
    || d.filters == None || d.filters == Some(s.filters)
    || (Mentions(d.filters.value) <==> !Mentions(s.filters))
  }

  predicate Welcome(d: Setup, partsFetched: bool, s: Specs) {
    && SameSource(d, s) && SameTarget(d, s) && SameSnapshot(d, s)
    && SameParts(d, partsFetched, s) && FiltersFit(d, s)
  }

  /** The checks of the registration, one by one. */
  lemma ChecksExactly(d: Setup, partsFetched: bool, s: Specs)
    ensures UriChecks(d, s) <==> SameSource(d, s) && SameTarget(d, s)
    ensures SnapshotChecks(d, s) <==> SameSnapshot(d, s)
    ensures PartsCheck(d, partsFetched, s) <==> SameParts(d, partsFetched, s)
    ensures CaseOf(d.filters, s).Conflict? <==> !FiltersFit(d, s)
  {
  }

  /** When no statement fails, a command is accepted over a stored setup if and
      only if source, target, snapshot, split values and filters all fit. */
  lemma RegisterExactly(d: Stored, s: Specs, env: Env)
    requires d.setup.Some? && Smooth(env, s)
    ensures Register(d, s, env).ok <==> Welcome(d.setup.value, d.partsFetched, s)
  {
    ChecksExactly(d.setup.value, d.partsFetched, s);
  }

  /** Without the marker text in a name, filters on one side only means: one of
      the two has no filters at all, and the other has. */
  lemma FiltersFitPlainly(d: Setup, s: Specs)
    requires d.filters.Some? && !MarkedNames(d.filters.value) && !MarkedNames(s.filters) && !s.skipFilter
    ensures FiltersFit(d, s) <==>
            || d.filters.value == s.filters
            || (d.filters.value.kind.NoFilter? && !s.filters.kind.NoFilter?)
            || (s.filters.kind.NoFilter? && !d.filters.value.kind.NoFilter?)
  {
  }

  /** A command that does not fit is refused whatever statements work; and unless
      it is for the split values or the filters, nothing at all is written. For
      these two, the command's snapshot may have been stored before. */
  lemma RefusedExactly(d: Stored, s: Specs, env: Env)
    requires d.setup.Some? && !Welcome(d.setup.value, d.partsFetched, s)
    ensures var r := Register(d, s, env);
            && !r.ok && r.specs == s
            && (!SameSource(d.setup.value, s) || !SameTarget(d.setup.value, s) || !SameSnapshot(d.setup.value, s)
                ==> r.stored == d)
            && (r.stored == d
                || (&& (d.setup.value.snapshot == None || d.setup.value.snapshot == Some(""))
                    && r.stored == d.(setup := Some(d.setup.value.(snapshot := Some(s.snapshot))))))
  {
    ChecksExactly(d.setup.value, d.partsFetched, s);
  }

  /** The first call, field by field. */
  lemma FirstStores(d: Stored, s: Specs, env: Env)
    requires d.setup.None? && Register(d, s, env).ok
    ensures var e := Register(d, s, env).stored;
            && e.setup.Some?
            && e.setup.value.source == s.source
            && e.setup.value.target == s.target
            && e.setup.value.snapshot == (if s.skipSnapshot || s.snapshot == "" then None else Some(s.snapshot))
            && e.setup.value.bytes == s.bytes
            && e.setup.value.parts == (if s.bytes == 0 then 0 else s.parts)
            && e.setup.value.filters == (if s.skipFilter then None else Some(s.filters))
            && e.rows == d.rows && e.partsFetched == d.partsFetched
            && Register(d, s, env).specs == s
  {
  }

  /** A command without filters, over a catalog with filters. */
  predicate TakesOver(d: Stored, s: Specs) {
    && d.setup.Some? && !s.skipFilter
    && d.setup.value.filters.Some? && !Mentions(d.setup.value.filters.value) && Mentions(s.filters)
  }

  lemma FiltersStore(d: Stored, s: Specs, env: Env)
    requires d.setup.Some? && RegisterFilters(d, s, env).ok
    ensures var e := RegisterFilters(d, s, env).stored;
            && e.setup.Some? && e.setup.value.(filters := None) == d.setup.value.(filters := None)
            && e.setup.value.filters ==
               (if s.skipFilter then d.setup.value.filters
                else if TakesOver(d, s) then Some(s.filters.(kind := d.setup.value.filters.value.kind))
                else Some(s.filters))
            && RegisterFilters(d, s, env).specs.filters ==
               (if TakesOver(d, s) then s.filters.(kind := d.setup.value.filters.value.kind) else s.filters)
            && e.rows == (if Replaces(d, s) then None else d.rows)
            && e.partsFetched == (d.partsFetched && !Replaces(d, s))
  {
    if Replaces(d, s) {
      assert CaseOf(d.setup.value.filters, s).Introduce?;
    }
  }

  /** A later call that is accepted, field by field. */
  lemma LaterStores(d: Stored, s: Specs, env: Env)
    requires d.setup.Some? && Register(d, s, env).ok
    ensures var e := Register(d, s, env).stored;
            && e.setup.Some?
            && e.setup.value.source == d.setup.value.source
            && e.setup.value.target == d.setup.value.target
            && e.setup.value.bytes == d.setup.value.bytes && e.setup.value.parts == d.setup.value.parts
            && e.setup.value.snapshot ==
               (if !s.skipSnapshot && s.consistent
                   && (d.setup.value.snapshot == None || d.setup.value.snapshot == Some(""))
                then Some(s.snapshot) else d.setup.value.snapshot)
            && e.setup.value.filters ==
               (if s.skipFilter then d.setup.value.filters
                else if TakesOver(d, s) then Some(s.filters.(kind := d.setup.value.filters.value.kind))
                else Some(s.filters))
            && Register(d, s, env).specs.filters ==
               (if TakesOver(d, s) then s.filters.(kind := d.setup.value.filters.value.kind) else s.filters)
            && e.rows == (if Replaces(d, s) then None else d.rows)
            && e.partsFetched == (d.partsFetched && !Replaces(d, s))
  {
    FiltersStore(AfterSnapshot(d, s), s, env);
  }

  /** What a command fetches: the tables it finds, under its own filters, where
      there are no rows; and nothing when it is refused or filter-agnostic. */
  lemma FetchStores(d: Stored, s: Specs, env: Env, fetches: bool, tables: bool, split: bool)
    ensures var r := Register(d, s, env);
            var e := Apply(d, Call(s, env, fetches, tables, split));
            && e.setup == r.stored.setup && e.extensions == r.stored.extensions
            && e.rows == (if r.ok && fetches && tables && !s.skipFilter && r.stored.rows == None
                          then Some(r.specs.filters) else r.stored.rows)
            && (e.partsFetched <==> r.stored.partsFetched || (r.ok && fetches && split && !s.skipFilter))
  {
  }

  /** The extension entries after an accepted call: its include-only ones, then
      its excluded ones, then what was there, unless the filter catalog was
      started anew. */
  lemma EntriesStored(d: Stored, s: Specs, env: Env, name: string)
    requires Register(d, s, env).ok
    ensures var r := Register(d, s, env).stored.extensions;
            var before := if Replaces(d, s) then map[] else d.extensions;
            && (name in r <==> name in s.filters.includeOnly || name in s.filters.exclude || name in before)
            && (name in r ==>
                  r[name] == if name in s.filters.includeOnly then IncludeOnly
                             else if name in s.filters.exclude then Exclude else before[name])
  {
    var before := if Replaces(d, s) then map[] else d.extensions;
    ExtensionsValue(before, s.filters, name);
    EntriesWritten(d, s, env);
  }
}
