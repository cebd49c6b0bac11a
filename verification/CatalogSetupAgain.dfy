/** Registering again: by the same process, by a new one with the same specs, and
    by the owner of the filters after another command adopted their type. */
module CatalogSetupAgain {
  import opened FilterIndex
  import opened CatalogSetup
  import opened CatalogSetupSafety

  lemma {:induction false} AddEntriesValue(m: map<string, Action>, names: seq<string>, action: Action, name: string)
    ensures var r := AddEntries(m, names, action);
            && (name in r <==> name in m || name in names)
            && (name in r ==> r[name] == if name in names then action else m[name])
    decreases |names|
  {
    if names != [] {
      assert names == [names[0]] + names[1..];
      AddEntriesValue(m[names[0] := action], names[1..], action, name);
    }
  }

  /** Include-only overrides exclude, and both override what was there. */
  lemma ExtensionsValue(m: map<string, Action>, f: Filters, name: string)
    ensures var r := WithExtensions(m, f, |f.exclude| + |f.includeOnly|);
            && (name in r <==> name in m || name in f.exclude || name in f.includeOnly)
            && (name in r ==>
                  r[name] == if name in f.includeOnly then IncludeOnly
                             else if name in f.exclude then Exclude else m[name])
  {
    assert f.exclude[..|f.exclude|] == f.exclude && f.includeOnly[..|f.includeOnly|] == f.includeOnly;
    AddEntriesValue(m, f.exclude, Exclude, name);
    AddEntriesValue(AddEntries(m, f.exclude, Exclude), f.includeOnly, IncludeOnly, name);
    assert |f.includeOnly| == 0 ==> f.includeOnly == [];
  }

  lemma ExtensionsIdempotent(m: map<string, Action>, f: Filters)
    ensures var n := |f.exclude| + |f.includeOnly|;
            WithExtensions(WithExtensions(m, f, n), f, n) == WithExtensions(m, f, n)
  {
    var n := |f.exclude| + |f.includeOnly|;
    var r := WithExtensions(m, f, n);
    forall name
      ensures name in WithExtensions(r, f, n) <==> name in r
      ensures name in r ==> WithExtensions(r, f, n)[name] == r[name]
    {
      ExtensionsValue(m, f, name);
      ExtensionsValue(r, f, name);
    }
  }

  /** A setup read back: NULL and the empty string are the same snapshot. */
  predicate SameSetup(a: Setup, b: Setup) {
    && a.(snapshot := b.snapshot) == b
    && (a.snapshot == b.snapshot || (IsEmpty(a.snapshot) && IsEmpty(b.snapshot)))
  }

  predicate UnchangedBy(r: Outcome, before: Stored) {
    && r.ok
    && before.setup.Some? && r.stored.setup.Some?
    && SameSetup(before.setup.value, r.stored.setup.value)
    && r.stored.(setup := before.setup) == before
  }

  /** What a registration with these specs finds nothing to change in. */
  predicate SettledSetup(e: Stored, s: Specs) {
    && e.setup.Some?
    && UriChecks(e.setup.value, s) && SnapshotChecks(e.setup.value, s)
    && (ClaimsSnapshot(e.setup.value, s) ==> s.snapshot == "")
    && PartsCheck(e.setup.value, e.partsFetched, s)
  }

  predicate SettledFilters(stored: Option<Filters>, s: Specs) {
    match CaseOf(stored, s)
    case Keep => true
    case Adopt => stored.value == Adopted(stored.value, s)
    case _ => false
  }

  predicate Settled(e: Stored, s: Specs) {
    && SettledSetup(e, s)
    && SettledFilters(e.setup.value.filters, s)
    && WithExtensions(e.extensions, s.filters, |s.filters.exclude| + |s.filters.includeOnly|) == e.extensions
  }

  lemma SettledAgain(e: Stored, s: Specs, again: Env)
    requires Settled(e, s) && Smooth(again, s)
    ensures UnchangedBy(Register(e, s, again), e)
  {
    if CaseOf(e.setup.value.filters, s).Adopt? {
      SameLists(e.extensions, s.filters, Adopted(e.setup.value.filters.value, s), again.extensions);
    }
  }

  lemma FinishExtensions(d: Stored, s: Specs, t: Specs, env: Env)
    requires Finish(d, t, env).ok && t.filters.exclude == s.filters.exclude
    requires t.filters.includeOnly == s.filters.includeOnly
    ensures Finish(d, t, env).stored.extensions ==
            WithExtensions(d.extensions, s.filters, |s.filters.exclude| + |s.filters.includeOnly|)
  {
    AllWritten(d.extensions, t.filters, env.extensions);
    SameLists(d.extensions, s.filters, t.filters, |s.filters.exclude| + |s.filters.includeOnly|);
  }

  /** Filters come where there were none, over rows fetched without any. */
  predicate Replaces(d: Stored, s: Specs) {
    && d.setup.Some? && !s.skipFilter && d.rows.Some?
    && d.setup.value.filters.Some? && Mentions(d.setup.value.filters.value) && !Mentions(s.filters)
  }

  lemma FiltersWritten(d: Stored, s: Specs, env: Env)
    requires d.setup.Some? && RegisterFilters(d, s, env).ok
    ensures RegisterFilters(d, s, env).stored.extensions ==
            WithExtensions(if Replaces(d, s) then map[] else d.extensions, s.filters,
                           |s.filters.exclude| + |s.filters.includeOnly|)
  {
    match CaseOf(d.setup.value.filters, s) {
      case Keep => FinishExtensions(d, s, s, env);
      case Claim => FinishExtensions(WithFilters(d, s.filters), s, s, env);
      case Adopt =>
        var f := Adopted(d.setup.value.filters.value, s);
        FinishExtensions(WithFilters(d, f), s, s.(filters := f), env);
      case Introduce => FinishExtensions(Introduced(d, s.filters, env).stored, s, s, env);
    }
  }

  lemma EntriesWritten(d: Stored, s: Specs, env: Env)
    requires Register(d, s, env).ok
    ensures Register(d, s, env).stored.extensions ==
            WithExtensions(if Replaces(d, s) then map[] else d.extensions, s.filters,
                           |s.filters.exclude| + |s.filters.includeOnly|)
  {
    if d.setup.None? {
      FinishExtensions(d.(setup := Some(First(s))), s, s, env);
    } else {
      FiltersWritten(AfterSnapshot(d, s), s, env);
    }
  }

  /** The specs are only rewritten by an adoption, which stores the new filters. */
  predicate RewrittenAs(r: Outcome, s: Specs) {
    || r.specs == s
    || (r.specs == s.(filters := s.filters.(kind := r.specs.filters.kind))
        && r.stored.setup.Some? && r.stored.setup.value.filters == Some(r.specs.filters))
  }

  /** What the comparison of the filters leaves of the setup and the sections:
      nothing to change for the process itself. */
  lemma FiltersSetup(d: Stored, s: Specs, env: Env)
    requires d.setup.Some? && RegisterFilters(d, s, env).ok
    ensures var out := RegisterFilters(d, s, env);
            && out.stored.setup.Some?
            && out.stored.setup.value.(filters := None) == d.setup.value.(filters := None)
            && (out.stored.partsFetched ==> d.partsFetched)
            && CaseOf(out.stored.setup.value.filters, out.specs).Keep?
            && RewrittenAs(out, s)
  {
  }

  lemma FirstSetup(d: Stored, s: Specs, env: Env)
    requires d.setup.None? ==> !d.partsFetched
    requires Register(d, s, env).ok
    ensures var first := Register(d, s, env);
            && SettledSetup(first.stored, s)
            && CaseOf(first.stored.setup.value.filters, first.specs).Keep?
            && RewrittenAs(first, s)
  {
    if d.setup.Some? {
      FiltersSetup(AfterSnapshot(d, s), s, env);
    }
  }

  lemma FirstExtensionsStay(d: Stored, s: Specs, env: Env)
    requires Register(d, s, env).ok
    ensures var m := Register(d, s, env).stored.extensions;
            WithExtensions(m, s.filters, |s.filters.exclude| + |s.filters.includeOnly|) == m
  {
    EntriesWritten(d, s, env);
    ExtensionsIdempotent(d.extensions, s.filters);
    ExtensionsIdempotent(map[], s.filters);
  }

  /** A command of another type than the stored one, without filters of its own
      as far as strstr() can tell, because one of its names holds the marker. */
  predicate AdoptsMarked(d: Stored, s: Specs) {
    && d.setup.Some? && CaseOf(d.setup.value.filters, s).Adopt?
    && MarkedNames(s.filters)
    && s.filters.kind != d.setup.value.filters.value.kind
  }

  lemma FiltersAgain(d: Stored, s: Specs, env: Env)
    requires d.setup.Some? && RegisterFilters(d, s, env).ok
    ensures var e := RegisterFilters(d, s, env).stored;
            && e.setup.Some?
            && (SettledFilters(e.setup.value.filters, s) <==> !AdoptsMarked(d, s))
            && (AdoptsMarked(d, s) ==> CaseOf(e.setup.value.filters, s).Conflict?)
  {
  }

  /** After a registration that succeeds, the same process doing it again, with
      the specs the first call may have rewritten, succeeds and changes nothing.
      So does a new process with the original specs, if and only if the first
      call did not adopt a type for a command whose names hold the marker. */
  lemma RegisterAgainExactly(d: Stored, s: Specs, env: Env, again: Env)
    requires d.setup.None? ==> !d.partsFetched
    requires Register(d, s, env).ok && Smooth(again, s)
    ensures var first := Register(d, s, env);
            && UnchangedBy(Register(first.stored, first.specs, again), first.stored)
            && (UnchangedBy(Register(first.stored, s, again), first.stored) <==> !AdoptsMarked(d, s))
  {
    var first := Register(d, s, env);
    var n := |s.filters.exclude| + |s.filters.includeOnly|;
    FirstSetup(d, s, env);
    FirstExtensionsStay(d, s, env);
    SameLists(first.stored.extensions, s.filters, first.specs.filters, n);
    SettledAgain(first.stored, first.specs, again);
    SecondProcess(d, s, env);
    if SettledFilters(first.stored.setup.value.filters, s) {
      SettledAgain(first.stored, s, again);
    } else {
      ConflictFails(first.stored, s, again);
    }
  }

  lemma SecondProcess(d: Stored, s: Specs, env: Env)
    requires Register(d, s, env).ok
    ensures var e := Register(d, s, env).stored;
            && e.setup.Some?
            && (SettledFilters(e.setup.value.filters, s) <==> !AdoptsMarked(d, s))
            && (AdoptsMarked(d, s) ==> CaseOf(e.setup.value.filters, s).Conflict?)
  {
    if d.setup.Some? {
      FiltersAgain(AfterSnapshot(d, s), s, env);
    }
  }

  lemma ConflictFails(e: Stored, s: Specs, again: Env)
    requires e.setup.Some? && CaseOf(e.setup.value.filters, s).Conflict?
    ensures !Register(e, s, again).ok
  {
  }

  lemma AllWritten(m: map<string, Action>, f: Filters, n: nat)
    requires n >= |f.exclude| + |f.includeOnly|
    ensures WithExtensions(m, f, n) == WithExtensions(m, f, |f.exclude| + |f.includeOnly|)
  {
    assert f.includeOnly[..|f.includeOnly|] == f.includeOnly;
    assert f.exclude[..|f.exclude|] == f.exclude;
    if n == |f.exclude| {
    } else if |f.includeOnly| == 0 {
      assert AddEntries(AddEntries(m, f.exclude, Exclude), f.includeOnly, IncludeOnly)
             == AddEntries(m, f.exclude, Exclude);
    }
  }

  lemma SameLists(m: map<string, Action>, f: Filters, g: Filters, n: nat)
    requires f.exclude == g.exclude && f.includeOnly == g.includeOnly
    ensures WithExtensions(m, f, n) == WithExtensions(m, g, n)
  {
  }

  /** A command without filters adopts the owner's type, but stores its own
      lists: the owner can register again if and only if the lists are equal. */
  lemma OwnerAfterAdoption(d: Stored, owner: Specs, guest: Specs, env: Env, again: Env)
    requires d.setup.Some? && d.setup.value.filters == Some(owner.filters)
    requires !Mentions(owner.filters)
    requires guest.filters.kind.NoFilter? && !MarkedNames(guest.filters) && !guest.skipFilter && !owner.skipFilter
    requires Register(d, guest, env).ok
    requires ReachesFilters(Register(d, guest, env).stored, owner, again) && Smooth(again, owner)
    ensures var stored := Register(d, guest, env).stored;
            && stored.setup.value.filters == Some(guest.filters.(kind := owner.filters.kind))
            && (Register(stored, owner, again).ok <==>
                  owner.filters == guest.filters.(kind := owner.filters.kind))
  {
  }

  /** One such owner, refused: it excludes a table, and a command without
      filters came between. */
  lemma OwnerRefused() returns (d: Stored, owner: Specs, guest: Specs, env: Env)
    ensures d.setup.Some? && d.setup.value.filters == Some(owner.filters)
    ensures Register(d, owner, env).ok
    ensures Register(d, guest, env).ok
    ensures !Register(Register(d, guest, env).stored, owner, env).ok
  {
    var mine := Filters(Excl, ["public.secret"], [], []);
    d := Stored(Some(Setup("src", None, None, 0, 0, Some(mine))), false, None, map[]);
    owner := Specs("src", None, "", 0, 0, mine, false, true, false, false, false);
    guest := owner.(filters := Filters(NoFilter, [], [], []));
    env := Env(true, true, true, true, Both, 0);
    assert |"public.secret"| < |MARKER|;
    assert !MarkedNames(mine) && !MarkedNames(guest.filters);
    assert AddEntries(map[], mine.exclude[..0], Exclude) == map[];
    OwnerAfterAdoption(d, owner, guest, env, env);
  }

  /** One command that is refused when it is run again: it excludes a table that
      is called like the marker, and adopts a stored type that is not its own. */
  lemma RerunRefused() returns (d: Stored, s: Specs, env: Env)
    ensures Register(d, s, env).ok && AdoptsMarked(d, s)
    ensures !Register(Register(d, s, env).stored, s, env).ok
  {
    var stored := Filters(Incl, [], [], []);
    var mine := Filters(Excl, [MARKER], [], []);
    d := Stored(Some(Setup("src", None, None, 0, 0, Some(stored))), false, None, map[]);
    s := Specs("src", None, "", 0, 0, mine, false, true, false, false, false);
    env := Env(true, true, true, true, Both, 0);
    assert MarkerAt(mine.names[0], 0);
    assert Holds(mine.names[0]);
    assert MarkedNames(mine);
    RegisterAgainExactly(d, s, env, env);
    SecondProcess(d, s, env);
    ConflictFails(Register(d, s, env).stored, s, env);
  }
}
