/** Is this archive item filtered out? The two lookups that share one result,
    and their answer over the finished filter table. */
module FilterDecision {
  import opened FilterIndex
  import opened FilterRules

  /** A TOC entry: catalogOid and objectOid may be zero, name empty. */
  datatype Item = Item(catalogOid: nat, objectOid: nat, description: Option<string>, isSequence: bool, name: string)

  /** An extension or a collation row only matches its own kind of item. */
  predicate KindMatches(kind: Kind, description: Option<string>) {
    match kind
    case Extension => description.None? || description.value == "EXTENSION"
    case Coll => description.None? || description.value == "COLLATION"
    case _ => true
  }

  predicate OidMatches(item: Item, r: Row) {
    && r.oid.Some? && r.oid.value == item.objectOid
    && (item.catalogOid != 0 ==> r.catoid == item.catalogOid)
  }

  predicate NameMatches(item: Item, r: Row) {
    r.name == Some(item.name)
  }

  /** The exactly-one-row check of the lookup by oid. */
  ghost predicate AtMostOne(rows: seq<Row>, item: Item) {
    forall i, j | 0 <= i < j < |rows| :: !(OidMatches(item, rows[i]) && OidMatches(item, rows[j]))
  }

  /** All the rows of that name say the same about the item. */
  ghost predicate Agree(rows: seq<Row>, item: Item) {
    forall r, q | r in rows && q in rows && NameMatches(item, r) && NameMatches(item, q) ::
      KindMatches(r.kind, item.description) == KindMatches(q.kind, item.description)
  }

  predicate AskedByName(item: Item) {
    !item.isSequence && item.name != ""
  }

  ghost predicate ByOid(rows: seq<Row>, item: Item) {
    item.objectOid != 0 && exists r :: r in rows && OidMatches(item, r) && KindMatches(r.kind, item.description)
  }

  ghost predicate ByName(rows: seq<Row>, item: Item) {
    AskedByName(item) && exists r :: r in rows && NameMatches(item, r) && KindMatches(r.kind, item.description)
  }

  /** The answer, over the rows of the table. */
  ghost predicate Answer(rows: seq<Row>, item: Item) {
    && (item.objectOid != 0 ==> AtMostOne(rows, item))
    && (ByOid(rows, item) || ByName(rows, item))
  }

  /** The answer when LIMIT 1 returns the row pick (None: no row of that name). */
  ghost predicate AnswerWith(rows: seq<Row>, item: Item, pick: Option<Row>) {
    && (item.objectOid != 0 ==> AtMostOne(rows, item))
    && (ByOid(rows, item)
        || (AskedByName(item) && pick.Some? && KindMatches(pick.value.kind, item.description)))
  }

  ghost predicate CanPick(rows: seq<Row>, item: Item, pick: Option<Row>) {
    match pick
    case Some(r) => r in rows && NameMatches(item, r)
    case None => forall r | r in rows :: !NameMatches(item, r)
  }

  /** The choice of LIMIT 1 never matters if and only if the rows of that name
      agree, or the answer is settled before the lookup by name. */
  lemma LimitOneExactly(rows: seq<Row>, item: Item)
    ensures (forall p, q | CanPick(rows, item, p) && CanPick(rows, item, q) ::
               AnswerWith(rows, item, p) == AnswerWith(rows, item, q))
            <==> || Agree(rows, item)
                 || !AskedByName(item)
                 || ByOid(rows, item)
                 || (item.objectOid != 0 && !AtMostOne(rows, item))
  {
    if forall p, q | CanPick(rows, item, p) && CanPick(rows, item, q) ::
         AnswerWith(rows, item, p) == AnswerWith(rows, item, q)
    {
      if AskedByName(item) && !ByOid(rows, item) && (item.objectOid != 0 ==> AtMostOne(rows, item)) {
        forall r, q | r in rows && q in rows && NameMatches(item, r) && NameMatches(item, q)
          ensures KindMatches(r.kind, item.description) == KindMatches(q.kind, item.description)
        {
          assert CanPick(rows, item, Some(r)) && CanPick(rows, item, Some(q));
          assert AnswerWith(rows, item, Some(r)) == AnswerWith(rows, item, Some(q));
        }
      }
    }
  }

  /** The struct both lookups fill. */
  datatype CatalogFilter = CatalogFilter(catoid: nat, oid: nat, restoreListName: string, kind: Kind)

  const NoResult: CatalogFilter := CatalogFilter(0, 0, "", NoKind)

  function Fetch(r: Row): CatalogFilter {
    CatalogFilter(r.catoid, if r.oid.Some? then r.oid.value else 0, if r.name.Some? then r.name.value else "", r.kind)
  }

  lemma SomePick(rows: seq<Row>, item: Item) returns (pick: Option<Row>)
    ensures CanPick(rows, item, pick)
  {
    pick := None;
    if r :| r in rows && NameMatches(item, r) {
      pick := Some(r);
    }
  }

  class FilterTable {
    var rows: seq<Row>

    constructor ()
      ensures rows == []
    {
      rows := [];
    }

    /** insert into ... select: nothing happens when a row clashes. */
    method InsertAll(more: seq<Row>) returns (ok: bool)
      requires KeyUnique(rows)
      modifies this
      ensures ok <==> KeyUnique(old(rows) + more)
      ensures rows == if ok then old(rows) + more else old(rows)
      ensures KeyUnique(rows)
    {
      InsertExactly(rows, more);
      var i := 0;
      var all := rows;
      while i < |more|
        invariant 0 <= i <= |more|
        invariant rows == old(rows)
        invariant KeyUnique(all) && all == rows + more[..i]
      {
        assert rows + more == all + more[i..];
        assert all + more[i..] == (all + [more[i]]) + more[i + 1..];
        KeyUniqueAppend(all, more[i]);
        if Clashes(all, more[i]) {
          if KeyUnique(rows + more) {
            KeyUniquePrefix(all + [more[i]], more[i + 1..]);
          }
          return false;
        }
        all := all + [more[i]];
        i := i + 1;
      }
      assert more[..i] == more && all == rows + more;
      rows := all;
      ok := true;
    }

    /** insert or ignore into ... select */
    method InsertIgnoring(more: seq<Row>)
      modifies this
      ensures rows == InsertOrIgnore(old(rows), more)
    {
      var i := 0;
      while i < |more|
        invariant 0 <= i <= |more|
        invariant InsertOrIgnore(rows, more[i..]) == InsertOrIgnore(old(rows), more)
      {
        assert more[i..][1..] == more[i + 1..];
        if !Clashes(rows, more[i]) {
          rows := rows + [more[i]];
        }
        i := i + 1;
      }
    }

    method DeleteIncludeOnly(c: Catalogs)
      modifies this
      ensures rows == Delete(c, old(rows))
    {
      var i := 0;
      var left := [];
      while i < |rows|
        invariant 0 <= i <= |rows| && rows == old(rows)
        invariant left == Delete(c, rows[..i])
      {
        assert rows[..i + 1][..i] == rows[..i];
        if !Dropped(c, rows[i]) {
          left := left + [rows[i]];
        }
        i := i + 1;
      }
      assert rows[..i] == rows;
      rows := left;
    }

    /** All the passes, in order, on a new filter table. */
    method PrepareFilter(c: Catalogs, o: Options) returns (ok: bool)
      requires rows == [] && CatNamesDistinct(c.cat)
      modifies this
      ensures ok <==> BaseClean(c)
      ensures rows == if ok then Prepared(c, o) else []
    {
      BaseUniqueExactly(c);
      assert [] + BaseRows(c) == BaseRows(c);
      ok := InsertAll(BaseRows(c));
      if !ok {
        return;
      }
      InsertIgnoring(Distinct(DependRows(c, |c.depends|)));
      ghost var p1 := rows;
      assert p1 == DependPass(c, BaseRows(c));
      if o.skipExtensions {
        InsertIgnoring(ExtensionRows(c, All, |c.extensions|));
      }
      InsertIgnoring(ExtensionRows(c, Excluded, |c.extensions|));
      if SomeIncludeOnly(c) {
        InsertIgnoring(ExtensionRows(c, All, |c.extensions|));
      }
      DeleteIncludeOnly(c);
      assert rows == ExtensionPasses(c, p1, o.skipExtensions);
      if o.skipCollations {
        InsertIgnoring(NamedRows(c.cat.pgCollation, Coll, c.collations));
      }
    }

    /** A second matching row is an error; no matching row leaves result alone. */
    method LookupByOid(item: Item, result: CatalogFilter) returns (ok: bool, filled: CatalogFilter)
      ensures ok <==> AtMostOne(rows, item)
      ensures ok ==> forall r | r in rows && OidMatches(item, r) :: filled == Fetch(r)
      ensures (forall r | r in rows :: !OidMatches(item, r)) ==> filled == result
    {
      filled := result;
      ghost var first := -1;
      var found := false;
      for i := 0 to |rows|
        invariant found ==> 0 <= first < i && OidMatches(item, rows[first]) && filled == Fetch(rows[first])
        invariant forall k | 0 <= k < i && OidMatches(item, rows[k]) :: found && k == first
        invariant !found ==> filled == result
      {
        if OidMatches(item, rows[i]) {
          if found {
            return false, filled;
          }
          found, first, filled := true, i, Fetch(rows[i]);
        }
      }
      ok := true;
    }

    /** LIMIT 1 without an order: any row of that name. */
    method LookupByName(item: Item, result: CatalogFilter) returns (filled: CatalogFilter, ghost pick: Option<Row>)
      ensures CanPick(rows, item, pick)
      ensures filled == if pick.Some? then Fetch(pick.value) else result
    {
      if r :| r in rows && NameMatches(item, r) {
        return Fetch(r), Some(r);
      }
      return result, None;
    }

    /** copydb_objectid_is_filtered_out. What the first lookup leaves in result
        never makes the second one report a match. */
    method IsFilteredOut(item: Item) returns (answer: bool, ghost pick: Option<Row>)
      ensures CanPick(rows, item, pick) && answer == AnswerWith(rows, item, pick)
      ensures answer ==> Answer(rows, item)
      ensures Agree(rows, item) ==> answer == Answer(rows, item)
    {
      pick := SomePick(rows, item);
      var result := NoResult;
      if item.objectOid != 0 {
        var ok;
        ok, result := LookupByOid(item, result);
        if !ok {
          return false, pick;
        }
        assert forall r | r in rows && OidMatches(item, r) :: result.kind == r.kind;
        if result.oid != 0 && KindMatches(result.kind, item.description) {
          return true, pick;
        }
      }
      if item.isSequence {
        return false, pick;
      }
      if item.name != "" {
        result, pick := LookupByName(item, result);
        if result.restoreListName != "" && KindMatches(result.kind, item.description) {
          return true, pick;
        }
      }
      answer := false;
    }
  }
}
