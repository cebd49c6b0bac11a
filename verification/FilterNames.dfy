/** The names in the finished filter table, over the catalogs alone. */
module FilterNames {
  import opened FilterIndex
  import opened FilterRules

  predicate HasNamed(objects: seq<Named>, oid: Oid, name: string) {
    Named(oid, name) in objects
  }

  /** The base selections have this name under this key. */
  predicate BaseNamed(c: Catalogs, catoid: nat, oid: Oid, name: string) {
    || (catoid == c.cat.pgClass &&
        (HasNamed(c.tables, oid, name) || HasNamed(c.matviews, oid, name) || HasNamed(c.indexes, oid, name)))
    || (catoid == c.cat.pgAttrdef && DefaultNamed(c, oid, name))
  }

  predicate DefaultNamed(c: Catalogs, attroid: Oid, name: string) {
    exists i | 0 <= i < |c.sequences| :: c.sequences[i].attroid == attroid && c.sequences[i].name == name
  }

  /** Of the dependencies with one key, the first one is inserted. */
  predicate FirstDepend(c: Catalogs, i: nat) {
    && i < |c.depends|
    && c.depends[i].objid !in c.sourceSequences
    && forall j | 0 <= j < i :: c.depends[j].classid != c.depends[i].classid || c.depends[j].objid != c.depends[i].objid
  }

  predicate DependNamed(c: Catalogs, catoid: nat, oid: Oid, name: string) {
    exists i | 0 <= i < |c.depends| :: FirstDepend(c, i) && c.depends[i] == Depend(catoid, oid, name)
  }

  predicate FirstNamed(objects: seq<Named>, i: nat) {
    i < |objects| && forall j | 0 <= j < i :: objects[j].oid != objects[i].oid
  }

  predicate CollationNamed(c: Catalogs, oid: Oid, name: string) {
    exists i | 0 <= i < |c.collations| :: FirstNamed(c.collations, i) && c.collations[i] == Named(oid, name)
  }

  /* ---- the name that each selection gives ---- */

  lemma NamedRowIn(cat: nat, kind: Kind, objects: seq<Named>, oid: Oid, name: string)
    ensures Row(cat, Some(oid), Some(name), kind) in NamedRows(cat, kind, objects) <==> HasNamed(objects, oid, name)
  {
    var rows := NamedRows(cat, kind, objects);
    if i :| 0 <= i < |objects| && objects[i] == Named(oid, name) {
      assert rows[i] in rows;
    }
  }

  lemma InBaseRows(c: Catalogs, r: Row)
    ensures r in BaseRows(c) <==>
            || r in NamedRows(c.cat.pgClass, Table, c.tables)
            || r in NamedRows(c.cat.pgClass, Matview, c.matviews)
            || r in NamedRows(c.cat.pgClass, Index, c.indexes)
            || r in ConstraintRows(c.cat.pgConstraint, c.constraints)
            || r in SequenceRows(c, |c.sequences|)
            || r in OwnedByRows(c, |c.sequences|)
            || r in DefaultRows(c, |c.sequences|)
  {
  }

  /** Sequences and constraints have no name here, and owned-by rows no oid. */
  lemma OnlyNamedRows(c: Catalogs, r: Row)
    requires r.oid.Some? && r.name.Some?
    ensures r !in ConstraintRows(c.cat.pgConstraint, c.constraints)
    ensures r !in SequenceRows(c, |c.sequences|) && r !in OwnedByRows(c, |c.sequences|)
  {
    SequenceRow(c, |c.sequences|, r);
    OwnedByRow(c, |c.sequences|, r);
  }

  lemma NamedRowKind(cat: nat, kind: Kind, objects: seq<Named>, r: Row)
    requires r.oid.Some? && r.name.Some?
    ensures r in NamedRows(cat, kind, objects) <==>
            r.catoid == cat && r.kind == kind && HasNamed(objects, r.oid.value, r.name.value)
  {
    NamedRowIn(cat, kind, objects, r.oid.value, r.name.value);
  }

  lemma BaseRowNamed(c: Catalogs, r: Row)
    requires r.oid.Some? && r.name.Some?
    ensures r in BaseRows(c) <==>
            || (r.catoid == c.cat.pgClass && r.kind == Table && HasNamed(c.tables, r.oid.value, r.name.value))
            || (r.catoid == c.cat.pgClass && r.kind == Matview && HasNamed(c.matviews, r.oid.value, r.name.value))
            || (r.catoid == c.cat.pgClass && r.kind == Index && HasNamed(c.indexes, r.oid.value, r.name.value))
            || (r.catoid == c.cat.pgAttrdef && r.kind == Default && DefaultNamed(c, r.oid.value, r.name.value))
  {
    InBaseRows(c, r);
    OnlyNamedRows(c, r);
    NamedRowKind(c.cat.pgClass, Table, c.tables, r);
    NamedRowKind(c.cat.pgClass, Matview, c.matviews, r);
    NamedRowKind(c.cat.pgClass, Index, c.indexes, r);
    DefaultRow(c, |c.sequences|, r);
  }

  lemma BaseFindName(c: Catalogs, catoid: nat, oid: Oid, name: string)
    requires KeyUnique(BaseRows(c))
    ensures var r := Find(BaseRows(c), catoid, oid);
            r.Some? && r.value.name == Some(name) <==> BaseNamed(c, catoid, oid, name)
  {
    var r := Find(BaseRows(c), catoid, oid);
    if r.Some? && r.value.name == Some(name) {
      BaseRowNamed(c, r.value);
    }
    if BaseNamed(c, catoid, oid, name) {
      var kind := BaseKind(c, catoid, oid, name);
      BaseRowNamed(c, Row(catoid, Some(oid), Some(name), kind));
      FindExactly(BaseRows(c), Row(catoid, Some(oid), Some(name), kind));
    }
  }

  function BaseKind(c: Catalogs, catoid: nat, oid: Oid, name: string): Kind {
    if catoid != c.cat.pgClass then Default
    else if HasNamed(c.tables, oid, name) then Table
    else if HasNamed(c.matviews, oid, name) then Matview
    else if HasNamed(c.indexes, oid, name) then Index
    else Default
  }

  lemma {:induction false} DistinctFind(rows: seq<Row>, catoid: nat, oid: Oid)
    ensures Find(Distinct(rows), catoid, oid) == Find(rows, catoid, oid)
  {
    if rows != [] {
      var front, last := rows[..|rows| - 1], rows[|rows| - 1];
      assert rows == front + [last];
      DistinctFind(front, catoid, oid);
      FindAppend(front, [last], catoid, oid);
      FindAppend(Distinct(front), [last], catoid, oid);
    }
  }

  function DependEntry(d: Depend): Row {
    Row(d.classid, Some(d.objid), Some(d.identity), PgDepend)
  }

  predicate HasKey(d: Depend, catoid: nat, oid: Oid) {
    d.classid == catoid && d.objid == oid
  }

  /** The first dependency with this key, and its row. */
  predicate FirstWithKey(c: Catalogs, n: nat, catoid: nat, oid: Oid, r: Row) {
    exists i | 0 <= i < n && i < |c.depends| ::
      HasKey(c.depends[i], catoid, oid) && FirstDepend(c, i) && r == DependEntry(c.depends[i])
  }

  predicate NoneWithKey(c: Catalogs, n: nat, catoid: nat, oid: Oid) {
    oid in c.sourceSequences || forall i | 0 <= i < n && i < |c.depends| :: !HasKey(c.depends[i], catoid, oid)
  }

  lemma {:induction false} DependFindFirst(c: Catalogs, n: nat, catoid: nat, oid: Oid)
    requires n <= |c.depends|
    ensures var r := Find(DependRows(c, n), catoid, oid);
            if r.Some? then FirstWithKey(c, n, catoid, oid, r.value) else NoneWithKey(c, n, catoid, oid)
  {
    if n > 0 {
      var d := c.depends[n - 1];
      var more: seq<Row> := if d.objid in c.sourceSequences then [] else [DependEntry(d)];
      DependFindFirst(c, n - 1, catoid, oid);
      assert DependRows(c, n) == DependRows(c, n - 1) + more;
      FindAppend(DependRows(c, n - 1), more, catoid, oid);
      if NoneWithKey(c, n - 1, catoid, oid) && oid !in c.sourceSequences && HasKey(d, catoid, oid) {
        NextWithKey(c, n, catoid, oid);
      }
      assert Find([DependEntry(d)], catoid, oid) == if HasKey(d, catoid, oid) then Some(DependEntry(d)) else None;
    }
  }

  lemma NextWithKey(c: Catalogs, n: nat, catoid: nat, oid: Oid)
    requires 0 < n <= |c.depends| && NoneWithKey(c, n - 1, catoid, oid)
    requires oid !in c.sourceSequences && HasKey(c.depends[n - 1], catoid, oid)
    ensures FirstWithKey(c, n, catoid, oid, DependEntry(c.depends[n - 1]))
  {
    forall j | 0 <= j < n - 1
      ensures !HasKey(c.depends[j], catoid, oid)
    {
    }
    assert FirstDepend(c, n - 1);
  }

  lemma DependFindName(c: Catalogs, catoid: nat, oid: Oid, name: string)
    ensures var r := Find(Distinct(DependRows(c, |c.depends|)), catoid, oid);
            r.Some? && r.value.name == Some(name) <==> DependNamed(c, catoid, oid, name)
  {
    DistinctFind(DependRows(c, |c.depends|), catoid, oid);
    DependFindFirst(c, |c.depends|, catoid, oid);
    var r := Find(DependRows(c, |c.depends|), catoid, oid);
    if r.Some? {
      var i :| 0 <= i < |c.depends| && HasKey(c.depends[i], catoid, oid) && FirstDepend(c, i)
               && r.value == DependEntry(c.depends[i]);
      forall j | 0 <= j < |c.depends| && FirstDepend(c, j) && HasKey(c.depends[j], catoid, oid)
        ensures j == i
      {
      }
    }
  }

  lemma {:induction false} NamedFindFirst(cat: nat, kind: Kind, objects: seq<Named>, i: nat)
    requires FirstNamed(objects, i)
    ensures Find(NamedRows(cat, kind, objects), cat, objects[i].oid)
            == Some(Row(cat, Some(objects[i].oid), Some(objects[i].name), kind))
    decreases i
  {
    var rows := NamedRows(cat, kind, objects);
    if i > 0 {
      assert rows[1..] == NamedRows(cat, kind, objects[1..]);
      NamedFindFirst(cat, kind, objects[1..], i - 1);
    }
  }

  lemma {:induction false} FirstOf(objects: seq<Named>, i: nat) returns (k: nat)
    requires i < |objects|
    ensures FirstNamed(objects, k) && objects[k].oid == objects[i].oid
    decreases i
  {
    if j :| 0 <= j < i && objects[j].oid == objects[i].oid {
      k := FirstOf(objects, j);
    } else {
      k := i;
    }
  }

  lemma CollationFindName(c: Catalogs, oid: Oid, name: string)
    ensures var r := Find(NamedRows(c.cat.pgCollation, Coll, c.collations), c.cat.pgCollation, oid);
            r.Some? && r.value.name == Some(name) <==> CollationNamed(c, oid, name)
  {
    var cat := c.cat.pgCollation;
    NamedFind(cat, Coll, c.collations, cat, oid);
    if OidIn(c.collations, oid) {
      var i :| 0 <= i < |c.collations| && c.collations[i].oid == oid;
      var k := FirstOf(c.collations, i);
      NamedFindFirst(cat, Coll, c.collations, k);
      forall j | 0 <= j < |c.collations| && FirstNamed(c.collations, j) && c.collations[j].oid == oid
        ensures j == k
      {
      }
    }
  }

  lemma ExtensionEntryName(c: Catalogs, o: Options, oid: Oid, name: string)
    requires ExtensionsKeyed(c)
    ensures var r := ExtensionEntry(c, o, c.cat.pgExtension, oid);
            r.Some? && r.value.name == Some(name) <==> HasNamed(c.extensions, oid, name) && ExtensionRule(c, o, name)
  {
    var s := if o.skipExtensions || SomeIncludeOnly(c) then All else Excluded;
    ExtensionFind(c, s, c.cat.pgExtension, oid);
    if OidIn(c.extensions, oid) {
      var i :| 0 <= i < |c.extensions| && c.extensions[i].oid == oid;
      if k :| 0 <= k < |c.extensions| && c.extensions[k] == Named(oid, name) {
        assert k == i;
      }
    } else {
      assert Named(oid, name) !in c.extensions;
    }
  }

  /** The name of the entry under a key, as the catalogs give it. */
  predicate NameUnder(c: Catalogs, o: Options, catoid: nat, oid: Oid, name: string) {
    if InBase(c, catoid, oid) then BaseNamed(c, catoid, oid, name)
    else if InDepend(c, catoid, oid) then DependNamed(c, catoid, oid, name)
    else
      || (catoid == c.cat.pgExtension && HasNamed(c.extensions, oid, name) && ExtensionRule(c, o, name))
      || (catoid == c.cat.pgCollation && o.skipCollations && CollationNamed(c, oid, name))
  }

  lemma EntryNameExactly(c: Catalogs, o: Options, catoid: nat, oid: Oid, name: string)
    requires CatNamesDistinct(c.cat) && KeyUnique(BaseRows(c)) && ExtensionsKeyed(c)
    ensures var e := Entry(c, o, catoid, oid);
            e.Some? && e.value.name == Some(name) <==> NameUnder(c, o, catoid, oid, name)
  {
    if InBase(c, catoid, oid) {
      BaseFindName(c, catoid, oid, name);
    } else if InDepend(c, catoid, oid) {
      DependFindName(c, catoid, oid, name);
    } else {
      LaterName(c, o, catoid, oid, name);
    }
  }

  lemma LaterName(c: Catalogs, o: Options, catoid: nat, oid: Oid, name: string)
    requires CatNamesDistinct(c.cat) && ExtensionsKeyed(c)
    requires !InBase(c, catoid, oid) && !InDepend(c, catoid, oid)
    ensures var e := Entry(c, o, catoid, oid);
            e.Some? && e.value.name == Some(name) <==> NameUnder(c, o, catoid, oid, name)
  {
    ExtensionEntryExactly(c, o, catoid, oid);
    if catoid == c.cat.pgExtension {
      ExtensionEntryName(c, o, oid, name);
      NamedFind(c.cat.pgCollation, Coll, c.collations, catoid, oid);
    } else if catoid == c.cat.pgCollation {
      CollationFindName(c, oid, name);
    } else {
      NamedFind(c.cat.pgCollation, Coll, c.collations, catoid, oid);
    }
  }
}
