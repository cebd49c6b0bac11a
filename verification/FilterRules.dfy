/** What the filter table answers, stated over the catalogs it is built from. */
module FilterRules {
  import opened FilterIndex

  datatype Options = Options(skipExtensions: bool, skipCollations: bool)

  /* ---- the declarative definition ---- */

  predicate OidIn(objects: seq<Named>, oid: Oid) {
    exists i | 0 <= i < |objects| :: objects[i].oid == oid
  }

  predicate Skipped(c: Catalogs, oid: Oid) {
    oid !in c.sourceSequences && exists i | 0 <= i < |c.sequences| :: c.sequences[i].oid == oid
  }

  predicate InBase(c: Catalogs, catoid: nat, oid: Oid) {
    || (catoid == c.cat.pgClass &&
        (OidIn(c.tables, oid) || OidIn(c.matviews, oid) || OidIn(c.indexes, oid) || Skipped(c, oid)))
    || (catoid == c.cat.pgConstraint && oid in c.constraints)
    || (catoid == c.cat.pgAttrdef && exists i | 0 <= i < |c.sequences| :: c.sequences[i].attroid == oid)
  }

  predicate InDepend(c: Catalogs, catoid: nat, oid: Oid) {
    && oid !in c.sourceSequences
    && exists i | 0 <= i < |c.depends| :: c.depends[i].classid == catoid && c.depends[i].objid == oid
  }

  /** The rule for extensions: never one that is listed include-only; otherwise
      all of them, the excluded ones, or those not listed. */
  predicate ExtensionRule(c: Catalogs, o: Options, name: string) {
    && !Listed(c, name, IncludeOnly)
    && (o.skipExtensions || Listed(c, name, Exclude) || SomeIncludeOnly(c))
  }

  predicate InExtensions(c: Catalogs, o: Options, catoid: nat, oid: Oid) {
    catoid == c.cat.pgExtension &&
    exists i | 0 <= i < |c.extensions| :: c.extensions[i].oid == oid && ExtensionRule(c, o, c.extensions[i].name)
  }

  predicate InCollations(c: Catalogs, o: Options, catoid: nat, oid: Oid) {
    o.skipCollations && catoid == c.cat.pgCollation && OidIn(c.collations, oid)
  }

  predicate ExtensionsKeyed(c: Catalogs) {
    forall i, j | 0 <= i < j < |c.extensions| :: c.extensions[i].oid != c.extensions[j].oid
  }

  /* ---- what each selection holds ---- */

  lemma NamedFind(cat: nat, kind: Kind, objects: seq<Named>, catoid: nat, oid: Oid)
    ensures Find(NamedRows(cat, kind, objects), catoid, oid).Some? <==> cat == catoid && OidIn(objects, oid)
    ensures var r := Find(NamedRows(cat, kind, objects), catoid, oid); r.Some? ==> r.value.kind == kind
  {
    var rows := NamedRows(cat, kind, objects);
    if cat == catoid && OidIn(objects, oid) {
      var i :| 0 <= i < |objects| && objects[i].oid == oid;
      assert rows[i] in rows;
    }
  }

  lemma ConstraintFind(cat: nat, oids: seq<Oid>, catoid: nat, oid: Oid)
    ensures Find(ConstraintRows(cat, oids), catoid, oid).Some? <==> cat == catoid && oid in oids
    ensures var r := Find(ConstraintRows(cat, oids), catoid, oid); r.Some? ==> r.value.kind == Constraint
  {
    var rows := ConstraintRows(cat, oids);
    if cat == catoid && oid in oids {
      var i :| 0 <= i < |oids| && oids[i] == oid;
      assert rows[i] in rows;
    }
  }

  lemma {:induction false} SequenceRow(c: Catalogs, n: nat, r: Row)
    requires n <= |c.sequences|
    ensures r in SequenceRows(c, n) <==>
            exists i :: 0 <= i < n && c.sequences[i].oid !in c.sourceSequences
                        && r == Row(c.cat.pgClass, Some(c.sequences[i].oid), None, Sequence)
  {
    if n > 0 {
      SequenceRow(c, n - 1, r);
    }
  }

  lemma {:induction false} OwnedByRow(c: Catalogs, n: nat, r: Row)
    requires n <= |c.sequences|
    ensures r in OwnedByRows(c, n) <==>
            exists i :: 0 <= i < n && c.sequences[i].ownedby !in c.sourceTables
                        && r == Row(c.cat.pgClass, None, Some(c.sequences[i].name), SequenceOwnedBy)
  {
    if n > 0 {
      OwnedByRow(c, n - 1, r);
    }
  }

  lemma {:induction false} DefaultRow(c: Catalogs, n: nat, r: Row)
    requires n <= |c.sequences|
    ensures r in DefaultRows(c, n) <==>
            exists i :: 0 <= i < n && c.sequences[i].attroid > 0
                        && r == Row(c.cat.pgAttrdef, Some(c.sequences[i].attroid), Some(c.sequences[i].name), Default)
  {
    if n > 0 {
      DefaultRow(c, n - 1, r);
    }
  }

  lemma {:induction false} DependRow(c: Catalogs, n: nat, r: Row)
    requires n <= |c.depends|
    ensures r in DependRows(c, n) <==>
            exists i :: 0 <= i < n && c.depends[i].objid !in c.sourceSequences
                        && r == Row(c.depends[i].classid, Some(c.depends[i].objid), Some(c.depends[i].identity),
                                    PgDepend)
  {
    if n > 0 {
      DependRow(c, n - 1, r);
    }
  }

  lemma {:induction false} ExtensionRow(c: Catalogs, s: Selection, n: nat, r: Row)
    requires n <= |c.extensions|
    ensures r in ExtensionRows(c, s, n) <==>
            exists i :: 0 <= i < n && (s.All? || Listed(c, c.extensions[i].name, Exclude))
                        && r == Row(c.cat.pgExtension, Some(c.extensions[i].oid), Some(c.extensions[i].name), Extension)
  {
    if n > 0 {
      ExtensionRow(c, s, n - 1, r);
    }
  }

  lemma SequencesFind(c: Catalogs, catoid: nat, oid: Oid)
    ensures var r := Find(Distinct(SequenceRows(c, |c.sequences|)), catoid, oid);
            && (r.Some? <==> catoid == c.cat.pgClass && Skipped(c, oid))
            && (r.Some? ==> r.value.kind == Sequence)
    ensures Find(Distinct(OwnedByRows(c, |c.sequences|)), catoid, oid) == None
    ensures var r := Find(Distinct(DefaultRows(c, |c.sequences|)), catoid, oid);
            && (r.Some? <==>
                  catoid == c.cat.pgAttrdef && exists i | 0 <= i < |c.sequences| :: c.sequences[i].attroid == oid)
            && (r.Some? ==> r.value.kind == Default)
  {
    var n := |c.sequences|;
    var r := Find(Distinct(SequenceRows(c, n)), catoid, oid);
    if r.Some? {
      SequenceRow(c, n, r.value);
    }
    SequenceRow(c, n, Row(c.cat.pgClass, Some(oid), None, Sequence));
    r := Find(Distinct(OwnedByRows(c, n)), catoid, oid);
    if r.Some? {
      OwnedByRow(c, n, r.value);
    }
    r := Find(Distinct(DefaultRows(c, n)), catoid, oid);
    if r.Some? {
      DefaultRow(c, n, r.value);
    }
    if i :| 0 <= i < n && c.sequences[i].attroid == oid {
      DefaultRow(c, n, Row(c.cat.pgAttrdef, Some(oid), Some(c.sequences[i].name), Default));
    }
  }

  lemma BaseFind(c: Catalogs, catoid: nat, oid: Oid)
    ensures Find(BaseRows(c), catoid, oid).Some? <==> InBase(c, catoid, oid)
    ensures var r := Find(BaseRows(c), catoid, oid);
            r.Some? ==> !r.value.kind.Extension? && !r.value.kind.Coll? && !r.value.kind.NoKind?
  {
    var n := |c.sequences|;
    var t1 := NamedRows(c.cat.pgClass, Table, c.tables);
    var t2 := NamedRows(c.cat.pgClass, Matview, c.matviews);
    var t3 := NamedRows(c.cat.pgClass, Index, c.indexes);
    var t4 := ConstraintRows(c.cat.pgConstraint, c.constraints);
    var t5 := Distinct(SequenceRows(c, n));
    var t6 := Distinct(OwnedByRows(c, n));
    var t7 := Distinct(DefaultRows(c, n));
    FindAppend(t1, t2, catoid, oid);
    FindAppend(t1 + t2, t3, catoid, oid);
    FindAppend(t1 + t2 + t3, t4, catoid, oid);
    FindAppend(t1 + t2 + t3 + t4, t5, catoid, oid);
    FindAppend(t1 + t2 + t3 + t4 + t5, t6, catoid, oid);
    FindAppend(t1 + t2 + t3 + t4 + t5 + t6, t7, catoid, oid);
    NamedFind(c.cat.pgClass, Table, c.tables, catoid, oid);
    NamedFind(c.cat.pgClass, Matview, c.matviews, catoid, oid);
    NamedFind(c.cat.pgClass, Index, c.indexes, catoid, oid);
    ConstraintFind(c.cat.pgConstraint, c.constraints, catoid, oid);
    SequencesFind(c, catoid, oid);
  }

  lemma DependFind(c: Catalogs, catoid: nat, oid: Oid)
    ensures var r := Find(Distinct(DependRows(c, |c.depends|)), catoid, oid);
            && (r.Some? <==> InDepend(c, catoid, oid))
            && (r.Some? ==> r.value.kind == PgDepend)
  {
    var r := Find(Distinct(DependRows(c, |c.depends|)), catoid, oid);
    if r.Some? {
      DependRow(c, |c.depends|, r.value);
    }
    if InDepend(c, catoid, oid) {
      var i :| 0 <= i < |c.depends| && c.depends[i].classid == catoid && c.depends[i].objid == oid;
      DependRow(c, |c.depends|, Row(catoid, Some(oid), Some(c.depends[i].identity), PgDepend));
    }
  }

  /** The row an extension pass selects under this oid, if any. */
  lemma ExtensionFind(c: Catalogs, s: Selection, catoid: nat, oid: Oid)
    requires ExtensionsKeyed(c)
    ensures var r := Find(ExtensionRows(c, s, |c.extensions|), catoid, oid);
            && (r.Some? ==> catoid == c.cat.pgExtension)
            && forall i | 0 <= i < |c.extensions| && c.extensions[i].oid == oid && catoid == c.cat.pgExtension ::
                 r == if s.All? || Listed(c, c.extensions[i].name, Exclude)
                      then Some(Row(catoid, Some(oid), Some(c.extensions[i].name), Extension)) else None
    ensures var r := Find(ExtensionRows(c, s, |c.extensions|), catoid, oid);
            r.Some? ==> OidIn(c.extensions, oid)
  {
    var n := |c.extensions|;
    var r := Find(ExtensionRows(c, s, n), catoid, oid);
    if r.Some? {
      ExtensionRow(c, s, n, r.value);
    }
    forall i | 0 <= i < n && c.extensions[i].oid == oid && (s.All? || Listed(c, c.extensions[i].name, Exclude))
      ensures Row(c.cat.pgExtension, Some(oid), Some(c.extensions[i].name), Extension) in ExtensionRows(c, s, n)
    {
      ExtensionRow(c, s, n, Row(c.cat.pgExtension, Some(oid), Some(c.extensions[i].name), Extension));
    }
  }

  /* ---- what the whole construction holds ---- */

  function Prepared(c: Catalogs, o: Options): seq<Row> {
    LaterPasses(c, BaseRows(c), o.skipExtensions, o.skipCollations)
  }

  /** The extension row under this key, when no earlier row holds it. */
  function ExtensionEntry(c: Catalogs, o: Options, catoid: nat, oid: Oid): Option<Row> {
    var s := if o.skipExtensions || SomeIncludeOnly(c) then All else Excluded;
    var r := Find(ExtensionRows(c, s, |c.extensions|), catoid, oid);
    if r.Some? && Dropped(c, r.value) then None else r
  }

  lemma ExtensionPassesFind(c: Catalogs, o: Options, rows: seq<Row>, catoid: nat, oid: Oid)
    requires KeyUnique(rows) && ExtensionsKeyed(c)
    ensures KeyUnique(ExtensionPasses(c, rows, o.skipExtensions))
    ensures var r := Find(rows, catoid, oid);
            (r.Some? ==> !r.value.kind.Extension?) ==>
              Find(ExtensionPasses(c, rows, o.skipExtensions), catoid, oid) ==
              if r.Some? then r else ExtensionEntry(c, o, catoid, oid)
  {
    var n := |c.extensions|;
    ExtensionFind(c, All, catoid, oid);
    ExtensionFind(c, Excluded, catoid, oid);
    InsertOrIgnoreFind(rows, ExtensionRows(c, All, n), catoid, oid);
    var skipped := if o.skipExtensions then ExtensionPass(c, rows, All) else rows;
    InsertOrIgnoreFind(skipped, ExtensionRows(c, Excluded, n), catoid, oid);
    var excluded := ExtensionPass(c, skipped, Excluded);
    InsertOrIgnoreFind(excluded, ExtensionRows(c, All, n), catoid, oid);
    var others := if SomeIncludeOnly(c) then ExtensionPass(c, excluded, All) else excluded;
    DeleteKeepsKey(c, others);
    DeleteFind(c, others, catoid, oid);
  }

  /** The row that the finished table holds under a key: the base selections come
      first, then the dependencies, the extensions, the collations. */
  function Entry(c: Catalogs, o: Options, catoid: nat, oid: Oid): Option<Row> {
    if InBase(c, catoid, oid) then Find(BaseRows(c), catoid, oid)
    else if InDepend(c, catoid, oid) then Find(Distinct(DependRows(c, |c.depends|)), catoid, oid)
    else if ExtensionEntry(c, o, catoid, oid).Some? then ExtensionEntry(c, o, catoid, oid)
    else if o.skipCollations then Find(NamedRows(c.cat.pgCollation, Coll, c.collations), catoid, oid)
    else None
  }

  lemma PreparedFind(c: Catalogs, o: Options, catoid: nat, oid: Oid)
    requires KeyUnique(BaseRows(c)) && ExtensionsKeyed(c)
    ensures KeyUnique(Prepared(c, o))
    ensures Find(Prepared(c, o), catoid, oid) == Entry(c, o, catoid, oid)
  {
    var base := BaseRows(c);
    BaseFind(c, catoid, oid);
    DependFind(c, catoid, oid);
    InsertOrIgnoreFind(base, Distinct(DependRows(c, |c.depends|)), catoid, oid);
    var p1 := DependPass(c, base);
    ExtensionPassesFind(c, o, p1, catoid, oid);
    var p5 := ExtensionPasses(c, p1, o.skipExtensions);
    InsertOrIgnoreFind(p5, NamedRows(c.cat.pgCollation, Coll, c.collations), catoid, oid);
  }

  /** A key of the finished table, over the catalogs it was built from. */
  predicate Filtered(c: Catalogs, o: Options, catoid: nat, oid: Oid) {
    InBase(c, catoid, oid) || InDepend(c, catoid, oid)
    || InExtensions(c, o, catoid, oid) || InCollations(c, o, catoid, oid)
  }

  lemma ExtensionEntryExactly(c: Catalogs, o: Options, catoid: nat, oid: Oid)
    requires ExtensionsKeyed(c)
    ensures ExtensionEntry(c, o, catoid, oid).Some? <==> InExtensions(c, o, catoid, oid)
    ensures var r := ExtensionEntry(c, o, catoid, oid); r.Some? ==> r.value.kind == Extension
  {
    ExtensionFind(c, All, catoid, oid);
    ExtensionFind(c, Excluded, catoid, oid);
    if InExtensions(c, o, catoid, oid) {
      var i :| 0 <= i < |c.extensions| && c.extensions[i].oid == oid && ExtensionRule(c, o, c.extensions[i].name);
    } else if i :| 0 <= i < |c.extensions| && c.extensions[i].oid == oid && catoid == c.cat.pgExtension {
      assert !ExtensionRule(c, o, c.extensions[i].name);
    }
  }

  lemma EntryExactly(c: Catalogs, o: Options, catoid: nat, oid: Oid)
    requires ExtensionsKeyed(c)
    ensures Entry(c, o, catoid, oid).Some? <==> Filtered(c, o, catoid, oid)
    ensures Entry(c, o, catoid, oid).Some? ==>
              var r := Entry(c, o, catoid, oid).value;
              && Keyed(r, catoid, oid)
              && (r.kind == Extension <==>
                    !InBase(c, catoid, oid) && !InDepend(c, catoid, oid) && InExtensions(c, o, catoid, oid))
              && (r.kind == Coll <==>
                    && !InBase(c, catoid, oid) && !InDepend(c, catoid, oid) && !InExtensions(c, o, catoid, oid)
                    && InCollations(c, o, catoid, oid))
              && r.kind != NoKind
  {
    BaseFind(c, catoid, oid);
    DependFind(c, catoid, oid);
    ExtensionEntryExactly(c, o, catoid, oid);
    NamedFind(c.cat.pgCollation, Coll, c.collations, catoid, oid);
  }

  /* ---- when the first pass succeeds ---- */

  lemma UniqueParts(rows: seq<Row>, more: seq<Row>)
    ensures KeyUnique(rows + more) <==>
            && KeyUnique(rows) && KeyUnique(more)
            && forall catoid, oid :: Find(rows, catoid, oid).None? || Find(more, catoid, oid).None?
  {
    var all := rows + more;
    assert forall i | 0 <= i < |rows| :: all[i] == rows[i];
    assert forall j | 0 <= j < |more| :: all[|rows| + j] == more[j];
    if KeyUnique(all) {
      forall i, j | 0 <= i < j < |more| && more[i].oid.Some?
        ensures !(more[i].catoid == more[j].catoid && more[i].oid == more[j].oid)
      {
        assert all[|rows| + i] == more[i] && all[|rows| + j] == more[j];
      }
      forall catoid, oid
        ensures Find(rows, catoid, oid).None? || Find(more, catoid, oid).None?
      {
      }
    } else if KeyUnique(rows) && KeyUnique(more) {
      var i, j :| 0 <= i < j < |all| && all[i].oid.Some? && all[i].catoid == all[j].catoid && all[i].oid == all[j].oid;
      assert all[i] in rows && all[j] in more;
      assert Find(rows, all[i].catoid, all[i].oid.value).Some? && Find(more, all[i].catoid, all[i].oid.value).Some?;
    }
  }

  lemma {:induction false} DistinctUnique(rows: seq<Row>)
    ensures KeyUnique(Distinct(rows)) <==>
            forall x, y | x in rows && y in rows && x.oid.Some? && x.catoid == y.catoid && x.oid == y.oid :: x == y
  {
    if rows != [] {
      var front, last := rows[..|rows| - 1], rows[|rows| - 1];
      assert rows == front + [last];
      DistinctUnique(front);
      if last !in front {
        UniqueParts(Distinct(front), [last]);
        if KeyUnique(Distinct(front)) && !KeyUnique(Distinct(rows)) {
          assert last.oid.Some?;
          var x := Find(Distinct(front), last.catoid, last.oid.value);
          assert x.Some? && x.value in rows && last in rows;
        } else if KeyUnique(Distinct(rows)) && last.oid.Some? {
          assert Find([last], last.catoid, last.oid.value).Some?;
          assert Find(Distinct(front), last.catoid, last.oid.value).None?;
        }
      }
    }
  }

  predicate DistinctOids(objects: seq<Named>) {
    forall i, j | 0 <= i < j < |objects| :: objects[i].oid != objects[j].oid
  }

  /** Object identities are unique within pg_class and pg_constraint, and a
      column default belongs to sequences of one name. */
  ghost predicate BaseClean(c: Catalogs) {
    && DistinctOids(c.tables) && DistinctOids(c.matviews) && DistinctOids(c.indexes)
    && (forall oid :: !(OidIn(c.tables, oid) && OidIn(c.matviews, oid)))
    && (forall oid :: !((OidIn(c.tables, oid) || OidIn(c.matviews, oid)) && OidIn(c.indexes, oid)))
    && (forall oid :: !((OidIn(c.tables, oid) || OidIn(c.matviews, oid) || OidIn(c.indexes, oid)) && Skipped(c, oid)))
    && (forall i, j | 0 <= i < j < |c.constraints| :: c.constraints[i] != c.constraints[j])
    && (forall i, j | 0 <= i < |c.sequences| && 0 <= j < |c.sequences|
                      && c.sequences[i].attroid > 0 && c.sequences[i].attroid == c.sequences[j].attroid ::
          c.sequences[i].name == c.sequences[j].name)
  }

  lemma NamedUnique(cat: nat, kind: Kind, objects: seq<Named>)
    ensures KeyUnique(NamedRows(cat, kind, objects)) <==> DistinctOids(objects)
  {
    var rows := NamedRows(cat, kind, objects);
    assert forall i | 0 <= i < |rows| :: rows[i].oid == Some(objects[i].oid) && rows[i].catoid == cat;
    if DistinctOids(objects) {
    } else {
      var i, j :| 0 <= i < j < |objects| && objects[i].oid == objects[j].oid;
      assert rows[i].oid == rows[j].oid;
    }
  }

  lemma ConstraintsUnique(cat: nat, oids: seq<Oid>)
    ensures KeyUnique(ConstraintRows(cat, oids)) <==> forall i, j | 0 <= i < j < |oids| :: oids[i] != oids[j]
  {
    var rows := ConstraintRows(cat, oids);
    assert forall i | 0 <= i < |rows| :: rows[i].oid == Some(oids[i]) && rows[i].catoid == cat;
    if i, j :| 0 <= i < j < |oids| && oids[i] == oids[j] {
      assert rows[i].oid == rows[j].oid;
    }
  }

  lemma SequencesUnique(c: Catalogs)
    ensures KeyUnique(Distinct(SequenceRows(c, |c.sequences|)))
    ensures KeyUnique(Distinct(OwnedByRows(c, |c.sequences|)))
  {
    var n := |c.sequences|;
    DistinctUnique(SequenceRows(c, n));
    DistinctUnique(OwnedByRows(c, n));
    forall x | x in SequenceRows(c, n)
      ensures x.catoid == c.cat.pgClass && x.name == None && x.kind == Sequence
    {
      SequenceRow(c, n, x);
    }
    forall x | x in OwnedByRows(c, n)
      ensures x.oid == None
    {
      OwnedByRow(c, n, x);
    }
  }

  lemma DefaultsUnique(c: Catalogs)
    ensures KeyUnique(Distinct(DefaultRows(c, |c.sequences|))) <==>
            forall i, j | 0 <= i < |c.sequences| && 0 <= j < |c.sequences|
                          && c.sequences[i].attroid > 0 && c.sequences[i].attroid == c.sequences[j].attroid ::
              c.sequences[i].name == c.sequences[j].name
  {
    var n := |c.sequences|;
    var rows := DefaultRows(c, n);
    DistinctUnique(rows);
    forall i | 0 <= i < n && c.sequences[i].attroid > 0
      ensures Row(c.cat.pgAttrdef, Some(c.sequences[i].attroid), Some(c.sequences[i].name), Default) in rows
    {
      DefaultRow(c, n, Row(c.cat.pgAttrdef, Some(c.sequences[i].attroid), Some(c.sequences[i].name), Default));
    }
    forall x | x in rows
      ensures exists i :: 0 <= i < n && c.sequences[i].attroid > 0
                          && x == Row(c.cat.pgAttrdef, Some(c.sequences[i].attroid), Some(c.sequences[i].name), Default)
    {
      DefaultRow(c, n, x);
    }
  }

  /* the rows under pg_class that have a name, then those of the sequences */

  function RelationRows(c: Catalogs): seq<Row> {
    NamedRows(c.cat.pgClass, Table, c.tables)
    + NamedRows(c.cat.pgClass, Matview, c.matviews)
    + NamedRows(c.cat.pgClass, Index, c.indexes)
  }

  predicate IsRelation(c: Catalogs, oid: Oid) {
    OidIn(c.tables, oid) || OidIn(c.matviews, oid) || OidIn(c.indexes, oid)
  }

  lemma RelationFind(c: Catalogs, catoid: nat, oid: Oid)
    ensures Find(RelationRows(c), catoid, oid).Some? <==> catoid == c.cat.pgClass && IsRelation(c, oid)
  {
    var t1 := NamedRows(c.cat.pgClass, Table, c.tables);
    var t2 := NamedRows(c.cat.pgClass, Matview, c.matviews);
    var t3 := NamedRows(c.cat.pgClass, Index, c.indexes);
    FindAppend(t1, t2, catoid, oid);
    FindAppend(t1 + t2, t3, catoid, oid);
    NamedFind(c.cat.pgClass, Table, c.tables, catoid, oid);
    NamedFind(c.cat.pgClass, Matview, c.matviews, catoid, oid);
    NamedFind(c.cat.pgClass, Index, c.indexes, catoid, oid);
  }

  /* adding one selection to rows that fit under the key */

  lemma AddNamed(rows: seq<Row>, prior: seq<Named>, cat: nat, kind: Kind, objects: seq<Named>)
    requires forall oid :: Find(rows, cat, oid).Some? <==> OidIn(prior, oid)
    ensures KeyUnique(rows + NamedRows(cat, kind, objects)) <==>
            KeyUnique(rows) && DistinctOids(objects) && forall oid :: !(OidIn(prior, oid) && OidIn(objects, oid))
  {
    var more := NamedRows(cat, kind, objects);
    UniqueParts(rows, more);
    NamedUnique(cat, kind, objects);
    if KeyUnique(rows + more) {
      forall oid
        ensures !(OidIn(prior, oid) && OidIn(objects, oid))
      {
        NamedFind(cat, kind, objects, cat, oid);
        assert Find(rows, cat, oid).None? || Find(more, cat, oid).None?;
      }
    } else {
      forall catoid, oid
        ensures Find(more, catoid, oid).Some? <==> cat == catoid && OidIn(objects, oid)
      {
        NamedFind(cat, kind, objects, catoid, oid);
      }
    }
  }

  lemma AddConstraints(c: Catalogs, rows: seq<Row>)
    requires forall oid :: Find(rows, c.cat.pgConstraint, oid).None?
    ensures KeyUnique(rows + ConstraintRows(c.cat.pgConstraint, c.constraints)) <==>
            KeyUnique(rows) && forall i, j | 0 <= i < j < |c.constraints| :: c.constraints[i] != c.constraints[j]
  {
    var more := ConstraintRows(c.cat.pgConstraint, c.constraints);
    UniqueParts(rows, more);
    ConstraintsUnique(c.cat.pgConstraint, c.constraints);
    forall catoid, oid
      ensures Find(rows, catoid, oid).None? || Find(more, catoid, oid).None?
    {
      ConstraintFind(c.cat.pgConstraint, c.constraints, catoid, oid);
    }
  }

  lemma AddSkipped(c: Catalogs, rows: seq<Row>)
    requires forall oid :: Find(rows, c.cat.pgClass, oid).Some? <==> IsRelation(c, oid)
    ensures KeyUnique(rows + Distinct(SequenceRows(c, |c.sequences|))) <==>
            KeyUnique(rows) && forall oid :: !(IsRelation(c, oid) && Skipped(c, oid))
  {
    var more := Distinct(SequenceRows(c, |c.sequences|));
    UniqueParts(rows, more);
    SequencesUnique(c);
    if KeyUnique(rows + more) {
      forall oid
        ensures !(IsRelation(c, oid) && Skipped(c, oid))
      {
        SequencesFind(c, c.cat.pgClass, oid);
        assert Find(rows, c.cat.pgClass, oid).None? || Find(more, c.cat.pgClass, oid).None?;
      }
    } else {
      forall catoid, oid
        ensures Find(more, catoid, oid).Some? <==> catoid == c.cat.pgClass && Skipped(c, oid)
      {
        SequencesFind(c, catoid, oid);
      }
    }
  }

  lemma RelationsUnique(c: Catalogs)
    ensures KeyUnique(RelationRows(c)) <==>
            && DistinctOids(c.tables) && DistinctOids(c.matviews) && DistinctOids(c.indexes)
            && (forall oid :: !(OidIn(c.tables, oid) && OidIn(c.matviews, oid)))
            && (forall oid :: !((OidIn(c.tables, oid) || OidIn(c.matviews, oid)) && OidIn(c.indexes, oid)))
  {
    var both := c.tables + c.matviews;
    var t1 := NamedRows(c.cat.pgClass, Table, c.tables);
    var t2 := NamedRows(c.cat.pgClass, Matview, c.matviews);
    forall oid
      ensures Find(t1, c.cat.pgClass, oid).Some? <==> OidIn(c.tables, oid)
      ensures Find(t1 + t2, c.cat.pgClass, oid).Some? <==> OidIn(both, oid)
      ensures OidIn(both, oid) <==> OidIn(c.tables, oid) || OidIn(c.matviews, oid)
    {
      FindAppend(t1, t2, c.cat.pgClass, oid);
      NamedFind(c.cat.pgClass, Table, c.tables, c.cat.pgClass, oid);
      NamedFind(c.cat.pgClass, Matview, c.matviews, c.cat.pgClass, oid);
      OidInBoth(c.tables, c.matviews, oid);
    }
    NamedUnique(c.cat.pgClass, Table, c.tables);
    AddNamed(t1, c.tables, c.cat.pgClass, Matview, c.matviews);
    AddNamed(t1 + t2, both, c.cat.pgClass, Index, c.indexes);
  }

  lemma OidInBoth(xs: seq<Named>, ys: seq<Named>, oid: Oid)
    ensures OidIn(xs + ys, oid) <==> OidIn(xs, oid) || OidIn(ys, oid)
  {
    var both := xs + ys;
    assert forall i | 0 <= i < |xs| :: both[i] == xs[i];
    assert forall i | 0 <= i < |ys| :: both[|xs| + i] == ys[i];
  }

  lemma TailUnique(c: Catalogs, rows: seq<Row>)
    requires CatNamesDistinct(c.cat)
    requires forall oid :: Find(rows, c.cat.pgAttrdef, oid).None?
    ensures var t6 := Distinct(OwnedByRows(c, |c.sequences|));
            var t7 := Distinct(DefaultRows(c, |c.sequences|));
            KeyUnique(rows + t6 + t7) <==> KeyUnique(rows) && KeyUnique(t7)
  {
    var t6 := Distinct(OwnedByRows(c, |c.sequences|));
    var t7 := Distinct(DefaultRows(c, |c.sequences|));
    UniqueParts(rows, t6);
    UniqueParts(rows + t6, t7);
    SequencesUnique(c);
    forall catoid, oid
      ensures Find(t6, catoid, oid).None?
      ensures Find(rows + t6, catoid, oid).None? || Find(t7, catoid, oid).None?
    {
      FindAppend(rows, t6, catoid, oid);
      SequencesFind(c, catoid, oid);
    }
  }

  lemma BaseUniqueParts(c: Catalogs)
    requires CatNamesDistinct(c.cat)
    ensures KeyUnique(BaseRows(c)) <==>
            && KeyUnique(RelationRows(c))
            && (forall i, j | 0 <= i < j < |c.constraints| :: c.constraints[i] != c.constraints[j])
            && (forall oid :: !(IsRelation(c, oid) && Skipped(c, oid)))
            && KeyUnique(Distinct(DefaultRows(c, |c.sequences|)))
  {
    var t4 := ConstraintRows(c.cat.pgConstraint, c.constraints);
    var t5 := Distinct(SequenceRows(c, |c.sequences|));
    forall oid
      ensures Find(RelationRows(c), c.cat.pgConstraint, oid).None?
      ensures Find(RelationRows(c) + t4, c.cat.pgClass, oid).Some? <==> IsRelation(c, oid)
      ensures Find(RelationRows(c) + t4 + t5, c.cat.pgAttrdef, oid).None?
    {
      BoundaryFind(c, oid);
    }
    AddConstraints(c, RelationRows(c));
    AddSkipped(c, RelationRows(c) + t4);
    TailUnique(c, RelationRows(c) + t4 + t5);
  }

  /** The first pass succeeds if and only if the catalogs respect the uniqueness
      that PostgreSQL gives to its object identities. */
  lemma BaseUniqueExactly(c: Catalogs)
    requires CatNamesDistinct(c.cat)
    ensures KeyUnique(BaseRows(c)) <==> BaseClean(c)
    ensures Insert([], BaseRows(c)) == if BaseClean(c) then Some(BaseRows(c)) else None
  {
    BaseUniqueParts(c);
    RelationsUnique(c);
    DefaultsUnique(c);
    InsertExactly([], BaseRows(c));
    assert [] + BaseRows(c) == BaseRows(c);
  }

  lemma BoundaryFind(c: Catalogs, oid: Oid)
    requires CatNamesDistinct(c.cat)
    ensures var t4 := ConstraintRows(c.cat.pgConstraint, c.constraints);
            var t5 := Distinct(SequenceRows(c, |c.sequences|));
            && Find(RelationRows(c), c.cat.pgConstraint, oid).None?
            && (Find(RelationRows(c) + t4, c.cat.pgClass, oid).Some? <==> IsRelation(c, oid))
            && Find(RelationRows(c) + t4 + t5, c.cat.pgAttrdef, oid).None?
  {
    var t4 := ConstraintRows(c.cat.pgConstraint, c.constraints);
    var t5 := Distinct(SequenceRows(c, |c.sequences|));
    RelationFind(c, c.cat.pgConstraint, oid);
    RelationFind(c, c.cat.pgClass, oid);
    RelationFind(c, c.cat.pgAttrdef, oid);
    FindAppend(RelationRows(c), t4, c.cat.pgClass, oid);
    FindAppend(RelationRows(c), t4, c.cat.pgAttrdef, oid);
    FindAppend(RelationRows(c) + t4, t5, c.cat.pgAttrdef, oid);
    ConstraintFind(c.cat.pgConstraint, c.constraints, c.cat.pgClass, oid);
    ConstraintFind(c.cat.pgConstraint, c.constraints, c.cat.pgAttrdef, oid);
    SequencesFind(c, c.cat.pgAttrdef, oid);
  }
}
