/** The filter table: how it is built out of the filter catalog, and the key it
    keeps through every pass. */
module FilterIndex {

  datatype Option<T> = None | Some(value: T)

  type Oid = x: nat | 0 < x witness 1

  datatype Kind =
    | NoKind
    | Table | Matview | Index | Constraint | Sequence | SequenceOwnedBy | Default
    | PgDepend | Extension | Coll

  /** A row of the filter table; oid and restore_list_name may be NULL. */
  datatype Row = Row(catoid: nat, oid: Option<Oid>, name: Option<string>, kind: Kind)

  datatype CatNames = CatNames(pgClass: nat, pgConstraint: nat, pgAttrdef: nat, pgExtension: nat, pgCollation: nat)

  datatype Named = Named(oid: Oid, name: string)
  datatype Seq = Seq(oid: Oid, ownedby: nat, attroid: nat, name: string)
  datatype Depend = Depend(classid: nat, objid: Oid, identity: string)

  datatype Action = Exclude | IncludeOnly

  /** The filter catalog, and the source catalog it is attached to. */
  datatype Catalogs = Catalogs(
    cat: CatNames,
    tables: seq<Named>,
    matviews: seq<Named>,
    indexes: seq<Named>,
    constraints: seq<Oid>,
    sequences: seq<Seq>,
    depends: seq<Depend>,
    extensions: seq<Named>,
    collations: seq<Named>,
    extensionFilter: map<string, Action>,
    sourceSequences: set<Oid>,
    sourceTables: set<nat>)

  predicate CatNamesDistinct(n: CatNames) {
    && n.pgClass != 0 && n.pgConstraint != 0 && n.pgAttrdef != 0 && n.pgExtension != 0 && n.pgCollation != 0
    && n.pgClass !in {n.pgConstraint, n.pgAttrdef, n.pgExtension, n.pgCollation}
    && n.pgConstraint !in {n.pgAttrdef, n.pgExtension, n.pgCollation}
    && n.pgAttrdef !in {n.pgExtension, n.pgCollation}
    && n.pgExtension != n.pgCollation
  }

  /* ---- the selections ---- */

  /** select distinct */
  function Distinct(rows: seq<Row>): (r: seq<Row>)
    ensures forall x :: x in r <==> x in rows
  {
    if rows == [] then []
    else
      var r := Distinct(rows[..|rows| - 1]);
      assert rows == rows[..|rows| - 1] + [rows[|rows| - 1]];
      if rows[|rows| - 1] in r then r else r + [rows[|rows| - 1]]
  }

  function NamedRows(catoid: nat, kind: Kind, objects: seq<Named>): seq<Row> {
    seq(|objects|, i requires 0 <= i < |objects| =>
      Row(catoid, Some(objects[i].oid), Some(objects[i].name), kind))
  }

  function ConstraintRows(catoid: nat, oids: seq<Oid>): seq<Row> {
    seq(|oids|, i requires 0 <= i < |oids| => Row(catoid, Some(oids[i]), None, Constraint))
  }

  /** Three selections over the sequences, without their "distinct". */
  function SequenceRows(c: Catalogs, n: nat): (r: seq<Row>)
    requires n <= |c.sequences|
  {
    if n == 0 then []
    else
      var s := c.sequences[n - 1];
      SequenceRows(c, n - 1)
      + (if s.oid in c.sourceSequences then [] else [Row(c.cat.pgClass, Some(s.oid), None, Sequence)])
  }

  function OwnedByRows(c: Catalogs, n: nat): (r: seq<Row>)
    requires n <= |c.sequences|
  {
    if n == 0 then []
    else
      var s := c.sequences[n - 1];
      OwnedByRows(c, n - 1)
      + (if s.ownedby in c.sourceTables then [] else [Row(c.cat.pgClass, None, Some(s.name), SequenceOwnedBy)])
  }

  function DefaultRows(c: Catalogs, n: nat): (r: seq<Row>)
    requires n <= |c.sequences|
  {
    if n == 0 then []
    else
      var s := c.sequences[n - 1];
      DefaultRows(c, n - 1)
      + (if s.attroid == 0 then [] else [Row(c.cat.pgAttrdef, Some(s.attroid), Some(s.name), Default)])
  }

  function BaseRows(c: Catalogs): seq<Row> {
    NamedRows(c.cat.pgClass, Table, c.tables)
    + NamedRows(c.cat.pgClass, Matview, c.matviews)
    + NamedRows(c.cat.pgClass, Index, c.indexes)
    + ConstraintRows(c.cat.pgConstraint, c.constraints)
    + Distinct(SequenceRows(c, |c.sequences|))
    + Distinct(OwnedByRows(c, |c.sequences|))
    + Distinct(DefaultRows(c, |c.sequences|))
  }

  function DependRows(c: Catalogs, n: nat): seq<Row>
    requires n <= |c.depends|
  {
    if n == 0 then []
    else
      var d := c.depends[n - 1];
      DependRows(c, n - 1)
      + (if d.objid in c.sourceSequences then [] else [Row(d.classid, Some(d.objid), Some(d.identity), PgDepend)])
  }

  /** Which extensions a pass selects. */
  datatype Selection = All | Excluded

  predicate Listed(c: Catalogs, name: string, action: Action) {
    name in c.extensionFilter && c.extensionFilter[name] == action
  }

  function ExtensionRows(c: Catalogs, s: Selection, n: nat): seq<Row>
    requires n <= |c.extensions|
  {
    if n == 0 then []
    else
      var e := c.extensions[n - 1];
      ExtensionRows(c, s, n - 1)
      + (if s.All? || Listed(c, e.name, Exclude)
         then [Row(c.cat.pgExtension, Some(e.oid), Some(e.name), Extension)] else [])
  }

  /** count(*) over the include-only entries is positive. */
  predicate SomeIncludeOnly(c: Catalogs) {
    exists name | name in c.extensionFilter :: c.extensionFilter[name] == IncludeOnly
  }

  /* ---- the partial unique index on (catoid, oid) where oid > 0 ---- */

  predicate Keyed(r: Row, catoid: nat, oid: Oid) {
    r.catoid == catoid && r.oid == Some(oid)
  }

  function Find(rows: seq<Row>, catoid: nat, oid: Oid): (r: Option<Row>)
    ensures r.Some? ==> r.value in rows && Keyed(r.value, catoid, oid)
    ensures r.None? <==> forall x | x in rows :: !Keyed(x, catoid, oid)
  {
    if rows == [] then None
    else if Keyed(rows[0], catoid, oid) then Some(rows[0])
    else
      assert rows == [rows[0]] + rows[1..];
      Find(rows[1..], catoid, oid)
  }

  predicate Clashes(rows: seq<Row>, r: Row) {
    r.oid.Some? && Find(rows, r.catoid, r.oid.value).Some?
  }

  ghost predicate KeyUnique(rows: seq<Row>) {
    forall i, j | 0 <= i < j < |rows| && rows[i].oid.Some? ::
      !(rows[i].catoid == rows[j].catoid && rows[i].oid == rows[j].oid)
  }

  /** insert into: one statement, which fails as a whole at the first clash. */
  function Insert(rows: seq<Row>, more: seq<Row>): Option<seq<Row>>
    decreases |more|
  {
    if more == [] then Some(rows)
    else if Clashes(rows, more[0]) then None
    else Insert(rows + [more[0]], more[1..])
  }

  /** insert or ignore into */
  function InsertOrIgnore(rows: seq<Row>, more: seq<Row>): seq<Row>
    decreases |more|
  {
    if more == [] then rows
    else InsertOrIgnore(if Clashes(rows, more[0]) then rows else rows + [more[0]], more[1..])
  }

  predicate Dropped(c: Catalogs, r: Row) {
    && r.catoid == c.cat.pgExtension && r.kind == Extension
    && r.name.Some? && Listed(c, r.name.value, IncludeOnly)
  }

  /** delete from filter where ... */
  function Delete(c: Catalogs, rows: seq<Row>): (r: seq<Row>)
    ensures forall x :: x in r <==> x in rows && !Dropped(c, x)
  {
    if rows == [] then []
    else
      assert rows == rows[..|rows| - 1] + [rows[|rows| - 1]];
      Delete(c, rows[..|rows| - 1]) + (if Dropped(c, rows[|rows| - 1]) then [] else [rows[|rows| - 1]])
  }

  /** The passes after the first one, in their order. */
  function DependPass(c: Catalogs, rows: seq<Row>): seq<Row> {
    InsertOrIgnore(rows, Distinct(DependRows(c, |c.depends|)))
  }

  function ExtensionPass(c: Catalogs, rows: seq<Row>, s: Selection): seq<Row> {
    InsertOrIgnore(rows, ExtensionRows(c, s, |c.extensions|))
  }

  function ExtensionPasses(c: Catalogs, rows: seq<Row>, skipExtensions: bool): seq<Row> {
    var skipped := if skipExtensions then ExtensionPass(c, rows, All) else rows;
    var excluded := ExtensionPass(c, skipped, Excluded);
    var others := if SomeIncludeOnly(c) then ExtensionPass(c, excluded, All) else excluded;
    Delete(c, others)
  }

  function CollationPass(c: Catalogs, rows: seq<Row>, skipCollations: bool): seq<Row> {
    if skipCollations then InsertOrIgnore(rows, NamedRows(c.cat.pgCollation, Coll, c.collations)) else rows
  }

  function LaterPasses(c: Catalogs, base: seq<Row>, skipExtensions: bool, skipCollations: bool): seq<Row> {
    CollationPass(c, ExtensionPasses(c, DependPass(c, base), skipExtensions), skipCollations)
  }

  /* ---- the passes keep the key ---- */

  lemma FindAppend(rows: seq<Row>, more: seq<Row>, catoid: nat, oid: Oid)
    ensures Find(rows + more, catoid, oid) ==
            if Find(rows, catoid, oid).Some? then Find(rows, catoid, oid) else Find(more, catoid, oid)
    decreases |rows|
  {
    if rows == [] {
      assert rows + more == more;
    } else if !Keyed(rows[0], catoid, oid) {
      assert (rows + more)[1..] == rows[1..] + more;
      FindAppend(rows[1..], more, catoid, oid);
    }
  }

  lemma KeyUniqueAppend(rows: seq<Row>, r: Row)
    requires KeyUnique(rows)
    ensures KeyUnique(rows + [r]) <==> !Clashes(rows, r)
  {
    if Clashes(rows, r) {
      var x := Find(rows, r.catoid, r.oid.value).value;
      var i :| 0 <= i < |rows| && rows[i] == x;
      var all := rows + [r];
      assert all[i] == x && all[|rows|] == r;
    } else {
      forall i, j | 0 <= i < j < |rows + [r]| && (rows + [r])[i].oid.Some?
        ensures !((rows + [r])[i].catoid == (rows + [r])[j].catoid && (rows + [r])[i].oid == (rows + [r])[j].oid)
      {
        assert rows[i] in rows;
      }
    }
  }

  lemma KeyUniquePrefix(rows: seq<Row>, more: seq<Row>)
    requires KeyUnique(rows + more)
    ensures KeyUnique(rows)
  {
    var all := rows + more;
    assert forall i | 0 <= i < |rows| :: all[i] == rows[i];
  }

  /** The plain insert fails exactly when its rows do not fit under the key. */
  lemma {:induction false} InsertExactly(rows: seq<Row>, more: seq<Row>)
    requires KeyUnique(rows)
    ensures Insert(rows, more) == if KeyUnique(rows + more) then Some(rows + more) else None
    decreases |more|
  {
    if more == [] {
      assert rows + more == rows;
    } else {
      KeyUniqueAppend(rows, more[0]);
      assert rows + more == (rows + [more[0]]) + more[1..];
      if Clashes(rows, more[0]) {
        if KeyUnique(rows + more) {
          KeyUniquePrefix(rows + [more[0]], more[1..]);
        }
      } else {
        InsertExactly(rows + [more[0]], more[1..]);
      }
    }
  }

  /** Insert or ignore keeps the key; under each key the old row wins, then the
      first of the new ones. */
  lemma {:induction false} InsertOrIgnoreFind(rows: seq<Row>, more: seq<Row>, catoid: nat, oid: Oid)
    requires KeyUnique(rows)
    ensures KeyUnique(InsertOrIgnore(rows, more))
    ensures Find(InsertOrIgnore(rows, more), catoid, oid) ==
            if Find(rows, catoid, oid).Some? then Find(rows, catoid, oid) else Find(more, catoid, oid)
    decreases |more|
  {
    if more != [] {
      var r := more[0];
      KeyUniqueAppend(rows, r);
      if Clashes(rows, r) {
        InsertOrIgnoreFind(rows, more[1..], catoid, oid);
      } else {
        InsertOrIgnoreFind(rows + [r], more[1..], catoid, oid);
        FindAppend(rows, [r], catoid, oid);
      }
    }
  }

  lemma {:induction false} DeleteKeepsKey(c: Catalogs, rows: seq<Row>)
    requires KeyUnique(rows)
    ensures KeyUnique(Delete(c, rows))
  {
    if rows != [] {
      var front, last := rows[..|rows| - 1], rows[|rows| - 1];
      DeleteKeepsKey(c, front);
      KeyUniqueAppend(front, last);
      assert rows == front + [last];
      if !Dropped(c, last) {
        KeyUniqueAppend(Delete(c, front), last);
      }
    }
  }

  /** Under a unique key, finding a row is having it. */
  lemma FindExactly(rows: seq<Row>, r: Row)
    requires KeyUnique(rows) && r.oid.Some?
    ensures Find(rows, r.catoid, r.oid.value) == Some(r) <==> r in rows
  {
    if r in rows {
      var x := Find(rows, r.catoid, r.oid.value).value;
      var i :| 0 <= i < |rows| && rows[i] == r;
      var j :| 0 <= j < |rows| && rows[j] == x;
    }
  }

  lemma DeleteFind(c: Catalogs, rows: seq<Row>, catoid: nat, oid: Oid)
    requires KeyUnique(rows)
    ensures var r := Find(rows, catoid, oid);
            Find(Delete(c, rows), catoid, oid) == if r.Some? && Dropped(c, r.value) then None else r
  {
    DeleteKeepsKey(c, rows);
    var r := Find(rows, catoid, oid);
    var d := Find(Delete(c, rows), catoid, oid);
    if d.Some? {
      FindExactly(rows, d.value);
    }
  }
}
