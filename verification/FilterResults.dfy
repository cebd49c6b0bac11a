/** The filter index agrees with its declarative definition, and the rules for
    sequences and extensions that follow from it. */
module FilterResults {
  import opened FilterIndex
  import opened FilterRules
  import opened FilterNames
  import opened FilterDecision

  /** What PostgreSQL's object identities and the catalog keys give. */
  ghost predicate Clean(c: Catalogs) {
    CatNamesDistinct(c.cat) && BaseClean(c) && ExtensionsKeyed(c)
  }

  /** An item without a description may be anything. */
  predicate MayBe(description: Option<string>, what: string) {
    description == None || description == Some(what)
  }

  /** An item of this description, under this key, is filtered out. */
  predicate FilteredAs(c: Catalogs, o: Options, catoid: nat, oid: Oid, description: Option<string>) {
    || InBase(c, catoid, oid)
    || InDepend(c, catoid, oid)
    || (InExtensions(c, o, catoid, oid) && MayBe(description, "EXTENSION"))
    || (InCollations(c, o, catoid, oid) && MayBe(description, "COLLATION"))
  }

  /** No two catalogs filter out an object with this oid. */
  ghost predicate UniqueAcross(c: Catalogs, o: Options, oid: Oid) {
    forall x, y | Filtered(c, o, x, oid) && Filtered(c, o, y, oid) :: x == y
  }

  predicate OwnerNotCloned(c: Catalogs, name: string) {
    exists i | 0 <= i < |c.sequences| :: c.sequences[i].name == name && c.sequences[i].ownedby !in c.sourceTables
  }

  predicate HasName(objects: seq<Named>, name: string) {
    exists i | 0 <= i < |objects| :: objects[i].name == name
  }

  /** A relation, or a sequence with a column default. */
  predicate NamedInBase(c: Catalogs, name: string) {
    || HasName(c.tables, name) || HasName(c.matviews, name) || HasName(c.indexes, name)
    || exists i | 0 <= i < |c.sequences| :: c.sequences[i].attroid > 0 && c.sequences[i].name == name
  }

  /** The first dependency of an object that no base selection has. */
  predicate NamedDepend(c: Catalogs, name: string) {
    exists i | 0 <= i < |c.depends| ::
      && FirstDepend(c, i) && c.depends[i].identity == name
      && !InBase(c, c.depends[i].classid, c.depends[i].objid)
  }

  predicate Ordinary(c: Catalogs, name: string) {
    OwnerNotCloned(c, name) || NamedInBase(c, name) || NamedDepend(c, name)
  }

  predicate NamedExtension(c: Catalogs, o: Options, name: string) {
    && ExtensionRule(c, o, name)
    && exists i | 0 <= i < |c.extensions| ::
         c.extensions[i].name == name && !InDepend(c, c.cat.pgExtension, c.extensions[i].oid)
  }

  predicate NamedCollation(c: Catalogs, o: Options, name: string) {
    && o.skipCollations
    && exists i | 0 <= i < |c.collations| ::
         && FirstNamed(c.collations, i) && c.collations[i].name == name
         && !InDepend(c, c.cat.pgCollation, c.collations[i].oid)
  }

  /** Some object of that name is filtered out, and may stand for such an item. */
  predicate NamedFor(c: Catalogs, o: Options, name: string, description: Option<string>) {
    || Ordinary(c, name)
    || (NamedExtension(c, o, name) && MayBe(description, "EXTENSION"))
    || (NamedCollation(c, o, name) && MayBe(description, "COLLATION"))
  }

  /** Some object of that name is filtered out, and may not stand for it. */
  predicate NamedAgainst(c: Catalogs, o: Options, name: string, description: Option<string>) {
    || (NamedExtension(c, o, name) && !MayBe(description, "EXTENSION"))
    || (NamedCollation(c, o, name) && !MayBe(description, "COLLATION"))
  }

  ghost predicate DeclaredByOid(c: Catalogs, o: Options, item: Item) {
    item.objectOid != 0 && exists catoid: nat ::
      (item.catalogOid != 0 ==> catoid == item.catalogOid)
      && FilteredAs(c, o, catoid, item.objectOid, item.description)
  }

  /** The declarative definition of the filter. */
  ghost predicate Declared(c: Catalogs, o: Options, item: Item) {
    && (item.objectOid != 0 && item.catalogOid == 0 ==> UniqueAcross(c, o, item.objectOid))
    && (|| DeclaredByOid(c, o, item)
        || (AskedByName(item) && NamedFor(c, o, item.name, item.description)))
  }

  /* ---- the rows of the finished table ---- */

  lemma {:induction false} NoOidInserts(rows: seq<Row>, more: seq<Row>, r: Row)
    requires r.oid == None
    ensures r in InsertOrIgnore(rows, more) <==> r in rows || r in more
    decreases |more|
  {
    if more != [] {
      assert more == [more[0]] + more[1..];
      NoOidInserts(if Clashes(rows, more[0]) then rows else rows + [more[0]], more[1..], r);
    }
  }

  /** The rows without an oid are the owned-by rows. */
  lemma NoOidRows(c: Catalogs, o: Options, r: Row)
    requires r.oid == None
    ensures r in Prepared(c, o) <==> r in OwnedByRows(c, |c.sequences|)
  {
    var n := |c.extensions|;
    NoOidBase(c, r);
    DependRow(c, |c.depends|, r);
    ExtensionRow(c, All, n, r);
    ExtensionRow(c, Excluded, n, r);
    var p0 := BaseRows(c);
    NoOidInserts(p0, Distinct(DependRows(c, |c.depends|)), r);
    var p1 := DependPass(c, p0);
    NoOidInserts(p1, ExtensionRows(c, All, n), r);
    var p2 := if o.skipExtensions then ExtensionPass(c, p1, All) else p1;
    NoOidInserts(p2, ExtensionRows(c, Excluded, n), r);
    var p3 := ExtensionPass(c, p2, Excluded);
    NoOidInserts(p3, ExtensionRows(c, All, n), r);
    var p5 := ExtensionPasses(c, p1, o.skipExtensions);
    OwnedByRow(c, |c.sequences|, r);
    NoOidInserts(p5, NamedRows(c.cat.pgCollation, Coll, c.collations), r);
  }

  lemma NoOidBase(c: Catalogs, r: Row)
    requires r.oid == None
    ensures r in BaseRows(c) <==> r in OwnedByRows(c, |c.sequences|)
  {
    SequenceRow(c, |c.sequences|, r);
    DefaultRow(c, |c.sequences|, r);
  }

  /** A row with an oid is in the table if and only if it is the entry of its key. */
  lemma KeyedRows(c: Catalogs, o: Options, r: Row)
    requires Clean(c) && r.oid.Some?
    ensures r in Prepared(c, o) <==> Entry(c, o, r.catoid, r.oid.value) == Some(r)
  {
    BaseUniqueExactly(c);
    PreparedFind(c, o, r.catoid, r.oid.value);
    FindExactly(Prepared(c, o), r);
  }

  lemma EntryMatches(c: Catalogs, o: Options, catoid: nat, oid: Oid, description: Option<string>)
    requires Clean(c)
    ensures var r := Entry(c, o, catoid, oid);
            r.Some? && KindMatches(r.value.kind, description) <==> FilteredAs(c, o, catoid, oid, description)
  {
    EntryExactly(c, o, catoid, oid);
  }

  /* ---- the two lookups ---- */

  lemma ByOidExactly(c: Catalogs, o: Options, item: Item)
    requires Clean(c) && item.objectOid != 0
    ensures ByOid(Prepared(c, o), item) <==>
            exists catoid: nat ::
              (item.catalogOid != 0 ==> catoid == item.catalogOid)
              && FilteredAs(c, o, catoid, item.objectOid, item.description)
  {
    var oid: Oid := item.objectOid;
    if ByOid(Prepared(c, o), item) {
      var r :| r in Prepared(c, o) && OidMatches(item, r) && KindMatches(r.kind, item.description);
      KeyedRows(c, o, r);
      EntryMatches(c, o, r.catoid, oid, item.description);
    }
    if catoid: nat :| (item.catalogOid != 0 ==> catoid == item.catalogOid)
                      && FilteredAs(c, o, catoid, oid, item.description)
    {
      EntryMatches(c, o, catoid, oid, item.description);
      EntryExactly(c, o, catoid, oid);
      KeyedRows(c, o, Entry(c, o, catoid, oid).value);
    }
  }

  lemma AtMostOneRow(c: Catalogs, o: Options, item: Item, i: nat, j: nat)
    requires Clean(c) && item.objectOid != 0
    requires item.catalogOid != 0 || UniqueAcross(c, o, item.objectOid)
    requires i < |Prepared(c, o)| && j < |Prepared(c, o)|
    requires OidMatches(item, Prepared(c, o)[i]) && OidMatches(item, Prepared(c, o)[j])
    ensures i == j
  {
    var r, q := Prepared(c, o)[i], Prepared(c, o)[j];
    BaseUniqueExactly(c);
    PreparedFind(c, o, r.catoid, item.objectOid);
    KeyedRows(c, o, r);
    KeyedRows(c, o, q);
    EntryExactly(c, o, r.catoid, item.objectOid);
    EntryExactly(c, o, q.catoid, item.objectOid);
  }

  lemma RowAt(c: Catalogs, o: Options, catoid: nat, oid: Oid) returns (i: nat)
    requires Clean(c) && Filtered(c, o, catoid, oid)
    ensures i < |Prepared(c, o)| && Keyed(Prepared(c, o)[i], catoid, oid)
  {
    EntryExactly(c, o, catoid, oid);
    var r := Entry(c, o, catoid, oid).value;
    KeyedRows(c, o, r);
    i :| 0 <= i < |Prepared(c, o)| && Prepared(c, o)[i] == r;
  }

  lemma TwoMatch(rows: seq<Row>, item: Item, i: nat, j: nat)
    requires i < |rows| && j < |rows| && i != j
    requires OidMatches(item, rows[i]) && OidMatches(item, rows[j])
    ensures !AtMostOne(rows, item)
  {
    var low, high := if i < j then i else j, if i < j then j else i;
    assert OidMatches(item, rows[low]) && OidMatches(item, rows[high]);
  }

  lemma TwoRows(c: Catalogs, o: Options, item: Item, x: nat, y: nat)
    requires Clean(c) && item.objectOid != 0 && item.catalogOid == 0 && x != y
    requires Filtered(c, o, x, item.objectOid) && Filtered(c, o, y, item.objectOid)
    ensures !AtMostOne(Prepared(c, o), item)
  {
    var i := RowAt(c, o, x, item.objectOid);
    var j := RowAt(c, o, y, item.objectOid);
    TwoMatch(Prepared(c, o), item, i, j);
  }

  /** A lookup under a full key never finds two rows; one by oid alone does if
      and only if two catalogs filter out that oid. */
  lemma AtMostOneExactly(c: Catalogs, o: Options, item: Item)
    requires Clean(c) && item.objectOid != 0
    ensures AtMostOne(Prepared(c, o), item) <==> item.catalogOid != 0 || UniqueAcross(c, o, item.objectOid)
  {
    if item.catalogOid != 0 || UniqueAcross(c, o, item.objectOid) {
      forall i, j | 0 <= i < j < |Prepared(c, o)|
        ensures !(OidMatches(item, Prepared(c, o)[i]) && OidMatches(item, Prepared(c, o)[j]))
      {
        if OidMatches(item, Prepared(c, o)[i]) && OidMatches(item, Prepared(c, o)[j]) {
          AtMostOneRow(c, o, item, i, j);
        }
      }
    } else {
      var x, y :| Filtered(c, o, x, item.objectOid) && Filtered(c, o, y, item.objectOid) && x != y;
      TwoRows(c, o, item, x, y);
    }
  }

  /* ---- the rows of one name ---- */

  /** What a row of the finished table with this name is. */
  lemma RowName(c: Catalogs, o: Options, r: Row, name: string)
    requires Clean(c) && r in Prepared(c, o) && r.name == Some(name)
    ensures match r.kind
            case Extension => NamedExtension(c, o, name)
            case Coll => NamedCollation(c, o, name)
            case _ => Ordinary(c, name)
  {
    if r.oid == None {
      NoOidRows(c, o, r);
      OwnedByRow(c, |c.sequences|, r);
    } else {
      KeyedRows(c, o, r);
      BaseUniqueExactly(c);
      EntryExactly(c, o, r.catoid, r.oid.value);
      EntryNameExactly(c, o, r.catoid, r.oid.value, name);
      NameOfKey(c, o, r.catoid, r.oid.value, name);
    }
  }

  lemma NameOfKey(c: Catalogs, o: Options, catoid: nat, oid: Oid, name: string)
    requires CatNamesDistinct(c.cat) && NameUnder(c, o, catoid, oid, name)
    ensures InBase(c, catoid, oid) ==> NamedInBase(c, name)
    ensures !InBase(c, catoid, oid) && InDepend(c, catoid, oid) ==> NamedDepend(c, name)
    ensures !InBase(c, catoid, oid) && !InDepend(c, catoid, oid) && InExtensions(c, o, catoid, oid) ==>
              NamedExtension(c, o, name)
    ensures !InBase(c, catoid, oid) && !InDepend(c, catoid, oid) && !InExtensions(c, o, catoid, oid) ==>
              NamedCollation(c, o, name) || catoid == c.cat.pgExtension
  {
  }

  /** The row under a key, where its name is known. */
  lemma RowUnder(c: Catalogs, o: Options, catoid: nat, oid: Oid, name: string) returns (r: Row)
    requires Clean(c) && NameUnder(c, o, catoid, oid, name)
    ensures r in Prepared(c, o) && r.name == Some(name) && Keyed(r, catoid, oid)
  {
    BaseUniqueExactly(c);
    EntryNameExactly(c, o, catoid, oid, name);
    EntryExactly(c, o, catoid, oid);
    r := Entry(c, o, catoid, oid).value;
    KeyedRows(c, o, r);
  }

  lemma OrdinaryRow(c: Catalogs, o: Options, name: string) returns (r: Row)
    requires Clean(c) && Ordinary(c, name)
    ensures r in Prepared(c, o) && r.name == Some(name) && r.kind != Extension && r.kind != Coll
  {
    if OwnerNotCloned(c, name) {
      r := Row(c.cat.pgClass, None, Some(name), SequenceOwnedBy);
      OwnedByRow(c, |c.sequences|, r);
      NoOidRows(c, o, r);
    } else if NamedInBase(c, name) {
      var catoid, oid := BaseKey(c, name);
      r := RowUnder(c, o, catoid, oid, name);
      KeyedRows(c, o, r);
      EntryExactly(c, o, catoid, oid);
    } else {
      var i :| 0 <= i < |c.depends| && FirstDepend(c, i) && c.depends[i].identity == name
               && !InBase(c, c.depends[i].classid, c.depends[i].objid);
      var d := c.depends[i];
      assert InDepend(c, d.classid, d.objid);
      assert DependNamed(c, d.classid, d.objid, name);
      r := RowUnder(c, o, d.classid, d.objid, name);
      KeyedRows(c, o, r);
      EntryExactly(c, o, d.classid, d.objid);
    }
  }

  lemma BaseKey(c: Catalogs, name: string) returns (catoid: nat, oid: Oid)
    requires NamedInBase(c, name)
    ensures BaseNamed(c, catoid, oid, name) && InBase(c, catoid, oid)
  {
    catoid := c.cat.pgClass;
    if i :| 0 <= i < |c.tables| && c.tables[i].name == name {
      oid := c.tables[i].oid;
      assert c.tables[i] == Named(oid, name);
    } else if i :| 0 <= i < |c.matviews| && c.matviews[i].name == name {
      oid := c.matviews[i].oid;
      assert c.matviews[i] == Named(oid, name);
    } else if i :| 0 <= i < |c.indexes| && c.indexes[i].name == name {
      oid := c.indexes[i].oid;
      assert c.indexes[i] == Named(oid, name);
    } else {
      var i :| 0 <= i < |c.sequences| && c.sequences[i].attroid > 0 && c.sequences[i].name == name;
      catoid, oid := c.cat.pgAttrdef, c.sequences[i].attroid;
    }
  }

  lemma ExtensionRowNamed(c: Catalogs, o: Options, name: string) returns (r: Row)
    requires Clean(c) && NamedExtension(c, o, name)
    ensures r in Prepared(c, o) && r.name == Some(name) && r.kind == Extension
  {
    var i :| 0 <= i < |c.extensions| && c.extensions[i].name == name
             && !InDepend(c, c.cat.pgExtension, c.extensions[i].oid);
    var oid := c.extensions[i].oid;
    assert c.extensions[i] == Named(oid, name);
    assert InExtensions(c, o, c.cat.pgExtension, oid);
    r := RowUnder(c, o, c.cat.pgExtension, oid, name);
    KeyedRows(c, o, r);
    EntryExactly(c, o, c.cat.pgExtension, oid);
  }

  lemma CollationRowNamed(c: Catalogs, o: Options, name: string) returns (r: Row)
    requires Clean(c) && NamedCollation(c, o, name)
    ensures r in Prepared(c, o) && r.name == Some(name) && r.kind == Coll
  {
    var i :| 0 <= i < |c.collations| && FirstNamed(c.collations, i) && c.collations[i].name == name
             && !InDepend(c, c.cat.pgCollation, c.collations[i].oid);
    var oid := c.collations[i].oid;
    assert c.collations[i] == Named(oid, name);
    assert CollationNamed(c, oid, name);
    r := RowUnder(c, o, c.cat.pgCollation, oid, name);
    KeyedRows(c, o, r);
    EntryExactly(c, o, c.cat.pgCollation, oid);
  }

  lemma KindIs(kind: Kind, description: Option<string>)
    ensures kind == Extension ==> (KindMatches(kind, description) <==> MayBe(description, "EXTENSION"))
    ensures kind == Coll ==> (KindMatches(kind, description) <==> MayBe(description, "COLLATION"))
    ensures kind != Extension && kind != Coll ==> KindMatches(kind, description)
  {
  }

  lemma RowSpeaks(c: Catalogs, o: Options, r: Row, name: string, description: Option<string>)
    requires Clean(c) && r in Prepared(c, o) && r.name == Some(name)
    ensures if KindMatches(r.kind, description) then NamedFor(c, o, name, description)
            else NamedAgainst(c, o, name, description)
  {
    KindIs(r.kind, description);
    RowName(c, o, r, name);
  }

  lemma RowFor(c: Catalogs, o: Options, name: string, description: Option<string>) returns (r: Row)
    requires Clean(c) && NamedFor(c, o, name, description)
    ensures r in Prepared(c, o) && r.name == Some(name) && KindMatches(r.kind, description)
  {
    if Ordinary(c, name) {
      r := OrdinaryRow(c, o, name);
    } else if NamedExtension(c, o, name) && MayBe(description, "EXTENSION") {
      r := ExtensionRowNamed(c, o, name);
    } else {
      r := CollationRowNamed(c, o, name);
    }
    KindIs(r.kind, description);
  }

  lemma RowAgainst(c: Catalogs, o: Options, name: string, description: Option<string>) returns (r: Row)
    requires Clean(c) && NamedAgainst(c, o, name, description)
    ensures r in Prepared(c, o) && r.name == Some(name) && !KindMatches(r.kind, description)
  {
    if NamedExtension(c, o, name) && !MayBe(description, "EXTENSION") {
      r := ExtensionRowNamed(c, o, name);
    } else {
      r := CollationRowNamed(c, o, name);
    }
    KindIs(r.kind, description);
  }

  /** Rows of that name that match the item, and rows that do not. */
  lemma NamesExactly(c: Catalogs, o: Options, name: string, description: Option<string>)
    requires Clean(c)
    ensures (exists r :: r in Prepared(c, o) && r.name == Some(name) && KindMatches(r.kind, description)) <==>
            NamedFor(c, o, name, description)
    ensures (exists r :: r in Prepared(c, o) && r.name == Some(name) && !KindMatches(r.kind, description)) <==>
            NamedAgainst(c, o, name, description)
  {
    if r :| r in Prepared(c, o) && r.name == Some(name) && KindMatches(r.kind, description) {
      RowSpeaks(c, o, r, name, description);
    }
    if r :| r in Prepared(c, o) && r.name == Some(name) && !KindMatches(r.kind, description) {
      RowSpeaks(c, o, r, name, description);
    }
    if NamedFor(c, o, name, description) {
      var r := RowFor(c, o, name, description);
    }
    if NamedAgainst(c, o, name, description) {
      var r := RowAgainst(c, o, name, description);
    }
  }

  lemma ByNameExactly(c: Catalogs, o: Options, item: Item)
    requires Clean(c) && AskedByName(item)
    ensures ByName(Prepared(c, o), item) <==> NamedFor(c, o, item.name, item.description)
  {
    NamesExactly(c, o, item.name, item.description);
    assert forall r :: NameMatches(item, r) <==> r.name == Some(item.name);
  }

  /** The rows of that name agree if and only if the catalogs do not have some
      that stand for the item and some that do not. */
  lemma AgreeExactly(c: Catalogs, o: Options, item: Item)
    requires Clean(c)
    ensures Agree(Prepared(c, o), item) <==>
            !(NamedFor(c, o, item.name, item.description) && NamedAgainst(c, o, item.name, item.description))
  {
    NamesExactly(c, o, item.name, item.description);
    assert forall r :: NameMatches(item, r) <==> r.name == Some(item.name);
  }

  /** Over the catalogs: the row that LIMIT 1 picks never matters if and only if
      objects of that name do not speak both for and against the item, or it is
      not asked by name, or its oid settles the answer: the object itself is
      filtered out, or two catalogs filter out an oid given alone. */
  lemma LimitOneOverCatalogs(c: Catalogs, o: Options, item: Item)
    requires Clean(c)
    ensures (forall p, q | CanPick(Prepared(c, o), item, p) && CanPick(Prepared(c, o), item, q) ::
               AnswerWith(Prepared(c, o), item, p) == AnswerWith(Prepared(c, o), item, q))
            <==> || !NamedFor(c, o, item.name, item.description)
                 || !NamedAgainst(c, o, item.name, item.description)
                 || !AskedByName(item)
                 || DeclaredByOid(c, o, item)
                 || (item.objectOid != 0 && item.catalogOid == 0 && !UniqueAcross(c, o, item.objectOid))
  {
    LimitOneExactly(Prepared(c, o), item);
    AgreeExactly(c, o, item);
    if item.objectOid != 0 {
      ByOidExactly(c, o, item);
      AtMostOneExactly(c, o, item);
    }
  }

  lemma FilteredOutExactly(c: Catalogs, o: Options, item: Item)
    requires Clean(c)
    ensures Answer(Prepared(c, o), item) <==> Declared(c, o, item)
  {
    if item.objectOid != 0 {
      ByOidExactly(c, o, item);
      AtMostOneExactly(c, o, item);
    }
    if AskedByName(item) {
      ByNameExactly(c, o, item);
    }
  }

  /** For every archive item: some choice of LIMIT 1 filters it out if and only
      if the declarative definition does. */
  lemma SomePickExactly(c: Catalogs, o: Options, item: Item)
    requires Clean(c)
    ensures (exists pick :: CanPick(Prepared(c, o), item, pick) && AnswerWith(Prepared(c, o), item, pick)) <==>
            Declared(c, o, item)
  {
    var rows := Prepared(c, o);
    FilteredOutExactly(c, o, item);
    if Answer(rows, item) {
      if ByOid(rows, item) {
        var pick := SomePick(rows, item);
        assert AnswerWith(rows, item, pick);
      } else {
        var r :| r in rows && NameMatches(item, r) && KindMatches(r.kind, item.description);
        assert CanPick(rows, item, Some(r)) && AnswerWith(rows, item, Some(r));
      }
    }
  }

  /** ... and every choice does if and only if, besides, the item is filtered out
      by its oid, or nothing of its name speaks against it. */
  lemma EveryPickExactly(c: Catalogs, o: Options, item: Item)
    requires Clean(c)
    ensures (forall pick | CanPick(Prepared(c, o), item, pick) :: AnswerWith(Prepared(c, o), item, pick)) <==>
            && Declared(c, o, item)
            && (DeclaredByOid(c, o, item) || !NamedAgainst(c, o, item.name, item.description))
  {
    var rows := Prepared(c, o);
    SomePickExactly(c, o, item);
    var some := SomePick(rows, item);
    NamesExactly(c, o, item.name, item.description);
    if item.objectOid != 0 {
      ByOidExactly(c, o, item);
      AtMostOneExactly(c, o, item);
    }
    if NamedAgainst(c, o, item.name, item.description) {
      var r :| r in rows && r.name == Some(item.name) && !KindMatches(r.kind, item.description);
      assert CanPick(rows, item, Some(r));
    } else if AskedByName(item) && NamedFor(c, o, item.name, item.description) {
      var r :| r in rows && r.name == Some(item.name) && KindMatches(r.kind, item.description);
      assert NameMatches(item, r) && !CanPick(rows, item, None);
    }
  }

  /** The answer of the two lookups, wherever what the catalogs have under the
      item's name agrees: exactly the declarative definition. */
  lemma AnswerExactly(c: Catalogs, o: Options, item: Item, pick: Option<Row>)
    requires Clean(c) && CanPick(Prepared(c, o), item, pick)
    requires !(NamedFor(c, o, item.name, item.description) && NamedAgainst(c, o, item.name, item.description))
    ensures AnswerWith(Prepared(c, o), item, pick) <==> Declared(c, o, item)
  {
    SomePickExactly(c, o, item);
    EveryPickExactly(c, o, item);
  }

  /* ---- sequences ---- */

  function SequenceItem(c: Catalogs, oid: Oid, description: Option<string>, name: string): Item {
    Item(c.cat.pgClass, oid, description, true, name)
  }

  /** A SEQUENCE whose sequence is in the source selection is never filtered
      out, whatever dependency, default or owned-by rows mention it. */
  lemma SelectedSequenceKept(c: Catalogs, o: Options, oid: Oid, description: Option<string>, name: string)
    requires Clean(c) && oid in c.sourceSequences && !IsRelation(c, oid)
    ensures !Answer(Prepared(c, o), SequenceItem(c, oid, description, name))
  {
    FilteredOutExactly(c, o, SequenceItem(c, oid, description, name));
  }

  /** Every other SEQUENCE of the filter catalog is filtered out. */
  lemma SkippedSequenceFiltered(c: Catalogs, o: Options, i: nat, description: Option<string>, name: string)
    requires Clean(c) && i < |c.sequences| && c.sequences[i].oid !in c.sourceSequences
    ensures Answer(Prepared(c, o), SequenceItem(c, c.sequences[i].oid, description, name))
  {
    FilteredOutExactly(c, o, SequenceItem(c, c.sequences[i].oid, description, name));
    assert Skipped(c, c.sequences[i].oid);
    assert FilteredAs(c, o, c.cat.pgClass, c.sequences[i].oid, description);
  }

  /** SEQUENCE OWNED BY has neither oid in the TOC. */
  function OwnedByItem(name: string): Item {
    Item(0, 0, Some("SEQUENCE OWNED BY"), false, name)
  }

  /** A SEQUENCE OWNED BY item is filtered out by some choice of LIMIT 1 exactly
      when an owner of the sequence is not cloned, or a relation, a sequence with
      a column default, or a dependency that counts has its name; and by every
      choice exactly when, besides, no extension or collation of the table does. */
  lemma OwnedByExactly(c: Catalogs, o: Options, name: string)
    requires Clean(c) && name != ""
    ensures var rows, item := Prepared(c, o), OwnedByItem(name);
            && ((exists pick :: CanPick(rows, item, pick) && AnswerWith(rows, item, pick)) <==>
                  OwnerNotCloned(c, name) || NamedInBase(c, name) || NamedDepend(c, name))
            && ((forall pick | CanPick(rows, item, pick) :: AnswerWith(rows, item, pick)) <==>
                  && (OwnerNotCloned(c, name) || NamedInBase(c, name) || NamedDepend(c, name))
                  && !NamedExtension(c, o, name) && !NamedCollation(c, o, name))
  {
    SomePickExactly(c, o, OwnedByItem(name));
    EveryPickExactly(c, o, OwnedByItem(name));
    assert "SEQUENCE OWNED BY" != "EXTENSION" && "SEQUENCE OWNED BY" != "COLLATION";
  }

  /** ... so it is filtered out whenever the owner table is not cloned. */
  lemma OwnedByFiltered(c: Catalogs, o: Options, i: nat, pick: Option<Row>)
    requires Clean(c) && i < |c.sequences| && c.sequences[i].ownedby !in c.sourceTables
    requires c.sequences[i].name != ""
    requires !NamedExtension(c, o, c.sequences[i].name) && !NamedCollation(c, o, c.sequences[i].name)
    requires CanPick(Prepared(c, o), OwnedByItem(c.sequences[i].name), pick)
    ensures AnswerWith(Prepared(c, o), OwnedByItem(c.sequences[i].name), pick)
  {
    OwnedByExactly(c, o, c.sequences[i].name);
  }

  /** The converse fails: the row of the column default carries the name of the
      sequence, and takes the OWNED BY of a cloned owner away with it. */
  lemma DefaultTakesOwnedBy(c: Catalogs, o: Options, i: nat, pick: Option<Row>)
    requires Clean(c) && i < |c.sequences| && c.sequences[i].attroid > 0
    requires c.sequences[i].name != ""
    requires !NamedExtension(c, o, c.sequences[i].name) && !NamedCollation(c, o, c.sequences[i].name)
    requires CanPick(Prepared(c, o), OwnedByItem(c.sequences[i].name), pick)
    ensures AnswerWith(Prepared(c, o), OwnedByItem(c.sequences[i].name), pick)
  {
    OwnedByExactly(c, o, c.sequences[i].name);
  }

  /** A filter catalog with one sequence, of table 20, which is cloned. */
  lemma OneSequence(name: string) returns (c: Catalogs)
    ensures Clean(c) && c.sequences == [Seq(10, 20, 30, name)] && c.sourceTables == {20}
    ensures c.extensions == [] && c.collations == []
  {
    c := Catalogs(CatNames(1259, 2606, 2604, 3079, 3456), [], [], [], [], [Seq(10, 20, 30, name)],
                  [], [], [], map[], {10}, {20});
  }

  /** One such sequence: its owner, table 20, is cloned, and its OWNED BY item is
      filtered out all the same. */
  lemma ClonedOwnerLosesOwnedBy() returns (c: Catalogs)
    ensures Clean(c) && |c.sequences| == 1 && !OwnerNotCloned(c, "public id_seq postgres")
    ensures c.sequences[0].name == "public id_seq postgres" && c.sequences[0].ownedby in c.sourceTables
    ensures forall o, pick | CanPick(Prepared(c, o), OwnedByItem("public id_seq postgres"), pick) ::
              AnswerWith(Prepared(c, o), OwnedByItem("public id_seq postgres"), pick)
  {
    var name := "public id_seq postgres";
    c := OneSequence(name);
    assert c.sequences[0].attroid == 30;
    forall o, pick | CanPick(Prepared(c, o), OwnedByItem(name), pick)
      ensures AnswerWith(Prepared(c, o), OwnedByItem(name), pick)
    {
      DefaultTakesOwnedBy(c, o, 0, pick);
    }
  }

  /* ---- extensions ---- */

  /** An extension that no dependency row keys: the five passes end with it
      filtered out if and only if it is not listed include-only and all of them
      are skipped, or it is excluded, or some extension is listed include-only;
      and no entry of another kind ever is. */
  lemma ExtensionExactly(c: Catalogs, o: Options, i: nat, description: Option<string>, isSequence: bool,
                         name: string)
    requires Clean(c) && i < |c.extensions| && !InDepend(c, c.cat.pgExtension, c.extensions[i].oid)
    ensures var e := c.extensions[i];
            ByOid(Prepared(c, o), Item(c.cat.pgExtension, e.oid, description, isSequence, name)) <==>
            && description in {None, Some("EXTENSION")}
            && (e.name, IncludeOnly) !in c.extensionFilter.Items
            && (|| o.skipExtensions
                || (e.name, Exclude) in c.extensionFilter.Items
                || IncludeOnly in c.extensionFilter.Values)
  {
    var e := c.extensions[i];
    ByOidExactly(c, o, Item(c.cat.pgExtension, e.oid, description, isSequence, name));
    assert InExtensions(c, o, c.cat.pgExtension, e.oid) <==> ExtensionRule(c, o, e.name) by {
      if InExtensions(c, o, c.cat.pgExtension, e.oid) {
        var j :| 0 <= j < |c.extensions| && c.extensions[j].oid == e.oid && ExtensionRule(c, o, c.extensions[j].name);
        assert j == i;
      }
    }
    if ExtensionRule(c, o, e.name) {
      assert FilteredAs(c, o, c.cat.pgExtension, e.oid, description) <==> description in {None, Some("EXTENSION")};
    }
  }

  /* ---- which items a row speaks for ---- */

  /** An item with its catalog and oid, and no name: an extension's row speaks for
      extensions only, a collation's for collations only, any other row for all. */
  lemma KindsExactly(c: Catalogs, o: Options, catoid: nat, oid: Oid, description: Option<string>, isSequence: bool)
    requires Clean(c) && catoid != 0
    ensures Answer(Prepared(c, o), Item(catoid, oid, description, isSequence, "")) <==>
            || InBase(c, catoid, oid)
            || InDepend(c, catoid, oid)
            || (InExtensions(c, o, catoid, oid) && description in {None, Some("EXTENSION")})
            || (InCollations(c, o, catoid, oid) && description in {None, Some("COLLATION")})
  {
    var item := Item(catoid, oid, description, isSequence, "");
    FilteredOutExactly(c, o, item);
    assert FilteredAs(c, o, catoid, oid, description) <==> DeclaredByOid(c, o, item);
  }

  /** A collation that no dependency row keys: its entry is filtered out if and
      only if collations are skipped, and no entry of another kind ever is. */
  lemma CollationExactly(c: Catalogs, o: Options, i: nat, description: Option<string>, isSequence: bool)
    requires Clean(c) && i < |c.collations| && !InDepend(c, c.cat.pgCollation, c.collations[i].oid)
    ensures Answer(Prepared(c, o), Item(c.cat.pgCollation, c.collations[i].oid, description, isSequence, "")) <==>
            o.skipCollations && description in {None, Some("COLLATION")}
  {
    KindsExactly(c, o, c.cat.pgCollation, c.collations[i].oid, description, isSequence);
  }

  /** The same for items known by their name alone, when one kind of object has
      it, whichever row LIMIT 1 picks. */
  lemma NameKindsExactly(c: Catalogs, o: Options, name: string, description: Option<string>, pick: Option<Row>)
    requires Clean(c) && name != ""
    requires CanPick(Prepared(c, o), Item(0, 0, description, false, name), pick)
    ensures var answer := AnswerWith(Prepared(c, o), Item(0, 0, description, false, name), pick);
            var plain, extension, coll :=
              Ordinary(c, name), NamedExtension(c, o, name), NamedCollation(c, o, name);
            && (plain && !extension && !coll ==> answer)
            && (extension && !plain && !coll ==> (answer <==> description in {None, Some("EXTENSION")}))
            && (coll && !plain && !extension ==> (answer <==> description in {None, Some("COLLATION")}))
            && (!plain && !extension && !coll ==> !answer)
  {
    NamesExactly(c, o, name, description);
    if pick.Some? {
      assert pick.value in Prepared(c, o) && pick.value.name == Some(name);
    }
  }
}
