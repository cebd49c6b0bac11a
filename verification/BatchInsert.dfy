/** Multi-row INSERT statements, cut so that none has more parameters than the
    database allows; they are worth one INSERT per row. */
module BatchInsert {

  const NCOLS_S_CONSTRAINT: nat := 6

  datatype Value = Null | Int(i: int) | Text(s: string)

  type Row = seq<Value>

  ghost predicate Shaped(rows: seq<Row>, ncols: nat) {
    forall r | 0 <= r < |rows| :: |rows[r]| == ncols
  }

  /** The parameter number of column c of row r. */
  function Number(ncols: nat, r: nat, c: nat): nat {
    r * ncols + c + 1
  }

  lemma NumberFits(ncols: nat, rows: nat, r: nat, c: nat)
    requires r < rows && c < ncols
    ensures 1 <= Number(ncols, r, c) <= rows * ncols
  {
    assert (r + 1) * ncols <= rows * ncols;
  }

  /** Placeholders and parameters are in bijection. */
  lemma NumberInjective(ncols: nat, r: nat, c: nat, s: nat, d: nat)
    requires c < ncols && d < ncols && Number(ncols, r, c) == Number(ncols, s, d)
    ensures r == s && c == d
  {
    assert r < s ==> (r + 1) * ncols <= s * ncols;
    assert s < r ==> (s + 1) * ncols <= r * ncols;
  }

  lemma {:induction false} NumberOnto(ncols: nat, rows: nat, n: nat) returns (r: nat, c: nat)
    requires 1 <= n <= rows * ncols
    ensures r < rows && c < ncols && Number(ncols, r, c) == n
  {
    if n > (rows - 1) * ncols {
      r, c := rows - 1, n - 1 - (rows - 1) * ncols;
    } else {
      r, c := NumberOnto(ncols, rows - 1, n);
    }
  }

  /** A prepared statement: the placeholders of each tuple, and its parameters by
      number (slot zero is not used), NULL until they are bound. */
  class Statement {
    const ncols: nat
    const tuples: seq<seq<nat>>
    const slots: array<Value>

    ghost predicate Valid()
      reads this
    {
      && slots.Length == |tuples| * ncols + 1
      && forall r | 0 <= r < |tuples| ::
           |tuples[r]| == ncols && forall c | 0 <= c < ncols :: tuples[r][c] == Number(ncols, r, c)
    }

    /** The text of the statement, built tuple by tuple. */
    constructor (ncols: nat, rows: nat)
      ensures Valid() && this.ncols == ncols && |tuples| == rows
      ensures fresh(slots) && forall n | 0 <= n < slots.Length :: slots[n] == Null
    {
      var text: seq<seq<nat>> := [];
      var paramIdx := 1;
      for r := 0 to rows
        invariant |text| == r && paramIdx == r * ncols + 1
        invariant forall q | 0 <= q < r ::
                    |text[q]| == ncols && forall c | 0 <= c < ncols :: text[q][c] == Number(ncols, q, c)
      {
        text := text + [seq(ncols, c requires 0 <= c < ncols => paramIdx + c)];
        paramIdx := paramIdx + ncols;
      }
      this.ncols, tuples := ncols, text;
      slots := new Value[rows * ncols + 1](_ => Null);
    }

    ghost predicate Bound(rows: seq<Row>, start: nat, n: nat)
      requires Valid() && n <= |tuples| && start + n <= |rows|
      reads this, slots
    {
      forall r, c | 0 <= r < n && 0 <= c < ncols ::
        && Number(ncols, r, c) < slots.Length
        && c < |rows[start + r]|
        && slots[Number(ncols, r, c)] == rows[start + r][c]
    }

    /** Binds one row: no other row's parameters are touched. */
    method Bind(r: nat, row: Row, ghost rows: seq<Row>, ghost start: nat)
      requires Valid() && r < |tuples| && |row| == ncols
      requires start + r < |rows| && rows[start + r] == row && Bound(rows, start, r)
      modifies slots
      ensures Valid() && Bound(rows, start, r + 1)
      ensures forall n | 0 <= n < slots.Length && !(r * ncols < n <= r * ncols + ncols) :: slots[n] == old(slots[n])
    {
      var base := r * ncols + 1;
      for c := 0 to ncols
        invariant Bound(rows, start, r)
        invariant forall n | 0 <= n < slots.Length && !(r * ncols < n <= r * ncols + c) :: slots[n] == old(slots[n])
        invariant forall d | 0 <= d < c ::
                    Number(ncols, r, d) < slots.Length && slots[Number(ncols, r, d)] == row[d]
      {
        NumberFits(ncols, |tuples|, r, c);
        forall q, d | 0 <= q < r && 0 <= d < ncols
          ensures Number(ncols, q, d) != base + c
        {
          if Number(ncols, q, d) == Number(ncols, r, c) {
            NumberInjective(ncols, q, d, r, c);
          }
        }
        slots[base + c] := row[c];
      }
    }
  }

  /** What SQLite does with a bound statement: all its rows, or none. */
  class Database {
    const maxVars: nat
    var table: seq<Row>
    ghost var statements: seq<nat>
    ghost var failures: nat

    constructor (maxVars: nat)
      ensures this.maxVars == maxVars && table == [] && statements == [] && failures == 0
    {
      this.maxVars, table, statements, failures := maxVars, [], [], 0;
    }

    ghost predicate WithinLimit()
      reads this
    {
      forall i | 0 <= i < |statements| :: statements[i] <= maxVars
    }

    method Execute(stmt: Statement, ghost rows: seq<Row>, ghost start: nat) returns (ok: bool)
      requires stmt.Valid() && start + |stmt.tuples| <= |rows| && Shaped(rows, stmt.ncols)
      requires stmt.Bound(rows, start, |stmt.tuples|)
      requires |stmt.tuples| * stmt.ncols <= maxVars && WithinLimit()
      modifies this
      ensures table == old(table) + (if ok then rows[start..start + |stmt.tuples|] else [])
      ensures ok <==> |stmt.tuples| > 0 && failures == old(failures)
      ensures statements == old(statements) + if |stmt.tuples| > 0 then [|stmt.tuples| * stmt.ncols] else []
      ensures WithinLimit()
    {
      // "insert into ... values" without a tuple does not prepare
      if |stmt.tuples| == 0 {
        return false;
      }
      statements := statements + [|stmt.tuples| * stmt.ncols];
      ok := *;
      if !ok {
        failures := failures + 1;
      } else {
        var more: seq<Row> := [];
        for r := 0 to |stmt.tuples|
          invariant more == rows[start..start + r]
          modifies {}
        {
          var row: Row := [];
          for c := 0 to stmt.ncols
            invariant row == rows[start + r][..c]
            modifies {}
          {
            NumberFits(stmt.ncols, |stmt.tuples|, r, c);
            row := row + [stmt.slots[stmt.tuples[r][c]]];
          }
          assert rows[start + r][..stmt.ncols] == rows[start + r];
          more := more + [row];
        }
        table := table + more;
      }
    }

    method InsertOne(row: Row) returns (ok: bool)
      modifies this`table, this`failures
      ensures table == old(table) + (if ok then [row] else [])
      ensures failures == old(failures) + (if ok then 0 else 1)
    {
      ok := *;
      if ok {
        table := table + [row];
      } else {
        failures := failures + 1;
      }
    }

    /** catalog_add_s_table_batch, catalog_add_s_attr_batch and
        catalog_add_s_index_batch (11, 10 and 11 columns): worth inserting the
        rows one by one, in as few statements as the limit allows. Where not even
        one row fits it, the statement has no tuple, and does not prepare. */
    method AddBatch(ncols: nat, rows: seq<Row>) returns (ok: bool)
      requires 0 < ncols && Shaped(rows, ncols) && WithinLimit()
      modifies this
      ensures ok <==> failures == old(failures) && (rows == [] || ncols <= maxVars)
      ensures ok ==> table == old(table) + rows
      ensures ok && rows != [] ==> |statements| == |old(statements)| + Needed(|rows|, maxVars / ncols)
      ensures !ok ==> exists k :: 0 <= k < |rows| && table == old(table) + rows[..k]
      ensures maxVars < ncols && rows != [] ==> !ok && table == old(table)
      ensures WithinLimit()
    {
      var batchSize := maxVars / ncols;
      var offset := 0;
      while offset < |rows|
        invariant 0 <= offset && WithinLimit() && failures == old(failures)
        invariant batchSize > 0 ==>
                    |statements| + Needed(if offset < |rows| then |rows| - offset else 0, batchSize)
                    == |old(statements)| + Needed(|rows|, batchSize)
        invariant table == old(table) + rows[..if offset < |rows| then offset else |rows|]
        invariant maxVars < ncols ==> offset == 0
        decreases |rows| - offset
      {
        var n := if |rows| - offset > batchSize then batchSize else |rows| - offset;
        BatchFits(maxVars, ncols);
        var stmt := PrepareAndBind(ncols, rows, offset, n);
        assert |stmt.tuples| * stmt.ncols <= maxVars;
        ok := Execute(stmt, rows, offset);
        if !ok {
          return;
        }
        assert rows[..offset] + rows[offset..offset + n] == rows[..offset + n];
        offset := offset + batchSize;
      }
      assert rows[..|rows|] == rows;
      ok := true;
    }
  }

  /** How many statements of at most size rows each hold these rows. */
  function Needed(rows: nat, size: nat): nat
    requires size > 0
  {
    if rows == 0 then 0 else if rows <= size then 1 else 1 + Needed(rows - size, size)
  }

  /** No fewer do. */
  lemma {:induction false} NeededIsLeast(rows: nat, size: nat, count: nat)
    requires size > 0
    ensures rows <= count * size <==> count >= Needed(rows, size)
  {
    if rows > size {
      if count > 0 {
        NeededIsLeast(rows - size, size, count - 1);
        assert count * size == (count - 1) * size + size;
      }
    } else if count > 0 {
      assert count * size == (count - 1) * size + size;
    }
  }

  lemma BatchFits(maxVars: nat, ncols: nat)
    requires 0 < ncols
    ensures maxVars / ncols >= 1 <==> ncols <= maxVars
    ensures forall n: nat | n <= maxVars / ncols :: n * ncols <= maxVars
  {
    var size := maxVars / ncols;
    assert size * ncols <= maxVars;
    forall n: nat | n <= size
      ensures n * ncols <= maxVars
    {
      assert n * ncols <= size * ncols;
    }
  }

  method PrepareAndBind(ncols: nat, rows: seq<Row>, offset: nat, n: nat) returns (stmt: Statement)
    requires Shaped(rows, ncols) && offset + n <= |rows|
    ensures fresh(stmt) && fresh(stmt.slots) && stmt.Valid() && stmt.ncols == ncols && |stmt.tuples| == n
    ensures stmt.Bound(rows, offset, n)
  {
    stmt := new Statement(ncols, n);
    for r := 0 to n
      invariant stmt.Valid() && stmt.Bound(rows, offset, r)
      modifies stmt.slots
    {
      stmt.Bind(r, rows[offset + r], rows, offset);
    }
  }

  /* ---- the constraints of a list of indexes ---- */

  /** constraintOid is zero for an index that has no constraint. */
  datatype Index = Index(constraintOid: nat, row: Row)

  function WithConstraint(indexes: seq<Index>): seq<Row> {
    if indexes == [] then []
    else
      var n := |indexes| - 1;
      WithConstraint(indexes[..n]) + (if indexes[n].constraintOid != 0 then [indexes[n].row] else [])
  }

  /** The rows of a prefix are a prefix of the rows. */
  lemma {:induction false} WithConstraintPrefix(indexes: seq<Index>, i: nat)
    requires i <= |indexes|
    ensures |WithConstraint(indexes[..i])| <= |WithConstraint(indexes)|
    ensures WithConstraint(indexes)[..|WithConstraint(indexes[..i])|] == WithConstraint(indexes[..i])
    decreases |indexes|
  {
    if i == |indexes| {
      assert indexes[..i] == indexes;
    } else {
      var n := |indexes| - 1;
      WithConstraintPrefix(indexes[..n], i);
      assert indexes[..n][..i] == indexes[..i];
    }
  }

  lemma {:induction false} WithConstraintShaped(indexes: seq<Index>, ncols: nat)
    requires forall i | 0 <= i < |indexes| :: |indexes[i].row| == ncols
    ensures Shaped(WithConstraint(indexes), ncols)
  {
    if indexes != [] {
      WithConstraintShaped(indexes[..|indexes| - 1], ncols);
    }
  }

  lemma {:induction false} WithConstraintNone(indexes: seq<Index>)
    ensures WithConstraint(indexes) == [] <==> forall i | 0 <= i < |indexes| :: indexes[i].constraintOid == 0
  {
    if indexes != [] {
      WithConstraintNone(indexes[..|indexes| - 1]);
    }
  }

  /** One step of the walk over the list. */
  lemma WithConstraintNext(indexes: seq<Index>, i: nat)
    requires i < |indexes|
    ensures WithConstraint(indexes[..i + 1]) ==
            WithConstraint(indexes[..i]) + (if indexes[i].constraintOid != 0 then [indexes[i].row] else [])
    ensures |WithConstraint(indexes[..i + 1])| <= |WithConstraint(indexes)|
    ensures indexes[i].constraintOid != 0 ==>
              |WithConstraint(indexes[..i])| < |WithConstraint(indexes)|
              && WithConstraint(indexes)[|WithConstraint(indexes[..i])|] == indexes[i].row
  {
    assert indexes[..i + 1][..i] == indexes[..i];
    WithConstraintPrefix(indexes, i + 1);
    var before, all := WithConstraint(indexes[..i]), WithConstraint(indexes);
    if indexes[i].constraintOid != 0 {
      assert all[..|before| + 1][|before|] == indexes[i].row;
    }
  }

  method CountConstraints(indexes: seq<Index>) returns (conCount: nat)
    ensures conCount == |WithConstraint(indexes)|
  {
    conCount := 0;
    for i := 0 to |indexes|
      invariant conCount == |WithConstraint(indexes[..i])|
    {
      WithConstraintNext(indexes, i);
      if indexes[i].constraintOid != 0 {
        conCount := conCount + 1;
      }
    }
    assert indexes[..|indexes|] == indexes;
  }

  /** One batch: walks the list from its start, goes past what prior batches
      emitted, and binds the next rows. The list never runs out before that. */
  method BindConstraints(indexes: seq<Index>, conOffset: nat, rows: nat) returns (stmt: Statement)
    requires forall i | 0 <= i < |indexes| :: |indexes[i].row| == NCOLS_S_CONSTRAINT
    requires conOffset + rows <= |WithConstraint(indexes)|
    ensures fresh(stmt) && fresh(stmt.slots) && stmt.Valid()
    ensures stmt.ncols == NCOLS_S_CONSTRAINT && |stmt.tuples| == rows
    ensures stmt.Bound(WithConstraint(indexes), conOffset, rows)
  {
    stmt := new Statement(NCOLS_S_CONSTRAINT, rows);
    ghost var cons := WithConstraint(indexes);
    var r, srcIdx, skipped := 0, 0, 0;
    while r < rows
      invariant 0 <= r <= rows && 0 <= srcIdx <= |indexes| && skipped <= conOffset
      invariant |WithConstraint(indexes[..srcIdx])| == skipped + r && (r > 0 ==> skipped == conOffset)
      invariant stmt.Valid() && stmt.Bound(cons, conOffset, r)
      modifies stmt.slots
      decreases |indexes| - srcIdx
    {
      assert indexes[..|indexes|] == indexes;
      assert srcIdx < |indexes|;
      WithConstraintNext(indexes, srcIdx);
      var idx := indexes[srcIdx];
      srcIdx := srcIdx + 1;
      if idx.constraintOid == 0 {
        continue;
      }
      if skipped < conOffset {
        skipped := skipped + 1;
        continue;
      }
      stmt.Bind(r, idx.row, cons, conOffset);
      r := r + 1;
    }
  }

  /** catalog_add_s_constraint_batch: exactly the rows of the indexes that have a
      constraint, in order, once each. */
  method AddConstraintBatch(db: Database, indexes: seq<Index>) returns (ok: bool)
    requires db.WithinLimit()
    requires forall i | 0 <= i < |indexes| :: |indexes[i].row| == NCOLS_S_CONSTRAINT
    modifies db
    ensures ok <==> db.failures == old(db.failures)
                    && ((forall i | 0 <= i < |indexes| :: indexes[i].constraintOid == 0) || db.maxVars >= 6)
    ensures ok && db.maxVars >= 6 ==>
              |db.statements| == |old(db.statements)| + Needed(|WithConstraint(indexes)|, db.maxVars / 6)
    ensures ok ==> db.table == old(db.table) + WithConstraint(indexes)
    ensures !ok ==> exists k :: 0 <= k < |WithConstraint(indexes)|
                                && db.table == old(db.table) + WithConstraint(indexes)[..k]
    ensures db.WithinLimit()
  {
    var conCount := CountConstraints(indexes);
    var batchSize := db.maxVars / NCOLS_S_CONSTRAINT;
    BatchFits(db.maxVars, NCOLS_S_CONSTRAINT);
    WithConstraintShaped(indexes, NCOLS_S_CONSTRAINT);
    WithConstraintNone(indexes);
    ghost var cons := WithConstraint(indexes);
    var conOffset := 0;
    while conOffset < conCount
      invariant 0 <= conOffset <= conCount && db.WithinLimit() && db.failures == old(db.failures)
      invariant conOffset > 0 ==> batchSize > 0
      invariant batchSize > 0 ==>
                  |db.statements| + Needed(conCount - conOffset, batchSize)
                  == |old(db.statements)| + Needed(conCount, batchSize)
      invariant db.table == old(db.table) + cons[..conOffset]
      decreases conCount - conOffset
    {
      var rows := if conCount - conOffset > batchSize then batchSize else conCount - conOffset;
      var stmt := BindConstraints(indexes, conOffset, rows);
      assert |stmt.tuples| * stmt.ncols <= db.maxVars;
      ok := db.Execute(stmt, cons, conOffset);
      if !ok {
        return;
      }
      assert cons[..conOffset] + cons[conOffset..conOffset + rows] == cons[..conOffset + rows];
      conOffset := conOffset + rows;
    }
    assert cons[..conOffset] == cons;
    ok := true;
  }

  /** The loop of single inserts that the batch refines: catalog_add_s_constraint
      for each index that has a constraint, up to the first failure. */
  method AddOneByOne(db: Database, indexes: seq<Index>) returns (ok: bool)
    requires forall i | 0 <= i < |indexes| :: |indexes[i].row| == NCOLS_S_CONSTRAINT
    modifies db
    ensures ok <==> db.failures == old(db.failures)
    ensures ok ==> db.table == old(db.table) + WithConstraint(indexes)
    ensures !ok ==> exists k :: 0 <= k < |WithConstraint(indexes)|
                                && db.table == old(db.table) + WithConstraint(indexes)[..k]
  {
    for i := 0 to |indexes|
      invariant db.table == old(db.table) + WithConstraint(indexes[..i])
      invariant db.failures == old(db.failures)
    {
      WithConstraintNext(indexes, i);
      if indexes[i].constraintOid != 0 {
        ok := db.InsertOne(indexes[i].row);
        if !ok {
          WithConstraintPrefix(indexes, i);
          assert db.table == old(db.table) + WithConstraint(indexes)[..|WithConstraint(indexes[..i])|];
          return;
        }
      }
    }
    assert indexes[..|indexes|] == indexes;
    ok := true;
  }
}
