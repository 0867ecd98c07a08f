/** The primary-key map of `SlotReader.primary_key_map`: the fetched catalog
    rows become `PrimaryKeyMapItem` records, which a dict comprehension then
    keys by table name. One item per table survives: the last one fetched. */
module PrimaryKeys {
  import opened PgErrors

  /** One row of the catalog query: the schema-qualified table name, then the
      key column's name, data type and ordinal position. The LEFT JOIN leaves
      the last three NULL for a table without a primary key; the table name is
      built with CONCAT, which never yields NULL. */
  type Row = (string, Option<string>, Option<string>, Option<int>)

  /** The four-field named tuple `PrimaryKeyMapItem`. */
  datatype PrimaryKeyMapItem = PrimaryKeyMapItem(
    tableName: string,
    colName: Option<string>,
    colType: Option<string>,
    colOrdPos: Option<int>)

  /** `PrimaryKeyMapItem._make(row)`: the row's columns, in order, so that
      reading the fields back gives the row. */
  function MakeItem(row: Row): (item: PrimaryKeyMapItem)
    ensures (item.tableName, item.colName, item.colType, item.colOrdPos) == row
  {
    PrimaryKeyMapItem(row.0, row.1, row.2, row.3)
  }

  /** `map(PrimaryKeyMapItem._make, rows)`, in fetch order. */
  function Items(rows: seq<Row>): (items: seq<PrimaryKeyMapItem>)
    ensures |items| == |rows|
    ensures forall i :: 0 <= i < |rows| ==> items[i].tableName == rows[i].0
  {
    seq(|rows|, i requires 0 <= i < |rows| => MakeItem(rows[i]))
  }

  /** `{rec.table_name: rec for rec in items}`: a left-to-right fold in which
      an item replaces any earlier one with the same table name. */
  function ByTable(items: seq<PrimaryKeyMapItem>): (m: map<string, PrimaryKeyMapItem>)
    ensures forall t :: t in m ==> m[t].tableName == t
    ensures forall t :: t in m ==> m[t] in items
  {
    if items == [] then map[]
    else
      var last := items[|items| - 1];
      ByTable(items[..|items| - 1])[last.tableName := last]
  }

  /** The value `primary_key_map()` returns for the fetched rows. */
  function PrimaryKeyMap(rows: seq<Row>): (m: map<string, PrimaryKeyMapItem>)
    ensures forall t :: t in m ==> m[t].tableName == t
  {
    ByTable(Items(rows))
  }

  /** The table names that occur among the rows. */
  function TableNames(rows: seq<Row>): (names: set<string>) {
    set i | 0 <= i < |rows| :: rows[i].0
  }

  /** Row `j` is the last row, in fetch order, of table `t`. */
  ghost predicate IsLastRowOf(rows: seq<Row>, t: string, j: int) {
    && 0 <= j < |rows|
    && rows[j].0 == t
    && forall k :: j < k < |rows| ==> rows[k].0 != t
  }

  /** One more fetched row overwrites whatever entry its table had. */
  lemma PrimaryKeyMapSnoc(rows: seq<Row>, row: Row)
    ensures PrimaryKeyMap(rows + [row]) == PrimaryKeyMap(rows)[row.0 := MakeItem(row)]
  {
    var items := Items(rows + [row]);
    assert items[..|rows|] == Items(rows);
    assert items[|rows|] == MakeItem(row);
  }

  /** No table is dropped: every table name fetched is a key, including the
      tables without a primary key, and nothing else is. */
  lemma {:induction false} PrimaryKeyMapKeys(rows: seq<Row>)
    ensures PrimaryKeyMap(rows).Keys == TableNames(rows)
  {
    if rows != [] {
      var init, last := rows[..|rows| - 1], rows[|rows| - 1];
      assert rows == init + [last];
      PrimaryKeyMapSnoc(init, last);
      PrimaryKeyMapKeys(init);
      TableNamesSnoc(rows);
    }
  }

  /** Last wins: the entry of table `t` is the item made of its last row, whose
      fields are that row's columns in order. */
  lemma {:induction false} PrimaryKeyMapLastWins(rows: seq<Row>, t: string, j: int)
    requires IsLastRowOf(rows, t, j)
    ensures t in PrimaryKeyMap(rows)
    ensures PrimaryKeyMap(rows)[t] == PrimaryKeyMapItem(rows[j].0, rows[j].1, rows[j].2, rows[j].3)
  {
    var init, last := rows[..|rows| - 1], rows[|rows| - 1];
    assert rows == init + [last];
    PrimaryKeyMapSnoc(init, last);
    if j < |init| {
      assert IsLastRowOf(init, t, j);
      PrimaryKeyMapLastWins(init, t, j);
    }
  }

  /** Conversely, every entry comes from the last row of its table. */
  lemma {:induction false} PrimaryKeyMapEntries(rows: seq<Row>, t: string)
    requires t in PrimaryKeyMap(rows)
    ensures exists j :: IsLastRowOf(rows, t, j) && PrimaryKeyMap(rows)[t] == MakeItem(rows[j])
  {
    var init, last := rows[..|rows| - 1], rows[|rows| - 1];
    assert rows == init + [last];
    PrimaryKeyMapSnoc(init, last);
    if last.0 == t {
      assert IsLastRowOf(rows, t, |rows| - 1);
    } else {
      PrimaryKeyMapEntries(init, t);
      var j :| IsLastRowOf(init, t, j) && PrimaryKeyMap(init)[t] == MakeItem(init[j]);
      assert rows[j] == init[j];
      assert IsLastRowOf(rows, t, j);
    }
  }

  /** The table names of a non-empty fetch are those of all rows but the
      last, plus the last row's. */
  lemma TableNamesSnoc(rows: seq<Row>)
    requires rows != []
    ensures TableNames(rows) == TableNames(rows[..|rows| - 1]) + {rows[|rows| - 1].0}
  {
    var init, last := rows[..|rows| - 1], rows[|rows| - 1];
    forall t | t in TableNames(rows)
      ensures t in TableNames(init) + {last.0}
    {
      var i :| 0 <= i < |rows| && rows[i].0 == t;
      if i < |init| {
        assert init[i] == rows[i];
      }
    }
    forall t | t in TableNames(init)
      ensures t in TableNames(rows)
    {
      var i :| 0 <= i < |init| && init[i].0 == t;
      assert rows[i] == init[i];
    }
  }

  /** There are never more distinct table names than rows. */
  lemma {:induction false} TableNamesBound(rows: seq<Row>)
    ensures |TableNames(rows)| <= |rows|
  {
    if rows != [] {
      TableNamesSnoc(rows);
      TableNamesBound(rows[..|rows| - 1]);
    }
  }

  /** Once two rows share a table, there are strictly fewer distinct table
      names than rows. */
  lemma {:induction false} TableNamesStrictBound(rows: seq<Row>, i: int, j: int)
    requires 0 <= i < j < |rows| && rows[i].0 == rows[j].0
    ensures |TableNames(rows)| < |rows|
  {
    var init, last := rows[..|rows| - 1], rows[|rows| - 1];
    TableNamesSnoc(rows);
    assert init[i] == rows[i];
    if j == |rows| - 1 {
      assert last.0 in TableNames(init);
      TableNamesBound(init);
    } else {
      assert init[j] == rows[j];
      TableNamesStrictBound(init, i, j);
    }
  }

  /** A composite key collapses: when rows `i < j` belong to the same table,
      that table's entry comes from row `j` or a later one, so row `i` is
      overwritten, and the map has fewer entries than there were rows. */
  lemma CompositeKeyCollapses(rows: seq<Row>, i: int, j: int)
    requires 0 <= i < j < |rows| && rows[i].0 == rows[j].0
    ensures rows[i].0 in PrimaryKeyMap(rows)
    ensures exists k :: j <= k < |rows| && IsLastRowOf(rows, rows[i].0, k)
                     && PrimaryKeyMap(rows)[rows[i].0] == MakeItem(rows[k])
    ensures |PrimaryKeyMap(rows)| < |rows|
  {
    var t := rows[i].0;
    PrimaryKeyMapKeys(rows);
    assert t in TableNames(rows);
    PrimaryKeyMapEntries(rows, t);
    var k :| IsLastRowOf(rows, t, k) && PrimaryKeyMap(rows)[t] == MakeItem(rows[k]);
    assert j <= k;
    TableNamesStrictBound(rows, i, j);
  }
}
