/**
 * Tagging a universe's result table (`add_universe_info_to_df` in
 * multiversum/helpers.py). A pandas DataFrame is reduced to its shape: the
 * column names in order and the number of rows. The function gives an empty
 * table a one-row index and then inserts reserved columns at the front:
 * the universe ID, the run number, the execution time, and one
 * `mv_dim_<name>` column per dimension in sorted name order.
 */
module ResultTable {
  import opened Values
  import Text
  import Json
  import Grid

  const UniverseIdColumn := "mv_universe_id"
  const RunNoColumn := "mv_run_no"
  const ExecutionTimeColumn := "mv_execution_time"
  const DimensionPrefix := "mv_dim_"

  /** The shape of a pandas DataFrame that is changed in place. */
  class Frame {
    var columns: seq<string>
    var rows: nat

    constructor (columns: seq<string>, rows: nat)
      ensures this.columns == columns && this.rows == rows
    {
      this.columns := columns;
      this.rows := rows;
    }

    /**
     * `DataFrame.insert(loc, column, value)` with a scalar value: a new
     * column at position `loc`, or ValueError when the name is taken.
     */
    method Insert(loc: nat, column: string) returns (raised: Option<Error>)
      requires loc <= |columns|
      modifies this
      ensures column in old(columns) ==> raised == Some(ColumnExists(column)) && columns == old(columns)
      ensures column !in old(columns) ==>
        raised == None && columns == old(columns)[..loc] + [column] + old(columns)[loc..]
      ensures rows == old(rows)
    {
      if column in columns {
        return Some(ColumnExists(column));
      }
      columns := columns[..loc] + [column] + columns[loc..];
      return None;
    }

    /**
     * `df.index = [label]`: a one-label index fits a table of one row, and a
     * table without columns, which then has one row; any other length raises
     * ValueError.
     */
    method SetSingleIndex() returns (raised: Option<Error>)
      modifies this
      ensures old(rows) == 1 || old(columns) == [] ==> raised == None && rows == 1
      ensures !(old(rows) == 1 || old(columns) == []) ==> raised == Some(IndexLengthMismatch) && rows == old(rows)
      ensures columns == old(columns)
    {
      if rows == 1 || columns == [] {
        rows := 1;
        return None;
      }
      return Some(IndexLengthMismatch);
    }
  }

  /** The `mv_dim_<name>` columns, for the dimension names in sorted order. */
  function DimensionColumns(dims: Universe): (r: seq<string>)
    ensures |r| == |dims|
  {
    var sorted := Json.SortEntries(dims);
    seq(|sorted|, i requires 0 <= i < |sorted| => DimensionPrefix + sorted[i].key)
  }

  /** Every column the tagging adds, in the order they end up at the front. */
  function InfoColumns(dims: Universe): seq<string>
  {
    [UniverseIdColumn, RunNoColumn, ExecutionTimeColumn] + DimensionColumns(dims)
  }

  /** There is one dimension column per dimension, and no other. */
  lemma DimensionColumnsCover(dims: Universe, name: string)
    ensures DimensionPrefix + name in DimensionColumns(dims) <==> name in KeysOf(dims)
  {
    var sorted := Json.SortEntries(dims);
    var cols := DimensionColumns(dims);
    if name in KeysOf(dims) {
      var i :| 0 <= i < |dims| && dims[i].key == name;
      assert dims[i] in multiset(sorted);
      var j :| 0 <= j < |sorted| && sorted[j] == dims[i];
      assert cols[j] == DimensionPrefix + name;
    }
    if DimensionPrefix + name in cols {
      var j :| 0 <= j < |cols| && cols[j] == DimensionPrefix + name;
      assert cols[j][|DimensionPrefix|..] == sorted[j].key == name;
      assert sorted[j] in multiset(dims);
      var i :| 0 <= i < |dims| && dims[i] == sorted[j];
      assert KeysOf(dims)[i] == name;
    }
  }

  /** The dimension columns follow the sorted order of the dimension names. */
  lemma DimensionColumnsSorted(dims: Universe, i: nat, j: nat)
    requires DistinctKeys(dims)
    requires i < j < |dims|
    ensures Text.Less(DimensionColumns(dims)[i][|DimensionPrefix|..], DimensionColumns(dims)[j][|DimensionPrefix|..])
  {
    var sorted := Json.SortEntries(dims);
    Json.SortEntriesSorted(dims);
    assert DimensionColumns(dims)[i][|DimensionPrefix|..] == sorted[i].key;
    assert DimensionColumns(dims)[j][|DimensionPrefix|..] == sorted[j].key;
  }

  /** The added columns have distinct names when the dimension names are distinct. */
  lemma InfoColumnsDistinct(dims: Universe)
    requires DistinctKeys(dims)
    ensures Grid.NoDuplicates(InfoColumns(dims))
  {
    var info := InfoColumns(dims);
    var dc := DimensionColumns(dims);
    forall i, j | 0 <= i < j < |info| ensures info[i] != info[j] {
      if 3 <= i {
        DimensionColumnsSorted(dims, i - 3, j - 3);
        assert info[i] == dc[i - 3] && info[j] == dc[j - 3];
        Text.LessIrreflexive(dc[i - 3][|DimensionPrefix|..]);
      } else if 3 <= j {
        assert info[j] == DimensionPrefix + dc[j - 3][|DimensionPrefix|..];
        assert info[j][3] == 'd';
        assert info[i] == [UniverseIdColumn, RunNoColumn, ExecutionTimeColumn][i];
        assert info[i][3] != 'd';
      }
    }
  }

  /**
   * The position of the first added column whose name the table already
   * has: pandas raises there, after the columns before it went in.
   */
  function FirstClash(info: seq<string>, columns: seq<string>): (k: nat)
    ensures k <= |info|
    ensures forall i :: 0 <= i < k ==> info[i] !in columns
    ensures k < |info| ==> info[k] in columns
  {
    if info == [] then 0
    else if info[0] in columns then 0
    else 1 + FirstClash(info[1..], columns)
  }

  /**
   * The run of `insert` calls driven by the `count()` iterator: column `k`
   * of `info` goes to position `k`, until a name is taken.
   */
  method InsertAtFront(data: Frame, info: seq<string>) returns (raised: Option<Error>)
    requires Grid.NoDuplicates(info)
    modifies data
    ensures data.columns == info[..FirstClash(info, old(data.columns))] + old(data.columns)
    ensures raised == (if FirstClash(info, old(data.columns)) == |info| then None
                       else Some(ColumnExists(info[FirstClash(info, old(data.columns))])))
    ensures data.rows == old(data.rows)
  {
    ghost var original := data.columns;
    var k := 0;
    while k < |info|
      invariant 0 <= k <= |info|
      invariant data.columns == info[..k] + original
      invariant forall i :: 0 <= i < k ==> info[i] !in original
      invariant data.rows == old(data.rows)
    {
      assert info[k] !in info[..k];
      raised := data.Insert(k, info[k]);
      if raised.Some? {
        return;
      }
      assert info[..k + 1] == info[..k] + [info[k]];
      k := k + 1;
    }
    assert info[..k] == info;
    return None;
  }

  /**
   * `add_universe_info_to_df`: the new shape. An empty table with columns
   * cannot take the one-label index; otherwise the added columns go in front
   * of the old ones, up to the first one whose name is taken.
   */
  method AddUniverseInfoToDf(data: Frame, dims: Universe) returns (raised: Option<Error>)
    requires DistinctKeys(dims)
    modifies data
    ensures old(data.rows) == 0 && old(data.columns) != [] ==>
      raised == Some(IndexLengthMismatch) && data.columns == old(data.columns) && data.rows == 0
    ensures !(old(data.rows) == 0 && old(data.columns) != []) ==>
      && data.rows == (if old(data.rows) == 0 then 1 else old(data.rows))
      && data.columns == InfoColumns(dims)[..FirstClash(InfoColumns(dims), old(data.columns))] + old(data.columns)
      && raised == (if FirstClash(InfoColumns(dims), old(data.columns)) == |InfoColumns(dims)| then None
                    else Some(ColumnExists(InfoColumns(dims)[FirstClash(InfoColumns(dims), old(data.columns))])))
  {
    if data.rows == 0 {
      raised := data.SetSingleIndex();
      if raised.Some? {
        return;
      }
    }
    InfoColumnsDistinct(dims);
    raised := InsertAtFront(data, InfoColumns(dims));
  }

  /**
   * When the table has none of the added names, every insert succeeds: the
   * tagged table starts with the reserved columns, then the dimension
   * columns, then the old columns in their old order, all names distinct.
   */
  lemma {:induction false} TaggedColumns(dims: Universe, columns: seq<string>)
    requires DistinctKeys(dims) && Grid.NoDuplicates(columns)
    requires forall c :: c in columns ==> c !in InfoColumns(dims)
    ensures FirstClash(InfoColumns(dims), columns) == |InfoColumns(dims)|
    ensures var t := InfoColumns(dims)[..FirstClash(InfoColumns(dims), columns)] + columns;
      && t[..3] == [UniverseIdColumn, RunNoColumn, ExecutionTimeColumn]
      && t[3..3 + |dims|] == DimensionColumns(dims)
      && t[3 + |dims|..] == columns
      && Grid.NoDuplicates(t)
  {
    var info := InfoColumns(dims);
    InfoColumnsDistinct(dims);
    NoClash(info, columns);
    assert info[..|info|] == info;
    var t := info + columns;
    forall i, j | 0 <= i < j < |t| ensures t[i] != t[j] {
      if j >= |info| && i < |info| {
        assert t[i] == info[i] && t[j] == columns[j - |info|];
      }
    }
  }

  lemma {:induction false} NoClash(info: seq<string>, columns: seq<string>)
    requires forall c :: c in columns ==> c !in info
    ensures FirstClash(info, columns) == |info|
  {
    if info != [] {
      assert info[0] in info;
      NoClash(info[1..], columns);
    }
  }
}
