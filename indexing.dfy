/**
 * The three maps a sheet load fills, as a fold over the cells the load loop
 * produces in document order: cells by address, cells by row, cells by column.
 * The row key type differs between the revisions (an int in one, the raw
 * attribute string in the other), so it is a type parameter here.
 */
module Indexing {
  import opened Wrappers
  import opened Cells

  /**
   * What one cell node contributes: `key` is its raw `r` attribute (the key of
   * the address map), `rowKey` the key of its row bucket, `cell` the new Cell.
   */
  datatype Entry<R> = Entry(key: string, rowKey: R, cell: Cell)

  /** The maps of a loaded sheet. */
  datatype Index<R> = Index(cells: map<string, Cell>, rows: map<R, seq<Cell>>, cols: map<string, seq<Cell>>)

  /** What a sheet lookup returns: None, one cell, or a row or column bucket. */
  datatype Selection = NoCell | OneCell(cell: Cell) | Cells(cells: seq<Cell>)

  /** A bucket, or the empty list when the key has none yet. */
  function Bucket<K, V>(m: map<K, seq<V>>, k: K): seq<V> {
    if k in m then m[k] else []
  }

  function EmptyIndex<R>(): Index<R> {
    Index(map[], map[], map[])
  }

  /**
   * One pass of the inner load loop: create the row and column buckets on first
   * use, append the cell to both, and store it under its address (overwriting).
   */
  function Add<R>(ix: Index<R>, e: Entry<R>): Index<R> {
    Index(ix.cells[e.key := e.cell],
          ix.rows[e.rowKey := Bucket(ix.rows, e.rowKey) + [e.cell]],
          ix.cols[e.cell.column := Bucket(ix.cols, e.cell.column) + [e.cell]])
  }

  /** The maps after the loop has processed `es`, in order, starting from empty maps. */
  function Build<R>(es: seq<Entry<R>>): Index<R> {
    if es == [] then EmptyIndex() else Add(Build(es[..|es| - 1]), es[|es| - 1])
  }

  /** Reference definition: the cells of `es` whose row key is `r`, in document order. */
  function RowCells<R(==)>(es: seq<Entry<R>>, r: R): seq<Cell> {
    if es == [] then []
    else RowCells(es[..|es| - 1], r) + (if es[|es| - 1].rowKey == r then [es[|es| - 1].cell] else [])
  }

  /** Reference definition: the cells of `es` in column `c`, in document order. */
  function ColumnCells<R>(es: seq<Entry<R>>, c: string): seq<Cell> {
    if es == [] then []
    else ColumnCells(es[..|es| - 1], c) + (if es[|es| - 1].cell.column == c then [es[|es| - 1].cell] else [])
  }

  /** Reference definition: the cell of the last entry of `es` with address `key`, if any. */
  function LastAt<R>(es: seq<Entry<R>>, key: string): (r: Option<Cell>)
    ensures r.Some? <==> exists i :: 0 <= i < |es| && es[i].key == key
    ensures r.Some? ==> exists i :: 0 <= i < |es| && es[i].key == key && es[i].cell == r.value &&
                                    forall j :: i < j < |es| ==> es[j].key != key
  {
    if es == [] then None
    else if es[|es| - 1].key == key then Some(es[|es| - 1].cell)
    else
      var r := LastAt(es[..|es| - 1], key);
      assert forall i :: 0 <= i < |es| - 1 ==> es[..|es| - 1][i] == es[i];
      r
  }

  /** Every row bucket is exactly the document-order list of that row's cells; no bucket is empty. */
  lemma {:induction false} BuildRows<R>(es: seq<Entry<R>>, r: R)
    ensures Bucket(Build(es).rows, r) == RowCells(es, r)
    ensures r in Build(es).rows <==> RowCells(es, r) != []
  {
    if es != [] {
      BuildRows(es[..|es| - 1], r);
    }
  }

  /** Every column bucket is exactly the document-order list of that column's cells; no bucket is empty. */
  lemma {:induction false} BuildColumns<R>(es: seq<Entry<R>>, c: string)
    ensures Bucket(Build(es).cols, c) == ColumnCells(es, c)
    ensures c in Build(es).cols <==> ColumnCells(es, c) != []
  {
    if es != [] {
      BuildColumns(es[..|es| - 1], c);
    }
  }

  /** The address map holds, for each address that occurs, the cell of its last occurrence. */
  lemma {:induction false} BuildCells<R>(es: seq<Entry<R>>, key: string)
    ensures key in Build(es).cells <==> LastAt(es, key).Some?
    ensures key in Build(es).cells ==> Build(es).cells[key] == LastAt(es, key).value
  {
    if es != [] {
      BuildCells(es[..|es| - 1], key);
    }
  }

  lemma {:induction false} InRowCells<R>(es: seq<Entry<R>>, i: nat)
    requires i < |es|
    ensures es[i].cell in RowCells(es, es[i].rowKey)
  {
    if i < |es| - 1 {
      InRowCells(es[..|es| - 1], i);
    }
  }

  lemma {:induction false} InColumnCells<R>(es: seq<Entry<R>>, i: nat)
    requires i < |es|
    ensures es[i].cell in ColumnCells(es, es[i].cell.column)
  {
    if i < |es| - 1 {
      InColumnCells(es[..|es| - 1], i);
    }
  }

  /** Each entry's cell is in its row bucket and in its column bucket. */
  lemma EntryInBuckets<R>(es: seq<Entry<R>>, i: nat)
    requires i < |es|
    ensures es[i].rowKey in Build(es).rows && es[i].cell in Build(es).rows[es[i].rowKey]
    ensures es[i].cell.column in Build(es).cols && es[i].cell in Build(es).cols[es[i].cell.column]
  {
    InRowCells(es, i);
    InColumnCells(es, i);
    BuildRows(es, es[i].rowKey);
    BuildColumns(es, es[i].cell.column);
  }

  /** Every cell of a row bucket comes from an entry of that row. */
  lemma {:induction false} RowCellsMembers<R>(es: seq<Entry<R>>, r: R, c: Cell)
    requires c in RowCells(es, r)
    ensures exists i :: 0 <= i < |es| && es[i].rowKey == r && es[i].cell == c
  {
    var init := es[..|es| - 1];
    if c in RowCells(init, r) {
      RowCellsMembers(init, r, c);
      var i :| 0 <= i < |init| && init[i].rowKey == r && init[i].cell == c;
      assert es[i] == init[i];
    }
  }

  /** The fold after one more entry: the loop body applied to the maps so far. */
  lemma BuildSnoc<R>(es: seq<Entry<R>>, e: Entry<R>)
    ensures Build(es + [e]) == Add(Build(es), e)
  {
    assert (es + [e])[..|es + [e]| - 1] == es;
  }

  /** Creating a bucket on first use and then appending to it is one append to the bucket. */
  lemma AppendToBucket<K, V>(m: map<K, seq<V>>, k: K, v: V)
    ensures var m0 := if k in m then m else m[k := []];
            m0[k := m0[k] + [v]] == m[k := Bucket(m, k) + [v]]
  {
  }

  /** Storing into a map that extends `base` is storing into the extension. */
  lemma UpdateMerged<K, V>(base: map<K, V>, m: map<K, V>, k: K, v: V)
    ensures (base + m)[k := v] == base + m[k := v]
  {
  }
}
