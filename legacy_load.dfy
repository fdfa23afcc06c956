/**
 * What the older revision's `Sheet.__load` computes (src/xlsx/__init__.py), as
 * functions of the parsed parts. The row number stays the raw `r` attribute
 * string: it keys the row map, it is cut off the address to give the column,
 * and only `Cell(...)` turns it into an int. Nothing inside a cell is guarded,
 * so any failure in reading a cell's value or formula aborts the load. Once
 * the loops are done, every row bucket is sorted with `Cell.__cmp__`.
 */
module LegacyLoad {
  import opened Wrappers
  import opened Python
  import opened Dom
  import opened Address
  import opened Cells
  import opened CellSort
  import opened Indexing
  import opened Folds
  import opened Parts

  /**
   * `cellId[:len(cellId) - len(rowNum)]`: the address with as many characters
   * cut off its end as the row attribute has. When the address is the shorter,
   * the bound is negative and counts from the end once more.
   */
  function DerivedColumn(cellId: string, rowNum: string): (r: string)
    ensures r <= cellId
    ensures |cellId| >= |rowNum| ==> |r| == |cellId| - |rowNum|
    ensures |cellId| < |rowNum| ==> |r| == (if 2 * |cellId| >= |rowNum| then 2 * |cellId| - |rowNum| else 0)
  {
    SliceTo(cellId, |cellId| - |rowNum|)
  }

  /** An address made of a column and the row attribute gives that column back. */
  lemma DerivedColumnOfAddress(c: string, rowNum: string)
    ensures DerivedColumn(c + rowNum, rowNum) == c
  {
    assert (c + rowNum)[..|c|] == c;
  }

  /**
   * `Cell(rowNum, colNum, data, formula=formula)`: `int(rowNum)` must succeed;
   * the id is the column followed by the row attribute as written.
   */
  function NewCell(rowNum: string, column: string, value: Value, formula: Option<string>): (r: Result<Cell, PyError>)
    ensures r.Success? <==> ParseInt(rowNum).Success?
    ensures r.Failure? ==> r.error == ValueError
    ensures r.Success? ==> r.value.row == ParseInt(rowNum).value && r.value.column == column &&
                           r.value.value == value && r.value.formula == formula && r.value.id == column + rowNum
  {
    var row :- ParseInt(rowNum);
    Success(Cell(row, column, value, formula, column + rowNum))
  }

  /**
   * The shared-string branch: `sharedStrings[int(node.firstChild.firstChild.nodeValue)]`,
   * with Python's negative indices. A missing child or grandchild raises
   * AttributeError, an element grandchild (nodeValue None) TypeError, a
   * non-numeral ValueError, an index out of range IndexError.
   */
  function SharedStringValue(node: Node, strings: seq<Option<string>>): (r: Result<Value, PyError>)
    ensures FirstChild(node).None? || FirstChild(node.children[0]).None? ==> r == Failure(AttributeError)
    ensures FirstChild(node).Some? && FirstChild(node.children[0]).Some? ==>
              var g := node.children[0].children[0];
              (g.Element? ==> r == Failure(TypeError)) &&
              (g.Text? ==> (ParseInt(g.data).Failure? ==> r == Failure(ValueError)) &&
                           (ParseInt(g.data).Success? ==>
                              r == (if -|strings| <= ParseInt(g.data).value < |strings|
                                    then Success(OptionalText(ListIndex(strings, ParseInt(g.data).value).value))
                                    else Failure(IndexError))))
  {
    var gc :- Grandchild(node);
    var text :- NodeValueOf(gc);
    if text.None? then Failure(TypeError)
    else
      var i :- ParseInt(text.value);
      var s :- ListIndex(strings, i);
      Success(OptionalText(s))
  }

  /**
   * The literal branch: `node.getElementsByTagName("v")[0].firstChild.nodeValue`;
   * no `v` element raises IndexError, an empty one AttributeError, and an
   * element in place of text gives None.
   */
  function LiteralValue(node: Node): (r: Result<Value, PyError>)
    requires node.Element?
    ensures Descendants(node.children, "v") == [] ==> r == Failure(IndexError)
    ensures Descendants(node.children, "v") != [] ==>
              var v := Descendants(node.children, "v")[0];
              (FirstChild(v).None? ==> r == Failure(AttributeError)) &&
              (FirstChild(v).Some? ==> r == Success(OptionalText(NodeValue(v.children[0]))))
  {
    var vs := Descendants(node.children, "v");
    if vs == [] then Failure(IndexError)
    else
      var t :- NodeValueOf(FirstChild(vs[0]));
      Success(OptionalText(t))
  }

  /**
   * The value chain: a shared string when `t` is "s", else the first `v`
   * element's text when the node has a child, else the empty string.
   */
  function CellValue(node: Node, colType: string, strings: seq<Option<string>>): (r: Result<Value, PyError>)
    requires node.Element?
    ensures colType == "s" ==> r == SharedStringValue(node, strings)
    ensures colType != "s" && node.children != [] ==> r == LiteralValue(node)
    ensures colType != "s" && node.children == [] ==> r == Success(Str(""))
  {
    if colType == "s" then SharedStringValue(node, strings)
    else if FirstChild(node).Some? then LiteralValue(node)
    else Success(Str(""))
  }

  /**
   * The formula: None without an `f` element, else the first one's
   * `firstChild.nodeValue`, which raises AttributeError when it is empty.
   */
  function Formula(node: Node): (r: Result<Option<string>, PyError>)
    requires node.Element?
    ensures Descendants(node.children, "f") == [] ==> r == Success(None)
    ensures Descendants(node.children, "f") != [] ==>
              var f := Descendants(node.children, "f")[0];
              (FirstChild(f).None? ==> r == Failure(AttributeError)) &&
              (FirstChild(f).Some? ==> r == Success(NodeValue(f.children[0])))
  {
    var fs := Descendants(node.children, "f");
    if fs == [] then Success(None) else NodeValueOf(FirstChild(fs[0]))
  }

  /**
   * One pass of the inner loop for the cell node `node` of the row whose
   * attribute is `rowNum`: the attributes, the value, the formula, then the
   * Cell, in that order, the first failure aborting the load.
   */
  function CellEntry(rowNum: string, node: Node, strings: seq<Option<string>>): (r: Result<Entry<string>, PyError>)
    ensures node.Text? ==> r == Failure(AttributeError)
    ensures node.Element? ==>
              var data := CellValue(node, GetAttribute(node, "t").value, strings);
              (data.Failure? ==> r == Failure(data.error)) &&
              (data.Success? && Formula(node).Failure? ==> r == Failure(Formula(node).error)) &&
              (data.Success? && Formula(node).Success? ==>
                 (r.Success? <==> ParseInt(rowNum).Success?) &&
                 (r.Failure? ==> r.error == ValueError))
    ensures r.Success? ==>
              var cellId := GetAttribute(node, "r").value;
              r.value.key == cellId && r.value.rowKey == rowNum &&
              r.value.cell.row == ParseInt(rowNum).value && r.value.cell.column == DerivedColumn(cellId, rowNum) &&
              Success(r.value.cell.value) == CellValue(node, GetAttribute(node, "t").value, strings) &&
              Success(r.value.cell.formula) == Formula(node) &&
              r.value.cell.id == r.value.cell.column + rowNum
  {
    var colType :- GetAttribute(node, "t");
    var cellId := GetAttribute(node, "r").value;
    var colNum := DerivedColumn(cellId, rowNum);
    var data :- CellValue(node, colType, strings);
    var formula :- Formula(node);
    var cell :- NewCell(rowNum, colNum, data, formula);
    Success(Entry(cellId, rowNum, cell))
  }

  /** A cell whose address is its column followed by the row attribute gets that address back as its id. */
  lemma CellEntryId(rowNum: string, node: Node, strings: seq<Option<string>>, c: string)
    requires CellEntry(rowNum, node, strings).Success? && GetAttribute(node, "r").value == c + rowNum
    ensures CellEntry(rowNum, node, strings).value.cell.column == c
    ensures CellEntry(rowNum, node, strings).value.cell.id == CellEntry(rowNum, node, strings).value.key
  {
    DerivedColumnOfAddress(c, rowNum);
  }

  /** The inner loop's step for the row attribute `rowNum`. */
  function CellStep(rowNum: string, strings: seq<Option<string>>): Node -> Result<Entry<string>, PyError> {
    node => CellEntry(rowNum, node, strings)
  }

  /** The entries of the cell nodes of one row, in document order. */
  function CellEntries(rowNum: string, nodes: seq<Node>, strings: seq<Option<string>>): Result<seq<Entry<string>>, PyError> {
    MapAll(CellStep(rowNum, strings), nodes)
  }

  /** One pass of the outer loop: `rowNode.getAttribute("r")`, then the row's cells. */
  function RowEntries(rowNode: Node, strings: seq<Option<string>>): Result<seq<Entry<string>>, PyError> {
    var rowNum :- GetAttribute(rowNode, "r");
    CellEntries(rowNum, ChildNodes(rowNode), strings)
  }

  /**
   * A row loads exactly when it is an element all of whose cells load, one
   * entry per cell node, each under the row attribute and carrying its int
   * value. The row number is only parsed per cell, so a row without cells
   * loads whatever its attribute says.
   */
  lemma RowEntriesShape(rowNode: Node, strings: seq<Option<string>>)
    ensures var r := RowEntries(rowNode, strings);
            (r.Success? <==> rowNode.Element? &&
                             forall i :: 0 <= i < |rowNode.children| ==>
                               CellEntry(GetAttribute(rowNode, "r").value, rowNode.children[i], strings).Success?) &&
            (r.Success? ==> |r.value| == |rowNode.children| &&
                            forall i :: 0 <= i < |r.value| ==>
                              r.value[i].rowKey == GetAttribute(rowNode, "r").value &&
                              ParseInt(r.value[i].rowKey) == Success(r.value[i].cell.row))
    ensures rowNode.Element? && rowNode.children == [] ==> RowEntries(rowNode, strings) == Success([])
  {
    if rowNode.Element? {
      var rowNum := GetAttribute(rowNode, "r").value;
      MapAllShape(CellStep(rowNum, strings), rowNode.children);
    }
  }

  /** The outer loop's step. */
  function RowStep(strings: seq<Option<string>>): Node -> Result<seq<Entry<string>>, PyError> {
    row => RowEntries(row, strings)
  }

  /** The number of cell nodes under a row node. */
  function CellNodeCount(row: Node): nat {
    |ChildNodes(row)|
  }

  /** All entries of the sheet, row after row. */
  function SheetEntries(rows: seq<Node>, strings: seq<Option<string>>): Result<seq<Entry<string>>, PyError> {
    ConcatAll(RowStep(strings), rows)
  }

  /**
   * The sheet loads exactly when every row loads, and it then yields one entry
   * per cell node, each carrying the int value of its row key.
   */
  lemma SheetEntriesShape(rows: seq<Node>, strings: seq<Option<string>>)
    ensures var r := SheetEntries(rows, strings);
            (r.Success? <==> forall i :: 0 <= i < |rows| ==> RowEntries(rows[i], strings).Success?) &&
            (r.Success? ==> |r.value| == Total(CellNodeCount, rows)) &&
            (r.Success? ==> forall e :: e in r.value ==> ParseInt(e.rowKey) == Success(e.cell.row))
  {
    var step := RowStep(strings);
    ConcatAllSucceeds(step, rows);
    forall i | 0 <= i < |rows| {
      RowEntriesShape(rows[i], strings);
    }
    ConcatAllLength(step, rows, CellNodeCount);
    ConcatAllEvery(step, rows, (e: Entry<string>) => ParseInt(e.rowKey) == Success(e.cell.row));
  }

  /** `sorted(rows[rowNum])` for every row key. */
  function SortRows(rows: map<string, seq<Cell>>): map<string, seq<Cell>> {
    map k | k in rows :: Sort(rows[k])
  }

  /**
   * The maps one successful load of sheet `id` computes: the address and
   * column maps of the loop, and its row buckets sorted.
   */
  function SheetIndex(archive: Archive, strings: seq<Option<string>>, id: int): Result<Index<string>, PyError> {
    var sheetData :- LocateSheetData(archive, id);
    var es :- SheetEntries(ChildNodes(sheetData), strings);
    var ix := Build(es);
    Success(Index(ix.cells, SortRows(ix.rows), ix.cols))
  }

  /**
   * A sheet's maps after a successful load that computed `ix`: the load stores
   * into the address map and the row map it finds, and replaces the column map.
   */
  function AfterLoad(st: Index<string>, ix: Index<string>): (r: Index<string>)
    ensures r.cells.Keys == st.cells.Keys + ix.cells.Keys && r.rows.Keys == st.rows.Keys + ix.rows.Keys
    ensures forall k :: k in ix.cells ==> r.cells[k] == ix.cells[k]
    ensures forall k :: k in ix.rows ==> r.rows[k] == ix.rows[k]
    ensures r.cols == ix.cols
  {
    Index(st.cells + ix.cells, st.rows + ix.rows, ix.cols)
  }

  /**
   * Loading again changes nothing: the maps of one load are a fixed point of the
   * next, and a first load into empty maps leaves exactly what it computed.
   */
  lemma AfterLoadIdempotent(st: Index<string>, ix: Index<string>)
    ensures AfterLoad(AfterLoad(st, ix), ix) == AfterLoad(st, ix)
    ensures AfterLoad(EmptyIndex(), ix) == ix
    ensures st == EmptyIndex() || st == AfterLoad(EmptyIndex(), ix) ==> AfterLoad(st, ix) == ix
  {
    MergeTwice(st.cells, ix.cells);
    MergeTwice(st.rows, ix.rows);
    MergeEmpty(ix.cells);
    MergeEmpty(ix.rows);
  }

  lemma MergeTwice<K, V>(a: map<K, V>, b: map<K, V>)
    ensures (a + b) + b == a + b
  {
  }

  lemma MergeEmpty<K, V>(b: map<K, V>)
    ensures map[] + b == b
  {
  }

  /**
   * The dispatch on the sheet's maps. A key of letters then digits is an
   * address (None when absent); letters only name a column, digits only a row
   * (KeyError when absent); anything else falls through to None.
   */
  function Lookup(ix: Index<string>, key: string): (r: Result<Selection, PyError>)
    ensures SelectorOf(key) == CellSelector ==>
              r == Success(if key in ix.cells then OneCell(ix.cells[key]) else NoCell)
    ensures SelectorOf(key) == ColumnSelector ==>
              (r.Success? <==> key in ix.cols) && (r.Success? ==> r.value == Cells(ix.cols[key]))
    ensures SelectorOf(key) == RowSelector ==>
              (r.Success? <==> key in ix.rows) && (r.Success? ==> r.value == Cells(ix.rows[key]))
    ensures SelectorOf(key) == NoSelector ==> r == Success(NoCell)
    ensures r.Failure? ==> r.error == KeyError
  {
    match SelectorOf(key)
    case CellSelector => Success(if key in ix.cells then OneCell(ix.cells[key]) else NoCell)
    case ColumnSelector => if key in ix.cols then Success(Cells(ix.cols[key])) else Failure(KeyError)
    case RowSelector => if key in ix.rows then Success(Cells(ix.rows[key])) else Failure(KeyError)
    case NoSelector => Success(NoCell)
  }

  /** The entries a successful load of sheet `id` folds into its maps. */
  function LoadedEntries(archive: Archive, strings: seq<Option<string>>, id: int): seq<Entry<string>>
    requires SheetIndex(archive, strings, id).Success?
  {
    SheetEntries(ChildNodes(LocateSheetData(archive, id).value), strings).value
  }

  /**
   * The row map of a loaded sheet: under the attribute string `k`, the cells of
   * the rows with that attribute, sorted by `Cell.__cmp__`, holding the same
   * cells, cells at one place in document order, and every one with row number
   * `int(k)`.
   */
  lemma LoadedRows(archive: Archive, strings: seq<Option<string>>, id: int, k: string)
    requires SheetIndex(archive, strings, id).Success?
    ensures var rows := SheetIndex(archive, strings, id).value.rows;
            var cells := RowCells(LoadedEntries(archive, strings, id), k);
            (k in rows <==> cells != []) &&
            (k in rows ==> rows[k] == Sort(cells) && Sorted(rows[k]) && multiset(rows[k]) == multiset(cells) &&
                           (forall c :: Equivalents(rows[k], c) == Equivalents(cells, c)) &&
                           forall c :: c in rows[k] ==> ParseInt(k) == Success(c.row))
  {
    var es := LoadedEntries(archive, strings, id);
    var cells := RowCells(es, k);
    SheetEntriesShape(ChildNodes(LocateSheetData(archive, id).value), strings);
    BuildRows(es, k);
    SortSorted(cells);
    SortPermutes(cells);
    forall c ensures Equivalents(Sort(cells), c) == Equivalents(cells, c) {
      SortStable(cells, c);
    }
    forall c | c in Sort(cells) ensures ParseInt(k) == Success(c.row) {
      assert c in multiset(Sort(cells));
      RowCellsMembers(es, k, c);
      var i :| 0 <= i < |es| && es[i].rowKey == k && es[i].cell == c;
      assert es[i] in es;
    }
  }

  /**
   * What a lookup on a freshly loaded sheet finds: for an address, the cell of
   * the last cell node with that address; for a column, its cells in document
   * order; for a row attribute, that row's sorted cells.
   */
  lemma LoadedLookup(archive: Archive, strings: seq<Option<string>>, id: int, key: string)
    requires SheetIndex(archive, strings, id).Success?
    ensures var ix := SheetIndex(archive, strings, id).value;
            var es := LoadedEntries(archive, strings, id);
            (SelectorOf(key) == CellSelector ==>
               Lookup(ix, key) == Success(if LastAt(es, key).Some? then OneCell(LastAt(es, key).value) else NoCell)) &&
            (SelectorOf(key) == ColumnSelector ==>
               (Lookup(ix, key).Success? <==> ColumnCells(es, key) != []) &&
               (Lookup(ix, key).Success? ==> Lookup(ix, key).value == Cells(ColumnCells(es, key)))) &&
            (SelectorOf(key) == RowSelector ==>
               (Lookup(ix, key).Success? <==> RowCells(es, key) != []) &&
               (Lookup(ix, key).Success? ==> Lookup(ix, key).value == Cells(Sort(RowCells(es, key)))))
  {
    var es := LoadedEntries(archive, strings, id);
    BuildCells(es, key);
    BuildColumns(es, key);
    BuildRows(es, key);
  }
}
