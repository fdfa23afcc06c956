/**
 * What the newer revision's `Sheet.__load` computes (xlsx/__init__.py), as
 * functions of the parsed parts: one Entry per `c` node of every `row` node of
 * the sheet's `sheetData`, folded into the three maps by Indexing.Build, and
 * the dispatch `Sheet.__getitem__` performs on the loaded maps.
 *
 * Inside one cell, every failure of the value and formula computation is
 * swallowed and the cell keeps the value `''` and no formula; only reading the
 * cell's attributes, the row number and the parts themselves can abort a load.
 */
module XlsxLoad {
  import opened Wrappers
  import opened Python
  import opened Dom
  import opened Address
  import opened Cells
  import opened Indexing
  import opened Folds
  import opened Parts

  /**
   * `xldate_as_tuple(serial, datemode=0)` for the datemode argument given;
   * None stands for a raised exception.
   */
  type DateConverter = (int, int) -> Option<DateTuple>

  /** The cell formats the newer revision reads as dates. */
  const DateStyles: set<string> := {"1", "2", "3", "4"}

  /**
   * `cellId[:len(cellId) - len(str(rowNum))]`: the address with the row
   * number's digits cut off the end.
   */
  function DerivedColumn(cellId: string, rowNum: int): (r: string)
    ensures r <= cellId
    ensures forall c :: cellId == c + IntToString(rowNum) ==> r == c
    ensures |cellId| >= |IntToString(rowNum)| ==> |r| == |cellId| - |IntToString(rowNum)|
  {
    SliceTo(cellId, |cellId| - |IntToString(rowNum)|)
  }

  /**
   * `Cell(rowNum, colNum, data, formula)` for an int row number: the id is the
   * column followed by the decimal text of the row number.
   */
  function NewCell(rowNum: int, column: string, value: Value, formula: Option<string>): (c: Cell)
    ensures c.row == rowNum && c.column == column && c.value == value && c.formula == formula
  {
    Cell(rowNum, column, value, formula, column + IntToString(rowNum))
  }

  /** The id starts with the column, and what follows it parses back to the row number. */
  lemma CellIdParses(rowNum: int, column: string, value: Value, formula: Option<string>)
    ensures var id := NewCell(rowNum, column, value, formula).id;
            |id| > |column| && id[..|column|] == column && ParseInt(id[|column|..]) == Success(rowNum)
  {
    ParseIntOfIntToString(rowNum);
    var id := NewCell(rowNum, column, value, formula).id;
    assert id[|column|..] == IntToString(rowNum);
  }

  /** A cell whose address is its column followed by its row number gets that address back as its id. */
  lemma CellIdRoundTrip(c: string, rowNum: int, value: Value, formula: Option<string>)
    ensures NewCell(rowNum, DerivedColumn(c + IntToString(rowNum), rowNum), value, formula).id == c + IntToString(rowNum)
  {
  }

  /**
   * `int(node.firstChild.firstChild.nodeValue)`, the number both the shared-string
   * and the date branch read: the node's first grandchild must be character
   * data holding a decimal numeral.
   */
  function CellNumber(node: Node): (r: Result<int, PyError>)
    ensures r.Success? <==> FirstChild(node).Some? && FirstChild(node.children[0]).Some? &&
                            node.children[0].children[0].Text? &&
                            ParseInt(node.children[0].children[0].data).Success?
    ensures r.Success? ==> r.value == ParseInt(node.children[0].children[0].data).value
  {
    var gc :- Grandchild(node);
    var text :- NodeValueOf(gc);
    if text.None? then Failure(TypeError) else ParseInt(text.value)
  }

  /**
   * The shared-string branch: `sharedStrings[int(...)]` with Python's negative
   * indices; `sharedStrings` is None when the part is missing.
   */
  function SharedStringValue(node: Node, strings: Option<seq<string>>): (r: Result<Value, PyError>)
    ensures r.Success? <==> CellNumber(node).Success? && strings.Some? &&
                            -|strings.value| <= CellNumber(node).value < |strings.value|
    ensures r.Success? ==> r.value == Str(ListIndex(strings.value, CellNumber(node).value).value)
  {
    var i :- CellNumber(node);
    if strings.None? then Failure(TypeError)
    else
      var s :- ListIndex(strings.value, i);
      Success(Str(s))
  }

  /** The date branch: `xldate_as_tuple(int(...), datemode=0)`; a raising converter fails the branch. */
  function DateValue(node: Node, xldate: DateConverter): (r: Result<Value, PyError>)
    ensures r.Success? <==> CellNumber(node).Success? && xldate(CellNumber(node).value, 0).Some?
    ensures r.Success? ==> r.value == Date(xldate(CellNumber(node).value, 0).value)
  {
    var serial :- CellNumber(node);
    match xldate(serial, 0)
    case None => Failure(DateError)
    case Some(when) => Success(Date(when))
  }

  /** The literal branch: `getattr(node.getElementsByTagName("v")[0].firstChild, "nodeValue", None)`. */
  function LiteralValue(node: Node): (r: Result<Value, PyError>)
    ensures r.Success? <==> node.Element? && Descendants(node.children, "v") != []
    ensures r.Success? ==> r.value == OptionalText(NodeValueOrNone(FirstChild(Descendants(node.children, "v")[0])))
  {
    var vs :- ElementsByTagName(node, "v");
    if vs == [] then Failure(IndexError) else Success(OptionalText(NodeValueOrNone(FirstChild(vs[0]))))
  }

  /**
   * The precedence chain for a cell's value: shared string when `t` is "s", else
   * a date when the style is one of DateStyles and `t` is "n", else the first
   * `v` element's text when the node has a child, else the empty string.
   */
  function Classify(node: Node, colType: string, cellS: string, strings: Option<seq<string>>,
                    xldate: DateConverter): (r: Result<Value, PyError>)
    ensures colType == "s" ==> r == SharedStringValue(node, strings)
    ensures colType != "s" && cellS in DateStyles && colType == "n" ==> r == DateValue(node, xldate)
    ensures colType != "s" && !(cellS in DateStyles && colType == "n") && FirstChild(node).Some? ==> r == LiteralValue(node)
    ensures colType != "s" && !(cellS in DateStyles && colType == "n") && FirstChild(node).None? ==> r == Success(Str(""))
  {
    if colType == "s" then SharedStringValue(node, strings)
    else if cellS in DateStyles && colType == "n" then DateValue(node, xldate)
    else if FirstChild(node).Some? then LiteralValue(node)
    else Success(Str(""))
  }

  /** The formula: the text of the first `f` element, None when there is none or it holds no text. */
  function Formula(node: Node): (r: Option<string>)
    requires node.Element?
    ensures Descendants(node.children, "f") == [] ==> r.None?
    ensures Descendants(node.children, "f") != [] ==> r == NodeValueOrNone(FirstChild(Descendants(node.children, "f")[0]))
  {
    var fs := Descendants(node.children, "f");
    if fs == [] then None else NodeValueOrNone(FirstChild(fs[0]))
  }

  /**
   * The body of the `try`: the value, and the formula when the value was
   * obtained; any failure leaves the initial `''` and None in place.
   */
  function Content(node: Node, colType: string, cellS: string, strings: Option<seq<string>>,
                   xldate: DateConverter): (r: (Value, Option<string>))
    requires node.Element?
    ensures Classify(node, colType, cellS, strings, xldate).Success? ==>
              r == (Classify(node, colType, cellS, strings, xldate).value, Formula(node))
    ensures Classify(node, colType, cellS, strings, xldate).Failure? ==> r == (Str(""), None)
  {
    match Classify(node, colType, cellS, strings, xldate)
    case Success(v) => (v, Formula(node))
    case Failure(_) => (Str(""), None)
  }

  /**
   * One pass of the inner loop for the cell node `node` of row `rowNum`. Only a
   * non-element node aborts the load (its attributes cannot be read); every
   * element produces a cell, whatever its content.
   */
  function CellEntry(rowNum: int, node: Node, strings: Option<seq<string>>, xldate: DateConverter): (r: Result<Entry<int>, PyError>)
    ensures r.Success? <==> node.Element?
    ensures r.Failure? ==> r.error == AttributeError
    ensures r.Success? ==> r.value.rowKey == rowNum && r.value.cell.row == rowNum
  {
    if node.Text? then Failure(AttributeError)
    else
      var colType := GetAttribute(node, "t").value;
      var cellId := GetAttribute(node, "r").value;
      var cellS := GetAttribute(node, "s").value;
      var colNum := DerivedColumn(cellId, rowNum);
      var content := Content(node, colType, cellS, strings, xldate);
      Success(Entry(cellId, rowNum, NewCell(rowNum, colNum, content.0, content.1)))
  }

  /**
   * The fields of the cell an element produces: its address as the map key,
   * the derived column, the value and formula of the `try` body, and an id equal
   * to the address whenever the address ends in the row number.
   */
  lemma CellEntryFields(rowNum: int, node: Node, strings: Option<seq<string>>, xldate: DateConverter, c: string)
    requires node.Element?
    ensures var e := CellEntry(rowNum, node, strings, xldate).value;
            e.key == GetAttribute(node, "r").value &&
            e.cell.column == DerivedColumn(e.key, rowNum) &&
            (e.cell.value, e.cell.formula) == Content(node, GetAttribute(node, "t").value, GetAttribute(node, "s").value, strings, xldate) &&
            (e.key == c + IntToString(rowNum) ==> e.cell.column == c && e.cell.id == e.key)
  {
  }

  /** The inner loop's step for row `rowNum`. */
  function CellStep(rowNum: int, strings: Option<seq<string>>, xldate: DateConverter): Node -> Result<Entry<int>, PyError> {
    node => CellEntry(rowNum, node, strings, xldate)
  }

  /** The entries of the cell nodes of one row, in document order. */
  function CellEntries(rowNum: int, nodes: seq<Node>, strings: Option<seq<string>>, xldate: DateConverter): Result<seq<Entry<int>>, PyError> {
    MapAll(CellStep(rowNum, strings, xldate), nodes)
  }

  /** A row's cells load exactly when every cell node is an element, one entry per node. */
  lemma CellEntriesShape(rowNum: int, nodes: seq<Node>, strings: Option<seq<string>>, xldate: DateConverter)
    ensures var r := CellEntries(rowNum, nodes, strings, xldate);
            (r.Success? <==> forall i :: 0 <= i < |nodes| ==> nodes[i].Element?) &&
            (r.Success? ==> |r.value| == |nodes| &&
                            forall i :: 0 <= i < |nodes| ==> CellEntry(rowNum, nodes[i], strings, xldate) == Success(r.value[i]))
  {
    MapAllShape(CellStep(rowNum, strings, xldate), nodes);
  }

  /** One pass of the outer loop: `int(rowNode.getAttribute("r"))`, then the row's cells. */
  function RowEntries(rowNode: Node, strings: Option<seq<string>>, xldate: DateConverter): Result<seq<Entry<int>>, PyError> {
    var attr :- GetAttribute(rowNode, "r");
    var rowNum :- ParseInt(attr);
    CellEntries(rowNum, ChildNodes(rowNode), strings, xldate)
  }

  /**
   * A row loads exactly when it is an element whose `r` attribute is a numeral
   * and all of whose children are elements; it yields one entry per child, each
   * under that row number.
   */
  lemma RowEntriesShape(rowNode: Node, strings: Option<seq<string>>, xldate: DateConverter)
    ensures var r := RowEntries(rowNode, strings, xldate);
            (r.Success? <==> rowNode.Element? && ParseInt(GetAttribute(rowNode, "r").value).Success? &&
                             forall i :: 0 <= i < |rowNode.children| ==> rowNode.children[i].Element?) &&
            (r.Success? ==> |r.value| == |rowNode.children| &&
                            forall i :: 0 <= i < |r.value| ==>
                              r.value[i].rowKey == ParseInt(GetAttribute(rowNode, "r").value).value &&
                              r.value[i].cell.row == r.value[i].rowKey)
  {
    if rowNode.Element? && ParseInt(GetAttribute(rowNode, "r").value).Success? {
      CellEntriesShape(ParseInt(GetAttribute(rowNode, "r").value).value, rowNode.children, strings, xldate);
    }
  }

  /** The outer loop's step. */
  function RowStep(strings: Option<seq<string>>, xldate: DateConverter): Node -> Result<seq<Entry<int>>, PyError> {
    row => RowEntries(row, strings, xldate)
  }

  /** The number of cell nodes under a row node. */
  function CellNodeCount(row: Node): nat {
    |ChildNodes(row)|
  }

  /** All entries of the sheet, row after row. */
  function SheetEntries(rows: seq<Node>, strings: Option<seq<string>>, xldate: DateConverter): Result<seq<Entry<int>>, PyError> {
    ConcatAll(RowStep(strings, xldate), rows)
  }

  /**
   * The sheet loads exactly when every row loads, and it then yields exactly one
   * entry per cell node, each under the row number its cell carries.
   */
  lemma SheetEntriesShape(rows: seq<Node>, strings: Option<seq<string>>, xldate: DateConverter)
    ensures var r := SheetEntries(rows, strings, xldate);
            (r.Success? <==> forall i :: 0 <= i < |rows| ==> RowEntries(rows[i], strings, xldate).Success?) &&
            (r.Success? ==> |r.value| == Total(CellNodeCount, rows)) &&
            (r.Success? ==> forall e :: e in r.value ==> e.cell.row == e.rowKey)
  {
    var step := RowStep(strings, xldate);
    ConcatAllSucceeds(step, rows);
    forall i | 0 <= i < |rows| {
      RowEntriesShape(rows[i], strings, xldate);
    }
    ConcatAllLength(step, rows, CellNodeCount);
    ConcatAllEvery(step, rows, (e: Entry<int>) => e.cell.row == e.rowKey);
  }

  /** The maps a successful load of sheet `id` leaves behind, or the error it raises. */
  function SheetIndex(archive: Archive, strings: Option<seq<string>>, xldate: DateConverter, id: int): Result<Index<int>, PyError> {
    var sheetData :- LocateSheetData(archive, id);
    var es :- SheetEntries(ChildNodes(sheetData), strings, xldate);
    Success(Build(es))
  }

  /**
   * The dispatch on a loaded sheet. A key of letters then digits is an address
   * (None when absent); letters only name a column (KeyError when absent);
   * a key starting with a digit is looked up among the rows, whose keys are
   * ints, so it is never found; anything else gives None.
   */
  function Lookup(ix: Index<int>, key: string): (r: Result<Selection, PyError>)
    ensures SelectorOf(key) == CellSelector ==>
              r == Success(if key in ix.cells then OneCell(ix.cells[key]) else NoCell)
    ensures SelectorOf(key) == ColumnSelector ==>
              (r.Success? <==> key in ix.cols) && (r.Success? ==> r.value == Cells(ix.cols[key]))
    ensures SelectorOf(key) == RowSelector ==> r == Failure(KeyError)
    ensures SelectorOf(key) == NoSelector ==> r == Success(NoCell)
    ensures r.Failure? ==> r.error == KeyError
  {
    match SelectorOf(key)
    case CellSelector => Success(if key in ix.cells then OneCell(ix.cells[key]) else NoCell)
    case ColumnSelector => if key in ix.cols then Success(Cells(ix.cols[key])) else Failure(KeyError)
    case RowSelector => Failure(KeyError)
    case NoSelector => Success(NoCell)
  }

  /** The entries a successful load of sheet `id` folds into its maps. */
  function LoadedEntries(archive: Archive, strings: Option<seq<string>>, xldate: DateConverter, id: int): seq<Entry<int>>
    requires SheetIndex(archive, strings, xldate, id).Success?
  {
    SheetEntries(ChildNodes(LocateSheetData(archive, id).value), strings, xldate).value
  }

  /**
   * The row map of a loaded sheet: under the int `k`, exactly the cells of the
   * rows numbered `k`, in document order, each carrying row number `k`.
   */
  lemma LoadedRows(archive: Archive, strings: Option<seq<string>>, xldate: DateConverter, id: int, k: int)
    requires SheetIndex(archive, strings, xldate, id).Success?
    ensures var ix := SheetIndex(archive, strings, xldate, id).value;
            var es := LoadedEntries(archive, strings, xldate, id);
            Bucket(ix.rows, k) == RowCells(es, k) &&
            (k in ix.rows <==> RowCells(es, k) != []) &&
            forall c :: c in Bucket(ix.rows, k) ==> c.row == k
  {
    var es := LoadedEntries(archive, strings, xldate, id);
    SheetEntriesShape(ChildNodes(LocateSheetData(archive, id).value), strings, xldate);
    BuildRows(es, k);
    forall c | c in RowCells(es, k) ensures c.row == k {
      RowCellsMembers(es, k, c);
      var i :| 0 <= i < |es| && es[i].rowKey == k && es[i].cell == c;
      assert es[i] in es;
    }
  }

  /**
   * What a lookup on a loaded sheet finds: for an address, the cell of the last
   * cell node with that address; for a column, its cells in document order;
   * for a row number, nothing, because the rows are keyed by ints.
   */
  lemma LoadedLookup(archive: Archive, strings: Option<seq<string>>, xldate: DateConverter, id: int, key: string)
    requires SheetIndex(archive, strings, xldate, id).Success?
    ensures var ix := SheetIndex(archive, strings, xldate, id).value;
            var es := LoadedEntries(archive, strings, xldate, id);
            (SelectorOf(key) == CellSelector ==>
               Lookup(ix, key) == Success(if LastAt(es, key).Some? then OneCell(LastAt(es, key).value) else NoCell)) &&
            (SelectorOf(key) == ColumnSelector ==>
               (Lookup(ix, key).Success? <==> ColumnCells(es, key) != []) &&
               (Lookup(ix, key).Success? ==> Lookup(ix, key).value == Cells(ColumnCells(es, key)))) &&
            (SelectorOf(key) == RowSelector ==> Lookup(ix, key) == Failure(KeyError))
  {
    var es := LoadedEntries(archive, strings, xldate, id);
    BuildCells(es, key);
    BuildColumns(es, key);
  }
}
