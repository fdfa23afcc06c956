/**
 * The newer revision's Workbook and Sheet objects (xlsx/__init__.py). A
 * workbook owns the parsed parts of its container, its shared-string table and
 * the date converter, and registers one Sheet per `sheet` element of the
 * manifest, with ids 1, 2, ... in declaration order. A sheet loads its maps
 * once, on the first query, and answers every later query from them.
 */
module Xlsx {
  import opened Wrappers
  import opened Python
  import opened Dom
  import opened Cells
  import opened Indexing
  import opened Folds
  import opened Registry
  import opened XlsxStrings
  import opened XlsxLoad
  import opened Parts

  /** The shared-string table, or None when the container has no shared-strings part. */
  function SharedStringsPart(archive: Archive): (r: Result<Option<seq<string>>, PyError>)
    ensures SharedStringsPath !in archive ==> r == Success(None)
    ensures SharedStringsPath in archive ==>
              (r.Success? <==> Table(archive[SharedStringsPath]).Success?) &&
              (r.Success? ==> r.value == Some(Table(archive[SharedStringsPath]).value))
  {
    if SharedStringsPath !in archive then Success(None)
    else
      var table :- Table(archive[SharedStringsPath]);
      Success(Some(table))
  }

  /** `sheetNode._attrs["name"].value`, as a loop step. */
  function NameStep(): Node -> Result<string, PyError> {
    node => AttrValue(node, "name")
  }

  /** The declared sheet names: every manifest entry must carry a `name` attribute. */
  function SheetNames(nodes: seq<Node>): (r: Result<seq<string>, PyError>)
    ensures r.Success? <==> forall i :: 0 <= i < |nodes| ==> nodes[i].Element? && "name" in nodes[i].attrs
    ensures r.Success? ==> |r.value| == |nodes| && forall i :: 0 <= i < |nodes| ==> r.value[i] == nodes[i].attrs["name"]
  {
    MapAllShape(NameStep(), nodes);
    MapAll(NameStep(), nodes)
  }

  /** The names the manifest declares, or the error reading it raises. */
  function Manifest(archive: Archive): Result<seq<string>, PyError> {
    var nodes :- ManifestNodes(archive);
    SheetNames(nodes)
  }

  /** A map has no more distinct values than keys. */
  lemma {:induction false} MapValuesSize<K, V>(m: map<K, V>)
    ensures |m.Values| <= |m|
    decreases |m|
  {
    if m != map[] {
      var k :| k in m;
      var rest := m - {k};
      MapValuesSize(rest);
      forall v | v in m.Values
        ensures v in rest.Values + {m[k]}
      {
        var j :| j in m && m[j] == v;
        if j != k {
          assert j in rest;
        }
      }
      assert |rest.Values + {m[k]}| <= |rest.Values| + 1;
      assert m.Keys == rest.Keys + {k};
    }
  }

  /**
   * The sheets of `book` after declaring `names`: sheet i + 1 is the i-th
   * declared one, and the id map holds exactly ids 1 to n.
   */
  ghost predicate IdsRegistered(book: Workbook, byId: map<int, Sheet>, names: seq<string>, sheets: seq<Sheet>) {
    |sheets| == |names| &&
    (forall i :: 0 <= i < |sheets| ==> sheets[i].workbook == book && sheets[i].id == i + 1 && sheets[i].name == names[i]) &&
    (forall k :: k in byId <==> 1 <= k <= |sheets|) &&
    (forall k :: k in byId ==> byId[k] == sheets[k - 1])
  }

  /** One pass of the registration loop keeps the id map consistent with the declarations. */
  lemma IdsRegisteredSnoc(book: Workbook, byId: map<int, Sheet>, names: seq<string>, sheets: seq<Sheet>, sheet: Sheet)
    requires IdsRegistered(book, byId, names, sheets)
    requires sheet.workbook == book && sheet.id == |sheets| + 1
    ensures IdsRegistered(book, byId[sheet.id := sheet], names + [sheet.name], sheets + [sheet])
  {
    var names', sheets' := names + [sheet.name], sheets + [sheet];
    var byId' := byId[sheet.id := sheet];
    forall i | 0 <= i < |sheets'|
      ensures sheets'[i].workbook == book && sheets'[i].id == i + 1 && sheets'[i].name == names'[i]
    {
      if i < |sheets| {
        assert sheets'[i] == sheets[i] && names'[i] == names[i];
      }
    }
    forall k | k in byId'
      ensures byId'[k] == sheets'[k - 1]
    {
      if k != sheet.id {
        assert sheets'[k - 1] == sheets[k - 1];
      }
    }
  }

  /** The registry of `book`: both maps agree with the declarations. */
  ghost predicate Registered(book: Workbook, byId: map<int, Sheet>, byName: map<string, Sheet>,
                             names: seq<string>, sheets: seq<Sheet>)
  {
    IdsRegistered(book, byId, names, sheets) && NamesRegistered(byName, names, sheets)
  }

  /** One pass of the registration loop keeps the maps consistent with the declarations. */
  lemma RegisteredSnoc(book: Workbook, byId: map<int, Sheet>, byName: map<string, Sheet>,
                       names: seq<string>, sheets: seq<Sheet>, sheet: Sheet)
    requires Registered(book, byId, byName, names, sheets)
    requires sheet.workbook == book && sheet.id == |sheets| + 1
    ensures Registered(book, byId[sheet.id := sheet], byName[sheet.name := sheet], names + [sheet.name], sheets + [sheet])
  {
    IdsRegisteredSnoc(book, byId, names, sheets, sheet);
    NamesRegisteredSnoc(byName, names, sheets, sheet.name, sheet);
  }

  class Workbook {
    const archive: Archive
    const sharedStrings: Option<seq<string>>
    const xldate: DateConverter
    var sheetsById: map<int, Sheet>
    var sheetsByName: map<string, Sheet>
    /** The declared names, and the sheet objects created for them, in declaration order. */
    ghost var names: seq<string>
    ghost var sheets: seq<Sheet>

    /**
     * Sheet i + 1 is the i-th declared one; the id map holds ids 1 to n; the name
     * map holds every declared name, bound to the last sheet declared with it.
     */
    ghost predicate Valid()
      reads this
    {
      Registered(this, sheetsById, sheetsByName, names, sheets)
    }

    constructor(archive: Archive, sharedStrings: Option<seq<string>>, xldate: DateConverter)
      ensures this.archive == archive && this.sharedStrings == sharedStrings && this.xldate == xldate
      ensures names == [] && sheets == [] && Valid()
    {
      this.archive := archive;
      this.sharedStrings := sharedStrings;
      this.xldate := xldate;
      sheetsById := map[];
      sheetsByName := map[];
      names := [];
      sheets := [];
    }

    /** The loop of `Workbook.__init__`: one new Sheet per manifest entry, ids counting up from 1. */
    method Register(nodes: seq<Node>) returns (r: Outcome<PyError>)
      requires Valid() && sheets == []
      modifies this
      ensures Valid()
      ensures r.Pass? <==> MapAll(NameStep(), nodes).Success?
      ensures r.Fail? ==> r.error == MapAll(NameStep(), nodes).error
      ensures r.Pass? ==> names == MapAll(NameStep(), nodes).value
      ensures forall i :: 0 <= i < |sheets| ==> fresh(sheets[i]) && sheets[i].Unloaded()
    {
      var id := 1;
      var k := 0;
      while k < |nodes|
        invariant 0 <= k <= |nodes| && id == k + 1
        invariant Valid() && |sheets| == k
        invariant MapAll(NameStep(), nodes[..k]) == Success(names)
        invariant forall i :: 0 <= i < |sheets| ==> fresh(sheets[i]) && sheets[i].Unloaded()
      {
        MapAllStep(NameStep(), nodes, k);
        var name := AttrValue(nodes[k], "name");
        if name.Failure? {
          MapAllFailureSticks(NameStep(), nodes, k + 1);
          return Fail(name.error);
        }
        AddSheet(id, name.value);
        id := id + 1;
        k := k + 1;
      }
      assert nodes[..k] == nodes;
      r := Pass;
    }

    /** The body of the registration loop: a new sheet under the next id and its name. */
    method AddSheet(id: int, name: string)
      requires Valid() && id == |sheets| + 1
      modifies this
      ensures Valid()
      ensures names == old(names) + [name] && sheets == old(sheets) + [sheets[|sheets| - 1]]
      ensures fresh(sheets[|sheets| - 1]) && sheets[|sheets| - 1].Unloaded()
    {
      var sheet := new Sheet(this, id, name);
      RegisteredSnoc(this, sheetsById, sheetsByName, names, sheets, sheet);
      sheetsById := sheetsById[id := sheet];
      sheetsByName := sheetsByName[name := sheet];
      assert sheet.name in sheetsByName;
      names := names + [name];
      sheets := sheets + [sheet];
    }

    /** `keys()`: the declared names, as a set. */
    function Keys(): (r: set<string>)
      reads this
      requires Valid()
      ensures forall n :: n in r <==> n in names
    {
      sheetsByName.Keys
    }

    /** `len()`: the number of distinct names, which is the number of sheets exactly when no name repeats. */
    function Len(): (n: nat)
      reads this
      requires Valid()
      ensures n == |NameTable(names)|
      ensures n <= |names| && (n == |names| <==> Distinct(names))
    {
      assert sheetsByName.Keys == NameTable(names).Keys;
      NameTableSize(names);
      |sheetsByName|
    }

    /** `workbook[key]`: an int selects by id, a name selects the last sheet declared with it. */
    function Get(key: SheetKey): (r: Result<Sheet, PyError>)
      reads this
      requires Valid()
      ensures key.IntKey? ==> (r.Success? <==> 1 <= key.id <= |sheets|) &&
                              (r.Success? ==> r.value == sheets[key.id - 1] && r.value.id == key.id)
      ensures key.NameKey? ==> (r.Success? <==> key.name in names) &&
                               (r.Success? ==> r.value.name == key.name && r.value == sheets[NameTable(names)[key.name]])
      ensures r.Failure? ==> r.error == KeyError
    {
      match key
      case IntKey(i) => if i in sheetsById then Success(sheetsById[i]) else Failure(KeyError)
      case NameKey(n) => if n in sheetsByName then Success(sheetsByName[n]) else Failure(KeyError)
    }

    /** `__iter__`: the sheets the name map holds, one for each distinct name. */
    function Sheets(): (r: set<Sheet>)
      reads this
      requires Valid()
      ensures forall n :: n in names ==> Get(NameKey(n)).Success? && Get(NameKey(n)).value in r
      ensures |r| <= Len()
    {
      MapValuesSize(sheetsByName);
      sheetsByName.Values
    }

    /**
     * With distinct names, selecting sheet `k` by id and then by its name gives
     * sheet `k` back, and its name is among the keys.
     */
    lemma IdNameConsistent(k: int)
      requires Valid() && Distinct(names) && 1 <= k <= |sheets|
      ensures Get(IntKey(k)).Success? && Get(IntKey(k)).value.name in Keys()
      ensures Get(NameKey(Get(IntKey(k)).value.name)) == Get(IntKey(k))
    {
      var s := sheetsById[k];
      assert s == sheets[k - 1] && s.name == names[k - 1];
      NameTableOfDistinct(names, k - 1);
      assert s.name in NameTable(names);
      assert sheetsByName[s.name] == sheets[k - 1];
    }
  }

  class Sheet {
    const workbook: Workbook
    const id: int
    const name: string
    var loaded: bool
    var cells: map<string, Cell>
    var cols: map<string, seq<Cell>>
    var rows: map<int, seq<Cell>>

    /** What loading this sheet yields. */
    ghost function Spec(): Result<Index<int>, PyError> {
      SheetIndex(workbook.archive, workbook.sharedStrings, workbook.xldate, id)
    }

    /**
     * A loaded sheet holds the maps its load computes. Before a load the row and
     * column maps are empty, and so is the address map unless an earlier load
     * failed part way.
     */
    ghost predicate Valid()
      reads this
    {
      (loaded ==> Spec() == Success(Index(cells, rows, cols))) &&
      (!loaded ==> rows == map[] && cols == map[] && (Spec().Success? ==> cells == map[]))
    }

    /** A sheet nothing has been loaded into yet. */
    ghost predicate Unloaded()
      reads this
    {
      !loaded && cells == map[] && rows == map[] && cols == map[]
    }

    /** A sheet nothing has been loaded into is ready for its first query. */
    lemma UnloadedIsValid()
      requires Unloaded()
      ensures Valid() && !loaded
    {
    }

    constructor(workbook: Workbook, id: int, name: string)
      ensures this.workbook == workbook && this.id == id && this.name == name
      ensures Unloaded()
    {
      this.workbook := workbook;
      this.id := id;
      this.name := name;
      loaded := false;
      cells := map[];
      cols := map[];
      rows := map[];
    }

    /**
     * One pass of the inner loop of `__load`: create the cell's row and column
     * lists on first use, append the cell to both, and store it by address.
     */
    method AddCell(e: Entry<int>, rowMap: map<int, seq<Cell>>, columns: map<string, seq<Cell>>,
                   ghost start: map<string, Cell>, ghost done: seq<Entry<int>>)
      returns (rowMap': map<int, seq<Cell>>, columns': map<string, seq<Cell>>)
      requires cells == start + Build(done).cells && rowMap == Build(done).rows && columns == Build(done).cols
      modifies `cells
      ensures cells == start + Build(done + [e]).cells
      ensures rowMap' == Build(done + [e]).rows && columns' == Build(done + [e]).cols
    {
      AppendToBucket(rowMap, e.rowKey, e.cell);
      AppendToBucket(columns, e.cell.column, e.cell);
      rowMap', columns' := rowMap, columns;
      if e.rowKey !in rowMap' {
        rowMap' := rowMap'[e.rowKey := []];
      }
      if e.cell.column !in columns' {
        columns' := columns'[e.cell.column := []];
      }
      rowMap' := rowMap'[e.rowKey := rowMap'[e.rowKey] + [e.cell]];
      columns' := columns'[e.cell.column := columns'[e.cell.column] + [e.cell]];
      UpdateMerged(start, Build(done).cells, e.key, e.cell);
      cells := cells[e.key := e.cell];
      BuildSnoc(done, e);
    }

    /**
     * The inner loop of `__load` for one row node: parse its `r` attribute, then
     * add the entry of each of its cell nodes in turn.
     */
    method LoadRow(rowNode: Node, rowMap: map<int, seq<Cell>>, columns: map<string, seq<Cell>>,
                   ghost start: map<string, Cell>, ghost done: seq<Entry<int>>)
      returns (o: Outcome<PyError>, rowMap': map<int, seq<Cell>>, columns': map<string, seq<Cell>>)
      requires cells == start + Build(done).cells && rowMap == Build(done).rows && columns == Build(done).cols
      modifies `cells
      ensures o.Pass? <==> RowEntries(rowNode, workbook.sharedStrings, workbook.xldate).Success?
      ensures o.Fail? ==> o.error == RowEntries(rowNode, workbook.sharedStrings, workbook.xldate).error
      ensures o.Pass? ==>
                var added := RowEntries(rowNode, workbook.sharedStrings, workbook.xldate).value;
                cells == start + Build(done + added).cells &&
                rowMap' == Build(done + added).rows && columns' == Build(done + added).cols
    {
      var strings, xldate := workbook.sharedStrings, workbook.xldate;
      rowMap', columns' := rowMap, columns;
      var attr := GetAttribute(rowNode, "r");
      if attr.Failure? {
        return Fail(attr.error), rowMap', columns';
      }
      var rowNum := ParseInt(attr.value);
      if rowNum.Failure? {
        return Fail(rowNum.error), rowMap', columns';
      }
      var cellNodes := ChildNodes(rowNode);
      ghost var cellStep := CellStep(rowNum.value, strings, xldate);
      ghost var rowDone: seq<Entry<int>> := [];
      assert done + rowDone == done;
      var j := 0;
      while j < |cellNodes|
        invariant 0 <= j <= |cellNodes|
        invariant MapAll(cellStep, cellNodes[..j]) == Success(rowDone)
        invariant cells == start + Build(done + rowDone).cells
        invariant rowMap' == Build(done + rowDone).rows && columns' == Build(done + rowDone).cols
      {
        MapAllStep(cellStep, cellNodes, j);
        var entry := CellEntry(rowNum.value, cellNodes[j], strings, xldate);
        if entry.Failure? {
          MapAllFailureSticks(cellStep, cellNodes, j + 1);
          return Fail(entry.error), rowMap', columns';
        }
        rowMap', columns' := AddCell(entry.value, rowMap', columns', start, done + rowDone);
        AppendOne(done, rowDone, entry.value);
        rowDone := rowDone + [entry.value];
        j := j + 1;
      }
      assert cellNodes[..j] == cellNodes;
      o := Pass;
    }

    /** The outer loop of `__load`: every row node in turn, each adding its cells. */
    method LoadRows(rowNodes: seq<Node>, ghost start: map<string, Cell>)
      returns (o: Outcome<PyError>, rowMap: map<int, seq<Cell>>, columns: map<string, seq<Cell>>)
      requires cells == start
      modifies `cells
      ensures var all := ConcatAll(RowStep(workbook.sharedStrings, workbook.xldate), rowNodes);
              (o.Pass? <==> all.Success?) &&
              (o.Fail? ==> o.error == all.error) &&
              (o.Pass? ==> cells == start + Build(all.value).cells &&
                           rowMap == Build(all.value).rows && columns == Build(all.value).cols)
    {
      ghost var rowStep := RowStep(workbook.sharedStrings, workbook.xldate);
      rowMap, columns := map[], map[];
      ghost var done: seq<Entry<int>> := [];
      assert cells == start + Build(done).cells;
      var i := 0;
      while i < |rowNodes|
        invariant 0 <= i <= |rowNodes|
        invariant ConcatAll(rowStep, rowNodes[..i]) == Success(done)
        invariant cells == start + Build(done).cells && rowMap == Build(done).rows && columns == Build(done).cols
      {
        ConcatAllStep(rowStep, rowNodes, i);
        o, rowMap, columns := LoadRow(rowNodes[i], rowMap, columns, start, done);
        if o.Fail? {
          ConcatAllFailureSticks(rowStep, rowNodes, i + 1);
          return;
        }
        done := done + RowEntries(rowNodes[i], workbook.sharedStrings, workbook.xldate).value;
        i := i + 1;
      }
      assert rowNodes[..i] == rowNodes;
      o := Pass;
    }

    /** `Sheet.__load`: locate the sheet's data, run the loops, then store the row and column maps. */
    method Load() returns (r: Outcome<PyError>)
      requires Valid() && !loaded
      modifies this
      ensures Valid()
      ensures r.Pass? <==> Spec().Success?
      ensures r.Pass? ==> loaded
      ensures r.Fail? ==> r.error == Spec().error && !loaded && rows == old(rows) && cols == old(cols)
    {
      var located := LocateSheetData(workbook.archive, id);
      if located.Failure? {
        return Fail(located.error);
      }
      ghost var start := cells;
      var rowMap, columns;
      r, rowMap, columns := LoadRows(ChildNodes(located.value), start);
      if r.Fail? {
        return;
      }
      assert start == map[];
      assert start + Build(ConcatAll(RowStep(workbook.sharedStrings, workbook.xldate), ChildNodes(located.value)).value).cells ==
             Build(ConcatAll(RowStep(workbook.sharedStrings, workbook.xldate), ChildNodes(located.value)).value).cells;
      rows := rowMap;
      cols := columns;
      loaded := true;
    }

    /** `rows()`: the row map, loading first if needed. */
    method Rows() returns (r: Result<map<int, seq<Cell>>, PyError>)
      requires Valid()
      modifies this
      ensures Valid()
      ensures old(loaded) ==> unchanged(this)
      ensures Spec().Success? ==> loaded && r == Success(Spec().value.rows)
      ensures Spec().Failure? ==> r == Failure(Spec().error)
    {
      if !loaded {
        var o := Load();
        if o.Fail? {
          return Failure(o.error);
        }
      }
      r := Success(rows);
    }

    /** `cols()`: the column map, loading first if needed. */
    method Cols() returns (r: Result<map<string, seq<Cell>>, PyError>)
      requires Valid()
      modifies this
      ensures Valid()
      ensures old(loaded) ==> unchanged(this)
      ensures Spec().Success? ==> loaded && r == Success(Spec().value.cols)
      ensures Spec().Failure? ==> r == Failure(Spec().error)
    {
      if !loaded {
        var o := Load();
        if o.Fail? {
          return Failure(o.error);
        }
      }
      r := Success(cols);
    }

    /** `sheet[key]`, loading first if needed. */
    method GetItem(key: string) returns (r: Result<Selection, PyError>)
      requires Valid()
      modifies this
      ensures Valid()
      ensures old(loaded) ==> unchanged(this)
      ensures Spec().Success? ==> loaded && r == Lookup(Spec().value, key)
      ensures Spec().Failure? ==> r == Failure(Spec().error)
    {
      if !loaded {
        var o := Load();
        if o.Fail? {
          return Failure(o.error);
        }
      }
      r := Lookup(Index(cells, rows, cols), key);
    }

    /** `iter(sheet)`: the addresses of the loaded cells, loading first if needed. */
    method Iter() returns (r: Result<set<string>, PyError>)
      requires Valid()
      modifies this
      ensures Valid()
      ensures old(loaded) ==> unchanged(this)
      ensures Spec().Success? ==> loaded && r == Success(Spec().value.cells.Keys)
      ensures Spec().Failure? ==> r == Failure(Spec().error)
    {
      if !loaded {
        var o := Load();
        if o.Fail? {
          return Failure(o.error);
        }
      }
      r := Success(cells.Keys);
    }
  }

  /**
   * `Workbook(filename)` on the parsed parts of a container: read the shared
   * strings (absent part: None), then register the sheets the manifest declares.
   */
  method Open(archive: Archive, xldate: DateConverter) returns (r: Result<Workbook, PyError>)
    ensures r.Success? <==> SharedStringsPart(archive).Success? && Manifest(archive).Success?
    ensures SharedStringsPart(archive).Failure? ==> r.Failure? && r.error == SharedStringsPart(archive).error
    ensures SharedStringsPart(archive).Success? && Manifest(archive).Failure? ==> r.Failure? && r.error == Manifest(archive).error
    ensures r.Success? ==> fresh(r.value) && r.value.Valid() &&
                           r.value.archive == archive && r.value.xldate == xldate &&
                           r.value.sharedStrings == SharedStringsPart(archive).value &&
                           r.value.names == Manifest(archive).value &&
                           forall i :: 0 <= i < |r.value.sheets| ==> fresh(r.value.sheets[i]) && r.value.sheets[i].Unloaded()
  {
    var strings: Option<seq<string>> := None;
    if SharedStringsPath in archive {
      var table := ReadTable(archive[SharedStringsPath]);
      if table.Failure? {
        return Failure(table.error);
      }
      strings := Some(table.value);
    }
    var book := new Workbook(archive, strings, xldate);
    var manifest := ManifestNodes(archive);
    if manifest.Failure? {
      return Failure(manifest.error);
    }
    var o := book.Register(manifest.value);
    if o.Fail? {
      return Failure(o.error);
    }
    r := Success(book);
  }
}
