/**
 * The older revision's Workbook and Sheet objects (src/xlsx/__init__.py). A
 * workbook reads the shared-string table, then registers one Sheet per entry of
 * the manifest, with the id its relationship attribute gives, in a list (by
 * position) and a map (by name). A sheet never records that it was loaded, so
 * every query loads it again, storing into the maps the previous load left.
 */
module Legacy {
  import opened Wrappers
  import opened Python
  import opened Dom
  import opened Cells
  import opened Indexing
  import opened Folds
  import opened Registry
  import opened Parts
  import opened LegacyStrings
  import opened LegacyLoad

  /**
   * One manifest entry: `sheetNode._attrs["name"].value`, then
   * `int(sheetNode._attrs["r:id"].value[3:])`. A non-element raises
   * AttributeError, a missing attribute KeyError, a relationship id whose tail
   * is not a numeral ValueError.
   */
  function Declaration(node: Node): (r: Result<(string, int), PyError>)
    ensures r.Success? <==> node.Element? && "name" in node.attrs && "r:id" in node.attrs &&
                            ParseInt(SliceFrom(node.attrs["r:id"], 3)).Success?
    ensures r.Success? ==> r.value == (node.attrs["name"], ParseInt(SliceFrom(node.attrs["r:id"], 3)).value)
    ensures r.Failure? ==> r.error == (if node.Text? then AttributeError
                                      else if "name" !in node.attrs || "r:id" !in node.attrs then KeyError
                                      else ValueError)
  {
    var name :- AttrValue(node, "name");
    var relId :- AttrValue(node, "r:id");
    var id :- ParseInt(SliceFrom(relId, 3));
    Success((name, id))
  }

  /** A relationship id made of a three-character prefix and a number declares that number. */
  lemma RelIdRoundTrip(prefix: string, n: int)
    requires |prefix| == 3
    ensures ParseInt(SliceFrom(prefix + IntToString(n), 3)) == Success(n)
  {
    assert (prefix + IntToString(n))[3..] == IntToString(n);
    ParseIntOfIntToString(n);
  }

  /** Declaration as a loop step. */
  function DeclStep(): Node -> Result<(string, int), PyError> {
    node => Declaration(node)
  }

  /** The (name, id) pairs the manifest declares, or the error reading it raises. */
  function Manifest(archive: Archive): Result<seq<(string, int)>, PyError> {
    var nodes :- ManifestNodes(archive);
    MapAll(DeclStep(), nodes)
  }

  /** The manifest reads exactly when every entry declares a sheet, one pair per entry, in order. */
  lemma ManifestShape(archive: Archive)
    requires ManifestNodes(archive).Success?
    ensures var nodes := ManifestNodes(archive).value;
            (Manifest(archive).Success? <==> forall i :: 0 <= i < |nodes| ==> Declaration(nodes[i]).Success?) &&
            (Manifest(archive).Success? ==>
               |Manifest(archive).value| == |nodes| &&
               forall i :: 0 <= i < |nodes| ==> Declaration(nodes[i]) == Success(Manifest(archive).value[i]))
  {
    MapAllShape(DeclStep(), ManifestNodes(archive).value);
  }

  /** The declared names. */
  function NamesOf(decls: seq<(string, int)>): (names: seq<string>)
    ensures |names| == |decls| && forall i :: 0 <= i < |decls| ==> names[i] == decls[i].0
  {
    seq(|decls|, i requires 0 <= i < |decls| => decls[i].0)
  }

  lemma NamesOfSnoc(decls: seq<(string, int)>, d: (string, int))
    ensures NamesOf(decls + [d]) == NamesOf(decls) + [d.0]
  {
    assert forall i :: 0 <= i < |decls| ==> (decls + [d])[i] == decls[i];
  }

  /** Sheet i of the list is the i-th declared one, of `book`. */
  ghost predicate Listed(book: Workbook, decls: seq<(string, int)>, sheets: seq<Sheet>) {
    |sheets| == |decls| &&
    forall i :: 0 <= i < |sheets| ==> sheets[i].workbook == book && (sheets[i].name, sheets[i].id) == decls[i]
  }

  lemma ListedSnoc(book: Workbook, decls: seq<(string, int)>, sheets: seq<Sheet>, sheet: Sheet)
    requires Listed(book, decls, sheets) && sheet.workbook == book
    ensures Listed(book, decls + [(sheet.name, sheet.id)], sheets + [sheet])
  {
    var decls', sheets' := decls + [(sheet.name, sheet.id)], sheets + [sheet];
    forall i | 0 <= i < |sheets'|
      ensures sheets'[i].workbook == book && (sheets'[i].name, sheets'[i].id) == decls'[i]
    {
      if i < |sheets| {
        assert sheets'[i] == sheets[i] && decls'[i] == decls[i];
      }
    }
  }

  class Workbook {
    const archive: Archive
    const sharedStrings: seq<Option<string>>
    var sheetsByName: map<string, Sheet>
    var sheetsByIndex: seq<Sheet>
    /** The (name, id) pairs declared so far, in declaration order. */
    ghost var decls: seq<(string, int)>

    /**
     * The list holds one sheet per declaration, in order; the name map holds
     * every declared name, bound to the last sheet declared with it.
     */
    ghost predicate Valid()
      reads this
    {
      Listed(this, decls, sheetsByIndex) && NamesRegistered(sheetsByName, NamesOf(decls), sheetsByIndex)
    }

    constructor(archive: Archive, sharedStrings: seq<Option<string>>)
      ensures this.archive == archive && this.sharedStrings == sharedStrings
      ensures decls == [] && sheetsByIndex == [] && sheetsByName == map[]
    {
      this.archive := archive;
      this.sharedStrings := sharedStrings;
      sheetsByName := map[];
      sheetsByIndex := [];
      decls := [];
    }

    /** The empty registry of a new workbook is consistent. */
    lemma EmptyIsValid()
      requires decls == [] && sheetsByIndex == [] && sheetsByName == map[]
      ensures Valid()
    {
    }

    /** The loop of `Workbook.__init__`: one new Sheet per manifest entry, appended to the list and stored under its name. */
    method Register(nodes: seq<Node>) returns (r: Outcome<PyError>)
      requires Valid() && decls == []
      modifies this
      ensures Valid()
      ensures r.Pass? <==> MapAll(DeclStep(), nodes).Success?
      ensures r.Fail? ==> r.error == MapAll(DeclStep(), nodes).error
      ensures r.Pass? ==> decls == MapAll(DeclStep(), nodes).value
      ensures forall i :: 0 <= i < |sheetsByIndex| ==> fresh(sheetsByIndex[i]) && sheetsByIndex[i].Unloaded()
    {
      var k := 0;
      while k < |nodes|
        invariant 0 <= k <= |nodes|
        invariant Valid()
        invariant MapAll(DeclStep(), nodes[..k]) == Success(decls)
        invariant forall i :: 0 <= i < |sheetsByIndex| ==> fresh(sheetsByIndex[i]) && sheetsByIndex[i].Unloaded()
      {
        MapAllStep(DeclStep(), nodes, k);
        var decl := Declaration(nodes[k]);
        if decl.Failure? {
          MapAllFailureSticks(DeclStep(), nodes, k + 1);
          return Fail(decl.error);
        }
        AddSheet(decl.value.0, decl.value.1);
        k := k + 1;
      }
      assert nodes[..k] == nodes;
      r := Pass;
    }

    /** The body of the registration loop. */
    method AddSheet(name: string, id: int)
      requires Valid()
      modifies this
      ensures Valid()
      ensures decls == old(decls) + [(name, id)]
      ensures sheetsByIndex == old(sheetsByIndex) + [sheetsByIndex[|sheetsByIndex| - 1]]
      ensures fresh(sheetsByIndex[|sheetsByIndex| - 1]) && sheetsByIndex[|sheetsByIndex| - 1].Unloaded()
      ensures name in sheetsByName
    {
      var sheet := new Sheet(this, id, name);
      ListedSnoc(this, decls, sheetsByIndex, sheet);
      NamesOfSnoc(decls, (name, id));
      NamesRegisteredSnoc(sheetsByName, NamesOf(decls), sheetsByIndex, name, sheet);
      sheetsByIndex := sheetsByIndex + [sheet];
      sheetsByName := sheetsByName[name := sheet];
      decls := decls + [(name, id)];
    }

    /** `keys()`: the declared names, as a set. */
    function Keys(): (r: set<string>)
      reads this
      requires Valid()
      ensures forall n :: n in r <==> n in NamesOf(decls)
    {
      sheetsByName.Keys
    }

    /** `len()`: the number of distinct names, which is the number of sheets exactly when no name repeats. */
    function Len(): (n: nat)
      reads this
      requires Valid()
      ensures n == |NameTable(NamesOf(decls))|
      ensures n <= |sheetsByIndex| && (n == |sheetsByIndex| <==> Distinct(NamesOf(decls)))
    {
      NameTableSize(NamesOf(decls));
      |sheetsByName|
    }

    /**
     * `workbook[key]`: an int is a position in the list, counted from the end
     * when negative (IndexError past either end); a name selects the last sheet
     * declared with it (KeyError when none is).
     */
    function Get(key: SheetKey): (r: Result<Sheet, PyError>)
      reads this
      requires Valid()
      ensures key.IntKey? ==> (r.Success? <==> -|decls| <= key.id < |decls|) && (r.Failure? ==> r.error == IndexError)
      ensures key.IntKey? && 0 <= key.id < |decls| ==>
                r == Success(sheetsByIndex[key.id]) && (r.value.name, r.value.id) == decls[key.id]
      ensures key.IntKey? && -|decls| <= key.id < 0 ==>
                r == Success(sheetsByIndex[|decls| + key.id]) && (r.value.name, r.value.id) == decls[|decls| + key.id]
      ensures key.NameKey? ==> (r.Success? <==> key.name in NamesOf(decls)) && (r.Failure? ==> r.error == KeyError)
      ensures key.NameKey? && r.Success? ==>
                r.value.name == key.name && r.value == sheetsByIndex[NameTable(NamesOf(decls))[key.name]]
    {
      match key
      case IntKey(i) => ListIndex(sheetsByIndex, i)
      case NameKey(n) => if n in sheetsByName then Success(sheetsByName[n]) else Failure(KeyError)
    }

    /** With distinct names, the sheet at position `k` is found again by its name. */
    lemma IndexNameConsistent(k: int)
      requires Valid() && Distinct(NamesOf(decls)) && 0 <= k < |decls|
      ensures Get(IntKey(k)).Success? && Get(IntKey(k)).value.name in Keys()
      ensures Get(NameKey(Get(IntKey(k)).value.name)) == Get(IntKey(k))
    {
      var names := NamesOf(decls);
      var s := sheetsByIndex[k];
      assert s.name == names[k];
      NameTableOfDistinct(names, k);
      assert s.name in NameTable(names);
      assert sheetsByName[s.name] == s;
    }

    /** A negative index counts from the end: `-len + k` selects what `k` does. */
    lemma NegativeIndex(k: int)
      requires Valid() && 0 <= k < |decls|
      ensures Get(IntKey(k - |decls|)) == Get(IntKey(k))
    {
    }
  }

  class Sheet {
    const workbook: Workbook
    const id: int
    const name: string
    var loaded: bool
    var cells: map<string, Cell>
    var cols: map<string, seq<Cell>>
    var rows: map<string, seq<Cell>>

    /** What one load of this sheet computes. */
    ghost function Spec(): Result<Index<string>, PyError> {
      SheetIndex(workbook.archive, workbook.sharedStrings, id)
    }

    /**
     * The sheet is never marked loaded. When its load succeeds, its maps are
     * either still empty or exactly what the load computes; when it fails, the
     * row and column maps stay empty (the address map may hold the cells the
     * failed load stored before it raised).
     */
    ghost predicate Valid()
      reads this
    {
      !loaded &&
      (Spec().Success? ==> Index(cells, rows, cols) == EmptyIndex() || Index(cells, rows, cols) == Spec().value) &&
      (Spec().Failure? ==> rows == map[] && cols == map[])
    }

    /** A sheet nothing has been loaded into yet. */
    ghost predicate Unloaded()
      reads this
    {
      !loaded && cells == map[] && rows == map[] && cols == map[]
    }

    lemma UnloadedIsValid()
      requires Unloaded()
      ensures Valid()
    {
    }

    constructor(workbook: Workbook, id: int, name: string)
      ensures this.workbook == workbook && this.id == id && this.name == name
      ensures Unloaded()
    {
      this.workbook := workbook;
      this.id := id;
      this.name := name;
      loaded := false;
      cells := map[];
      cols := map[];
      rows := map[];
    }

    /**
     * One pass of the inner loop of `__load`: create the cell's row and column
     * lists on first use, append the cell to both, and store it by address.
     */
    method AddCell(e: Entry<string>, rowMap: map<string, seq<Cell>>, columns: map<string, seq<Cell>>,
                   ghost start: map<string, Cell>, ghost done: seq<Entry<string>>)
      returns (rowMap': map<string, seq<Cell>>, columns': map<string, seq<Cell>>)
      requires cells == start + Build(done).cells && rowMap == Build(done).rows && columns == Build(done).cols
      modifies `cells
      ensures cells == start + Build(done + [e]).cells
      ensures rowMap' == Build(done + [e]).rows && columns' == Build(done + [e]).cols
    {
      AppendToBucket(rowMap, e.rowKey, e.cell);
      AppendToBucket(columns, e.cell.column, e.cell);
      rowMap', columns' := rowMap, columns;
      if e.rowKey !in rowMap' {
        rowMap' := rowMap'[e.rowKey := []];
      }
      if e.cell.column !in columns' {
        columns' := columns'[e.cell.column := []];
      }
      rowMap' := rowMap'[e.rowKey := rowMap'[e.rowKey] + [e.cell]];
      columns' := columns'[e.cell.column := columns'[e.cell.column] + [e.cell]];
      UpdateMerged(start, Build(done).cells, e.key, e.cell);
      cells := cells[e.key := e.cell];
      BuildSnoc(done, e);
    }

    /**
     * The inner loop of `__load` for one row node: read its `r` attribute, then
     * add the entry of each of its cell nodes in turn.
     */
    method LoadRow(rowNode: Node, rowMap: map<string, seq<Cell>>, columns: map<string, seq<Cell>>,
                   ghost start: map<string, Cell>, ghost done: seq<Entry<string>>)
      returns (o: Outcome<PyError>, rowMap': map<string, seq<Cell>>, columns': map<string, seq<Cell>>)
      requires cells == start + Build(done).cells && rowMap == Build(done).rows && columns == Build(done).cols
      modifies `cells
      ensures o.Pass? <==> RowEntries(rowNode, workbook.sharedStrings).Success?
      ensures o.Fail? ==> o.error == RowEntries(rowNode, workbook.sharedStrings).error
      ensures o.Pass? ==>
                var added := RowEntries(rowNode, workbook.sharedStrings).value;
                cells == start + Build(done + added).cells &&
                rowMap' == Build(done + added).rows && columns' == Build(done + added).cols
    {
      var strings := workbook.sharedStrings;
      rowMap', columns' := rowMap, columns;
      var rowNum := GetAttribute(rowNode, "r");
      if rowNum.Failure? {
        return Fail(rowNum.error), rowMap', columns';
      }
      var cellNodes := ChildNodes(rowNode);
      ghost var cellStep := CellStep(rowNum.value, strings);
      ghost var rowDone: seq<Entry<string>> := [];
      assert done + rowDone == done;
      var j := 0;
      while j < |cellNodes|
        invariant 0 <= j <= |cellNodes|
        invariant MapAll(cellStep, cellNodes[..j]) == Success(rowDone)
        invariant cells == start + Build(done + rowDone).cells
        invariant rowMap' == Build(done + rowDone).rows && columns' == Build(done + rowDone).cols
      {
        MapAllStep(cellStep, cellNodes, j);
        var entry := CellEntry(rowNum.value, cellNodes[j], strings);
        if entry.Failure? {
          MapAllFailureSticks(cellStep, cellNodes, j + 1);
          return Fail(entry.error), rowMap', columns';
        }
        rowMap', columns' := AddCell(entry.value, rowMap', columns', start, done + rowDone);
        AppendOne(done, rowDone, entry.value);
        rowDone := rowDone + [entry.value];
        j := j + 1;
      }
      assert cellNodes[..j] == cellNodes;
      o := Pass;
    }

    /** The outer loop of `__load`: every row node in turn, each adding its cells. */
    method LoadRows(rowNodes: seq<Node>, ghost start: map<string, Cell>)
      returns (o: Outcome<PyError>, rowMap: map<string, seq<Cell>>, columns: map<string, seq<Cell>>)
      requires cells == start
      modifies `cells
      ensures var all := SheetEntries(rowNodes, workbook.sharedStrings);
              (o.Pass? <==> all.Success?) &&
              (o.Fail? ==> o.error == all.error) &&
              (o.Pass? ==> cells == start + Build(all.value).cells &&
                           rowMap == Build(all.value).rows && columns == Build(all.value).cols)
    {
      ghost var rowStep := RowStep(workbook.sharedStrings);
      rowMap, columns := map[], map[];
      ghost var done: seq<Entry<string>> := [];
      assert cells == start + Build(done).cells;
      var i := 0;
      while i < |rowNodes|
        invariant 0 <= i <= |rowNodes|
        invariant ConcatAll(rowStep, rowNodes[..i]) == Success(done)
        invariant cells == start + Build(done).cells && rowMap == Build(done).rows && columns == Build(done).cols
      {
        ConcatAllStep(rowStep, rowNodes, i);
        o, rowMap, columns := LoadRow(rowNodes[i], rowMap, columns, start, done);
        if o.Fail? {
          ConcatAllFailureSticks(rowStep, rowNodes, i + 1);
          return;
        }
        done := done + RowEntries(rowNodes[i], workbook.sharedStrings).value;
        i := i + 1;
      }
      assert rowNodes[..i] == rowNodes;
      o := Pass;
    }

    /**
     * The loop after the cells: `self.rows[rowNum] = sorted(rows[rowNum])` for
     * each row key, in whatever order the dictionary yields its keys.
     */
    method StoreSortedRows(rowMap: map<string, seq<Cell>>)
      modifies `rows
      ensures rows == old(rows) + SortRows(rowMap)
    {
      ghost var start := rows;
      var keys := rowMap.Keys;
      while keys != {}
        invariant keys <= rowMap.Keys
        invariant rows == start + SortRows(Without(rowMap, keys))
        decreases |keys|
      {
        var k :| k in keys;
        SortRowsStep(start, rowMap, keys, k);
        rows := rows[k := CellSort.Sort(rowMap[k])];
        keys := keys - {k};
      }
      assert Without(rowMap, {}) == rowMap;
    }

    /**
     * `Sheet.__load`: locate the sheet's data, run the loops, sort the row
     * buckets into the row map and replace the column map.
     */
    method Load() returns (r: Outcome<PyError>)
      modifies `cells, `rows, `cols
      ensures r.Pass? <==> Spec().Success?
      ensures r.Pass? ==> Index(cells, rows, cols) == AfterLoad(old(Index(cells, rows, cols)), Spec().value)
      ensures r.Fail? ==> r.error == Spec().error && rows == old(rows) && cols == old(cols)
    {
      var located := LocateSheetData(workbook.archive, id);
      if located.Failure? {
        return Fail(located.error);
      }
      var rowMap, columns;
      r, rowMap, columns := LoadRows(ChildNodes(located.value), cells);
      if r.Fail? {
        return;
      }
      StoreSortedRows(rowMap);
      cols := columns;
    }

    /** A load keeps the sheet consistent, and a successful one leaves exactly the maps it computes. */
    method Reload() returns (r: Outcome<PyError>)
      requires Valid()
      modifies `cells, `rows, `cols
      ensures Valid()
      ensures r.Pass? <==> Spec().Success?
      ensures r.Pass? ==> Index(cells, rows, cols) == Spec().value
      ensures r.Fail? ==> r.error == Spec().error
    {
      ghost var before := Index(cells, rows, cols);
      r := Load();
      if r.Pass? {
        AfterLoadIdempotent(before, Spec().value);
      }
    }

    /**
     * `sheet[key]`: the sheet is loaded again, then the key is dispatched on its
     * maps; a failing load raises its error.
     */
    method GetItem(key: string) returns (r: Result<Selection, PyError>)
      requires Valid()
      modifies `cells, `rows, `cols
      ensures Valid()
      ensures Spec().Success? ==> Index(cells, rows, cols) == Spec().value && r == Lookup(Spec().value, key)
      ensures Spec().Failure? ==> r == Failure(Spec().error)
    {
      if !loaded {
        var o := Reload();
        if o.Fail? {
          return Failure(o.error);
        }
      }
      r := Lookup(Index(cells, rows, cols), key);
    }

    /**
     * Two lookups of the same key in a row: the second reloads over what the
     * first left, and both return the same result.
     */
    method LookupTwice(key: string) returns (a: Result<Selection, PyError>, b: Result<Selection, PyError>)
      requires Valid()
      modifies `cells, `rows, `cols
      ensures Valid()
      ensures a == b
    {
      a := GetItem(key);
      b := GetItem(key);
    }
  }

  /** The map without the keys in `keys`. */
  function Without<K, V>(m: map<K, V>, keys: set<K>): map<K, V> {
    map k | k in m && k !in keys :: m[k]
  }

  /** Sorting one more bucket into the row map. */
  lemma SortRowsStep(start: map<string, seq<Cell>>, rowMap: map<string, seq<Cell>>, keys: set<string>, k: string)
    requires k in keys && keys <= rowMap.Keys
    ensures (start + SortRows(Without(rowMap, keys)))[k := CellSort.Sort(rowMap[k])] ==
            start + SortRows(Without(rowMap, keys - {k}))
  {
  }

  /**
   * `Workbook(filename)` on the parsed parts of a container: read the
   * shared-string table (required), then register the sheets the manifest
   * declares.
   */
  method Open(archive: Archive) returns (r: Result<Workbook, PyError>)
    ensures r.Success? <==> SharedStringsPart(archive).Success? && Manifest(archive).Success?
    ensures SharedStringsPart(archive).Failure? ==> r == Failure(SharedStringsPart(archive).error)
    ensures SharedStringsPart(archive).Success? && Manifest(archive).Failure? ==> r == Failure(Manifest(archive).error)
    ensures r.Success? ==> fresh(r.value) && r.value.Valid() &&
                           r.value.archive == archive && r.value.sharedStrings == SharedStringsPart(archive).value &&
                           r.value.decls == Manifest(archive).value &&
                           forall i :: 0 <= i < |r.value.sheetsByIndex| ==>
                             fresh(r.value.sheetsByIndex[i]) && r.value.sheetsByIndex[i].Unloaded()
  {
    if SharedStringsPath !in archive {
      return Failure(KeyError);
    }
    var table := ReadTable(archive[SharedStringsPath]);
    if table.Failure? {
      return Failure(table.error);
    }
    var book := new Workbook(archive, table.value);
    book.EmptyIsValid();
    var manifest := ManifestNodes(archive);
    if manifest.Failure? {
      return Failure(manifest.error);
    }
    var o := book.Register(manifest.value);
    if o.Fail? {
      return Failure(o.error);
    }
    r := Success(book);
  }
}
