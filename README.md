# py-xlsx reader, modelled in Dafny

py-xlsx reads Office Open XML spreadsheets (`.xlsx`). A workbook is a zip
container of XML parts. `xl/workbook.xml` lists the sheets. The optional part
`xl/sharedStrings.xml` holds a table of strings that cells refer to by index.
Each `xl/worksheets/sheetN.xml` part holds the rows and cells of sheet N.

The library opens a container, builds a `Workbook` that registers one `Sheet`
per declared sheet, and reads a sheet's cells lazily on first access into three
maps:
- cell address → cell;
- row → cells of that row;
- column → cells of that column.
A sheet is then indexed by an address (`"B7"`), a column (`"B"`) or a row (`"7"`).

Two revisions of the package are modelled:

* the newer one, `xlsx/__init__.py`: modules `Xlsx`, `XlsxLoad`, `XlsxStrings`
  and `XlsxCompare`;
* the older one, `src/xlsx/__init__.py`: modules `Legacy`, `LegacyLoad` and
  `LegacyStrings`.

The two revisions share these modules:
- `Wrappers`: Option, Result and Outcome.
- `Python`: `int()`, negative slicing and indexing, string comparison.
- `Dom`: the minidom subset used. `getAttribute`, `_attrs[...]`, `firstChild`
  and `getElementsByTagName` keep their error behaviour.
- `Address`: the `([a-zA-Z]*)(\d*)` split of a key.
- `Cells`: the `Cell` record, its values (None or a string via `OptionalText`) and `__cmp__`.
- `CellSort`: Python's stable `sorted` under `__cmp__`.
- `Indexing`: folding cell entries into the three maps.
- `Registry`: name tables of sheets.
- `Folds`: loops that stop at the first exception.
- `Parts`: part names and the first `sheets` / `sheetData` element.

The zip container is a map from part name to parsed document (`Archive`).
Python exceptions are `PyError` values:
- a function that can raise returns `Result`;
- a method of a class returns `Outcome` or `Result`.

Each revision's `Workbook` and `Sheet` is a Dafny class:
- the fields the source assigns are `var` fields;
- the methods that fill them carry `modifies` clauses;
- each method is proved against a ghost specification function of the
  container (`Sheet.Spec`, `Manifest`, `SharedStringsPart`).

Lemmas about those specification functions state what the loaded maps hold.

## Model

| member | source | states |
|---|---|---|
| Python.ParseInt | xlsx/__init__.py:126 | `int(s)` succeeds exactly on an optionally signed, non-empty ASCII digit string, with the digits' value, negated after `-` and unchanged after `+`; otherwise ValueError |
| Python.IntToString | xlsx/__init__.py:120 | `str(i)` and `"%d" % i`: a non-empty digit string, with a leading `-` for a negative integer; the round trip is Python.ParseIntOfIntToString and distinct ids giving distinct part names is Parts.SheetPartInjective |
| Python.ParseIntOfIntToString | xlsx/__init__.py:196-200 | `int(str(i)) == i` for every integer, negative ones included |
| Python.SliceTo | src/xlsx/__init__.py:82 | `s[:k]` with Python's negative-index rule: a prefix of `s`, its length clamped to `0..len(s)` |
| Python.SliceFrom | src/xlsx/__init__.py:33 | `s[k:]` with Python's negative-index rule; `s[:k] + s[k:] == s` for every `k` |
| Python.ListIndex | src/xlsx/__init__.py:48 | `xs[i]` succeeds exactly for `-len(xs) <= i < len(xs)`, counting from the end for negatives; otherwise IndexError |
| Python.LexTransitive | xlsx/__init__.py:206-209 | string `<` is transitive |
| Python.LexIrreflexive | xlsx/__init__.py:206-211 | no string is `<` itself |
| Python.LexAsymmetric | xlsx/__init__.py:206-211 | two strings are never each `<` the other |
| Python.LexTotal | xlsx/__init__.py:206-211 | of two different strings, one is `<` the other |
| Dom.GetAttribute | xlsx/__init__.py:126-130 | `getAttribute` gives the value, or `""` when the attribute is absent; AttributeError on a text node |
| Dom.AttrValue | xlsx/__init__.py:62 | `_attrs[name].value` raises KeyError when the attribute is absent and AttributeError on a text node |
| Dom.Descendants | xlsx/__init__.py:145 | every node returned is an element with the tag; every matching child is returned; a matching first node comes first |
| Dom.DescendantsMembers | xlsx/__init__.py:145 | a node is returned exactly when it lies anywhere below the given nodes, is an element and has the tag |
| Dom.DescendantsAppend | xlsx/__init__.py:145 | the search over two runs of siblings is the search over the first followed by the search over the second |
| Dom.DescendantsCons | xlsx/__init__.py:145 | document order: a node itself, then its own descendants, then those of its later siblings |
| Dom.ElementsByTagName | xlsx/__init__.py:59 | fails only on a text node (AttributeError); returns only elements with the tag, including every matching child |
| Dom.ElementsByTagNameMembers | xlsx/__init__.py:59 | on an element it returns exactly the elements with the tag at any depth below it |
| Dom.Grandchild | src/xlsx/__init__.py:85 | `n.firstChild.firstChild` raises AttributeError exactly when `n` has no child, else is the first child's first child |
| Address.SplitAddress | xlsx/__init__.py:179 | the match of `([a-zA-Z]*)(\d*)`: a maximal letter run followed by a maximal digit run, as a prefix of the key |
| Address.SplitAddressUnique | xlsx/__init__.py:114 | any maximal letters-then-digits prefix split equals SplitAddress: the match is unique |
| Address.SplitOfConcat | xlsx/__init__.py:179 | a letters part, a digits part and a non-matching rest split back into the two parts |
| Address.SelectorOf | xlsx/__init__.py:179-187 | which branch of `__getitem__` a key takes, characterised by its first characters, both directions |
| Address.SelectorOfShape | xlsx/__init__.py:180-187 | letters and digits select a cell, letters alone a column, digits alone a row, neither nothing |
| Cells.Cmp | xlsx/__init__.py:202-211 | `__cmp__`: the row difference within a column, ±1 across columns by string order; 0 exactly for the same column and row |
| Cells.CmpAntisymmetric | src/xlsx/__init__.py:126-135 | `cmp(a, b) == -cmp(b, a)` |
| Cells.CmpTransitive | src/xlsx/__init__.py:126-135 | `cmp` is transitive, strictly when either step is strict |
| Cells.OptionalText | src/xlsx/__init__.py:88 | a missing text is Python's None and a present one its string; shared by both revisions (xlsx/__init__.py:144-146) |
| CellSort.Sort | src/xlsx/__init__.py:101-102 | `sorted(cells)` by `__cmp__`, as repeated insertion; specified by CellSort.SortSorted, SortPermutes and SortStable |
| CellSort.SortSorted | src/xlsx/__init__.py:101-102 | `sorted(cells)` is ordered by `__cmp__` |
| CellSort.SortPermutes | src/xlsx/__init__.py:101-102 | `sorted(cells)` is a permutation of its input |
| CellSort.SortStable | src/xlsx/__init__.py:101-102 | the sort is stable: cells with the same key keep their document order |
| CellSort.InsertKeepsEquivalents | src/xlsx/__init__.py:102 | inserting a cell puts it after every cell with the same key |
| Indexing.LastAt | xlsx/__init__.py:161 | the cell of the last entry with that address, present exactly when some entry has it |
| Indexing.BuildRows | xlsx/__init__.py:154-159 | the row map holds, under each row key, exactly the cells of that row in document order; a key is present exactly when the row has cells |
| Indexing.BuildColumns | xlsx/__init__.py:156-160 | the same for the column map |
| Indexing.BuildCells | xlsx/__init__.py:161 | the address map holds an address exactly when some cell has it, and maps it to the last such cell |
| Indexing.EntryInBuckets | xlsx/__init__.py:154-160 | every loaded cell appears in its row's and its column's list |
| Indexing.BuildSnoc | xlsx/__init__.py:158-161 | folding one more entry equals one step of the loop body |
| Registry.NameTable | xlsx/__init__.py:65 | the name map holds exactly the registered names, each pointing to a position that has that name |
| Registry.NameTableLast | xlsx/__init__.py:65 | a name points to its last registration: no later position has the same name |
| Registry.NameTableOfDistinct | xlsx/__init__.py:65 | with distinct names, each name points to its own position |
| Registry.NameTableSize | xlsx/__init__.py:75-76 | the number of names is at most the number of sheets, and equal exactly when the names are distinct |
| Registry.DistinctSnoc | xlsx/__init__.py:65 | appending keeps names distinct exactly when the new name is new |
| Registry.NamesRegisteredSnoc | xlsx/__init__.py:65 | registering one more sheet under its name keeps name map and sheet list in step |
| Folds.MapAllShape | xlsx/__init__.py:92 | a loop that stops at the first exception succeeds exactly when every step does, and yields one result per step |
| Folds.MapAllFirstError | xlsx/__init__.py:92 | a failed loop raises the error of its first failing step |
| Folds.MapAllAppend | xlsx/__init__.py:101-103 | evaluating two lists of steps in turn yields the first results followed by the second |
| Folds.ConcatAllSucceeds | xlsx/__init__.py:125-127 | the nested loop succeeds exactly when every outer step does |
| Folds.ConcatAllLength | xlsx/__init__.py:125-127 | it yields the total number of inner results |
| Folds.ConcatAllEvery | xlsx/__init__.py:125-127 | a property of every step's results holds of the concatenation |
| Parts.SheetPartInjective | xlsx/__init__.py:120 | different sheet ids name different parts, and no sheet part is `xl/workbook.xml` or `xl/sharedStrings.xml` |
| Parts.FirstTagged | xlsx/__init__.py:121 | `doc.firstChild.getElementsByTagName(tag)[0]` is an element with that tag; AttributeError without a root element, IndexError without a match |
| Parts.FirstTaggedShape | xlsx/__init__.py:121 | it succeeds exactly when the root has a matching descendant, and returns the first in document order |
| Parts.LocateSheetData | xlsx/__init__.py:120-121 | succeeds exactly when the sheet's part is in the archive and its root element holds a `sheetData`, returning the first in document order; otherwise KeyError for a missing part, AttributeError without a root element, IndexError without `sheetData` |
| Parts.ManifestNodes | xlsx/__init__.py:58-59 | succeeds exactly when `xl/workbook.xml` is in the archive and its root element holds a `sheets`, returning the children of the first; otherwise KeyError, AttributeError or IndexError as for a sheet part |
| XlsxStrings.RunValue | xlsx/__init__.py:102 | a run's value is the `nodeValue` of the first child of its first `t` descendant; IndexError without a `t`, AttributeError on a text node or a `t` without children |
| XlsxStrings.JoinValues | xlsx/__init__.py:101-103 | `"".join` succeeds exactly when every value is a string, else TypeError |
| XlsxStrings.JoinValuesAppend | xlsx/__init__.py:101-103 | joining two lists of strings concatenates the two joins |
| XlsxStrings.JoinRuns | xlsx/__init__.py:101-103 | `"".join` over every run's value, all runs read before the join; specified by XlsxStrings.JoinRunsShape, JoinRunsAppend, JoinSingleRun and JoinRunsRaisesBeforeJoining |
| XlsxStrings.JoinRunsShape | xlsx/__init__.py:101-103 | the join succeeds exactly when every run yields a string; an IndexError or AttributeError of the first failing run wins over a TypeError; TypeError only when every run evaluates |
| XlsxStrings.JoinRunsRaisesBeforeJoining | xlsx/__init__.py:101-103 | a run whose `t` holds an element yields None, yet a later run without `t` makes the join raise IndexError, not TypeError |
| XlsxStrings.JoinRunsAppend | xlsx/__init__.py:101-103 | joining concatenated runs concatenates their texts |
| XlsxStrings.JoinSingleRun | xlsx/__init__.py:101-103 | one run joins to its own text |
| XlsxStrings.EntryText | xlsx/__init__.py:93-105 | non-empty text is taken as is; an element with children joins the entry's runs; anything else is `""` |
| XlsxStrings.Grandchildren | xlsx/__init__.py:92 | the comprehension succeeds exactly when every entry has a child, one grandchild per entry |
| XlsxStrings.GrandchildrenError | xlsx/__init__.py:92 | its only error is AttributeError |
| XlsxStrings.Table | xlsx/__init__.py:88-105 | the shared-string table of a present part: the grandchildren comprehension, then one entry per `si`; specified by XlsxStrings.TableEntries, TableFails, TableError and ReadTable |
| XlsxStrings.TableEntries | xlsx/__init__.py:90-96 | a table holds one string per entry, each that entry's EntryText |
| XlsxStrings.TableFails | xlsx/__init__.py:90-105 | AttributeError when the document has no root or an entry has no child; otherwise the table succeeds exactly when every entry's text can be read |
| XlsxStrings.TableError | xlsx/__init__.py:90-105 | a failing table raises the error of its first failing entry's join; its errors are only AttributeError, IndexError and TypeError |
| XlsxStrings.ReadTable | xlsx/__init__.py:88-96 | the appending loop builds exactly the table |
| XlsxLoad.DerivedColumn | xlsx/__init__.py:131 | `cellId[:len(cellId)-len(str(rowNum))]` is a prefix and, for an address `c + str(rowNum)`, exactly `c` |
| XlsxLoad.NewCell | xlsx/__init__.py:194-200 | `Cell(...)` keeps row, column, value and formula |
| XlsxLoad.CellIdParses | xlsx/__init__.py:196-200 | a cell's id is its column followed by its row number |
| XlsxLoad.CellIdRoundTrip | xlsx/__init__.py:129-131 | a cell built from the derived column of address `c + str(r)` has that address as id |
| XlsxLoad.CellNumber | xlsx/__init__.py:136-141 | `int(node.firstChild.firstChild.nodeValue)`: succeeds exactly on a numeral grandchild |
| XlsxLoad.SharedStringValue | xlsx/__init__.py:135-137 | a shared-string cell succeeds exactly when the index parses, a table exists and the index is in range, Python's negative indices included |
| XlsxLoad.DateValue | xlsx/__init__.py:139-142 | a date cell is the converter's tuple for its serial, with datemode 0 |
| XlsxLoad.LiteralValue | xlsx/__init__.py:143-146 | a literal is the first `v` child's text, None when that has no text child; IndexError without `v` |
| XlsxLoad.Classify | xlsx/__init__.py:135-146 | the `t`/`s` dispatch: shared string, date for styles 1-4 with type `n`, literal when there is a child, else `''` |
| XlsxLoad.Formula | xlsx/__init__.py:148-151 | the first `f` child's text, None without one |
| XlsxLoad.Content | xlsx/__init__.py:132-153 | a failure inside the `try` is swallowed and leaves value `''` and no formula |
| XlsxLoad.CellEntry | xlsx/__init__.py:127-161 | a cell node loads exactly when it is an element (else AttributeError), under its row's number |
| XlsxLoad.CellEntryFields | xlsx/__init__.py:128-161 | its key is the `r` attribute, its column is derived from it, its value and formula are the cell's content |
| XlsxLoad.CellEntriesShape | xlsx/__init__.py:127-161 | a row's cells load exactly when every child is an element, one entry per child |
| XlsxLoad.RowEntriesShape | xlsx/__init__.py:125-127 | a row loads exactly when it is an element with a numeral `r` and element children; every cell carries that row number |
| XlsxLoad.SheetEntries | xlsx/__init__.py:125-161 | every cell entry of the sheet, row after row, or the first error; specified by XlsxLoad.SheetEntriesShape |
| XlsxLoad.SheetEntriesShape | xlsx/__init__.py:125-161 | a sheet loads exactly when every row does; one entry per cell node |
| XlsxLoad.Lookup | xlsx/__init__.py:176-187 | address → the cell or None; column → its list or KeyError; row key → always KeyError (rows are keyed by int); otherwise None |
| XlsxLoad.SheetIndex | xlsx/__init__.py:119-164 | the address, row and column maps one load of a sheet builds, or the error it raises; specified by XlsxLoad.LoadedRows and LoadedLookup |
| XlsxLoad.LoadedRows | xlsx/tests/test_basic.py:29-37 | under each int row key, exactly that row's cells in document order, all with `cell.row == row_num` |
| XlsxLoad.LoadedLookup | xlsx/__init__.py:154-187 | an address finds the last cell with it, a column its cells in document order, a row key nothing |
| XlsxCompare.Lt | xlsx/__init__.py:213-214 | `__lt__` as written, `__cmp__` equal to -1; specified by XlsxCompare.LtCharacterized |
| XlsxCompare.Gt | xlsx/__init__.py:216-217 | `__gt__` as written, `__cmp__` equal to 1; specified by XlsxCompare.LtCharacterized |
| XlsxCompare.Eq | xlsx/__init__.py:219-220 | `__eq__`, `__cmp__` equal to 0; specified by XlsxCompare.EqIsSameKey |
| XlsxCompare.Ne | xlsx/__init__.py:222-223 | `__ne__`, `__cmp__` not 0; specified by XlsxCompare.EqIsSameKey |
| XlsxCompare.Le | xlsx/__init__.py:225-226 | `__le__` as written, `__cmp__` not 1; specified by XlsxCompare.LeCharacterized |
| XlsxCompare.Ge | xlsx/__init__.py:228-229 | `__ge__` as written, `__cmp__` not -1; specified by XlsxCompare.LeCharacterized |
| XlsxCompare.EqIsSameKey | xlsx/__init__.py:219-223 | `==` holds exactly for the same column and row, `!=` exactly otherwise |
| XlsxCompare.LtCharacterized | xlsx/__init__.py:213-217 | `<` (and `>`) as written holds exactly when the intended order holds and the two cells are in different columns or in adjacent rows of one column |
| XlsxCompare.LeCharacterized | xlsx/__init__.py:225-229 | `<=` as written also holds for a cell two or more rows below |
| XlsxCompare.RowGapCounterexample | xlsx/__init__.py:213-229 | A1 and A3 of one column: A1 comes first, yet `A1 < A3` and `A3 > A1` are false and both `A1 <= A3` and `A3 <= A1` hold, though not `A1 == A3` |
| XlsxCompare.Before | xlsx/__init__.py:213-214 | corrected `<`: an earlier row within a column, else string order of columns |
| XlsxCompare.AtMost | xlsx/__init__.py:225-226 | corrected `<=` |
| XlsxCompare.BeforeIsStrictOrder | xlsx/__init__.py:213-229 | corrected `<` is a strict total order on keys and `<=` is `<` or the same key |
| Xlsx.SharedStringsPart | xlsx/__init__.py:52-56 | a missing shared-strings part reads as no table; a present one is its table or its error |
| Xlsx.SheetNames | xlsx/__init__.py:61-62 | the names succeed exactly when every declaration is an element with `name`, one per declaration |
| Xlsx.Manifest | xlsx/__init__.py:57-62 | the names the manifest declares, or the error reading it raises; specified by Parts.ManifestNodes, Xlsx.SheetNames and Xlsx.Open |
| Xlsx.MapValuesSize | xlsx/__init__.py:78-80 | a map has no more distinct values than keys |
| Xlsx.RegisteredSnoc | xlsx/__init__.py:63-65 | one more iteration keeps both maps in step with the declarations |
| Xlsx.Workbook.constructor | xlsx/__init__.py:47-51 | an empty workbook over its container |
| Xlsx.Workbook.Register | xlsx/__init__.py:60-67 | registers one fresh unloaded sheet per declaration, numbered from 1, or raises the first declaration's error |
| Xlsx.Workbook.AddSheet | xlsx/__init__.py:63-66 | one iteration: a fresh sheet under the next id and its name |
| Xlsx.Workbook.Keys | xlsx/__init__.py:69-70 | exactly the declared names |
| Xlsx.Workbook.Len | xlsx/__init__.py:75-76 | the number of distinct names; the sheet count exactly when the names are distinct |
| Xlsx.Workbook.Get | xlsx/__init__.py:82-86 | an int finds the sheet with that id (1-based), a name its last sheet; KeyError otherwise |
| Xlsx.Workbook.Sheets | xlsx/__init__.py:78-80 | every name's sheet is iterated, at most `len` of them |
| Xlsx.Workbook.IdNameConsistent | src/xlsx/test/XlsxTest.py:31-35 | with distinct names, the sheet with id k is the sheet under its own name, and its name is a key |
| Xlsx.Sheet.constructor | xlsx/__init__.py:109-117 | an unloaded sheet with empty maps |
| Xlsx.Sheet.UnloadedIsValid | xlsx/__init__.py:113-117 | an unloaded sheet is consistent with its container |
| Xlsx.Sheet.AddCell | xlsx/__init__.py:154-161 | one inner iteration folds one entry into all three maps |
| Xlsx.Sheet.LoadRow | xlsx/__init__.py:126-161 | the inner loop folds a row's entries, or raises the row's error |
| Xlsx.Sheet.LoadRows | xlsx/__init__.py:125-161 | the outer loop folds every row's entries, or raises the first error |
| Xlsx.Sheet.Load | xlsx/__init__.py:119-164 | a load succeeds exactly when the sheet's part is well formed, then marks the sheet loaded; a failed one leaves rows and columns and the flag unchanged |
| Xlsx.Sheet.Rows | xlsx/__init__.py:166-169 | loads once, then returns the specified row map |
| Xlsx.Sheet.Cols | xlsx/__init__.py:171-174 | loads once, then returns the specified column map |
| Xlsx.Sheet.GetItem | xlsx/__init__.py:176-187 | loads once, then Lookup on the specified maps |
| Xlsx.Sheet.Iter | xlsx/__init__.py:189-192 | loads once, then the set of loaded addresses |
| Xlsx.Open | xlsx/__init__.py:47-67 | succeeds exactly when the shared strings and the manifest read, with the error of whichever fails first; the workbook registers exactly the declared names |
| LegacyStrings.EntryValue | src/xlsx/__init__.py:56 | `n.firstChild.firstChild.nodeValue`: AttributeError when either step finds nothing, None for an element, else the text |
| LegacyStrings.Table | src/xlsx/__init__.py:52-57 | the comprehension over the root's children; specified by LegacyStrings.TableShape and ReadTable |
| LegacyStrings.TableShape | src/xlsx/__init__.py:53-57 | the table reads exactly when every entry has a grandchild, one value per entry, and fails only with AttributeError |
| LegacyStrings.SharedStringsPart | src/xlsx/__init__.py:54 | the part is required: KeyError when missing |
| LegacyStrings.ReadTable | src/xlsx/__init__.py:52-57 | the comprehension then the appending loop build exactly the table |
| LegacyLoad.DerivedColumn | src/xlsx/__init__.py:82 | `cellId[:len(cellId)-len(rowNum)]` is a prefix; its length, including the wrap-around when the id is shorter than the row string |
| LegacyLoad.DerivedColumnOfAddress | src/xlsx/__init__.py:82 | for an address `c + rowNum` it is exactly `c` |
| LegacyLoad.NewCell | src/xlsx/__init__.py:118-124 | `Cell(...)` parses the row string (ValueError otherwise) and joins column and row string into the id |
| LegacyLoad.SharedStringValue | src/xlsx/__init__.py:84-86 | AttributeError without a grandchild, TypeError for an element, ValueError for a non-numeral, IndexError out of range, else the table entry |
| LegacyLoad.LiteralValue | src/xlsx/__init__.py:87-88 | the first `v` child's text, IndexError without one, AttributeError when it is empty |
| LegacyLoad.CellValue | src/xlsx/__init__.py:84-90 | the `t` dispatch: shared string, literal when there is a child, else `""` |
| LegacyLoad.Formula | src/xlsx/__init__.py:91-92 | the first `f` child's text, None without `f`, AttributeError when it is empty |
| LegacyLoad.CellEntry | src/xlsx/__init__.py:79-100 | the errors in the order the body raises them and, on success, the entry's key, row key, column and contents |
| LegacyLoad.CellEntryId | src/xlsx/__init__.py:82 | for an address `c + rowNum`, the cell's column is `c` and its id is its address |
| LegacyLoad.RowEntriesShape | src/xlsx/__init__.py:77-100 | a row's entries carry its `r` string as row key and `int` of it as `cell.row`; an empty row loads nothing |
| LegacyLoad.SheetEntriesShape | src/xlsx/__init__.py:77-100 | a sheet loads exactly when every row does; one entry per cell node |
| LegacyLoad.SheetEntries | src/xlsx/__init__.py:77-100 | every cell entry of the sheet, row after row, or the first error; specified by LegacyLoad.SheetEntriesShape |
| LegacyLoad.AfterLoad | src/xlsx/__init__.py:100-103 | a load merges into the address and row maps and replaces the column map |
| LegacyLoad.AfterLoadIdempotent | src/xlsx/__init__.py:105-107 | loading twice equals loading once, and a load from empty maps gives exactly the specified maps |
| LegacyLoad.Lookup | src/xlsx/__init__.py:108-116 | address → the cell or None; column → its list or KeyError; row string → its sorted list or KeyError; otherwise None |
| LegacyLoad.SortRows | src/xlsx/__init__.py:101-102 | each row bucket sorted; specified by LegacyLoad.LoadedRows and Legacy.Sheet.StoreSortedRows |
| LegacyLoad.SheetIndex | src/xlsx/__init__.py:71-103 | the maps one load of a sheet computes, row buckets sorted, or the error it raises; specified by LegacyLoad.LoadedRows and LoadedLookup |
| LegacyLoad.LoadedRows | src/xlsx/__init__.py:93-102 | under each row string, the row's cells sorted by `__cmp__`, a permutation of them that is stable, all with `row == int(key)` |
| LegacyLoad.LoadedLookup | src/xlsx/__init__.py:93-116 | an address finds the last cell with it, a column its cells in document order, a row string its cells sorted |
| Legacy.Declaration | src/xlsx/__init__.py:32-33 | a declaration's name and `int(r:id[3:])`: AttributeError on text, KeyError without an attribute, ValueError for a bad id |
| Legacy.RelIdRoundTrip | src/xlsx/__init__.py:33 | `int(("rId" + str(n))[3:]) == n` |
| Legacy.Manifest | src/xlsx/__init__.py:29-33 | the (name, id) pairs the manifest declares, or the error reading it raises; specified by Legacy.ManifestShape and Legacy.Open |
| Legacy.ManifestShape | src/xlsx/__init__.py:31-33 | the manifest reads exactly when every declaration does, one per node, with the first failing declaration's error |
| Legacy.NamesOf | src/xlsx/__init__.py:32 | the names, in declaration order |
| Legacy.ListedSnoc | src/xlsx/__init__.py:35-36 | one more iteration keeps the sheet list in step with the declarations |
| Legacy.Workbook.constructor | src/xlsx/__init__.py:25-28 | a workbook with no sheets |
| Legacy.Workbook.EmptyIsValid | src/xlsx/__init__.py:22-23 | a workbook with no sheets is consistent |
| Legacy.Workbook.Register | src/xlsx/__init__.py:31-38 | one fresh unloaded sheet per declaration, with its declared id, or the first declaration's error |
| Legacy.Workbook.AddSheet | src/xlsx/__init__.py:35-38 | appends a fresh sheet and registers it under its name |
| Legacy.Workbook.Keys | src/xlsx/__init__.py:40-41 | exactly the declared names |
| Legacy.Workbook.Len | src/xlsx/__init__.py:43-44 | the number of distinct names; the sheet count exactly when they are distinct |
| Legacy.Workbook.Get | src/xlsx/__init__.py:46-50 | an int indexes the sheet list from 0, negatives from the end, IndexError outside; a name finds its last sheet, KeyError otherwise |
| Legacy.Workbook.IndexNameConsistent | src/xlsx/test/XlsxTest.py:31-35 | with distinct names, the sheet at index k is the sheet under its own name, and its name is a key |
| Legacy.Workbook.NegativeIndex | src/xlsx/__init__.py:47-48 | `book[k - len]` is `book[k]` |
| Legacy.Sheet.constructor | src/xlsx/__init__.py:61-69 | an unloaded sheet with empty maps |
| Legacy.Sheet.UnloadedIsValid | src/xlsx/__init__.py:65-69 | an unloaded sheet is consistent with its container |
| Legacy.Sheet.AddCell | src/xlsx/__init__.py:93-100 | one inner iteration folds one entry into the maps |
| Legacy.Sheet.LoadRow | src/xlsx/__init__.py:78-100 | the inner loop folds a row's entries, or raises the row's error |
| Legacy.Sheet.LoadRows | src/xlsx/__init__.py:77-100 | the outer loop folds every row's entries, or raises the first error |
| Legacy.Sheet.StoreSortedRows | src/xlsx/__init__.py:101-102 | the loop over the row keys stores each row sorted into the sheet's row map |
| Legacy.Sheet.Load | src/xlsx/__init__.py:71-103 | merges the specified maps into the sheet's, or raises the load's error leaving rows and columns unchanged |
| Legacy.Sheet.Reload | src/xlsx/__init__.py:71-103 | a load of a consistent sheet leaves exactly the specified maps |
| Legacy.Sheet.GetItem | src/xlsx/__init__.py:105-116 | reloads (the flag is never set), then Lookup on the specified maps |
| Legacy.Sheet.LookupTwice | src/xlsx/__init__.py:105-107 | two lookups of one key give the same answer although each reloads |
| Legacy.Open | src/xlsx/__init__.py:25-38 | succeeds exactly when shared strings and manifest read, with the first error; the workbook lists exactly the declarations |

## Left out

- Zip and XML I/O: `DomZip`, `zipfile` and `minidom.parseString` (both revisions). A container is a map from part name to parsed document. A missing part is a KeyError, and malformed XML is not modelled.
- `Workbook.close` and `DomZip.__del__`: in the newer revision `close()` closes the zip handle, so a sheet first loaded afterwards raises from `ziphandle.read`; the model's archive stays readable, so closing and its effect on later lazy loads are not modelled.
- `Cell.__str__` and `Cell.__unicode__` are formatting only.
- `xldate_as_tuple` from the `xlrd` package is not part of this model. XlsxLoad takes it as a parameter, `(serial, datemode) -> Option<DateTuple>`, with None standing for a raised exception.
- Node kinds: comments, processing instructions and CDATA count as text nodes. Namespaces are ignored. Attribute values are plain strings.
- Python.ParseInt: does not accept the surrounding whitespace, non-ASCII digits or `long` suffixes that Python 2's `int()` allows. These never occur in generated `r` attributes.
- Python.LexLess: compares code points, like Python 2's `unicode` comparison. Byte-string comparison of non-ASCII column names is not modelled.
- Sheet keys are `SheetKey = IntKey | NameKey`. `bool` and `long` keys, and `__getitem__` keys that are not strings (a TypeError from the regular expression), are not modelled.
- Xlsx.Workbook.Keys, Legacy.Workbook.Keys and Xlsx.Sheet.Iter: return sets. The order of Python 2 dictionary iteration is unspecified and is not modelled.
- Xlsx.Workbook.Sheets: states only that every name's sheet is among the results and that there are at most `len` of them. Equality to `len` needs a freshness invariant that distinct names hold distinct sheets; it is not stated.
- Xlsx.Sheet.Load and Legacy.Sheet.Load: the address map is updated in place cell by cell. After a load that raises midway, it holds the cells read so far. The model keeps that map as it is but states nothing about its contents after a failure.
- Legacy.Workbook: in the older revision `sheetsByName` and `sheetsByIndex` are class attributes shared by every workbook. Opening a second workbook appends to the first's list. The model gives each workbook its own fields, which is what a single open workbook observes.
- The older revision never sets `loaded`, so each `__getitem__` reloads. This is modelled by Legacy.Sheet.Reload and Legacy.Sheet.LookupTwice. The older `Sheet` has no `rows()`/`cols()` methods.
- The newer revision looks up a digit-only key in a row map keyed by `int`, so it always raises KeyError. XlsxLoad.Lookup keeps that behaviour as written.
- A workbook without a `sheets` element, or a sheet without `sheetData`, raises IndexError from `[0]`. The model follows this code behaviour.
- `setup.py`, `TestSubset.py` and the test modules are not modelled. Two test assertions are stated as lemmas: the sheet-index/name consistency and `cell.row == row_num`.

## Findings

| source | as written | input that shows it | evidently intended | confidence | as-written member | corrected member |
|---|---|---|---|---|---|---|
| xlsx/__init__.py:213-229 | `__lt__`, `__gt__`, `__le__` and `__ge__` compare `__cmp__` against exactly `-1` or `1`. Within one column `__cmp__` returns the row difference. | cells A1 and A3: `A1 < A3` and `A3 > A1` are false, and `A3 <= A1` is true | order by column, then by row number | not executed | XlsxCompare.RowGapCounterexample | XlsxCompare.BeforeIsStrictOrder |
