/**
 * The parts of a container both revisions read, and the first step into each:
 * `doc.firstChild.getElementsByTagName(tag)[0]`, which fails with
 * AttributeError when the document has no root (or a non-element one) and
 * with IndexError when the root holds no element of that tag.
 */
module Parts {
  import opened Wrappers
  import opened Python
  import opened Dom

  const WorkbookPath: string := "xl/workbook.xml"
  const SharedStringsPath: string := "xl/sharedStrings.xml"

  /** The name of sheet `id`'s part: `"xl/worksheets/sheet%d.xml" % id`. */
  function SheetPart(id: int): string {
    "xl/worksheets/sheet" + IntToString(id) + ".xml"
  }

  /**
   * Each sheet reads a part of its own: different ids name different parts,
   * and no sheet part is the manifest or the shared-string table.
   */
  lemma SheetPartInjective(a: int, b: int)
    ensures SheetPart(a) == SheetPart(b) ==> a == b
    ensures SheetPart(a) != WorkbookPath && SheetPart(a) != SharedStringsPath
  {
    var pre := "xl/worksheets/sheet";
    var x, y := IntToString(a), IntToString(b);
    assert SheetPart(a) == pre + x + ".xml" && SheetPart(b) == pre + y + ".xml";
    assert SheetPart(a)[|pre|..|pre| + |x|] == x;
    assert SheetPart(b)[|pre|..|pre| + |y|] == y;
    if SheetPart(a) == SheetPart(b) {
      assert |x| == |y|;
      ParseIntOfIntToString(a);
      ParseIntOfIntToString(b);
    }
    assert SheetPart(a)[7] == 's' && WorkbookPath[7] == 'b';
    assert SheetPart(a)[3] == 'w' && SharedStringsPath[3] == 's';
  }

  /** The document's root is an element that holds an element named `tag`. */
  predicate RootHolds(doc: Node, tag: string) {
    FirstChild(doc).Some? && FirstChild(doc).value.Element? && Descendants(FirstChild(doc).value.children, tag) != []
  }

  /** The document's root is an element. */
  predicate RootIsElement(doc: Node) {
    FirstChild(doc).Some? && FirstChild(doc).value.Element?
  }

  /** `doc.firstChild.getElementsByTagName(tag)[0]`. */
  function FirstTagged(doc: Node, tag: string): (r: Result<Node, PyError>)
    ensures r.Success? ==> r.value.Element? && r.value.tag == tag
    ensures r.Failure? ==> r.error == (if FirstChild(doc).Some? && FirstChild(doc).value.Element? then IndexError
                                      else AttributeError)
  {
    match FirstChild(doc)
    case None => Failure(AttributeError)
    case Some(root) =>
      var found :- ElementsByTagName(root, tag);
      if found == [] then Failure(IndexError) else Success(found[0])
  }

  /**
   * The step succeeds exactly when the document's root is an element holding an
   * element named `tag`, and it yields the first such in document order.
   */
  lemma FirstTaggedShape(doc: Node, tag: string)
    ensures FirstTagged(doc, tag).Success? <==> FirstChild(doc).Some? && FirstChild(doc).value.Element? &&
                                                Descendants(FirstChild(doc).value.children, tag) != []
    ensures FirstTagged(doc, tag).Success? ==>
              FirstTagged(doc, tag).value == Descendants(FirstChild(doc).value.children, tag)[0]
  {
  }

  /**
   * The `sheetData` element of sheet `id`: the first one in document order
   * below the root of the sheet's part. A missing part raises KeyError, a part
   * without a root element AttributeError, a root without `sheetData` IndexError.
   */
  function LocateSheetData(archive: Archive, id: int): (r: Result<Node, PyError>)
    ensures r.Success? <==> SheetPart(id) in archive && RootHolds(archive[SheetPart(id)], "sheetData")
    ensures r.Success? ==> r.value == Descendants(FirstChild(archive[SheetPart(id)]).value.children, "sheetData")[0]
    ensures r.Success? ==> r.value.Element? && r.value.tag == "sheetData"
    ensures r.Failure? ==> r.error == (if SheetPart(id) !in archive then KeyError
                                      else if RootIsElement(archive[SheetPart(id)]) then IndexError
                                      else AttributeError)
  {
    if SheetPart(id) !in archive then Failure(KeyError)
    else
      FirstTaggedShape(archive[SheetPart(id)], "sheetData");
      FirstTagged(archive[SheetPart(id)], "sheetData")
  }

  /**
   * The sheet declarations: the children of the first `sheets` element below
   * the manifest's root, with the same three errors.
   */
  function ManifestNodes(archive: Archive): (r: Result<seq<Node>, PyError>)
    ensures r.Success? <==> WorkbookPath in archive && RootHolds(archive[WorkbookPath], "sheets")
    ensures r.Success? ==> r.value == ChildNodes(Descendants(FirstChild(archive[WorkbookPath]).value.children, "sheets")[0])
    ensures r.Failure? ==> r.error == (if WorkbookPath !in archive then KeyError
                                      else if RootIsElement(archive[WorkbookPath]) then IndexError
                                      else AttributeError)
  {
    if WorkbookPath !in archive then Failure(KeyError)
    else
      FirstTaggedShape(archive[WorkbookPath], "sheets");
      var sheets :- FirstTagged(archive[WorkbookPath], "sheets");
      Success(ChildNodes(sheets))
  }
}
