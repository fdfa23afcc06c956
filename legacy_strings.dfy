/**
 * The shared-string table of the older revision (src/xlsx/__init__.py): the
 * `nodeValue` of the first grandchild of every child of the `sst` root, in
 * order. An entry whose grandchild is an element, not character data, is
 * Python's None; a rich-text entry therefore reads as None, or as the text of
 * its first run's first node. The part is required.
 */
module LegacyStrings {
  import opened Wrappers
  import opened Python
  import opened Dom
  import opened Folds
  import opened Parts

  /**
   * `n.firstChild.firstChild.nodeValue`: both steps down must find a node; the
   * value is the grandchild's text, or None when the grandchild is an element.
   */
  function EntryValue(n: Node): (r: Result<Option<string>, PyError>)
    ensures r.Success? <==> FirstChild(n).Some? && FirstChild(n.children[0]).Some?
    ensures r.Failure? ==> r.error == AttributeError
    ensures r.Success? ==> (r.value.Some? <==> n.children[0].children[0].Text?)
    ensures r.Success? && r.value.Some? ==> r.value.value == n.children[0].children[0].data
  {
    var g :- Grandchild(n);
    NodeValueOf(g)
  }

  /** EntryValue as a loop step. */
  function EntryStep(): Node -> Result<Option<string>, PyError> {
    n => EntryValue(n)
  }

  /** The table read from the `xl/sharedStrings.xml` document: the comprehension over the root's children. */
  function Table(doc: Node): Result<seq<Option<string>>, PyError> {
    match FirstChild(doc)
    case None => Failure(AttributeError)
    case Some(root) => MapAll(EntryStep(), ChildNodes(root))
  }

  /**
   * The table exists exactly when the document has a root each of whose
   * children has a grandchild; it then holds one entry per child, in order,
   * and every failure is an AttributeError.
   */
  lemma TableShape(doc: Node)
    ensures Table(doc).Success? <==>
              FirstChild(doc).Some? &&
              forall i :: 0 <= i < |ChildNodes(FirstChild(doc).value)| ==> EntryValue(ChildNodes(FirstChild(doc).value)[i]).Success?
    ensures Table(doc).Success? ==>
              var nodes := ChildNodes(FirstChild(doc).value);
              |Table(doc).value| == |nodes| &&
              forall i :: 0 <= i < |nodes| ==> EntryValue(nodes[i]) == Success(Table(doc).value[i])
    ensures Table(doc).Failure? ==> Table(doc).error == AttributeError
  {
    if FirstChild(doc).Some? {
      var nodes := ChildNodes(FirstChild(doc).value);
      MapAllShape(EntryStep(), nodes);
      if MapAll(EntryStep(), nodes).Failure? {
        MapAllFirstError(EntryStep(), nodes);
      }
    }
  }

  /** The table of a container; the part is required, so a missing one raises KeyError. */
  function SharedStringsPart(archive: Archive): (r: Result<seq<Option<string>>, PyError>)
    ensures SharedStringsPath !in archive ==> r == Failure(KeyError)
    ensures SharedStringsPath in archive ==> r == Table(archive[SharedStringsPath])
  {
    if SharedStringsPath !in archive then Failure(KeyError) else Table(archive[SharedStringsPath])
  }

  /**
   * `SharedStrings.__init__`: the comprehension, which raises before anything is
   * appended when some entry has no grandchild, then the loop appending each
   * entry to the list.
   */
  method ReadTable(doc: Node) returns (r: Result<seq<Option<string>>, PyError>)
    ensures r == Table(doc)
  {
    var root := FirstChild(doc);
    if root.None? {
      return Failure(AttributeError);
    }
    var nodes := ChildNodes(root.value);
    var texts: seq<Option<string>> := [];
    var i := 0;
    while i < |nodes|
      invariant 0 <= i <= |nodes|
      invariant MapAll(EntryStep(), nodes[..i]) == Success(texts)
    {
      MapAllStep(EntryStep(), nodes, i);
      var text := EntryValue(nodes[i]);
      if text.Failure? {
        MapAllFailureSticks(EntryStep(), nodes, i + 1);
        return Failure(text.error);
      }
      texts := texts + [text.value];
      i := i + 1;
    }
    assert nodes[..i] == nodes;
    var table: seq<Option<string>> := [];
    for j := 0 to |texts|
      invariant table == texts[..j]
    {
      table := table + [texts[j]];
    }
    assert texts[..|texts|] == texts;
    r := Success(table);
  }
}
