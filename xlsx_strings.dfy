/**
 * The shared-string table of the newer revision (xlsx/__init__.py): one entry
 * per child of the `sst` root, either the entry's direct text or, for a
 * rich-text entry, the texts of its runs joined with no separator.
 */
module XlsxStrings {
  import opened Wrappers
  import opened Python
  import opened Dom
  import opened Folds

  /**
   * What one run contributes to the list that is joined:
   * `run.getElementsByTagName("t")[0].firstChild.nodeValue`. A run that is not
   * an element and a `t` without a child raise AttributeError, a run without
   * `t` raises IndexError, and a `t` whose first child is an element gives None.
   */
  function RunValue(run: Node): (r: Result<Option<string>, PyError>)
    ensures r.Success? <==> run.Element? && Descendants(run.children, "t") != [] &&
                            FirstChild(Descendants(run.children, "t")[0]).Some?
    ensures r.Success? ==> r.value == NodeValue(FirstChild(Descendants(run.children, "t")[0]).value)
    ensures r.Failure? ==> r.error == (if run.Element? && Descendants(run.children, "t") == [] then IndexError
                                      else AttributeError)
  {
    var ts :- ElementsByTagName(run, "t");
    if ts == [] then Failure(IndexError) else NodeValueOf(FirstChild(ts[0]))
  }

  /** `RunValue` as a step of the comprehension. */
  function RunStep(): Node -> Result<Option<string>, PyError> {
    run => RunValue(run)
  }

  /** `"".join(values)`: TypeError when some value is None, else the texts concatenated in order. */
  function JoinValues(vs: seq<Option<string>>): (r: Result<string, PyError>)
    ensures r.Success? <==> forall i :: 0 <= i < |vs| ==> vs[i].Some?
    ensures r.Failure? ==> r.error == TypeError
  {
    if vs == [] then Success("")
    else
      var init :- JoinValues(vs[..|vs| - 1]);
      if vs[|vs| - 1].None? then Failure(TypeError) else Success(init + vs[|vs| - 1].value)
  }

  /** Joining is concatenation without a separator. */
  lemma {:induction false} JoinValuesAppend(a: seq<Option<string>>, b: seq<Option<string>>)
    requires JoinValues(a).Success? && JoinValues(b).Success?
    ensures JoinValues(a + b) == Success(JoinValues(a).value + JoinValues(b).value)
  {
    if b == [] {
      assert a + b == a;
      assert JoinValues(a).value + "" == JoinValues(a).value;
    } else {
      var b0 := b[..|b| - 1];
      assert (a + b)[..|a + b| - 1] == a + b0;
      assert (a + b)[|a + b| - 1] == b[|b| - 1];
      JoinValuesAppend(a, b0);
      var x, y, z := JoinValues(a).value, JoinValues(b0).value, b[|b| - 1].value;
      assert (x + y) + z == x + (y + z);
    }
  }

  /**
   * `"".join([RunValue(node) for node in runs])`: the comprehension reads every
   * run first, so the first run that raises decides the error; only when all
   * runs are read does a None make the join raise TypeError.
   */
  function JoinRuns(runs: seq<Node>): Result<string, PyError> {
    var vs :- MapAll(RunStep(), runs);
    JoinValues(vs)
  }

  /**
   * The join succeeds exactly when every run has a text. A run that raises,
   * wherever it stands, wins over a None before it: the error is that of the
   * first run that raises, and TypeError only when no run raises.
   */
  lemma JoinRunsShape(runs: seq<Node>)
    ensures JoinRuns(runs).Success? <==>
              forall i :: 0 <= i < |runs| ==> RunValue(runs[i]).Success? && RunValue(runs[i]).value.Some?
    ensures (forall i :: 0 <= i < |runs| ==> RunValue(runs[i]).Success?) && JoinRuns(runs).Failure? ==>
              JoinRuns(runs).error == TypeError
    ensures (exists i :: 0 <= i < |runs| && RunValue(runs[i]).Failure?) ==>
              exists i :: 0 <= i < |runs| && RunValue(runs[i]).Failure? &&
                          (forall j :: 0 <= j < i ==> RunValue(runs[j]).Success?) &&
                          JoinRuns(runs) == Failure(RunValue(runs[i]).error)
    ensures JoinRuns(runs).Failure? ==> JoinRuns(runs).error in {AttributeError, IndexError, TypeError}
  {
    var f := RunStep();
    MapAllShape(f, runs);
    if MapAll(f, runs).Failure? {
      MapAllFirstError(f, runs);
    }
  }

  /**
   * `<r><t><b/></t></r><r/>`: the first run contributes None, the second has no
   * `t`; the comprehension raises IndexError at the second run before the join
   * could raise TypeError for the first.
   */
  lemma JoinRunsRaisesBeforeJoining()
    ensures var r1 := Element("r", map[], [Element("t", map[], [Element("b", map[], [])])]);
            var r2 := Element("r", map[], []);
            RunValue(r1) == Success(None) && JoinRuns([r1, r2]) == Failure(IndexError)
  {
    var r1 := Element("r", map[], [Element("t", map[], [Element("b", map[], [])])]);
    var r2 := Element("r", map[], []);
    var t := Element("t", map[], [Element("b", map[], [])]);
    assert Descendants(t.children, "t") == [];
    assert Descendants(r1.children, "t") == [t];
    assert [r1, r2][..1] == [r1];
    assert [r1][..0] == [];
    assert RunStep()(r1) == Success(None);
    assert MapAll(RunStep(), [r1][..0]) == Success([]);
    var none: seq<Option<string>> := [None];
    assert [] + none == none;
    assert MapAll(RunStep(), [r1]) == Success(none);
    assert RunStep()(r2) == Failure(IndexError);
  }

  /** Joining concatenated runs concatenates their texts. */
  lemma JoinRunsAppend(a: seq<Node>, b: seq<Node>)
    requires JoinRuns(a).Success? && JoinRuns(b).Success?
    ensures JoinRuns(a + b) == Success(JoinRuns(a).value + JoinRuns(b).value)
  {
    MapAllAppend(RunStep(), a, b);
    JoinValuesAppend(MapAll(RunStep(), a).value, MapAll(RunStep(), b).value);
  }

  /** A single run with a text joins to that text. */
  lemma JoinSingleRun(run: Node)
    requires RunValue(run).Success? && RunValue(run).value.Some?
    ensures JoinRuns([run]) == Success(RunValue(run).value.value)
  {
    var v := RunValue(run).value;
    assert [run][..0] == [];
    assert RunStep()(run) == RunValue(run);
    assert MapAll(RunStep(), [run]) == Success([] + [v]);
    assert [] + [v] == [v];
    assert [v][..0] == [];
    assert JoinValues([v]) == Success("" + v.value);
    assert "" + v.value == v.value;
  }

  /**
   * One table entry, from the `si` node and `text`, its first grandchild:
   * non-empty character data is used as is; an element grandchild with children
   * marks a rich-text entry whose runs (the children of `si`) are joined;
   * anything else gives the empty string.
   */
  function EntryText(si: Node, text: Option<Node>): (r: Result<string, PyError>)
    ensures text.Some? && text.value.Text? && text.value.data != "" ==> r == Success(text.value.data)
    ensures text.Some? && text.value.Element? && text.value.children != [] ==> r == JoinRuns(ChildNodes(si))
    ensures text.None? || (text.value.Text? && text.value.data == "") || (text.value.Element? && text.value.children == [])
            ==> r == Success("")
  {
    if text.Some? && NodeValue(text.value).Some? && NodeValue(text.value).value != "" then
      Success(NodeValue(text.value).value)
    else if text.Some? && HasChildNodes(text.value) then
      JoinRuns(ChildNodes(si))
    else
      Success("")
  }

  /** `n.firstChild.firstChild`, as a loop step. */
  function GrandchildStep(): Node -> Result<Option<Node>, PyError> {
    n => Grandchild(n)
  }

  /** `[n.firstChild.firstChild for n in nodes]`: fails when some node has no child at all. */
  function Grandchildren(nodes: seq<Node>): (r: Result<seq<Option<Node>>, PyError>)
    ensures r.Success? <==> forall i :: 0 <= i < |nodes| ==> FirstChild(nodes[i]).Some?
    ensures r.Success? ==> |r.value| == |nodes| &&
                           forall i :: 0 <= i < |nodes| ==> r.value[i] == FirstChild(nodes[i].children[0])
  {
    MapAllShape(GrandchildStep(), nodes);
    MapAll(GrandchildStep(), nodes)
  }

  /** Every node lacking a child raises the same error, so the list fails with it. */
  lemma GrandchildrenError(nodes: seq<Node>)
    requires Grandchildren(nodes).Failure?
    ensures Grandchildren(nodes).error == AttributeError
  {
    MapAllFirstError(GrandchildStep(), nodes);
  }

  /** One pass of the loop of `SharedStrings.__init__`, for the `si` node `n`. */
  function EntryStep(): Node -> Result<string, PyError> {
    n => var text :- Grandchild(n); EntryText(n, text)
  }

  /**
   * The table built from a present `xl/sharedStrings.xml` document: first the
   * grandchildren of all `si` nodes, then one entry per node.
   */
  function Table(doc: Node): (r: Result<seq<string>, PyError>)
  {
    match FirstChild(doc)
    case None => Failure(AttributeError)
    case Some(root) =>
      var _ :- Grandchildren(ChildNodes(root));
      MapAll(EntryStep(), ChildNodes(root))
  }

  /**
   * The table has one entry per `si` node, each given by EntryText on that node
   * and its first grandchild.
   */
  lemma TableEntries(doc: Node)
    requires Table(doc).Success?
    ensures FirstChild(doc).Some? && |Table(doc).value| == |ChildNodes(FirstChild(doc).value)|
    ensures forall i :: 0 <= i < |Table(doc).value| ==>
              var si := ChildNodes(FirstChild(doc).value)[i];
              FirstChild(si).Some? && EntryText(si, FirstChild(si.children[0])) == Success(Table(doc).value[i])
  {
    MapAllShape(EntryStep(), ChildNodes(FirstChild(doc).value));
  }

  /**
   * The table fails exactly when the document has no root, some `si` node has
   * no child, or the join of some rich-text entry fails; the first two raise
   * AttributeError before any entry is read.
   */
  lemma TableFails(doc: Node)
    ensures FirstChild(doc).None? ==> Table(doc) == Failure(AttributeError)
    ensures FirstChild(doc).Some? ==>
              var nodes := ChildNodes(FirstChild(doc).value);
              (Table(doc).Success? <==> forall i :: 0 <= i < |nodes| ==>
                                          FirstChild(nodes[i]).Some? &&
                                          EntryText(nodes[i], FirstChild(nodes[i].children[0])).Success?) &&
              ((exists i :: 0 <= i < |nodes| && FirstChild(nodes[i]).None?) ==> Table(doc) == Failure(AttributeError))
  {
    if FirstChild(doc).Some? {
      var nodes := ChildNodes(FirstChild(doc).value);
      MapAllShape(EntryStep(), nodes);
      if Grandchildren(nodes).Failure? {
        GrandchildrenError(nodes);
      }
    }
  }

  /** With every `si` node holding a child, the step of the loop is EntryText on its first grandchild. */
  lemma EntryStepOf(n: Node)
    requires FirstChild(n).Some?
    ensures EntryStep()(n) == EntryText(n, FirstChild(n.children[0]))
  {
  }

  /**
   * When every `si` node has a child, a failing table raises the error of its
   * first failing entry, which is that entry's join error; every error the
   * table raises is an AttributeError, an IndexError or a TypeError.
   */
  lemma TableError(doc: Node)
    ensures FirstChild(doc).Some? && Table(doc).Failure? &&
            (forall i :: 0 <= i < |ChildNodes(FirstChild(doc).value)| ==> FirstChild(ChildNodes(FirstChild(doc).value)[i]).Some?) ==>
              var nodes := ChildNodes(FirstChild(doc).value);
              exists i :: 0 <= i < |nodes| && EntryText(nodes[i], FirstChild(nodes[i].children[0])).Failure? &&
                          (forall j :: 0 <= j < i ==> EntryText(nodes[j], FirstChild(nodes[j].children[0])).Success?) &&
                          Table(doc).error == EntryText(nodes[i], FirstChild(nodes[i].children[0])).error &&
                          Table(doc).error == JoinRuns(ChildNodes(nodes[i])).error
    ensures Table(doc).Failure? ==> Table(doc).error in {AttributeError, IndexError, TypeError}
  {
    if FirstChild(doc).Some? && Table(doc).Failure? {
      var nodes := ChildNodes(FirstChild(doc).value);
      if forall i :: 0 <= i < |nodes| ==> FirstChild(nodes[i]).Some? {
        forall i | 0 <= i < |nodes| {
          EntryStepOf(nodes[i]);
        }
        MapAllFirstError(EntryStep(), nodes);
        var i :| 0 <= i < |nodes| && EntryStep()(nodes[i]).Failure? && MapAll(EntryStep(), nodes).error == EntryStep()(nodes[i]).error &&
                 forall j :: 0 <= j < i ==> EntryStep()(nodes[j]).Success?;
        JoinRunsShape(ChildNodes(nodes[i]));
      } else {
        GrandchildrenError(nodes);
      }
    }
  }

  /** `SharedStrings.__init__`: what the loop appends, entry by entry. */
  method ReadTable(doc: Node) returns (r: Result<seq<string>, PyError>)
    ensures r == Table(doc)
  {
    var root := FirstChild(doc);
    if root.None? {
      return Failure(AttributeError);
    }
    var nodes := ChildNodes(root.value);
    var texts := Grandchildren(nodes);
    if texts.Failure? {
      return Failure(texts.error);
    }
    var table: seq<string> := [];
    var i := 0;
    while i < |nodes|
      invariant 0 <= i <= |nodes|
      invariant MapAll(EntryStep(), nodes[..i]) == Success(table)
    {
      MapAllStep(EntryStep(), nodes, i);
      var entry := EntryText(nodes[i], texts.value[i]);
      if entry.Failure? {
        MapAllFailureSticks(EntryStep(), nodes, i + 1);
        return Failure(entry.error);
      }
      table := table + [entry.value];
      i := i + 1;
    }
    assert nodes[..i] == nodes;
    r := Success(table);
  }
}
