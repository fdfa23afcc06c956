/**
 * The parsed XML tree the reader walks, with the handful of DOM operations it
 * calls. A document is an Element (of any tag) whose children are its top-level
 * nodes, so `doc.firstChild` is the root element.
 */
module Dom {
  import opened Wrappers
  import opened Python

  /**
   * A node of a parsed document. Text stands for every node that is not an
   * element (text, CDATA, comment): none of them has attributes or children,
   * and calling an element-only operation on one raises AttributeError.
   */
  datatype Node = Element(tag: string, attrs: map<string, string>, children: seq<Node>) | Text(data: string)

  /** A container's parts, each already parsed; a part missing from the container is a missing key. */
  type Archive = map<string, Node>

  /** `n.firstChild`, None on a childless node. */
  function FirstChild(n: Node): (r: Option<Node>)
    ensures r.Some? <==> n.Element? && |n.children| > 0
    ensures r.Some? ==> r.value == n.children[0]
  {
    if n.Element? && |n.children| > 0 then Some(n.children[0]) else None
  }

  /** `n.childNodes`: empty on a non-element. */
  function ChildNodes(n: Node): (r: seq<Node>)
    ensures n.Element? ==> r == n.children
    ensures n.Text? ==> r == []
  {
    if n.Element? then n.children else []
  }

  /** `n.hasChildNodes()`. */
  predicate HasChildNodes(n: Node) {
    |ChildNodes(n)| > 0
  }

  /** `n.nodeValue`: the character data of a non-element, None for an element. */
  function NodeValue(n: Node): (r: Option<string>)
    ensures r.Some? <==> n.Text?
    ensures n.Text? ==> r.value == n.data
  {
    if n.Text? then Some(n.data) else None
  }

  /** `getattr(x, "nodeValue", None)` where `x` may itself be None. */
  function NodeValueOrNone(x: Option<Node>): (r: Option<string>)
    ensures r.Some? <==> x.Some? && x.value.Text?
    ensures r.Some? ==> r.value == x.value.data
  {
    if x.Some? then NodeValue(x.value) else None
  }

  /** `x.nodeValue` where `x` may be None: raises AttributeError on None. */
  function NodeValueOf(x: Option<Node>): (r: Result<Option<string>, PyError>)
    ensures r.Failure? <==> x.None?
    ensures r.Failure? ==> r.error == AttributeError
    ensures r.Success? ==> r.value == NodeValue(x.value)
  {
    if x.Some? then Success(NodeValue(x.value)) else Failure(AttributeError)
  }

  /** `n.getAttribute(name)`: the empty string when the attribute is absent. */
  function GetAttribute(n: Node, name: string): (r: Result<string, PyError>)
    ensures r.Failure? <==> n.Text?
    ensures r.Failure? ==> r.error == AttributeError
    ensures n.Element? && name in n.attrs ==> r == Success(n.attrs[name])
    ensures n.Element? && name !in n.attrs ==> r == Success("")
  {
    if n.Text? then Failure(AttributeError)
    else if name in n.attrs then Success(n.attrs[name])
    else Success("")
  }

  /** `n._attrs[name].value`: raises KeyError when the attribute is absent. */
  function AttrValue(n: Node, name: string): (r: Result<string, PyError>)
    ensures r.Success? <==> n.Element? && name in n.attrs
    ensures r.Success? ==> r.value == n.attrs[name]
    ensures r.Failure? ==> r.error == (if n.Text? then AttributeError else KeyError)
  {
    if n.Text? then Failure(AttributeError)
    else if name in n.attrs then Success(n.attrs[name])
    else Failure(KeyError)
  }

  /** The elements named `tag` among `ns` and their descendants, in document order. */
  function Descendants(ns: seq<Node>, tag: string): (r: seq<Node>)
    decreases ns
    ensures forall m :: m in r ==> m.Element? && m.tag == tag
    ensures forall i :: 0 <= i < |ns| && ns[i].Element? && ns[i].tag == tag ==> ns[i] in r
    ensures |ns| > 0 && ns[0].Element? && ns[0].tag == tag ==> r[0] == ns[0]
  {
    if ns == [] then []
    else
      var here := ns[0];
      var own := if here.Element? && here.tag == tag then [here] else [];
      var below := if here.Element? then Descendants(here.children, tag) else [];
      own + below + Descendants(ns[1..], tag)
  }

  /** `m` is one of `ns` or lies below one of them. */
  predicate Below(m: Node, ns: seq<Node>)
    decreases ns
  {
    ns != [] && (ns[0] == m || (ns[0].Element? && Below(m, ns[0].children)) || Below(m, ns[1..]))
  }

  /** Descendants finds exactly the elements named `tag` at any depth below the list. */
  lemma {:induction false} DescendantsMembers(ns: seq<Node>, tag: string, m: Node)
    decreases ns
    ensures m in Descendants(ns, tag) <==> Below(m, ns) && m.Element? && m.tag == tag
  {
    if ns != [] {
      if ns[0].Element? {
        DescendantsMembers(ns[0].children, tag, m);
      }
      DescendantsMembers(ns[1..], tag, m);
    }
  }

  /** Document order: the matches in `a + b` are those in `a` followed by those in `b`. */
  lemma {:induction false} DescendantsAppend(a: seq<Node>, b: seq<Node>, tag: string)
    decreases a
    ensures Descendants(a + b, tag) == Descendants(a, tag) + Descendants(b, tag)
  {
    if a == [] {
      assert a + b == b;
    } else {
      assert (a + b)[0] == a[0];
      assert (a + b)[1..] == a[1..] + b;
      DescendantsAppend(a[1..], b, tag);
    }
  }

  /**
   * Document order within one node: a matching node comes before the matches
   * below it, and those before the matches among its later siblings.
   */
  lemma DescendantsCons(n: Node, rest: seq<Node>, tag: string)
    ensures Descendants([n] + rest, tag) ==
            (if n.Element? && n.tag == tag then [n] else []) +
            (if n.Element? then Descendants(n.children, tag) else []) +
            Descendants(rest, tag)
  {
    assert ([n] + rest)[0] == n;
    assert ([n] + rest)[1..] == rest;
  }

  /** `n.getElementsByTagName(tag)`: every element below `n` named `tag`, in document order. */
  function ElementsByTagName(n: Node, tag: string): (r: Result<seq<Node>, PyError>)
    ensures r.Failure? <==> n.Text?
    ensures r.Failure? ==> r.error == AttributeError
    ensures r.Success? ==> forall m :: m in r.value ==> m.Element? && m.tag == tag
    ensures r.Success? ==> forall c :: c in n.children && c.Element? && c.tag == tag ==> c in r.value
  {
    if n.Text? then Failure(AttributeError) else Success(Descendants(n.children, tag))
  }

  /** On an element, `getElementsByTagName` returns exactly the elements named `tag` at any depth below it. */
  lemma ElementsByTagNameMembers(n: Node, tag: string, m: Node)
    requires n.Element?
    ensures m in ElementsByTagName(n, tag).value <==> Below(m, n.children) && m.Element? && m.tag == tag
  {
    DescendantsMembers(n.children, tag, m);
  }

  /** `n.firstChild.firstChild`, raising AttributeError when the first step finds no child. */
  function Grandchild(n: Node): (r: Result<Option<Node>, PyError>)
    ensures r.Failure? <==> FirstChild(n).None?
    ensures r.Failure? ==> r.error == AttributeError
    ensures r.Success? ==> r.value == FirstChild(n.children[0])
  {
    match FirstChild(n)
    case None => Failure(AttributeError)
    case Some(c) => Success(FirstChild(c))
  }
}
