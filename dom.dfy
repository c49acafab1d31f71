/** A snapshot of the rendered page: the element tree the rule closures query,
    `querySelectorAll` as a document-order walk, `closest`, `querySelector` on
    descendants and `textContent`. */
module Dom {
  import opened Wrappers
  import opened Strings

  /** Facts the browser computes for an element while rendering. The rules read
      them (inline style, layout size, tab index, a bound click handler, computed
      colours) but do not compute them, so the model takes them as given. */
  datatype Rendering = Rendering(
    styleDisplay: string,       // element.style.display
    styleVisibility: string,    // element.style.visibility
    offsetWidth: Option<nat>,  // None on SVG elements, which have no offsetWidth
    offsetHeight: Option<nat>,
    tabIndex: int,              // element.tabIndex, after the browser's defaulting
    hasClickHandler: bool,      // element.onclick !== null
    svgClassName: bool,         // element.className is an SVGAnimatedString, not a string
    color: string,              // getComputedStyle(element).color
    backgroundColor: string)    // getComputedStyle(element).backgroundColor

  /** A DOM node. `tag` is the lower-case tag name; attribute names are lower case. */
  datatype Node =
    | Element(tag: string, attributes: map<string, string>, children: seq<Node>, rendering: Rendering)
    | Text(data: string)
    | Comment(data: string)

  /** An element as `querySelectorAll` yields it, with the element ancestors
      from the root element down to its parent. */
  datatype Located = Located(ancestors: seq<Node>, node: Node) {
    /** The root-to-node chain that `getElementPath` walks. */
    function Chain(): seq<Node> { ancestors + [node] }
  }

  /** `getAttribute(name)`: `None` stands for `null`. */
  function Attr(n: Node, name: string): Option<string> {
    if n.Element? && name in n.attributes then Some(n.attributes[name]) else None
  }

  /** `hasAttribute(name)`. */
  predicate Has(n: Node, name: string) {
    Attr(n, name).Some?
  }

  /** `getAttribute(name) || fallback`: the value when present and non-empty. */
  function AttrOr(n: Node, name: string, fallback: string): string {
    var v := Attr(n, name).GetOr("");
    if v == "" then fallback else v
  }

  /** `element.id`. */
  function Id(n: Node): string {
    Attr(n, "id").GetOr("")
  }

  /** `element.className` of an HTML element. */
  function ClassName(n: Node): string {
    Attr(n, "class").GetOr("")
  }

  /** `tagName.toLowerCase()` of an element. */
  function TagName(n: Node): string {
    if n.Element? then n.tag else ""
  }

  predicate IsTag(n: Node, tag: string) {
    n.Element? && n.tag == tag
  }

  predicate IsTagIn(n: Node, tags: set<string>) {
    n.Element? && n.tag in tags
  }

  /** The elements among `nodes` and their descendants in document (pre-)order,
      each with its ancestors; `ancestors` are those of `nodes` themselves. */
  function Walk(nodes: seq<Node>, ancestors: seq<Node>): (r: seq<Located>)
    ensures forall l :: l in r ==> l.node.Element?
    ensures forall l :: l in r ==> |ancestors| <= |l.ancestors| && l.ancestors[..|ancestors|] == ancestors
    decreases nodes
  {
    if nodes == [] then []
    else
      var here := if nodes[0].Element? then [Located(ancestors, nodes[0])] + Walk(nodes[0].children, ancestors + [nodes[0]]) else [];
      assert forall l :: l in here ==> l.ancestors[..|ancestors|] == ancestors by {
        forall l | l in here && l != Located(ancestors, nodes[0])
          ensures l.ancestors[..|ancestors|] == ancestors
        {
          assert l.ancestors[..|ancestors| + 1][..|ancestors|] == l.ancestors[..|ancestors|];
        }
      }
      here + Walk(nodes[1..], ancestors)
  }

  /** `document.querySelectorAll("*")`: every element of the page in document order. */
  function Elements(document: seq<Node>): seq<Located> {
    Walk(document, [])
  }

  /** The descendants of `n` in document order (what `n.querySelector` searches). */
  function Descendants(n: Node): seq<Located> {
    if n.Element? then Walk(n.children, [n]) else []
  }

  /** `n.querySelector(selector) !== null`, with the selector given as a predicate. */
  predicate HasDescendant(n: Node, selector: Node -> bool) {
    var ds := Descendants(n);
    exists i :: 0 <= i < |ds| && selector(ds[i].node)
  }

  /** A `track` element of the given `kind` (the selector `track[kind="..."]`). */
  predicate IsTrack(n: Node, kind: string) {
    IsTag(n, "track") && Attr(n, "kind") == Some(kind)
  }

  /** Any `track` element, whatever its kind. */
  predicate IsAnyTrack(n: Node) {
    IsTag(n, "track")
  }

  /** A track of some kind is a track. */
  lemma HasTrackIsTrack(n: Node, kind: string)
    requires HasTrack(n, kind)
    ensures HasDescendant(n, IsAnyTrack)
  {
    var ds := Descendants(n);
    var i :| 0 <= i < |ds| && IsTrack(ds[i].node, kind);
    assert IsAnyTrack(ds[i].node);
  }

  /** `n.querySelector('track[kind="..."]') !== null`. */
  predicate HasTrack(n: Node, kind: string) {
    HasDescendant(n, (d: Node) => IsTrack(d, kind))
  }

  /** `el.closest(selector) !== null`: the element itself or one of its ancestors matches. */
  predicate Closest(l: Located, selector: Node -> bool) {
    var chain := l.Chain();
    exists i :: 0 <= i < |chain| && selector(chain[i])
  }

  /** `textContent`: the concatenated data of every text node below `n`. */
  function TextContent(n: Node): string
    decreases n
  {
    match n
    case Text(d) => d
    case Comment(_) => ""
    case Element(_, _, children, _) => TextOf(children)
  }

  function TextOf(nodes: seq<Node>): string
    decreases nodes
  {
    if nodes == [] then "" else TextContent(nodes[0]) + TextOf(nodes[1..])
  }

  /** Each element of the chain is the parent of the next. */
  ghost predicate ParentChain(chain: seq<Node>) {
    && (forall i :: 0 <= i < |chain| ==> chain[i].Element?)
    && (forall i :: 0 <= i < |chain| - 1 ==> chain[i + 1] in chain[i].children)
  }

  /** Every element the walk yields sits at the end of a genuine parent chain. */
  lemma {:induction false} WalkParentChains(nodes: seq<Node>, ancestors: seq<Node>)
    requires ParentChain(ancestors)
    requires ancestors != [] ==> forall k :: 0 <= k < |nodes| ==> nodes[k] in ancestors[|ancestors| - 1].children
    ensures forall l :: l in Walk(nodes, ancestors) ==> ParentChain(l.Chain())
    decreases nodes
  {
    if nodes != [] {
      if nodes[0].Element? {
        assert ParentChain(ancestors + [nodes[0]]);
        WalkParentChains(nodes[0].children, ancestors + [nodes[0]]);
      }
      WalkParentChains(nodes[1..], ancestors);
    }
  }

  /** Every ancestor of a walked element is itself walked, with its own ancestors:
      `querySelectorAll` yields the ancestors of everything it yields. */
  lemma {:induction false} WalkListsAncestors(nodes: seq<Node>, ancestors: seq<Node>, l: Located, i: nat)
    requires l in Walk(nodes, ancestors)
    requires |ancestors| <= i < |l.ancestors|
    ensures Located(l.ancestors[..i], l.ancestors[i]) in Walk(nodes, ancestors)
    decreases nodes
  {
    var n := nodes[0];
    var here := if n.Element? then [Located(ancestors, n)] + Walk(n.children, ancestors + [n]) else [];
    assert Walk(nodes, ancestors) == here + Walk(nodes[1..], ancestors);
    if l in here {
      assert n.Element? && l != Located(ancestors, n);
      var sub := Walk(n.children, ancestors + [n]);
      assert l in sub;
      assert l.ancestors[..|ancestors| + 1] == ancestors + [n];
      if i == |ancestors| {
        assert l.ancestors[..i] == ancestors;
        assert l.ancestors[i] == (ancestors + [n])[i] == n;
      } else {
        WalkListsAncestors(n.children, ancestors + [n], l, i);
      }
    } else {
      WalkListsAncestors(nodes[1..], ancestors, l, i);
    }
  }

  /** The text of any of the nodes occurs in the text of the whole sequence. */
  lemma {:induction false} TextOfContains(nodes: seq<Node>, k: nat)
    requires k < |nodes|
    ensures Contains(TextOf(nodes), TextContent(nodes[k]))
    decreases nodes
  {
    var t := TextOf(nodes);
    var first := TextContent(nodes[0]);
    assert t == first + TextOf(nodes[1..]);
    if k == 0 {
      assert t[..|first|] == first;
      ContainsSlice(t, 0, |first|);
    } else {
      TextOfContains(nodes[1..], k - 1);
      assert t[|first|..|t|] == TextOf(nodes[1..]);
      ContainsSlice(t, |first|, |t|);
      ContainsTransitive(t, TextOf(nodes[1..]), TextContent(nodes[k]));
    }
  }

  /** Along a parent chain, the text of the last node occurs in the text of every
      node above it. */
  lemma {:induction false} ChainTextContains(chain: seq<Node>, i: nat)
    requires ParentChain(chain)
    requires i < |chain|
    ensures Contains(TextContent(chain[i]), TextContent(chain[|chain| - 1]))
    decreases |chain| - i
  {
    var last := TextContent(chain[|chain| - 1]);
    if i == |chain| - 1 {
      ContainsSlice(last, 0, |last|);
      assert last[0..|last|] == last;
    } else {
      ChainTextContains(chain, i + 1);
      var p := chain[i];
      var c := chain[i + 1];
      var k :| 0 <= k < |p.children| && p.children[k] == c;
      TextOfContains(p.children, k);
      ContainsTransitive(TextContent(p), TextContent(c), last);
    }
  }
}
