/** The two `getElementPath` helpers the rule closures define: the id-suffix
    variant used by every rule file and the class-suffix variant of the
    keyboard focusability audit. */
module Paths {
  import opened Wrappers
  import opened Strings
  import opened Dom

  /** One selector of the path: the tag, then `#id` when the id is non-empty. */
  function Segment(n: Node): string
    requires n.Element?
  {
    n.tag + (if Id(n) != "" then "#" + Id(n) else "")
  }

  /** The selectors of the elements at the end of `chain`, root first: the loop
      climbs from the last node and stops at the first node that is not an element. */
  function Segments(chain: seq<Node>): seq<string> {
    if chain == [] || !chain[|chain| - 1].Element? then []
    else Segments(chain[..|chain| - 1]) + [Segment(chain[|chain| - 1])]
  }

  function ElementPath(chain: seq<Node>): string {
    Join(Segments(chain), " > ")
  }

  /** The path reported for a located element. */
  function PathOf(l: Located): string {
    ElementPath(l.Chain())
  }

  /** `getElementPath(element)`: climb through `parentNode` while it is an element,
      putting each selector in front (`path.unshift`), then join with " > ". */
  method GetElementPath(l: Located) returns (path: string)
    ensures path == PathOf(l)
  {
    var chain := l.Chain();
    var selectors: seq<string> := [];
    var k := |chain|;
    assert chain[..k] == chain;
    while k > 0 && chain[k - 1].Element?
      invariant 0 <= k <= |chain|
      invariant Segments(chain) == Segments(chain[..k]) + selectors
    {
      assert chain[..k][..k - 1] == chain[..k - 1];
      selectors := [Segment(chain[k - 1])] + selectors;
      k := k - 1;
    }
    assert k > 0 ==> chain[..k][k - 1] == chain[k - 1];
    assert Segments(chain[..k]) == [];
    assert selectors == Segments(chain);
    path := Join(selectors, " > ");
  }

  /** Over a chain of elements there is one selector per element, root first. */
  lemma {:induction false} SegmentsOfElements(chain: seq<Node>)
    requires forall i :: 0 <= i < |chain| ==> chain[i].Element?
    ensures |Segments(chain)| == |chain|
    ensures forall i :: 0 <= i < |chain| ==> Segments(chain)[i] == Segment(chain[i])
  {
    if chain != [] {
      var front := chain[..|chain| - 1];
      SegmentsOfElements(front);
    }
  }

  /** The path of an element is its parent's path, " > ", and its own selector. */
  lemma PathExtendsParent(ancestors: seq<Node>, n: Node)
    requires n.Element?
    requires ancestors != [] && ancestors[|ancestors| - 1].Element?
    ensures ElementPath(ancestors + [n]) == ElementPath(ancestors) + " > " + Segment(n)
  {
    assert (ancestors + [n])[..|ancestors|] == ancestors;
    assert Segments(ancestors) != [];
  }

  /** The climb stops at a node that is not an element: nothing above it shows. */
  lemma PathStopsAtNonElement(above: seq<Node>, boundary: Node, below: seq<Node>)
    requires !boundary.Element?
    ensures Segments(above + [boundary] + below) == Segments([boundary] + below)
    decreases |below|
  {
    if below != [] {
      var last := below[|below| - 1];
      assert (above + [boundary] + below)[..|above| + 1 + |below| - 1] == above + [boundary] + below[..|below| - 1];
      assert ([boundary] + below)[..|below|] == [boundary] + below[..|below| - 1];
      PathStopsAtNonElement(above, boundary, below[..|below| - 1]);
    } else {
      assert above + [boundary] + below == above + [boundary];
    }
  }

  /** The class-suffix variant of one selector: the id wins; otherwise a non-empty
      `className` follows a dot with every whitespace run turned into a dot. On an
      element whose `className` is an SVGAnimatedString (SVG content) the object is
      truthy and has no `replace`, so the call throws: `None`. */
  function ClassSegment(n: Node): Option<string>
    requires n.Element?
  {
    if Id(n) != "" then Some(n.tag + "#" + Id(n))
    else if n.rendering.svgClassName then None
    else if ClassName(n) != "" then Some(n.tag + "." + DotRuns(ClassName(n)))
    else Some(n.tag)
  }

  /** The class-suffix selectors of the trailing elements of `chain`, or `None`
      when building one of them throws. */
  function ClassSegments(chain: seq<Node>): Option<seq<string>> {
    if chain == [] || !chain[|chain| - 1].Element? then Some([])
    else
      match ClassSegment(chain[|chain| - 1])
      case None => None
      case Some(s) =>
        match ClassSegments(chain[..|chain| - 1])
        case None => None
        case Some(front) => Some(front + [s])
  }

  function ClassSuffixPath(chain: seq<Node>): Option<string> {
    match ClassSegments(chain)
    case None => None
    case Some(selectors) => Some(Join(selectors, " > "))
  }

  /** The keyboard audit's `getElementPath`; `None` when it throws. */
  method GetClassSuffixPath(l: Located) returns (path: Option<string>)
    ensures path == ClassSuffixPath(l.Chain())
  {
    var chain := l.Chain();
    var selectors: seq<string> := [];
    var k := |chain|;
    assert chain[..k] == chain;
    ThenEmpty(ClassSegments(chain));
    while k > 0 && chain[k - 1].Element?
      invariant 0 <= k <= |chain|
      invariant ClassSegments(chain) == Then(ClassSegments(chain[..k]), selectors)
    {
      assert chain[..k][..k - 1] == chain[..k - 1];
      assert chain[..k][k - 1] == chain[k - 1];
      var selector := ClassSegment(chain[k - 1]);
      if selector.None? {
        return None;
      }
      ThenAssociates(ClassSegments(chain[..k - 1]), [selector.value], selectors);
      selectors := [selector.value] + selectors;
      k := k - 1;
    }
    assert k > 0 ==> chain[..k][k - 1] == chain[k - 1];
    assert ClassSegments(chain[..k]) == Some([]);
    assert [] + selectors == selectors;
    path := Some(Join(selectors, " > "));
  }

  /** The selectors `o` found so far, followed by `tail`; a throw stays a throw. */
  function Then(o: Option<seq<string>>, tail: seq<string>): Option<seq<string>> {
    match o
    case None => None
    case Some(front) => Some(front + tail)
  }

  lemma ThenEmpty(o: Option<seq<string>>)
    ensures Then(o, []) == o
  {
    if o.Some? { assert o.value + [] == o.value; }
  }

  lemma ThenAssociates(o: Option<seq<string>>, a: seq<string>, b: seq<string>)
    ensures Then(Then(o, a), b) == Then(o, a + b)
  {
    if o.Some? { assert o.value + a + b == o.value + (a + b); }
  }

  /** An SVG element without an id: its class-suffix selector throws. */
  predicate ThrowsInClassVariant(n: Node) {
    n.Element? && Id(n) == "" && n.rendering.svgClassName
  }

  /** Over a chain of elements, the class-suffix path throws exactly when some
      element of the chain is an SVG element without an id. */
  lemma {:induction false} ClassSuffixPathThrows(chain: seq<Node>)
    requires forall i :: 0 <= i < |chain| ==> chain[i].Element?
    ensures ClassSuffixPath(chain).None? <==> exists i :: 0 <= i < |chain| && ThrowsInClassVariant(chain[i])
  {
    if chain != [] {
      var front := chain[..|chain| - 1];
      ClassSuffixPathThrows(front);
      if exists i :: 0 <= i < |front| && ThrowsInClassVariant(front[i]) {
        var i :| 0 <= i < |front| && ThrowsInClassVariant(front[i]);
        assert chain[i] == front[i];
      }
      if exists i :: 0 <= i < |chain| && ThrowsInClassVariant(chain[i]) {
        var i :| 0 <= i < |chain| && ThrowsInClassVariant(chain[i]);
        if i < |front| { assert front[i] == chain[i]; }
      }
    }
  }

  /** Without classes and without SVG content, both variants give the same path. */
  lemma ClassSuffixAgreesWithoutClasses(chain: seq<Node>)
    requires forall i :: 0 <= i < |chain| ==> chain[i].Element? && ClassName(chain[i]) == "" && !chain[i].rendering.svgClassName
    ensures ClassSuffixPath(chain) == Some(ElementPath(chain))
  {
    SameSelectorsWithoutClasses(chain);
  }

  lemma {:induction false} SameSelectorsWithoutClasses(chain: seq<Node>)
    requires forall i :: 0 <= i < |chain| ==> chain[i].Element? && ClassName(chain[i]) == "" && !chain[i].rendering.svgClassName
    ensures ClassSegments(chain) == Some(Segments(chain))
  {
    if chain != [] {
      var front := chain[..|chain| - 1];
      SameSelectorsWithoutClasses(front);
      var n := chain[|chain| - 1];
      if Id(n) != "" {
        assert n.tag + "#" + Id(n) == n.tag + ("#" + Id(n));
      } else {
        assert n.tag + "" == n.tag;
      }
      assert ClassSegment(n) == Some(Segment(n));
    }
  }

  /** A `<span>` inside `<div id="a">` at the top of the page gets "div#a > span". */
  lemma PathExample(r: Rendering)
    ensures var span := Element("span", map[], [Text("x")], r);
            var div := Element("div", map["id" := "a"], [span], r);
            PathOf(Located([div], span)) == "div#a > span"
  {
    var span := Element("span", map[], [Text("x")], r);
    var div := Element("div", map["id" := "a"], [span], r);
    assert Located([div], span).Chain() == [div, span];
    assert Id(div) == "a" && Id(span) == "";
    assert [div, span][..1] == [div];
    assert [div][..0] == [];
    assert Segment(div) == "div#a";
    assert Segment(span) == "span";
    assert Segments([div]) == ["div#a"];
    assert Segments([div, span]) == ["div#a", "span"];
    assert ["div#a", "span"][..1] == ["div#a"];
  }
}
