/** `checkKeyboardAccessibility`: two audits evaluated in the page (focusability
    of interactive elements, then dialogs that may trap focus), each returning
    plain items, followed by two loops converting the items into findings. A
    throw anywhere inside the `try` leaves the findings empty. */
module KeyboardAccessibility {
  import opened Wrappers
  import opened Strings
  import opened Messages
  import opened Dom
  import opened Findings
  import opened Paths

  /** What an audit returns for one element before conversion. */
  datatype Item = Item(element: string, path: string, description: Description)

  // Audits as filters over the page's elements

  /** The items of an audit that pushes `item(l)` for each flagged element. */
  function Collect(E: seq<Located>, n: nat, flagged: Located -> bool, item: Located -> Item): seq<Item>
    requires n <= |E|
  {
    if n == 0 then []
    else Collect(E, n - 1, flagged, item) + (if flagged(E[n - 1]) then [item(E[n - 1])] else [])
  }

  /** The items of an audit that computes a path, which may throw, for each
      flagged element; `None` once a path has thrown. */
  function CollectOrThrow(E: seq<Located>, n: nat, flagged: Located -> bool, path: Located -> Option<string>,
                          item: (Located, string) -> Item): Option<seq<Item>>
    requires n <= |E|
  {
    if n == 0 then Some([])
    else
      match CollectOrThrow(E, n - 1, flagged, path, item)
      case None => None
      case Some(items) =>
        var l := E[n - 1];
        if !flagged(l) then Some(items)
        else
          match path(l)
          case None => None
          case Some(p) => Some(items + [item(l, p)])
  }

  /** The filter keeps exactly the items of the flagged elements. */
  lemma {:induction false} CollectMember(E: seq<Located>, n: nat, flagged: Located -> bool, item: Located -> Item, it: Item)
    requires n <= |E|
    ensures it in Collect(E, n, flagged, item) <==> exists i :: 0 <= i < n && flagged(E[i]) && it == item(E[i])
  {
    if n > 0 {
      CollectMember(E, n - 1, flagged, item, it);
    }
  }

  /** A throw ends the audit: later elements cannot undo it. */
  lemma {:induction false} ThrowStays(E: seq<Located>, flagged: Located -> bool, path: Located -> Option<string>,
                                      item: (Located, string) -> Item, i: nat, j: nat)
    requires i <= j <= |E| && CollectOrThrow(E, i, flagged, path, item).None?
    ensures CollectOrThrow(E, j, flagged, path, item).None?
    decreases j
  {
    if i < j {
      ThrowStays(E, flagged, path, item, i, j - 1);
    }
  }

  /** The audit completes exactly when no flagged element's path throws. */
  lemma {:induction false} CollectCompletes(E: seq<Located>, n: nat, flagged: Located -> bool, path: Located -> Option<string>,
                                            item: (Located, string) -> Item)
    requires n <= |E|
    ensures CollectOrThrow(E, n, flagged, path, item).Some? <==> forall i :: 0 <= i < n && flagged(E[i]) ==> path(E[i]).Some?
  {
    if n > 0 {
      CollectCompletes(E, n - 1, flagged, path, item);
    }
  }

  /** A completed audit keeps exactly the items of the flagged elements, each
      made with that element's path. */
  lemma {:induction false} CollectOrThrowMember(E: seq<Located>, n: nat, flagged: Located -> bool, path: Located -> Option<string>,
                                                item: (Located, string) -> Item, it: Item)
    requires n <= |E| && CollectOrThrow(E, n, flagged, path, item).Some?
    ensures it in CollectOrThrow(E, n, flagged, path, item).value
        <==> exists i :: 0 <= i < n && flagged(E[i]) && path(E[i]).Some? && it == item(E[i], path(E[i]).value)
  {
    if n > 0 {
      CollectOrThrowMember(E, n - 1, flagged, path, item, it);
    }
  }

  // The focusability audit (WCAG 2.1.1)

  /** `a[href], button, input, select, textarea, [role="button"], [role="link"], [tabindex]`. */
  predicate IsInteractive(n: Node) {
    || (IsTag(n, "a") && Has(n, "href"))
    || IsTagIn(n, {"button", "input", "select", "textarea"})
    || Attr(n, "role") == Some("button")
    || Attr(n, "role") == Some("link")
    || Has(n, "tabindex")
  }

  /** One of the keyboard-event handler attributes is present. */
  predicate HasKeyHandler(n: Node) {
    Has(n, "onkeydown") || Has(n, "onkeypress") || Has(n, "onkeyup") || Has(n, "onkeyenter")
  }

  /** An interactive element out of the tab order, or clickable without a key handler. */
  predicate FocusFlagged(n: Node) {
    && n.Element?
    && IsInteractive(n)
    && (n.rendering.tabIndex < 0 || (n.rendering.hasClickHandler && !HasKeyHandler(n)))
  }

  /** The negative tab index takes precedence in the description. */
  function FocusDescription(n: Node): Description {
    if n.Element? && n.rendering.tabIndex < 0 then NotKeyboardAccessible else ClickWithoutKeyHandler
  }

  /** The audited element is flagged (as a handle on located elements). */
  predicate FocusFlaggedAt(l: Located) {
    FocusFlagged(l.node)
  }

  /** The class-suffix `getElementPath` of a located element; `None` when it throws. */
  function ClassPathOf(l: Located): Option<string> {
    ClassSuffixPath(l.Chain())
  }

  /** The focus audit's item for an element and its path. */
  function FocusItem(l: Located, path: string): Item {
    Item(TagName(l.node), path, FocusDescription(l.node))
  }

  /** The items of the focusability audit over the first `n` elements, or `None`
      once the path of a flagged element has thrown. */
  function FocusItems(E: seq<Located>, n: nat): Option<seq<Item>>
    requires n <= |E|
  {
    CollectOrThrow(E, n, FocusFlaggedAt, ClassPathOf, FocusItem)
  }

  /** The focusability audit's `forEach`. */
  method AuditFocus(E: seq<Located>) returns (items: Option<seq<Item>>)
    ensures items == FocusItems(E, |E|)
  {
    var found: seq<Item> := [];
    var i := 0;
    while i < |E|
      invariant 0 <= i <= |E|
      invariant FocusItems(E, i) == Some(found)
    {
      var el := E[i];
      if FocusFlaggedAt(el) {
        var path := GetClassSuffixPath(el);
        if path.None? {
          ThrowStays(E, FocusFlaggedAt, ClassPathOf, FocusItem, i + 1, |E|);
          return None;
        }
        found := found + [FocusItem(el, path.value)];
      }
      i := i + 1;
    }
    items := Some(found);
  }

  // The keyboard-trap audit (WCAG 2.1.2)

  /** `dialog, [role="dialog"], .modal, [class*="modal"], [role="alertdialog"]`. */
  predicate IsTrapContainer(n: Node) {
    || IsTag(n, "dialog")
    || Attr(n, "role") == Some("dialog")
    || (n.Element? && HasToken(ClassName(n), "modal"))
    || (n.Element? && Contains(ClassName(n), "modal"))
    || Attr(n, "role") == Some("alertdialog")
  }

  /** `a[href], button, input, select, textarea, [tabindex]:not([tabindex="-1"])`:
      the exclusion applies to the last alternative only. */
  predicate IsFocusable(d: Node) {
    || (IsTag(d, "a") && Has(d, "href"))
    || IsTagIn(d, {"button", "input", "select", "textarea"})
    || (Has(d, "tabindex") && Attr(d, "tabindex") != Some("-1"))
  }

  /** `button[aria-label*="close"]` (case-sensitive). */
  predicate IsCloseButton(d: Node) {
    IsTag(d, "button") && Has(d, "aria-label") && Contains(Attr(d, "aria-label").value, "close")
  }

  /** `button[aria-label*="exit"]` (case-sensitive). */
  predicate IsExitButton(d: Node) {
    IsTag(d, "button") && Has(d, "aria-label") && Contains(Attr(d, "aria-label").value, "exit")
  }

  /** `.close`. */
  predicate IsCloseClass(d: Node) {
    d.Element? && HasToken(ClassName(d), "close")
  }

  /** A close or exit button or a `.close` element inside, or `aria-modal` on the container. */
  predicate HasEscape(n: Node) {
    || HasDescendant(n, IsCloseButton)
    || HasDescendant(n, IsExitButton)
    || HasDescendant(n, IsCloseClass)
    || Has(n, "aria-modal")
  }

  /** A dialog-like container with something focusable inside and no way out. */
  predicate TrapFlagged(n: Node) {
    IsTrapContainer(n) && HasDescendant(n, IsFocusable) && !HasEscape(n)
  }

  /** The trap audit's item, at the id-suffix path. */
  function TrapItem(l: Located): Item {
    Item(TagName(l.node), PathOf(l), MayTrapFocus)
  }

  /** The container is flagged (as a handle on located elements). */
  predicate TrapFlaggedAt(l: Located) {
    TrapFlagged(l.node)
  }

  /** The items of the trap audit over the first `n` elements. */
  function TrapItems(E: seq<Located>, n: nat): seq<Item>
    requires n <= |E|
  {
    Collect(E, n, TrapFlaggedAt, TrapItem)
  }

  /** The trap audit's `forEach`. */
  method AuditTraps(E: seq<Located>) returns (items: seq<Item>)
    ensures items == TrapItems(E, |E|)
  {
    items := PushFlagged(E, TrapFlaggedAt);
  }

  /** The loop of the trap audit, for the container test `flagged`: push the
      item of each flagged element, at its id-suffix path. */
  method PushFlagged(E: seq<Located>, flagged: Located -> bool) returns (items: seq<Item>)
    ensures items == Collect(E, |E|, flagged, TrapItem)
  {
    items := [];
    var i := 0;
    while i < |E|
      invariant 0 <= i <= |E|
      invariant items == Collect(E, i, flagged, TrapItem)
    {
      var el := E[i];
      if flagged(el) {
        var path := GetElementPath(el);
        items := items + [Item(TagName(el.node), path, MayTrapFocus)];
      }
      i := i + 1;
    }
  }

  // Conversion to findings

  function FocusIssue(item: Item): Finding {
    Finding(KeyboardAccessibility, item.element, item.path, item.description, Keyboard, Critical, Some(AddKeyboardHandlers))
  }

  function TrapIssue(item: Item): Finding {
    Finding(KeyboardTrap, item.element, item.path, item.description, NoKeyboardTrap, Critical, Some(AddEscapeMechanism))
  }

  /** One finding per item, in order. */
  function Issues(items: seq<Item>, convert: Item -> Finding): (r: seq<Finding>)
    ensures |r| == |items|
    ensures forall i :: 0 <= i < |items| ==> r[i] == convert(items[i])
  {
    if items == [] then [] else Issues(items[..|items| - 1], convert) + [convert(items[|items| - 1])]
  }

  /** A conversion loop: `items.forEach(item => issues.push(convert(item)))`. */
  method PushIssues(items: seq<Item>, convert: Item -> Finding, issues: seq<Finding>) returns (out: seq<Finding>)
    ensures out == issues + Issues(items, convert)
  {
    out := issues;
    var i := 0;
    while i < |items|
      invariant 0 <= i <= |items|
      invariant out == issues + Issues(items[..i], convert)
    {
      assert items[..i + 1][..i] == items[..i];
      out := out + [convert(items[i])];
      i := i + 1;
    }
    assert items[..i] == items;
  }

  /** The findings `checkKeyboardAccessibility` returns for a page. */
  function KeyboardAudit(document: seq<Node>): seq<Finding> {
    var E := Elements(document);
    match FocusItems(E, |E|)
    case None => []
    case Some(focus) => Issues(focus, FocusIssue) + Issues(TrapItems(E, |E|), TrapIssue)
  }

  method CheckKeyboardAccessibility(document: seq<Node>) returns (issues: seq<Finding>)
    ensures issues == KeyboardAudit(document)
  {
    var E := Elements(document);
    issues := [];
    var focus := AuditFocus(E);
    if focus.None? {
      assert KeyboardAudit(document) == [];
      return;  // the `catch` logs and returns the still empty array
    }
    var traps := AuditTraps(E);
    ghost var focusIssues, trapIssues := Issues(focus.value, FocusIssue), Issues(traps, TrapIssue);
    issues := PushIssues(focus.value, FocusIssue, issues);
    assert issues == focusIssues by {
      assert [] + focusIssues == focusIssues;
    }
    issues := PushIssues(traps, TrapIssue, issues);
    assert KeyboardAudit(document) == focusIssues + trapIssues;
  }

  // What the audits find

  /** A finding is converted from some item. */
  lemma IssuesMember(items: seq<Item>, convert: Item -> Finding, f: Finding)
    ensures f in Issues(items, convert) <==> exists i :: 0 <= i < |items| && f == convert(items[i])
  {
  }

  /** The converted findings of a filter are those of the flagged elements. */
  lemma IssuesOfCollect(E: seq<Located>, flagged: Located -> bool, item: Located -> Item, convert: Item -> Finding, f: Finding)
    ensures f in Issues(Collect(E, |E|, flagged, item), convert) <==> exists i :: 0 <= i < |E| && flagged(E[i]) && f == convert(item(E[i]))
  {
    var items := Collect(E, |E|, flagged, item);
    IssuesMember(items, convert, f);
    if f in Issues(items, convert) {
      var k :| 0 <= k < |items| && f == convert(items[k]);
      CollectMember(E, |E|, flagged, item, items[k]);
    }
    if exists i :: 0 <= i < |E| && flagged(E[i]) && f == convert(item(E[i])) {
      var i :| 0 <= i < |E| && flagged(E[i]) && f == convert(item(E[i]));
      CollectMember(E, |E|, flagged, item, item(E[i]));
    }
  }

  /** The converted findings of a completed audit with paths are those of the
      flagged elements, each at its path. */
  lemma IssuesOfCollectOrThrow(E: seq<Located>, flagged: Located -> bool, path: Located -> Option<string>,
                               item: (Located, string) -> Item, convert: Item -> Finding, f: Finding)
    requires CollectOrThrow(E, |E|, flagged, path, item).Some?
    ensures f in Issues(CollectOrThrow(E, |E|, flagged, path, item).value, convert)
        <==> exists i :: 0 <= i < |E| && flagged(E[i]) && path(E[i]).Some? && f == convert(item(E[i], path(E[i]).value))
  {
    var items := CollectOrThrow(E, |E|, flagged, path, item).value;
    IssuesMember(items, convert, f);
    if f in Issues(items, convert) {
      var k :| 0 <= k < |items| && f == convert(items[k]);
      CollectOrThrowMember(E, |E|, flagged, path, item, items[k]);
    }
    if exists i :: 0 <= i < |E| && flagged(E[i]) && path(E[i]).Some? && f == convert(item(E[i], path(E[i]).value)) {
      var i :| 0 <= i < |E| && flagged(E[i]) && path(E[i]).Some? && f == convert(item(E[i], path(E[i]).value));
      CollectOrThrowMember(E, |E|, flagged, path, item, item(E[i], path(E[i]).value));
    }
  }

  /** The whole audit throws exactly when some flagged element has, on its chain,
      an SVG element without an id: then the page gets no finding at all. */
  lemma KeyboardThrows(document: seq<Node>)
    ensures var E := Elements(document);
      (FocusItems(E, |E|).None? <==>
         exists i, j :: 0 <= i < |E| && FocusFlagged(E[i].node) && 0 <= j < |E[i].Chain()| && ThrowsInClassVariant(E[i].Chain()[j]))
    ensures FocusItems(Elements(document), |Elements(document)|).None? ==> KeyboardAudit(document) == []
  {
    var E := Elements(document);
    CollectCompletes(E, |E|, FocusFlaggedAt, ClassPathOf, FocusItem);
    WalkParentChains(document, []);
    forall i | 0 <= i < |E|
      ensures ClassPathOf(E[i]).None? <==> exists j :: 0 <= j < |E[i].Chain()| && ThrowsInClassVariant(E[i].Chain()[j])
    {
      assert E[i] in E;
      ClassSuffixPathThrows(E[i].Chain());
    }
  }

  /** The focusability findings are converted from the focus items, the trap
      findings from the trap items. */
  lemma KindsSplit(document: seq<Node>, f: Finding)
    requires var E := Elements(document); FocusItems(E, |E|).Some?
    ensures var E := Elements(document);
      && ((f in KeyboardAudit(document) && f.kind == KeyboardAccessibility) <==> f in Issues(FocusItems(E, |E|).value, FocusIssue))
      && ((f in KeyboardAudit(document) && f.kind == KeyboardTrap) <==> f in Issues(TrapItems(E, |E|), TrapIssue))
  {
    var E := Elements(document);
    IssuesMember(FocusItems(E, |E|).value, FocusIssue, f);
    IssuesMember(TrapItems(E, |E|), TrapIssue, f);
  }

  /** When the audit completes, the page's focusability findings are one per
      flagged interactive element, at its class-suffix path. */
  lemma FocusFindings(document: seq<Node>, f: Finding)
    requires var E := Elements(document); FocusItems(E, |E|).Some?
    ensures var E := Elements(document);
      (f in KeyboardAudit(document) && f.kind == KeyboardAccessibility)
        <==> exists i :: 0 <= i < |E| && FocusFlagged(E[i].node) && ClassPathOf(E[i]).Some?
               && f == FocusIssue(FocusItem(E[i], ClassPathOf(E[i]).value))
  {
    var E := Elements(document);
    KindsSplit(document, f);
    IssuesOfCollectOrThrow(E, FocusFlaggedAt, ClassPathOf, FocusItem, FocusIssue, f);
  }

  /** When the audit completes, the page's trap findings are one per flagged
      container, at its id-suffix path. */
  lemma TrapFindings(document: seq<Node>, f: Finding)
    requires var E := Elements(document); FocusItems(E, |E|).Some?
    ensures var E := Elements(document);
      (f in KeyboardAudit(document) && f.kind == KeyboardTrap)
        <==> exists i :: 0 <= i < |E| && TrapFlagged(E[i].node) && f == TrapIssue(TrapItem(E[i]))
  {
    var E := Elements(document);
    KindsSplit(document, f);
    IssuesOfCollect(E, TrapFlaggedAt, TrapItem, TrapIssue, f);
  }

  /** Every finding is critical and of one of the two kinds, and all the
      focusability findings come before all the trap findings. */
  lemma FocusBeforeTraps(document: seq<Node>)
    ensures var r := KeyboardAudit(document);
      && (forall i :: 0 <= i < |r| ==> r[i].impact == Critical && (r[i].kind == KeyboardAccessibility || r[i].kind == KeyboardTrap))
      && (forall i, j :: 0 <= i < j < |r| && r[j].kind == KeyboardAccessibility ==> r[i].kind == KeyboardAccessibility)
  {
    var E := Elements(document);
    if FocusItems(E, |E|).Some? {
      var a := Issues(FocusItems(E, |E|).value, FocusIssue);
      var b := Issues(TrapItems(E, |E|), TrapIssue);
      assert KeyboardAudit(document) == a + b;
      CriticalBlocks(a, b, KeyboardAccessibility, KeyboardTrap);
    }
  }

  /** Two blocks of critical findings, each of one kind: the first kind never
      follows the second. */
  lemma CriticalBlocks(a: seq<Finding>, b: seq<Finding>, first: Kind, second: Kind)
    requires first != second
    requires forall i :: 0 <= i < |a| ==> a[i].kind == first && a[i].impact == Critical
    requires forall i :: 0 <= i < |b| ==> b[i].kind == second && b[i].impact == Critical
    ensures var r := a + b;
      && (forall i :: 0 <= i < |r| ==> r[i].impact == Critical && (r[i].kind == first || r[i].kind == second))
      && (forall i, j :: 0 <= i < j < |r| && r[j].kind == first ==> r[i].kind == first)
  {
    var r := a + b;
    assert forall i :: 0 <= i < |a| ==> r[i] == a[i];
    assert forall i :: |a| <= i < |r| ==> r[i] == b[i - |a|];
  }

  /** The negative tab index decides the description of a focusability finding. */
  lemma FocusDescriptionOf(l: Located, path: string)
    requires FocusFlagged(l.node)
    ensures FocusIssue(FocusItem(l, path)).description == NotKeyboardAccessible <==> l.node.rendering.tabIndex < 0
    ensures FocusIssue(FocusItem(l, path)).description == ClickWithoutKeyHandler
        <==> l.node.rendering.tabIndex >= 0 && l.node.rendering.hasClickHandler && !HasKeyHandler(l.node)
  {
  }

  /** A `.modal` container also has "modal" in its class attribute, so the
      selector's `.modal` alternative selects nothing more. */
  lemma ModalTokenRedundant(n: Node)
    ensures IsTrapContainer(n)
        <==> || IsTag(n, "dialog") || Attr(n, "role") == Some("dialog")
             || (n.Element? && Contains(ClassName(n), "modal")) || Attr(n, "role") == Some("alertdialog")
  {
    if n.Element? && HasToken(ClassName(n), "modal") {
      TokenIsSubstring(ClassName(n), "modal");
    }
  }

  /** A container with nothing focusable inside, or with `aria-modal`, is never flagged. */
  lemma TrapNeedsFocusableNoEscape(n: Node)
    ensures !HasDescendant(n, IsFocusable) ==> !TrapFlagged(n)
    ensures Has(n, "aria-modal") ==> !TrapFlagged(n)
  {
  }
}
