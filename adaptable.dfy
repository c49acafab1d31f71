/** `checkAdaptable`: the checks for the WCAG 1.3 success criteria. Three
    element checks run first, then the page's viewport `meta` is examined once,
    then two more element checks, all pushing onto one findings array. */
module Adaptable {
  import opened Wrappers
  import opened Strings
  import opened Messages
  import opened Dom
  import opened Findings
  import opened Paths
  import opened Rules

  /** The element checks, by position: 0 formatting (1.3.1), 1 tab order
      (1.3.2), 2 sensory wording (1.3.3), 3 autocomplete (1.3.5), 4 role (1.3.6).
      The viewport check (1.3.4) runs between 2 and 3. */
  const CheckCount := 5

  /** The three phrases of the 1.3.3 pattern, already in lower case. */
  const SensoryPhrases: seq<string> := ["click the red button", "above the blue text", "on the right side"]

  /** `textContent.match(/click the red button|above the blue text|on the right side/gi)`
      finds something: a phrase occurs in the text, whatever its case. */
  predicate SensoryText(n: Node) {
    exists j :: 0 <= j < |SensoryPhrases| && Contains(Lower(TextContent(n)), SensoryPhrases[j])
  }

  predicate Flagged(k: nat, l: Located) {
    var n := l.node;
    match k
    case 0 => IsTagIn(n, {"b", "i", "u", "font"})
    case 1 => Has(n, "tabindex") && !Has(n, "aria-flowto") && !Has(n, "aria-labelledby")
    case 2 => n.Element? && SensoryText(n)
    case 3 => IsTag(n, "input") && !Has(n, "autocomplete")
    case 4 => Has(n, "role") && !Has(n, "aria-label") && !Has(n, "aria-describedby")
    case _ => false
  }

  function Reported(k: nat, l: Located): Report {
    Report(KindOf(k), TagName(l.node), DescriptionOf(k), CriterionOf(k), ImpactOf(k), Some(SuggestionOf(k)))
  }

  function KindOf(k: nat): Kind {
    match k
    case 0 => NonSemanticFormatting
    case 1 => TabOrderIssue
    case 2 => SensoryInstructions
    case 3 => MissingAutocomplete
    case _ => UnlabeledComponent
  }

  function DescriptionOf(k: nat): Description {
    match k
    case 0 => NonSemanticElements
    case 1 => TabOrderUnclear
    case 2 => ReliesOnSensory
    case 3 => InputMissingAutocomplete
    case _ => RoleUnclear
  }

  function CriterionOf(k: nat): Criterion {
    match k
    case 0 => InfoAndRelationships
    case 1 => MeaningfulSequence
    case 2 => SensoryCharacteristics
    case 3 => IdentifyInputPurpose
    case _ => IdentifyPurpose
  }

  function ImpactOf(k: nat): Impact {
    match k
    case 0 => Moderate
    case 3 => Moderate
    case _ => Critical
  }

  function SuggestionOf(k: nat): Suggestion {
    match k
    case 0 => UseSemanticElements
    case 1 => KeepNavigationOrder
    case 2 => DescribeWithoutSenses
    case 3 => AddAutocomplete
    case _ => DescribeComponent
  }

  function Check(k: nat, l: Located): seq<Report> {
    if k < CheckCount then Flag(Flagged(k, l), Reported(k, l)) else []
  }

  // The viewport check

  /** The selector `meta[name="viewport"]`. */
  predicate IsViewportMeta(n: Node) {
    IsTag(n, "meta") && Attr(n, "name") == Some("viewport")
  }

  /** `document.querySelector('meta[name="viewport"]')`: the first match in
      document order, if any. */
  function FirstViewportMeta(E: seq<Located>): Option<Located> {
    if E == [] then None
    else if IsViewportMeta(E[0].node) then Some(E[0])
    else FirstViewportMeta(E[1..])
  }

  /** `E[i]` is a viewport `meta` and no element before it is. */
  predicate FirstViewportAt(E: seq<Located>, i: nat) {
    && i < |E|
    && IsViewportMeta(E[i].node)
    && forall j :: 0 <= j < i ==> !IsViewportMeta(E[j].node)
  }

  /** The search finds the first viewport `meta`, and finds nothing only when
      there is none. */
  lemma {:induction false} FirstViewportMetaSpec(E: seq<Located>)
    ensures FirstViewportMeta(E).None? <==> forall j :: 0 <= j < |E| ==> !IsViewportMeta(E[j].node)
    ensures FirstViewportMeta(E).Some? ==> exists i: nat :: FirstViewportAt(E, i) && FirstViewportMeta(E).value == E[i]
  {
    if E != [] && !IsViewportMeta(E[0].node) {
      FirstViewportMetaSpec(E[1..]);
      if FirstViewportMeta(E[1..]).Some? {
        var i: nat :| FirstViewportAt(E[1..], i) && FirstViewportMeta(E[1..]).value == E[1..][i];
        forall j | 0 <= j <= i ensures E[j + 1] == E[1..][j] { }
        assert FirstViewportAt(E, i + 1);
      }
      if forall j :: 0 <= j < |E[1..]| ==> !IsViewportMeta(E[1..][j].node) {
        forall j | 0 < j < |E| ensures !IsViewportMeta(E[j].node) {
          assert E[j] == E[1..][j - 1];
        }
      }
    } else if E != [] {
      assert FirstViewportAt(E, 0);
    }
  }

  /** The first viewport `meta` is found wherever it is, whatever follows it. */
  lemma {:induction false} FirstViewportMetaIs(E: seq<Located>, i: nat)
    requires FirstViewportAt(E, i)
    ensures FirstViewportMeta(E) == Some(E[i])
  {
    if i > 0 {
      assert FirstViewportAt(E[1..], i - 1);
      FirstViewportMetaIs(E[1..], i - 1);
    }
  }

  /** The search of `querySelector`: the elements in document order until the first match. */
  method FindViewportMeta(E: seq<Located>) returns (meta: Option<Located>)
    ensures meta == FirstViewportMeta(E)
  {
    var i := 0;
    while i < |E| && !IsViewportMeta(E[i].node)
      invariant 0 <= i <= |E|
      invariant FirstViewportMeta(E) == FirstViewportMeta(E[i..])
    {
      assert E[i..][1..] == E[i + 1..];
      i := i + 1;
    }
    if i < |E| {
      meta := Some(E[i]);
    } else {
      meta := None;
    }
  }

  /** `content` includes "user-scalable=no"; a missing `content` reads as "". */
  predicate RestrictsScaling(meta: Node) {
    Contains(Attr(meta, "content").GetOr(""), "user-scalable=no")
  }

  /** The single viewport finding, with its fixed path. */
  function ViewportFinding(): Finding {
    Finding(RestrictedViewportScaling, "meta", "head > meta[name='viewport']", ViewportRestricted, Orientation, Moderate, Some(AllowScaling))
  }

  /** What the viewport check pushes: at most the one finding. */
  function ViewportFindings(E: seq<Located>): seq<Finding> {
    match FirstViewportMeta(E)
    case Some(meta) => if RestrictsScaling(meta.node) then [ViewportFinding()] else []
    case None => []
  }

  // The rule file

  /** The findings `checkAdaptable` returns for a page. */
  function Adaptable(document: seq<Node>): seq<Finding> {
    var E := Elements(document);
    Run(E, Check, 0, 3) + ViewportFindings(E) + Run(E, Check, 3, CheckCount)
  }

  /** Everything the element checks report about one element, in check order. */
  function AdaptableAt(l: Located): seq<Report> {
    ReportsAt(l, Check, 0, CheckCount)
  }

  /** The evaluation in the page. */
  method CheckAdaptable(document: seq<Node>) returns (findings: seq<Finding>)
    ensures findings == Adaptable(document)
  {
    var E := Elements(document);
    findings := RunLoops(E, Check, 0, 3, []);
    assert findings == Run(E, Check, 0, 3);
    var meta := FindViewportMeta(E);
    if meta.Some? && RestrictsScaling(meta.value.node) {
      findings := findings + [ViewportFinding()];
    }
    assert findings == Run(E, Check, 0, 3) + ViewportFindings(E);
    findings := RunLoops(E, Check, 3, CheckCount, findings);
  }

  // Which findings a page gets

  lemma CheckKinds()
    ensures KindedBy(Check, 0, CheckCount, KindOf)
  {
    forall k, l, r | 0 <= k < CheckCount && r in Check(k, l)
      ensures r.kind == KindOf(k)
    {
      FlagMember(Flagged(k, l), Reported(k, l), r);
    }
  }

  /** Every check reports under its own `type`. */
  lemma KindUnique(k0: nat)
    requires k0 < CheckCount
    ensures forall k :: 0 <= k < CheckCount && k != k0 ==> KindOf(k) != KindOf(k0)
  {
  }

  /** No element check reports under the viewport check's `type`. */
  lemma NotViewportKind()
    ensures forall k :: KindOf(k) != RestrictedViewportScaling
  {
  }

  /** The page's findings of element check `k0`'s `type` are one per flagged
      element, in that element's report, at that element's path. */
  lemma AdaptableFindings(document: seq<Node>, k0: nat, f: Finding)
    requires k0 < CheckCount
    ensures var E := Elements(document);
      (f in Adaptable(document) && f.kind == KindOf(k0))
        <==> exists i :: 0 <= i < |E| && Flagged(k0, E[i]) && f == Reported(k0, E[i]).At(PathOf(E[i]))
  {
    var E := Elements(document);
    CheckKinds();
    KindUnique(k0);
    if k0 < 3 {
      RunOfFlag(E, Check, 0, 3, KindOf, k0, Flagged, Reported, f);
      RunOfKind(E, Check, 3, CheckCount, KindOf, KindOf(k0), f);
    } else {
      RunOfFlag(E, Check, 3, CheckCount, KindOf, k0, Flagged, Reported, f);
      RunOfKind(E, Check, 0, 3, KindOf, KindOf(k0), f);
    }
  }

  /** No element check reports restricted scaling. */
  lemma NoViewportKindInRuns(E: seq<Located>, f: Finding)
    requires f.kind == RestrictedViewportScaling
    ensures f !in Run(E, Check, 0, 3) && f !in Run(E, Check, 3, CheckCount)
  {
    CheckKinds();
    NotViewportKind();
    RunOfKind(E, Check, 0, 3, KindOf, RestrictedViewportScaling, f);
    RunOfKind(E, Check, 3, CheckCount, KindOf, RestrictedViewportScaling, f);
  }

  /** What the viewport check pushes is the one viewport finding, at most once. */
  lemma ViewportFindingsAtMostOne(E: seq<Located>)
    ensures forall f :: f in ViewportFindings(E) ==> f == ViewportFinding()
    ensures Count(ViewportFindings(E), ViewportFinding()) <= 1
  {
  }

  /** Only the viewport check reports restricted scaling. */
  lemma OnlyViewportFinding(document: seq<Node>, f: Finding)
    requires f in Adaptable(document) && f.kind == RestrictedViewportScaling
    ensures f == ViewportFinding()
  {
    var E := Elements(document);
    NoViewportKindInRuns(E, f);
    ViewportFindingsAtMostOne(E);
  }

  /** The page gets the viewport finding at most once: only the first viewport
      `meta` is examined. */
  lemma OneViewportFinding(document: seq<Node>)
    ensures Count(Adaptable(document), ViewportFinding()) <= 1
  {
    var E := Elements(document);
    var v := ViewportFinding();
    var early, viewport, late := Run(E, Check, 0, 3), ViewportFindings(E), Run(E, Check, 3, CheckCount);
    NoViewportKindInRuns(E, v);
    ViewportFindingsAtMostOne(E);
    CountAbsent(early, v);
    CountAbsent(late, v);
    CountConcat(early, viewport, v);
    CountConcat(early + viewport, late, v);
  }

  /** The viewport finding depends on the first viewport `meta` alone: it is
      pushed exactly when that element's `content` includes "user-scalable=no". */
  lemma FirstViewportDecides(document: seq<Node>, i: nat)
    requires FirstViewportAt(Elements(document), i)
    ensures ViewportFinding() in Adaptable(document) <==> RestrictsScaling(Elements(document)[i].node)
  {
    var E := Elements(document);
    var early, viewport, late := Run(E, Check, 0, 3), ViewportFindings(E), Run(E, Check, 3, CheckCount);
    assert Adaptable(document) == early + viewport + late;
    FirstViewportMetaIs(E, i);
    NoViewportKindInRuns(E, ViewportFinding());
    assert ViewportFinding() in viewport <==> RestrictsScaling(E[i].node);
  }

  // What one element gets

  lemma AdaptableAtKind(l: Located, k0: nat)
    requires k0 < CheckCount
    ensures OfKind(AdaptableAt(l), KindOf(k0)) == Flag(Flagged(k0, l), Reported(k0, l))
  {
    CheckKinds();
    KindUnique(k0);
    ReportsAtOfOneKind(l, Check, 0, CheckCount, KindOf, k0);
  }

  lemma FlaggedAt(l: Located, k0: nat)
    requires k0 < CheckCount && Flagged(k0, l)
    ensures OfKind(AdaptableAt(l), KindOf(k0)) == [Reported(k0, l)]
  {
    AdaptableAtKind(l, k0);
  }

  lemma PassesAt(l: Located, k0: nat)
    requires k0 < CheckCount && !Flagged(k0, l)
    ensures OfKind(AdaptableAt(l), KindOf(k0)) == []
  {
    AdaptableAtKind(l, k0);
  }

  /** Every `b`, `i`, `u` and `font` is reported, moderate, under 1.3.1. */
  lemma FormattingAt(l: Located)
    requires IsTagIn(l.node, {"b", "i", "u", "font"})
    ensures OfKind(AdaptableAt(l), NonSemanticFormatting) == [Reported(0, l)]
    ensures Reported(0, l).impact == Moderate && Reported(0, l).criterion == InfoAndRelationships
  {
    FlaggedAt(l, 0);
  }

  /** An element with `tabindex` is reported, critical, under 1.3.2 exactly when
      it has neither `aria-flowto` nor `aria-labelledby`. */
  lemma TabOrderAt(l: Located)
    requires Has(l.node, "tabindex")
    ensures OfKind(AdaptableAt(l), TabOrderIssue) != [] <==> !Has(l.node, "aria-flowto") && !Has(l.node, "aria-labelledby")
    ensures Reported(1, l).impact == Critical && Reported(1, l).criterion == MeaningfulSequence
  {
    AdaptableAtKind(l, 1);
  }

  /** An `input` without `autocomplete` is reported, moderate, under 1.3.5. */
  lemma AutocompleteAt(l: Located)
    requires IsTag(l.node, "input") && !Has(l.node, "autocomplete")
    ensures OfKind(AdaptableAt(l), MissingAutocomplete) == [Reported(3, l)]
    ensures Reported(3, l).impact == Moderate && Reported(3, l).criterion == IdentifyInputPurpose
  {
    FlaggedAt(l, 3);
  }

  /** An element with a `role` is reported, critical, under 1.3.6 exactly when it
      has neither `aria-label` nor `aria-describedby`. */
  lemma RoleAt(l: Located)
    requires Has(l.node, "role")
    ensures OfKind(AdaptableAt(l), UnlabeledComponent) != [] <==> !Has(l.node, "aria-label") && !Has(l.node, "aria-describedby")
    ensures Reported(4, l).impact == Critical && Reported(4, l).criterion == IdentifyPurpose
  {
    AdaptableAtKind(l, 4);
  }

  /** The sensory check reads the whole `textContent`, so an element whose text
      holds a phrase passes it on to every ancestor: each of them is an element
      of the page and is flagged as well. */
  lemma SensoryAncestors(document: seq<Node>, l: Located, j: nat)
    requires l in Elements(document) && Flagged(2, l)
    requires j < |l.ancestors|
    ensures Located(l.ancestors[..j], l.ancestors[j]) in Elements(document)
    ensures Flagged(2, Located(l.ancestors[..j], l.ancestors[j]))
  {
    var a := l.ancestors[j];
    WalkListsAncestors(document, [], l, j);
    WalkParentChains(document, []);
    assert ParentChain(l.Chain());
    assert l.Chain()[j] == a && l.Chain()[|l.Chain()| - 1] == l.node;
    ChainTextContains(l.Chain(), j);
    var p :| 0 <= p < |SensoryPhrases| && Contains(Lower(TextContent(l.node)), SensoryPhrases[p]);
    LowerContains(TextContent(a), TextContent(l.node));
    ContainsTransitive(Lower(TextContent(a)), Lower(TextContent(l.node)), SensoryPhrases[p]);
  }
}
