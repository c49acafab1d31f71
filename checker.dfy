/** `checkWCAGCompliance`, the legacy checker: five checks evaluated in the page
    (missing `alt`, unlabelled form controls, unnamed buttons, equal text and
    background colours, skipped heading levels) pushing onto one `findings`
    array, then a summary grouping the findings by criterion and counting the
    critical ones. Its findings carry no suggestion. */
module Checker {
  import opened Wrappers
  import opened Strings
  import opened Messages
  import opened Dom
  import opened Findings
  import opened Paths
  import opened Rules

  // The element checks: 0 alt, 1 label, 2 button, 3 contrast

  const CheckCount := 4

  /** `label.htmlFor`: the `for` attribute, "" when absent. */
  function HtmlFor(n: Node): string {
    Attr(n, "for").GetOr("")
  }

  /** The `htmlFor` values of the page's `label` elements. */
  function LabelFors(E: seq<Located>): set<string> {
    set i | 0 <= i < |E| && IsTag(E[i].node, "label") :: HtmlFor(E[i].node)
  }

  /** Some `label`'s `htmlFor` equals the control's `id`. Both read as "" when
      absent, so a label without `for` labels every control without an `id`. */
  predicate HasLabel(fors: set<string>, n: Node) {
    Id(n) in fors
  }

  predicate Flagged(fors: set<string>, k: nat, l: Located) {
    var n := l.node;
    match k
    case 0 => IsTag(n, "img") && !Has(n, "alt")
    case 1 => IsTagIn(n, {"input", "select", "textarea"}) && !HasLabel(fors, n)
              && !Has(n, "aria-label") && !Has(n, "aria-labelledby")
    case 2 => IsTag(n, "button") && Trim(TextContent(n)) == "" && !Has(n, "aria-label") && !Has(n, "aria-labelledby")
    case 3 => n.Element? && n.rendering.color == n.rendering.backgroundColor
    case _ => false
  }

  function Reported(k: nat, l: Located): Report {
    match k
    case 0 => Report(MissingAlt, "img", ImageMissingAlt, NonTextContent, Critical, None)
    case 1 => Report(MissingLabel, TagName(l.node), ControlMissingLabel, InfoAndRelationships, Serious, None)
    case 2 => Report(EmptyButton, "button", ButtonWithoutName, NameRoleValue, Serious, None)
    case _ => Report(LowContrast, TagName(l.node), MayLackContrast, ContrastMinimum, Serious, None)
  }

  function KindOf(k: nat): Kind {
    match k
    case 0 => MissingAlt
    case 1 => MissingLabel
    case 2 => EmptyButton
    case _ => LowContrast
  }

  function Check(fors: set<string>, k: nat, l: Located): seq<Report> {
    if k < CheckCount then Flag(Flagged(fors, k, l), Reported(k, l)) else []
  }

  /** The element checks of a page whose labels have the `htmlFor` values `fors`. */
  function ChecksWith(fors: set<string>): Checks {
    (k: nat, l: Located) => Check(fors, k, l)
  }

  function FlaggedWith(fors: set<string>): (nat, Located) -> bool {
    (k: nat, l: Located) => Flagged(fors, k, l)
  }

  // The heading check

  /** The selector `h1, h2, h3, h4, h5, h6`. */
  predicate IsHeading(n: Node) {
    IsTagIn(n, {"h1", "h2", "h3", "h4", "h5", "h6"})
  }

  /** `parseInt(heading.tagName[1])`. */
  function Level(n: Node): (level: nat)
    ensures IsHeading(n) ==> 1 <= level <= 6
  {
    if !n.Element? then 0
    else if n.tag == "h1" then 1
    else if n.tag == "h2" then 2
    else if n.tag == "h3" then 3
    else if n.tag == "h4" then 4
    else if n.tag == "h5" then 5
    else if n.tag == "h6" then 6
    else 0
  }

  /** `previousLevel` when the loop reaches element `n`: the level of the last
      heading before it, 0 before the first heading. */
  function PreviousLevel(E: seq<Located>, n: nat): nat
    requires n <= |E|
  {
    if n == 0 then 0
    else if IsHeading(E[n - 1].node) then Level(E[n - 1].node)
    else PreviousLevel(E, n - 1)
  }

  /** The heading at `i` jumps more than one level down from the previous one. */
  predicate SkipsLevel(E: seq<Located>, i: nat)
    requires i < |E|
  {
    IsHeading(E[i].node) && Level(E[i].node) - PreviousLevel(E, i) > 1
  }

  function HeadingFinding(l: Located): Finding {
    Finding(HeadingOrder, TagName(l.node), PathOf(l), HeadingSkipped, InfoAndRelationships, Moderate, None)
  }

  /** Element `i` is a heading that skips a level (as a handle). */
  predicate SkipsAt(E: seq<Located>, i: nat) {
    i < |E| && SkipsLevel(E, i)
  }

  /** What a loop pushing `make(l)` for each element `l` it flags pushes while
      visiting the first `n` elements. */
  function Pushed(E: seq<Located>, n: nat, flagged: (seq<Located>, nat) -> bool, make: Located -> Finding): seq<Finding>
    requires n <= |E|
  {
    if n == 0 then []
    else Pushed(E, n - 1, flagged, make) + (if flagged(E, n - 1) then [make(E[n - 1])] else [])
  }

  /** Such a loop pushes exactly the findings of the flagged elements. */
  lemma {:induction false} PushedMember(E: seq<Located>, n: nat, flagged: (seq<Located>, nat) -> bool, make: Located -> Finding, f: Finding)
    requires n <= |E|
    ensures f in Pushed(E, n, flagged, make) <==> exists i :: 0 <= i < n && flagged(E, i) && f == make(E[i])
  {
    if n > 0 {
      PushedMember(E, n - 1, flagged, make, f);
    }
  }

  /** What the heading loop pushes while visiting the first `n` elements. */
  function HeadingFindings(E: seq<Located>, n: nat): seq<Finding>
    requires n <= |E|
  {
    Pushed(E, n, SkipsAt, HeadingFinding)
  }

  /** The heading loop, carrying `previousLevel` from heading to heading. */
  method CheckHeadings(E: seq<Located>, findings: seq<Finding>) returns (out: seq<Finding>)
    ensures out == findings + HeadingFindings(E, |E|)
  {
    out := findings;
    var previousLevel: int := 0;
    var i := 0;
    while i < |E|
      invariant 0 <= i <= |E|
      invariant previousLevel == PreviousLevel(E, i)
      invariant out == findings + HeadingFindings(E, i)
    {
      var heading := E[i];
      if IsHeading(heading.node) {
        var currentLevel: int := Level(heading.node);
        if currentLevel - previousLevel > 1 {
          var path := GetElementPath(heading);
          out := out + [Finding(HeadingOrder, TagName(heading.node), path, HeadingSkipped, InfoAndRelationships, Moderate, None)];
        }
        previousLevel := currentLevel;
      }
      i := i + 1;
    }
  }

  // The evaluated closure

  /** The findings the page evaluation returns. */
  function LegacyFindings(document: seq<Node>): seq<Finding> {
    var E := Elements(document);
    Run(E, ChecksWith(LabelFors(E)), 0, CheckCount) + HeadingFindings(E, |E|)
  }

  method EvaluateChecks(document: seq<Node>) returns (findings: seq<Finding>)
    ensures findings == LegacyFindings(document)
  {
    var E := Elements(document);
    var fors := LabelFors(E);
    findings := RunLoops(E, ChecksWith(fors), 0, CheckCount, []);
    assert findings == Run(E, ChecksWith(fors), 0, CheckCount);
    findings := CheckHeadings(E, findings);
  }

  // What the element checks find

  lemma CheckKinds(fors: set<string>)
    ensures KindedBy(ChecksWith(fors), 0, CheckCount, KindOf)
  {
    forall k, l, r | 0 <= k < CheckCount && r in ChecksWith(fors)(k, l)
      ensures r.kind == KindOf(k)
    {
      FlagMember(Flagged(fors, k, l), Reported(k, l), r);
    }
  }

  /** The page's findings of element check `k0`'s `type` are one per flagged
      element, at that element's path. */
  lemma CheckFindings(document: seq<Node>, k0: nat, f: Finding)
    requires k0 < CheckCount
    ensures var E := Elements(document);
      (f in LegacyFindings(document) && f.kind == KindOf(k0))
        <==> exists i :: 0 <= i < |E| && Flagged(LabelFors(E), k0, E[i]) && f == Reported(k0, E[i]).At(PathOf(E[i]))
  {
    var E := Elements(document);
    RunFindings(E, LabelFors(E), k0, f);
    HeadingFindingsMember(E, f);
  }

  /** The same for the element checks' run alone, whatever the labels. */
  lemma RunFindings(E: seq<Located>, fors: set<string>, k0: nat, f: Finding)
    requires k0 < CheckCount
    ensures (f in Run(E, ChecksWith(fors), 0, CheckCount) && f.kind == KindOf(k0))
        <==> exists i :: 0 <= i < |E| && Flagged(fors, k0, E[i]) && f == Reported(k0, E[i]).At(PathOf(E[i]))
  {
    CheckKinds(fors);
    RunOfFlag(E, ChecksWith(fors), 0, CheckCount, KindOf, k0, FlaggedWith(fors), Reported, f);
  }

  /** A control is labelled by a `label` exactly when one of the page's labels
      has `htmlFor` equal to the control's `id`. */
  lemma LabelForsMember(E: seq<Located>, n: Node)
    ensures HasLabel(LabelFors(E), n) <==> exists i :: 0 <= i < |E| && IsTag(E[i].node, "label") && HtmlFor(E[i].node) == Id(n)
  {
    if exists i :: 0 <= i < |E| && IsTag(E[i].node, "label") && HtmlFor(E[i].node) == Id(n) {
      var i :| 0 <= i < |E| && IsTag(E[i].node, "label") && HtmlFor(E[i].node) == Id(n);
      assert HtmlFor(E[i].node) in LabelFors(E);
    }
  }

  /** Only an `img` with no `alt` attribute at all is flagged: `alt=""` passes. */
  lemma AltPresencePasses(fors: set<string>, l: Located)
    requires IsTag(l.node, "img")
    ensures Flagged(fors, 0, l) <==> !Has(l.node, "alt")
    ensures Has(l.node, "alt") && Attr(l.node, "alt") == Some("") ==> !Flagged(fors, 0, l)
  {
  }

  /** A page with a `label` lacking `for` labels every form control without an `id`. */
  lemma EmptyForLabelsControlsWithoutId(E: seq<Located>, i: nat, l: Located)
    requires 0 <= i < |E| && IsTag(E[i].node, "label") && !Has(E[i].node, "for")
    requires Id(l.node) == ""
    ensures !Flagged(LabelFors(E), 1, l)
  {
    assert HtmlFor(E[i].node) in LabelFors(E);
  }

  /** A button is unnamed exactly when its text is blank and it has neither
      `aria-label` nor `aria-labelledby`. */
  lemma ButtonNamed(fors: set<string>, l: Located)
    requires IsTag(l.node, "button")
    ensures Flagged(fors, 2, l) <==> Blank(TextContent(l.node)) && !Has(l.node, "aria-label") && !Has(l.node, "aria-labelledby")
  {
    TrimSpec(TextContent(l.node));
  }

  // What the heading check finds

  /** The heading loop pushes one finding per heading that skips a level. */
  lemma HeadingFindingsMember(E: seq<Located>, f: Finding)
    ensures f in HeadingFindings(E, |E|) <==> exists i :: 0 <= i < |E| && SkipsLevel(E, i) && f == HeadingFinding(E[i])
    ensures f in HeadingFindings(E, |E|) ==> f.kind == HeadingOrder
  {
    PushedMember(E, |E|, SkipsAt, HeadingFinding, f);
  }

  /** `previousLevel` is 0 exactly until the first heading, and afterwards the
      level of the last heading seen. */
  lemma {:induction false} PreviousLevelIsLastHeading(E: seq<Located>, n: nat)
    requires n <= |E|
    ensures PreviousLevel(E, n) == 0 <==> forall j :: 0 <= j < n ==> !IsHeading(E[j].node)
    ensures PreviousLevel(E, n) != 0 ==>
      exists j :: 0 <= j < n && IsHeading(E[j].node) && PreviousLevel(E, n) == Level(E[j].node)
        && forall m :: j < m < n ==> !IsHeading(E[m].node)
  {
    if n > 0 && !IsHeading(E[n - 1].node) {
      PreviousLevelIsLastHeading(E, n - 1);
      if PreviousLevel(E, n) != 0 {
        var j :| 0 <= j < n - 1 && IsHeading(E[j].node) && PreviousLevel(E, n - 1) == Level(E[j].node)
          && forall m :: j < m < n - 1 ==> !IsHeading(E[m].node);
        assert forall m :: j < m < n ==> !IsHeading(E[m].node);
      }
    }
  }

  /** A heading skips a level exactly when it is the first heading and is h2 or
      deeper, or when it is more than one level below the last heading before it.
      Going back up, or staying at the same level, never counts. */
  lemma SkipsLevelSpec(E: seq<Located>, i: nat)
    requires i < |E| && IsHeading(E[i].node)
    ensures (forall j :: 0 <= j < i ==> !IsHeading(E[j].node)) ==> (SkipsLevel(E, i) <==> Level(E[i].node) >= 2)
    ensures forall j :: 0 <= j < i && IsHeading(E[j].node) && (forall m :: j < m < i ==> !IsHeading(E[m].node)) ==>
              (SkipsLevel(E, i) <==> Level(E[i].node) > Level(E[j].node) + 1)
  {
    PreviousLevelIsLastHeading(E, i);
  }

  /** The page's heading-order findings are one per heading that skips a level. */
  lemma HeadingOrderFindings(document: seq<Node>, f: Finding)
    ensures var E := Elements(document);
      (f in LegacyFindings(document) && f.kind == HeadingOrder)
        <==> exists i :: 0 <= i < |E| && SkipsLevel(E, i) && f == HeadingFinding(E[i])
  {
    var E := Elements(document);
    var fors := LabelFors(E);
    CheckKinds(fors);
    assert forall k :: KindOf(k) != HeadingOrder;
    RunOfKind(E, ChecksWith(fors), 0, CheckCount, KindOf, HeadingOrder, f);
    HeadingFindingsMember(E, f);
  }

  // The summary

  /** The grouping key: the `wcagCriteria` string. */
  function Key(f: Finding): string {
    CriterionName(f.criterion)
  }

  /** The keys of a grouping by `by` in insertion order: each key once, in order
      of its first finding. */
  function Keys(issues: seq<Finding>, keyOf: Finding -> string): seq<string> {
    if issues == [] then []
    else
      var front := Keys(issues[..|issues| - 1], keyOf);
      var k := keyOf(issues[|issues| - 1]);
      if k in front then front else front + [k]
  }

  /** The findings under `key`, in order. */
  function Group(issues: seq<Finding>, keyOf: Finding -> string, key: string): seq<Finding> {
    if issues == [] then []
    else Group(issues[..|issues| - 1], keyOf, key) + (if keyOf(issues[|issues| - 1]) == key then [issues[|issues| - 1]] else [])
  }

  /** The `reduce` into a dictionary: `acc[key] = acc[key] || []; acc[key].push(issue)`.
      `keys` is the dictionary's insertion order, which `Object.entries` follows
      (no criterion string is an integer index). */
  method GroupByCriterion(issues: seq<Finding>) returns (keys: seq<string>, groups: map<string, seq<Finding>>)
    ensures keys == Keys(issues, Key)
    ensures forall k :: k in groups <==> k in keys
    ensures forall k :: k in groups ==> groups[k] == Group(issues, Key, k)
  {
    keys := [];
    groups := map[];
    var i := 0;
    while i < |issues|
      invariant 0 <= i <= |issues|
      invariant keys == Keys(issues[..i], Key)
      invariant forall k :: k in groups <==> k in keys
      invariant forall k :: k in groups ==> groups[k] == Group(issues[..i], Key, k)
    {
      var issue := issues[i];
      var key := Key(issue);
      assert issues[..i + 1][..i] == issues[..i];
      if key !in groups {
        keys := keys + [key];
        groups := groups[key := []];
        GroupAbsent(issues[..i], Key, key);
      }
      groups := groups[key := groups[key] + [issue]];
      i := i + 1;
    }
    assert issues[..i] == issues;
  }

  /** A key that no finding has has an empty group. */
  lemma {:induction false} GroupAbsent(issues: seq<Finding>, keyOf: Finding -> string, key: string)
    requires key !in Keys(issues, keyOf)
    ensures Group(issues, keyOf, key) == []
  {
    if issues != [] {
      GroupAbsent(issues[..|issues| - 1], keyOf, key);
    }
  }

  /** A key is listed exactly when some finding has it. */
  lemma {:induction false} KeysMember(issues: seq<Finding>, keyOf: Finding -> string, key: string)
    ensures key in Keys(issues, keyOf) <==> exists i :: 0 <= i < |issues| && keyOf(issues[i]) == key
  {
    if issues != [] {
      var front := issues[..|issues| - 1];
      KeysMember(front, keyOf, key);
      if exists i :: 0 <= i < |front| && keyOf(front[i]) == key {
        var i :| 0 <= i < |front| && keyOf(front[i]) == key;
        assert issues[i] == front[i];
      }
      if exists i :: 0 <= i < |issues| && keyOf(issues[i]) == key {
        var i :| 0 <= i < |issues| && keyOf(issues[i]) == key;
        if i < |front| {
          assert front[i] == issues[i];
        }
      }
    }
  }

  /** Each key is listed once. */
  lemma {:induction false} KeysDistinct(issues: seq<Finding>, keyOf: Finding -> string)
    ensures forall p, q :: 0 <= p < q < |Keys(issues, keyOf)| ==> Keys(issues, keyOf)[p] != Keys(issues, keyOf)[q]
  {
    if issues != [] {
      KeysDistinct(issues[..|issues| - 1], keyOf);
    }
  }

  /** The keys come in order of first appearance: before any finding under a
      later key there is a finding under each earlier key. */
  lemma {:induction false} KeysFirstAppearance(issues: seq<Finding>, keyOf: Finding -> string, p: nat, q: nat, j: nat)
    requires p < q < |Keys(issues, keyOf)| && j < |issues| && keyOf(issues[j]) == Keys(issues, keyOf)[q]
    ensures exists i :: 0 <= i < j && keyOf(issues[i]) == Keys(issues, keyOf)[p]
  {
    var front := issues[..|issues| - 1];
    var ks := Keys(front, keyOf);
    assert Keys(issues, keyOf)[..|ks|] == ks;
    if j < |front| {
      assert keyOf(front[j]) == Keys(issues, keyOf)[q];
      if q < |ks| {
        KeysFirstAppearance(front, keyOf, p, q, j);
        var i :| 0 <= i < j && keyOf(front[i]) == ks[p];
        assert issues[i] == front[i];
      } else {
        KeysMember(front, keyOf, Keys(issues, keyOf)[q]);
        assert false;
      }
    } else {
      KeysMember(front, keyOf, ks[p]);
      var i :| 0 <= i < |front| && keyOf(front[i]) == ks[p];
      assert issues[i] == front[i];
    }
  }

  /** A finding is in the group of `key` exactly when it has that key: every
      finding is in exactly one group, its own criterion's. */
  lemma {:induction false} GroupMember(issues: seq<Finding>, keyOf: Finding -> string, key: string, x: Finding)
    ensures x in Group(issues, keyOf, key) <==> x in issues && keyOf(x) == key
  {
    if issues != [] {
      var front := issues[..|issues| - 1];
      GroupMember(front, keyOf, key, x);
      assert issues == front + [issues[|issues| - 1]];
    }
  }

  /** The sizes of the groups listed in `keys`. */
  function SumSizes(issues: seq<Finding>, keyOf: Finding -> string, keys: seq<string>): nat {
    if keys == [] then 0 else SumSizes(issues, keyOf, keys[..|keys| - 1]) + |Group(issues, keyOf, keys[|keys| - 1])|
  }

  /** The group sizes add up to the total number of findings. */
  lemma {:induction false} GroupSizesSum(issues: seq<Finding>, keyOf: Finding -> string)
    ensures SumSizes(issues, keyOf, Keys(issues, keyOf)) == |issues|
  {
    if issues != [] {
      var front := issues[..|issues| - 1];
      var x := issues[|issues| - 1];
      var ks := Keys(front, keyOf);
      assert issues == front + [x];
      GroupSizesSum(front, keyOf);
      KeysDistinct(front, keyOf);
      SumSizesSnoc(front, keyOf, x, ks);
      if keyOf(x) !in ks {
        var kx := keyOf(x);
        GroupAbsent(front, keyOf, kx);
        assert Group(issues, keyOf, kx) == Group(front, keyOf, kx) + [x];
        assert Keys(issues, keyOf) == ks + [kx];
        assert (ks + [kx])[..|ks|] == ks;
        assert SumSizes(issues, keyOf, ks + [kx]) == SumSizes(issues, keyOf, ks) + |Group(issues, keyOf, kx)|;
      }
    }
  }

  /** Adding a finding grows the sum over distinct keys by one when its key is among them. */
  lemma {:induction false} SumSizesSnoc(front: seq<Finding>, keyOf: Finding -> string, x: Finding, keys: seq<string>)
    requires forall p, q :: 0 <= p < q < |keys| ==> keys[p] != keys[q]
    ensures SumSizes(front + [x], keyOf, keys) == SumSizes(front, keyOf, keys) + (if keyOf(x) in keys then 1 else 0)
  {
    var issues := front + [x];
    assert issues[..|issues| - 1] == front;
    if keys != [] {
      var init := keys[..|keys| - 1];
      SumSizesSnoc(front, keyOf, x, init);
      assert keyOf(x) in keys <==> keyOf(x) in init || keyOf(x) == keys[|keys| - 1];
      if keyOf(x) == keys[|keys| - 1] {
        assert keyOf(x) !in init;
      }
    }
  }

  /** The findings whose impact is critical (`issues.filter(...)`). */
  function Criticals(issues: seq<Finding>): (r: seq<Finding>)
    ensures |r| <= |issues|
  {
    if issues == [] then []
    else Criticals(issues[..|issues| - 1]) + (if issues[|issues| - 1].impact == Critical then [issues[|issues| - 1]] else [])
  }

  /** The critical findings are exactly the findings of impact critical. */
  lemma {:induction false} CriticalsMember(issues: seq<Finding>, x: Finding)
    ensures x in Criticals(issues) <==> x in issues && x.impact == Critical
  {
    if issues != [] {
      CriticalsMember(issues[..|issues| - 1], x);
      assert issues == issues[..|issues| - 1] + [issues[|issues| - 1]];
    }
  }

  /** Each critical finding is kept as often as it occurs, and nothing else is
      kept, so the printed critical count counts the critical issues with
      their repetitions. */
  lemma {:induction false} CriticalsCount(issues: seq<Finding>, x: Finding)
    ensures multiset(Criticals(issues))[x] == if x.impact == Critical then multiset(issues)[x] else 0
  {
    if issues != [] {
      var init, last := issues[..|issues| - 1], issues[|issues| - 1];
      CriticalsCount(init, x);
      assert issues == init + [last];
      assert multiset(issues) == multiset(init) + multiset{last};
    }
  }

  /** The number of critical findings is the number of findings of impact critical. */
  lemma {:induction false} CriticalsLength(issues: seq<Finding>)
    ensures |Criticals(issues)| == |set i | 0 <= i < |issues| && issues[i].impact == Critical|
  {
    if issues != [] {
      var init := issues[..|issues| - 1];
      CriticalsLength(init);
      var before := set i | 0 <= i < |init| && init[i].impact == Critical;
      var after := set i | 0 <= i < |issues| && issues[i].impact == Critical;
      if issues[|issues| - 1].impact == Critical {
        assert after == before + {|issues| - 1};
      } else {
        assert after == before;
      }
    }
  }

  /** `criteriaIssues.length === 1 ? "issue" : "issues"`. */
  function Noun(count: nat): (noun: string)
    ensures noun == "issue" <==> count == 1
  {
    if count == 1 then "issue" else "issues"
  }

  /** One line of the summary per criterion. */
  datatype GroupLine = GroupLine(criteria: string, count: nat, noun: string)

  /** The numbers the summary prints. */
  datatype Summary = Summary(total: nat, groups: seq<GroupLine>, critical: nat)

  /** The summary lines of the listed keys. */
  function Lines(issues: seq<Finding>, keys: seq<string>): seq<GroupLine> {
    if keys == [] then []
    else
      var key := keys[|keys| - 1];
      Lines(issues, keys[..|keys| - 1]) + [GroupLine(key, |Group(issues, Key, key)|, Noun(|Group(issues, Key, key)|))]
  }

  function SummaryOf(issues: seq<Finding>): Summary {
    Summary(|issues|, Lines(issues, Keys(issues, Key)), |Criticals(issues)|)
  }

  /** The summary's numbers, as the console output states them. */
  method Summarize(issues: seq<Finding>) returns (summary: Summary)
    ensures summary == SummaryOf(issues)
  {
    var keys, groups := GroupByCriterion(issues);
    var lines: seq<GroupLine> := [];
    var i := 0;
    while i < |keys|
      invariant 0 <= i <= |keys|
      invariant lines == Lines(issues, keys[..i])
    {
      var criteriaIssues := groups[keys[i]];
      assert keys[..i + 1][..i] == keys[..i];
      lines := lines + [GroupLine(keys[i], |criteriaIssues|, Noun(|criteriaIssues|))];
      i := i + 1;
    }
    assert keys[..i] == keys;
    summary := Summary(|issues|, lines, |Criticals(issues)|);
  }

  /** The summary lists every criterion of the findings once, in order of first
      appearance, with counts that add up to the total; the critical count
      counts the critical findings and is at most the total. */
  lemma SummaryCounts(issues: seq<Finding>)
    ensures var s := SummaryOf(issues);
      && |s.groups| == |Keys(issues, Key)|
      && (forall i :: 0 <= i < |s.groups| ==> s.groups[i].criteria == Keys(issues, Key)[i] && s.groups[i].count == |Group(issues, Key, Keys(issues, Key)[i])|)
      && SumCounts(s.groups) == s.total
      && s.critical <= s.total
  {
    LinesSpec(issues, Keys(issues, Key));
    GroupSizesSum(issues, Key);
  }

  function SumCounts(lines: seq<GroupLine>): nat {
    if lines == [] then 0 else SumCounts(lines[..|lines| - 1]) + lines[|lines| - 1].count
  }

  lemma {:induction false} LinesSpec(issues: seq<Finding>, keys: seq<string>)
    ensures |Lines(issues, keys)| == |keys|
    ensures forall i :: 0 <= i < |keys| ==> Lines(issues, keys)[i].criteria == keys[i] && Lines(issues, keys)[i].count == |Group(issues, Key, keys[i])|
    ensures SumCounts(Lines(issues, keys)) == SumSizes(issues, Key, keys)
  {
    if keys != [] {
      var ls := Lines(issues, keys);
      var prev := Lines(issues, keys[..|keys| - 1]);
      LinesSpec(issues, keys[..|keys| - 1]);
      assert ls[..|ls| - 1] == prev;
      assert forall i :: 0 <= i < |keys| - 1 ==> ls[i] == prev[i];
    }
  }
}
