/** `checkTextAlternatives`: the checks for WCAG 1.1.1 Non-text Content, run in
    the page one after another onto one findings array. Checks 0 to 15 flag an
    element with one report each; check 16 (CAPTCHA) and check 17 (decorative
    and invisible content) may push two reports for the same element. */
module TextAlternatives {
  import opened Wrappers
  import opened Strings
  import opened Messages
  import opened Dom
  import opened Findings
  import opened Paths
  import opened Rules

  /** How many `forEach` loops the rule file runs. */
  const CheckCount := 18

  /** `!el.hasAttribute(name) || el.getAttribute(name)?.trim() === ""`. */
  predicate MissingOrBlank(n: Node, name: string) {
    !Has(n, name) || Trim(Attr(n, name).value) == ""
  }

  /** `!el.textContent?.trim()`: the element shows no text. */
  predicate NoText(n: Node) {
    Trim(TextContent(n)) == ""
  }

  /** The selector `input[type="image"]`; HTML matches `type` values without regard to case. */
  predicate IsImageInput(n: Node) {
    IsTag(n, "input") && Attr(n, "type").Some? && Lower(Attr(n, "type").value) == "image"
  }

  predicate HasFigcaption(n: Node) {
    HasDescendant(n, (d: Node) => IsTag(d, "figcaption"))
  }

  /** Whether check `k` (0 to 15) flags the element. */
  predicate Flagged(k: nat, l: Located) {
    var n := l.node;
    match k
    case 0 => IsTag(n, "img") && MissingOrBlank(n, "alt")
    case 1 => IsTag(n, "svg") && MissingOrBlank(n, "aria-label")
    case 2 => IsTag(n, "svg") && MissingOrBlank(n, "role")
    case 3 => IsImageInput(n) && MissingOrBlank(n, "alt")
    case 4 => IsTag(n, "area") && MissingOrBlank(n, "alt")
    case 5 => IsTag(n, "object") && !Has(n, "title") && !Has(n, "aria-label")
    case 6 => IsTag(n, "iframe") && MissingOrBlank(n, "title")
    case 7 => IsTag(n, "video") && !HasTrack(n, "captions")
    case 8 => IsTag(n, "audio") && !HasTrack(n, "descriptions")
    case 9 => IsTag(n, "canvas") && !Has(n, "aria-label")
    case 10 => IsTag(n, "abbr") && !Has(n, "title")
    case 11 => IsTag(n, "button") && NoText(n) && !Has(n, "aria-label")
    case 12 => IsTag(n, "a") && NoText(n) && !Has(n, "aria-label")
    case 13 => IsTag(n, "figure") && !HasFigcaption(n)
    case 14 => IsTagIn(n, {"canvas", "object", "iframe", "embed", "video"}) && !Has(n, "aria-label") && !Has(n, "title")
    case 15 => IsTagIn(n, {"video", "audio", "canvas", "embed", "object"}) && !Has(n, "aria-describedby") && !Has(n, "aria-label")
    case _ => false
  }

  /** The report check `k` (0 to 15) makes about a flagged element. */
  function Reported(k: nat, l: Located): Report {
    Report(KindOf(k), ElementName(k, l), DescriptionOf(k, l), NonTextContent, Critical, Some(SuggestionOf(k)))
  }

  /** The `type` of every report check `k` makes. */
  function KindOf(k: nat): Kind {
    match k
    case 0 => Image
    case 1 => SvgIcon
    case 2 => SvgIcon
    case 3 => ImageButton
    case 4 => ImageMapArea
    case 5 => EmbeddedObject
    case 6 => Iframe
    case 7 => Video
    case 8 => Audio
    case 9 => Canvas
    case 10 => Abbreviation
    case 11 => Button
    case 12 => LinkWithIcon
    case 13 => Figure
    case 14 => TestExercise
    case 15 => SensoryContent
    case 16 => Captcha
    case _ => DecorativeContent
  }

  /** The `element` field of check `k`'s report. */
  function ElementName(k: nat, l: Located): string {
    match k
    case 0 => "img"
    case 1 => "svg"
    case 2 => "svg"
    case 3 => "input[type=\"image\"]"
    case 4 => "area"
    case 5 => "object"
    case 6 => "iframe"
    case 7 => "video"
    case 8 => "audio"
    case 9 => "canvas"
    case 10 => "abbr"
    case 11 => "button"
    case 12 => "a"
    case 13 => "figure"
    case _ => TagName(l.node)
  }

  /** The description of check `k`'s report; some quote an attribute of the element,
      or a placeholder when it is missing or empty. */
  function DescriptionOf(k: nat, l: Located): Description {
    var n := l.node;
    match k
    case 0 => ImageMissingAlt
    case 1 => SvgMissingLabel
    case 2 => SvgMissingRole
    case 3 => ImageButtonMissingAlt
    case 4 => MapAreaMissingAlt(AttrOr(n, "href", "No Link"))
    case 5 => ObjectMissingAlt(AttrOr(n, "data", "No Data"))
    case 6 => IframeMissingTitle(AttrOr(n, "src", "No Source"))
    case 7 => VideoMissingTrack(AttrOr(n, "src", "No Source"))
    case 8 => AudioMissingTrack(AttrOr(n, "src", "No Source"))
    case 9 => CanvasMissingLabel
    case 10 => AbbreviationMissingTitle
    case 11 => ButtonMissingText
    case 12 => IconLinkMissingLabel(AttrOr(n, "href", "No Link"))
    case 13 => FigureMissingCaption
    case 14 => TestMissingLabel
    case _ => SensoryMissingDescription
  }

  function SuggestionOf(k: nat): Suggestion {
    match k
    case 0 => AddImageAlt
    case 1 => LabelIcon
    case 2 => GiveIconRole
    case 3 => DescribeButtonAction
    case 4 => DescribeArea
    case 5 => TitleObject
    case 6 => TitleIframe
    case 7 => AddCaptionsTrack
    case 8 => AddDescriptionsTrack
    case 9 => LabelCanvas
    case 10 => DefineAbbreviation
    case 11 => NameButton
    case 12 => LabelLink
    case 13 => AddFigcaption
    case 14 => DescribeTest
    case _ => DescribeSensory
  }

  // CAPTCHA detection

  const CaptchaKeywords: seq<string> := ["captcha", "challenge", "verification", "security check"]
  const KnownCaptchaClasses: seq<string> := ["g-recaptcha", "h-captcha", "cf-turnstile"]
  const CaptchaSourcePattern: seq<string> := ["recaptcha", "hcaptcha", "captcha", "turnstile"]

  /** Some keyword occurs in `s` (`keywords.some(k => s.includes(k))`). */
  predicate MentionsAny(s: string, keywords: seq<string>) {
    exists j :: 0 <= j < |keywords| && Contains(s, keywords[j])
  }

  /** The lower-cased texts the CAPTCHA check searches: the trimmed `alt` and
      `aria-label`, then `src`, the class list and the id. */
  function CaptchaFields(n: Node): seq<string> {
    [ Lower(Trim(Attr(n, "alt").GetOr(""))),
      Lower(Trim(Attr(n, "aria-label").GetOr(""))),
      Lower(Attr(n, "src").GetOr("")),
      Lower(ClassName(n)),
      Lower(Id(n)) ]
  }

  predicate IsCaptcha(n: Node) {
    var fields := CaptchaFields(n);
    exists j :: 0 <= j < |fields| && MentionsAny(fields[j], CaptchaKeywords)
  }

  predicate IsKnownCaptcha(n: Node) {
    MentionsAny(Lower(ClassName(n)), KnownCaptchaClasses) || MentionsAny(Lower(Id(n)), KnownCaptchaClasses)
  }

  /** `/recaptcha|hcaptcha|captcha|turnstile/i.test(src)` on the lower-cased `src`. */
  predicate CaptchaSource(src: string) {
    MentionsAny(src, CaptchaSourcePattern)
  }

  /** The element or an ancestor carries `aria-hidden="true"`. */
  predicate InsideAriaHidden(l: Located) {
    Closest(l, (a: Node) => Attr(a, "aria-hidden") == Some("true"))
  }

  function CaptchaReport(tag: string): Report {
    Report(Captcha, tag, CaptchaDetected, NonTextContent, Critical, Some(OfferCaptchaAlternative))
  }

  function CaptchaFrameReport(): Report {
    Report(Captcha, "iframe", CaptchaFrameDetected, NonTextContent, Critical, Some(OfferCaptchaAlternative))
  }

  /** Check 16: elements that may hold a CAPTCHA, unless hidden from assistive technology. */
  function CaptchaCheck(l: Located): seq<Report> {
    var n := l.node;
    if !IsTagIn(n, {"img", "audio", "object", "embed", "iframe", "div", "span"}) || InsideAriaHidden(l) then []
    else
      Flag(IsKnownCaptcha(n) || IsCaptcha(n), CaptchaReport(TagName(n)))
      + Flag(TagName(n) == "iframe" && CaptchaSource(Lower(Attr(n, "src").GetOr(""))), CaptchaFrameReport())
  }

  // Decorative, formatting and invisible content

  /** `style.display`, `style.visibility` or a zero layout size hides the element. */
  predicate VisuallyHidden(n: Node)
    requires n.Element?
  {
    var r := n.rendering;
    r.styleDisplay == "none" || r.styleVisibility == "hidden" || r.offsetWidth == Some(0) || r.offsetHeight == Some(0)
  }

  /** The trimmed attribute value equals `value`; an absent attribute never does. */
  predicate TrimmedIs(n: Node, name: string, value: string) {
    Has(n, name) && Trim(Attr(n, name).value) == value
  }

  /** Marked as decorative: `aria-hidden="true"`, `role="presentation"`, or an
      `img` whose alt text is empty, blank or absent. */
  predicate Decorative(n: Node) {
    TrimmedIs(n, "aria-hidden", "true") || TrimmedIs(n, "role", "presentation")
    || (IsTag(n, "img") && Trim(Attr(n, "alt").GetOr("")) == "")
  }

  function HiddenReport(tag: string): Report {
    Report(DecorativeContent, tag, HiddenContentUnmarked, NonTextContent, Moderate, Some(MarkDecorative))
  }

  function UntitledFrameReport(): Report {
    Report(DecorativeContent, "iframe", IframeMissingTitleAttribute, NameRoleValue, Moderate, Some(TitleOrHideIframe))
  }

  /** Check 17: hidden content not marked as decorative, and iframes without a title. */
  function DecorativeCheck(l: Located): seq<Report> {
    var n := l.node;
    if !IsTagIn(n, {"img", "svg", "div", "span", "i", "icon", "canvas", "iframe"}) then []
    else
      Flag(!Decorative(n) && VisuallyHidden(n), HiddenReport(TagName(n)))
      + Flag(TagName(n) == "iframe" && !Has(n, "title"), UntitledFrameReport())
  }

  // The rule file

  /** The checks in the order the rule file runs them. */
  function Check(k: nat, l: Located): seq<Report> {
    if k < 16 then Flag(Flagged(k, l), Reported(k, l))
    else if k == 16 then CaptchaCheck(l)
    else if k == 17 then DecorativeCheck(l)
    else []
  }

  /** The findings `checkTextAlternatives` returns for a page. */
  function TextAlternatives(document: seq<Node>): seq<Finding> {
    Run(Elements(document), Check, 0, CheckCount)
  }

  /** Everything the rule file reports about one element, in check order. */
  function TextAlternativesAt(l: Located): seq<Report> {
    ReportsAt(l, Check, 0, CheckCount)
  }

  /** The evaluation in the page: every check runs over the page's elements. */
  method CheckTextAlternatives(document: seq<Node>) returns (findings: seq<Finding>)
    ensures findings == TextAlternatives(document)
  {
    findings := RunLoops(Elements(document), Check, 0, CheckCount, []);
  }

  // Which findings a page gets

  /** Each check reports under a single `type`. */
  lemma CheckKinds()
    ensures KindedBy(Check, 0, CheckCount, KindOf)
  {
    forall k, l, r | 0 <= k < CheckCount && r in Check(k, l)
      ensures r.kind == KindOf(k)
    {
      CheckKind(k, l, r);
    }
  }

  lemma CheckKind(k: nat, l: Located, r: Report)
    requires k < CheckCount && r in Check(k, l)
    ensures r.kind == KindOf(k)
  {
    if k < 16 {
      assert Check(k, l) == Flag(Flagged(k, l), Reported(k, l));
      FlagMember(Flagged(k, l), Reported(k, l), r);
    } else if k == 16 {
      assert Check(k, l) == CaptchaCheck(l);
      CaptchaKind(l, r);
    } else {
      assert Check(k, l) == DecorativeCheck(l);
      DecorativeKind(l, r);
    }
  }

  lemma CaptchaKind(l: Located, r: Report)
    requires r in CaptchaCheck(l)
    ensures r.kind == Captcha
  {
  }

  lemma DecorativeKind(l: Located, r: Report)
    requires r in DecorativeCheck(l)
    ensures r.kind == DecorativeContent
  {
  }

  /** Only the two SVG checks share a `type`. */
  lemma KindUnique(k0: nat)
    requires k0 < CheckCount && k0 != 1 && k0 != 2
    ensures forall k :: 0 <= k < CheckCount && k != k0 ==> KindOf(k) != KindOf(k0)
  {
  }

  /** For every check but the SVG ones, CAPTCHA and decorative content: the page's
      findings of that check's `type` are one per flagged element, in the element's
      report, at the element's path. */
  lemma FlaggedFindings(document: seq<Node>, k0: nat, f: Finding)
    requires k0 < 16 && k0 != 1 && k0 != 2
    ensures var E := Elements(document);
      (f in TextAlternatives(document) && f.kind == KindOf(k0))
        <==> exists i :: 0 <= i < |E| && Flagged(k0, E[i]) && f == Reported(k0, E[i]).At(PathOf(E[i]))
  {
    CheckKinds();
    KindUnique(k0);
    RunOfFlag(Elements(document), Check, 0, CheckCount, KindOf, k0, Flagged, Reported, f);
  }

  /** The two SVG checks: an "SVG Icon" finding is the aria-label report of an
      `svg` missing its label or the role report of one missing its role. */
  lemma SvgFindings(document: seq<Node>, f: Finding)
    ensures var E := Elements(document);
      (f in TextAlternatives(document) && f.kind == SvgIcon)
        <==> || (exists i :: 0 <= i < |E| && Flagged(1, E[i]) && f == Reported(1, E[i]).At(PathOf(E[i])))
             || (exists i :: 0 <= i < |E| && Flagged(2, E[i]) && f == Reported(2, E[i]).At(PathOf(E[i])))
  {
    CheckKinds();
    RunOfFlagPair(Elements(document), Check, 0, CheckCount, KindOf, 1, 2, Flagged, Reported, f);
  }

  // What one element gets

  /** For every check but the SVG ones, an element's reports of that check's
      `type` are the ones that check makes about it. */
  lemma OneKindAt(l: Located, k0: nat)
    requires k0 < CheckCount && k0 != 1 && k0 != 2
    ensures OfKind(TextAlternativesAt(l), KindOf(k0)) == Check(k0, l)
  {
    CheckKinds();
    KindUnique(k0);
    ReportsAtOfOneKind(l, Check, 0, CheckCount, KindOf, k0);
  }

  /** An element gets one report of a flagging check's `type` when that check
      flags it, and none otherwise. */
  lemma FlaggedAt(l: Located, k0: nat)
    requires k0 < 16 && k0 != 1 && k0 != 2
    ensures OfKind(TextAlternativesAt(l), KindOf(k0)) == Flag(Flagged(k0, l), Reported(k0, l))
  {
    OneKindAt(l, k0);
  }

  /** An `img` gets exactly one "Image" report when its `alt` is absent or blank,
      and none when it has non-blank alt text. */
  lemma ImageAt(l: Located)
    requires IsTag(l.node, "img")
    ensures var images := OfKind(TextAlternativesAt(l), Image);
      && (MissingOrBlank(l.node, "alt") ==> images == [Reported(0, l)])
      && (!MissingOrBlank(l.node, "alt") ==> images == [])
  {
    FlaggedAt(l, 0);
  }

  /** An `object` is reported only when it has neither `title` nor `aria-label`,
      and the report quotes its `data` or says "No Data". */
  lemma ObjectAt(l: Located)
    requires IsTag(l.node, "object")
    ensures var objects := OfKind(TextAlternativesAt(l), EmbeddedObject);
      && (objects != [] <==> !Has(l.node, "title") && !Has(l.node, "aria-label"))
      && (objects != [] ==> objects == [Reported(5, l)]
                            && Reported(5, l).description == ObjectMissingAlt(AttrOr(l.node, "data", "No Data")))
  {
    FlaggedAt(l, 5);
  }

  /** A `button` with an `aria-label`, even an empty one, is never reported;
      without one it is reported exactly when its trimmed text is empty. */
  lemma ButtonAt(l: Located)
    requires IsTag(l.node, "button")
    ensures var buttons := OfKind(TextAlternativesAt(l), Button);
      buttons != [] <==> NoText(l.node) && !Has(l.node, "aria-label")
  {
    FlaggedAt(l, 11);
    assert KindOf(11) == Button;
    assert Flagged(11, l) <==> NoText(l.node) && !Has(l.node, "aria-label");
  }

  /** The same for a link: an `aria-label`, even an empty one, suppresses the report. */
  lemma LinkAt(l: Located)
    requires IsTag(l.node, "a")
    ensures var links := OfKind(TextAlternativesAt(l), LinkWithIcon);
      links != [] <==> NoText(l.node) && !Has(l.node, "aria-label")
  {
    FlaggedAt(l, 12);
    assert KindOf(12) == LinkWithIcon;
    assert Flagged(12, l) <==> NoText(l.node) && !Has(l.node, "aria-label");
  }

  /** An `svg` gets the aria-label report and then the role report, from two
      separate checks; lacking both it gets both. */
  lemma SvgAt(l: Located)
    ensures OfKind(TextAlternativesAt(l), SvgIcon) == Check(1, l) + Check(2, l)
    ensures IsTag(l.node, "svg") && MissingOrBlank(l.node, "aria-label") && MissingOrBlank(l.node, "role")
        ==> OfKind(TextAlternativesAt(l), SvgIcon) == [Reported(1, l), Reported(2, l)]
  {
    CheckKinds();
    ReportsAtOfTwoKinds(l, Check, 0, CheckCount, KindOf, 1, 2);
  }

  /** The CAPTCHA reports about an element are the CAPTCHA check's. */
  lemma CaptchaAt(l: Located)
    ensures OfKind(TextAlternativesAt(l), Captcha) == CaptchaCheck(l)
  {
    OneKindAt(l, 16);
  }

  /** Nothing inside an `aria-hidden="true"` subtree is reported as a CAPTCHA. */
  lemma HiddenCaptcha(l: Located)
    requires InsideAriaHidden(l)
    ensures OfKind(TextAlternativesAt(l), Captcha) == []
  {
    CaptchaAt(l);
  }

  /** The four source patterns come down to two: "recaptcha" and "hcaptcha"
      already contain "captcha". */
  lemma CaptchaSourceSimplified(src: string)
    ensures CaptchaSource(src) <==> Contains(src, "captcha") || Contains(src, "turnstile")
  {
    assert SliceAt("recaptcha", "captcha", 2);
    assert SliceAt("hcaptcha", "captcha", 1);
    if Contains(src, "recaptcha") {
      ContainsTransitive(src, "recaptcha", "captcha");
    }
    if Contains(src, "hcaptcha") {
      ContainsTransitive(src, "hcaptcha", "captcha");
    }
    if Contains(src, "captcha") || Contains(src, "turnstile") {
      assert Contains(src, CaptchaSourcePattern[2]) || Contains(src, CaptchaSourcePattern[3]);
    }
  }

  /** A visible `iframe` whose lower-cased `src` contains "captcha" gets two
      CAPTCHA reports: the keyword one, then the iframe one. */
  lemma CaptchaFrameAt(l: Located)
    requires IsTag(l.node, "iframe") && !InsideAriaHidden(l)
    requires Contains(Lower(Attr(l.node, "src").GetOr("")), "captcha")
    ensures OfKind(TextAlternativesAt(l), Captcha) == [CaptchaReport("iframe"), CaptchaFrameReport()]
  {
    CaptchaAt(l);
    var n := l.node;
    var src := Lower(Attr(n, "src").GetOr(""));
    assert CaptchaFields(n)[2] == src;
    assert Contains(src, CaptchaKeywords[0]);
    assert IsCaptcha(n);
    CaptchaSourceSimplified(src);
  }

  /** An element gets the keyword CAPTCHA report exactly when it has one of the
      seven candidate tags, is not inside an `aria-hidden="true"` subtree, and a
      keyword occurs in its lower-cased alt, aria-label, src, class list or id, or
      a vendor class name occurs in its class list or id. Other tags get no CAPTCHA
      report at all. */
  lemma CaptchaKeywordAt(l: Located)
    ensures var n := l.node;
      var alt := Lower(Trim(Attr(n, "alt").GetOr("")));
      var ariaLabel := Lower(Trim(Attr(n, "aria-label").GetOr("")));
      var src := Lower(Attr(n, "src").GetOr(""));
      var cls := Lower(ClassName(n));
      var id := Lower(Id(n));
      CaptchaReport(TagName(n)) in OfKind(TextAlternativesAt(l), Captcha)
      <==>
      IsTagIn(n, {"img", "audio", "object", "embed", "iframe", "div", "span"}) && !InsideAriaHidden(l)
      && ((exists j :: 0 <= j < |CaptchaKeywords| &&
             (Contains(alt, CaptchaKeywords[j]) || Contains(ariaLabel, CaptchaKeywords[j]) || Contains(src, CaptchaKeywords[j])
              || Contains(cls, CaptchaKeywords[j]) || Contains(id, CaptchaKeywords[j])))
          || (exists j :: 0 <= j < |KnownCaptchaClasses| &&
                (Contains(cls, KnownCaptchaClasses[j]) || Contains(id, KnownCaptchaClasses[j]))))
    ensures !IsTagIn(l.node, {"img", "audio", "object", "embed", "iframe", "div", "span"})
      ==> OfKind(TextAlternativesAt(l), Captcha) == []
  {
    CaptchaAt(l);
    var n := l.node;
    var fields := CaptchaFields(n);
    assert fields[0] == Lower(Trim(Attr(n, "alt").GetOr("")));
    assert fields[1] == Lower(Trim(Attr(n, "aria-label").GetOr("")));
    assert fields[2] == Lower(Attr(n, "src").GetOr(""));
    assert fields[3] == Lower(ClassName(n)) && fields[4] == Lower(Id(n));
    CaptchaFieldsMention(n);
    assert CaptchaReport(TagName(n)) != CaptchaFrameReport();
  }

  /** The keyword test spelled out over the five fields, and the vendor test over
      the class list and the id. */
  lemma CaptchaFieldsMention(n: Node)
    ensures var fields := CaptchaFields(n);
      IsKnownCaptcha(n) || IsCaptcha(n)
      <==>
      (exists j :: 0 <= j < |CaptchaKeywords| &&
         (Contains(fields[0], CaptchaKeywords[j]) || Contains(fields[1], CaptchaKeywords[j])
          || Contains(fields[2], CaptchaKeywords[j]) || Contains(fields[3], CaptchaKeywords[j])
          || Contains(fields[4], CaptchaKeywords[j])))
      || (exists j :: 0 <= j < |KnownCaptchaClasses| &&
            (Contains(fields[3], KnownCaptchaClasses[j]) || Contains(fields[4], KnownCaptchaClasses[j])))
  {
    var fields := CaptchaFields(n);
    if IsCaptcha(n) {
      var f :| 0 <= f < |fields| && MentionsAny(fields[f], CaptchaKeywords);
      var j :| 0 <= j < |CaptchaKeywords| && Contains(fields[f], CaptchaKeywords[j]);
      assert Contains(fields[0], CaptchaKeywords[j]) || Contains(fields[1], CaptchaKeywords[j])
        || Contains(fields[2], CaptchaKeywords[j]) || Contains(fields[3], CaptchaKeywords[j])
        || Contains(fields[4], CaptchaKeywords[j]);
    }
    if exists j :: 0 <= j < |CaptchaKeywords| &&
         (Contains(fields[0], CaptchaKeywords[j]) || Contains(fields[1], CaptchaKeywords[j])
          || Contains(fields[2], CaptchaKeywords[j]) || Contains(fields[3], CaptchaKeywords[j])
          || Contains(fields[4], CaptchaKeywords[j])) {
      var j :| 0 <= j < |CaptchaKeywords| &&
         (Contains(fields[0], CaptchaKeywords[j]) || Contains(fields[1], CaptchaKeywords[j])
          || Contains(fields[2], CaptchaKeywords[j]) || Contains(fields[3], CaptchaKeywords[j])
          || Contains(fields[4], CaptchaKeywords[j]));
      var f :| 0 <= f < 5 && Contains(fields[f], CaptchaKeywords[j]);
      assert MentionsAny(fields[f], CaptchaKeywords);
    }
  }

  /** The decorative-content reports about an element are the decorative check's. */
  lemma DecorativeAt(l: Located)
    ensures OfKind(TextAlternativesAt(l), DecorativeContent) == DecorativeCheck(l)
  {
    OneKindAt(l, 17);
  }

  /** The decorative check reports hidden content exactly when the element is
      visually hidden and not marked decorative, and reports an `iframe` without a
      `title` whether it is decorative or not; nothing else. */
  lemma DecorativeReports(l: Located)
    requires IsTagIn(l.node, {"img", "svg", "div", "span", "i", "icon", "canvas", "iframe"})
    ensures var reports := DecorativeCheck(l);
      && (HiddenReport(TagName(l.node)) in reports <==> !Decorative(l.node) && VisuallyHidden(l.node))
      && (UntitledFrameReport() in reports <==> IsTag(l.node, "iframe") && !Has(l.node, "title"))
      && (forall r :: r in reports ==> r == HiddenReport(TagName(l.node)) || r == UntitledFrameReport())
  {
  }

  /** An `img` without an `alt` attribute counts as decorative, so it never gets
      the hidden-content report, however it is hidden. */
  lemma ImageWithoutAltIsDecorative(l: Located)
    requires IsTag(l.node, "img") && !Has(l.node, "alt")
    ensures HiddenReport("img") !in OfKind(TextAlternativesAt(l), DecorativeContent)
  {
    DecorativeAt(l);
    DecorativeReports(l);
  }

  // Impact and criterion

  /** The grading of the rule file: decorative content is moderate and everything
      else critical; only the untitled-iframe report cites 4.1.2, the rest 1.1.1. */
  predicate Graded(r: Report) {
    && r.impact == (if r.kind == DecorativeContent then Moderate else Critical)
    && r.criterion == (if r.description == IframeMissingTitleAttribute then NameRoleValue else NonTextContent)
  }

  lemma ReportedGraded(k: nat, l: Located)
    requires k < 16
    ensures Graded(Reported(k, l))
  {
  }

  lemma CheckGraded(k: nat, l: Located, r: Report)
    requires k < CheckCount && r in Check(k, l)
    ensures Graded(r)
  {
    if k < 16 {
      FlagMember(Flagged(k, l), Reported(k, l), r);
      ReportedGraded(k, l);
    } else if k == 16 {
      CaptchaGraded(l, r);
    } else {
      DecorativeGraded(l, r);
    }
  }

  lemma CaptchaGraded(l: Located, r: Report)
    requires r in CaptchaCheck(l)
    ensures Graded(r)
  {
  }

  lemma DecorativeGraded(l: Located, r: Report)
    requires r in DecorativeCheck(l)
    ensures Graded(r)
  {
  }

  /** Every finding of the rule file is critical unless it is decorative content,
      which is moderate; every finding cites 1.1.1 except the untitled-iframe
      report, which cites 4.1.2. */
  lemma TextAlternativesGraded(document: seq<Node>)
    ensures forall f :: f in TextAlternatives(document) ==>
      && f.impact == (if f.kind == DecorativeContent then Moderate else Critical)
      && f.criterion == (if f.description == IframeMissingTitleAttribute then NameRoleValue else NonTextContent)
  {
    forall k, l, r | 0 <= k < CheckCount && r in Check(k, l)
      ensures Graded(r)
    {
      CheckGraded(k, l, r);
    }
    RunAll(Elements(document), Check, 0, CheckCount, Graded);
  }
}
