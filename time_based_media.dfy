/** `checkTimeBasedMedia`: nine checks for the WCAG 1.2 success criteria on
    `audio` and `video` elements, run in the page one after another onto one
    findings array, each pushing at most one finding per element. */
module TimeBasedMedia {
  import opened Wrappers
  import opened Messages
  import opened Dom
  import opened Findings
  import opened Paths
  import opened Rules

  /** How many `forEach` loops the rule file runs. */
  const CheckCount := 9

  predicate IsMedia(n: Node) {
    IsTag(n, "audio") || IsTag(n, "video")
  }

  /** The selector `track[kind="descriptions"][extended]`. */
  predicate IsExtendedDescriptions(d: Node) {
    IsTrack(d, "descriptions") && Has(d, "extended")
  }

  /** Whether check `k` flags the element; `querySelector` searches all descendants. */
  predicate Flagged(k: nat, l: Located) {
    var n := l.node;
    match k
    case 0 => IsMedia(n) && !Has(n, "controls")
    case 1 => IsTag(n, "video") && !HasTrack(n, "captions")
    case 2 => IsTag(n, "video") && !HasTrack(n, "descriptions")
    case 3 => IsMedia(n) && Has(n, "live") && !HasTrack(n, "captions")
    case 4 => IsTag(n, "video") && !HasTrack(n, "descriptions")
    case 5 => IsTag(n, "video") && !HasTrack(n, "sign")
    case 6 => IsTag(n, "video") && !HasDescendant(n, IsExtendedDescriptions)
    case 7 => IsTag(n, "video") && !Has(n, "aria-describedby")
    case 8 => IsTag(n, "audio") && Has(n, "live") && !Has(n, "aria-live")
    case _ => false
  }

  /** The report check `k` makes about a flagged element. */
  function Reported(k: nat, l: Located): Report {
    Report(KindOf(k), ElementName(k, l), MediaNeedsAlternatives, CriterionOf(k), Critical, Some(SuggestionOf(k)))
  }

  function KindOf(k: nat): Kind {
    match k
    case 0 => MediaWithoutControls
    case 1 => MissingCaptionsPrerecorded
    case 2 => MissingAudioDescriptions
    case 3 => MissingCaptionsLive
    case 4 => MissingAudioDescriptionPrerecorded
    case 5 => MissingSignLanguage
    case 6 => MissingExtendedAudioDescription
    case 7 => MissingMediaAlternative
    case _ => MissingLiveAudioAlternative
  }

  /** The `element` field: the tag for 1.2.1, the fixed text "video/audio" for the
      live captions check, the selector's tag otherwise. */
  function ElementName(k: nat, l: Located): string {
    match k
    case 0 => TagName(l.node)
    case 3 => "video/audio"
    case 8 => "audio"
    case _ => "video"
  }

  function CriterionOf(k: nat): Criterion {
    match k
    case 0 => AudioVideoOnlyPrerecorded
    case 1 => CaptionsPrerecorded
    case 2 => AudioDescriptionOrMediaAlternative
    case 3 => CaptionsLive
    case 4 => AudioDescriptionPrerecorded
    case 5 => SignLanguagePrerecorded
    case 6 => ExtendedAudioDescription
    case 7 => MediaAlternativePrerecorded
    case _ => AudioOnlyLive
  }

  function SuggestionOf(k: nat): Suggestion {
    match k
    case 0 => ProvideMediaAlternative
    case 1 => AddCaptionsTrackElement
    case 2 => DescribeVisualContent
    case 3 => CaptionLiveMedia
    case 4 => AddDescriptionsTrackElement
    case 5 => InterpretSignLanguage
    case 6 => ExtendAudioDescriptions
    case 7 => DescribeVideoContent
    case _ => AlternativeForLiveAudio
  }

  /** The checks in the order the rule file runs them. */
  function Check(k: nat, l: Located): seq<Report> {
    if k < CheckCount then Flag(Flagged(k, l), Reported(k, l)) else []
  }

  /** The findings `checkTimeBasedMedia` returns for a page. */
  function TimeBasedMedia(document: seq<Node>): seq<Finding> {
    Run(Elements(document), Check, 0, CheckCount)
  }

  /** Everything the rule file reports about one element, in check order. */
  function TimeBasedMediaAt(l: Located): seq<Report> {
    ReportsAt(l, Check, 0, CheckCount)
  }

  /** The evaluation in the page: every check runs over the page's elements. */
  method CheckTimeBasedMedia(document: seq<Node>) returns (findings: seq<Finding>)
    ensures findings == TimeBasedMedia(document)
  {
    findings := RunLoops(Elements(document), Check, 0, CheckCount, []);
  }

  // Which findings a page gets

  lemma CheckKinds()
    ensures KindedBy(Check, 0, CheckCount, KindOf)
  {
    forall k, l, r | 0 <= k < CheckCount && r in Check(k, l)
      ensures r.kind == KindOf(k)
    {
      FlagMember(Flagged(k, l), Reported(k, l), r);
    }
  }

  /** Every check reports under its own `type`. */
  lemma KindUnique(k0: nat)
    requires k0 < CheckCount
    ensures forall k :: 0 <= k < CheckCount && k != k0 ==> KindOf(k) != KindOf(k0)
  {
  }

  /** The page's findings of check `k0`'s `type` are one per flagged element, in
      that element's report, at that element's path. */
  lemma MediaFindings(document: seq<Node>, k0: nat, f: Finding)
    requires k0 < CheckCount
    ensures var E := Elements(document);
      (f in TimeBasedMedia(document) && f.kind == KindOf(k0))
        <==> exists i :: 0 <= i < |E| && Flagged(k0, E[i]) && f == Reported(k0, E[i]).At(PathOf(E[i]))
  {
    CheckKinds();
    KindUnique(k0);
    RunOfFlag(Elements(document), Check, 0, CheckCount, KindOf, k0, Flagged, Reported, f);
  }

  /** Every finding the rule file produces is critical and asks for alternatives. */
  lemma AllCritical(document: seq<Node>)
    ensures forall f :: f in TimeBasedMedia(document) ==> f.impact == Critical && f.description == MediaNeedsAlternatives
  {
    var P := (r: Report) => r.impact == Critical && r.description == MediaNeedsAlternatives;
    forall k, l, r | 0 <= k < CheckCount && r in Check(k, l)
      ensures P(r)
    {
      FlagMember(Flagged(k, l), Reported(k, l), r);
    }
    RunAll(Elements(document), Check, 0, CheckCount, P);
  }

  // What one element gets

  /** An element gets one report of check `k0`'s `type` when the check flags it,
      and none otherwise. */
  lemma MediaAt(l: Located, k0: nat)
    requires k0 < CheckCount
    ensures OfKind(TimeBasedMediaAt(l), KindOf(k0)) == Flag(Flagged(k0, l), Reported(k0, l))
  {
    CheckKinds();
    KindUnique(k0);
    ReportsAtOfOneKind(l, Check, 0, CheckCount, KindOf, k0);
  }

  lemma MediaFlaggedAt(l: Located, k0: nat)
    requires k0 < CheckCount && Flagged(k0, l)
    ensures OfKind(TimeBasedMediaAt(l), KindOf(k0)) == [Reported(k0, l)]
  {
    MediaAt(l, k0);
  }

  lemma MediaPassesAt(l: Located, k0: nat)
    requires k0 < CheckCount && !Flagged(k0, l)
    ensures OfKind(TimeBasedMediaAt(l), KindOf(k0)) == []
  {
    MediaAt(l, k0);
  }

  /** Any `audio` or `video` without `controls` gets the 1.2.1 report, whatever
      tracks it has. */
  lemma NoControlsAt(l: Located)
    requires IsMedia(l.node) && !Has(l.node, "controls")
    ensures OfKind(TimeBasedMediaAt(l), MediaWithoutControls) == [Reported(0, l)]
  {
    MediaFlaggedAt(l, 0);
  }

  /** A `video` without a descriptions track is reported twice, under 1.2.3 and
      under 1.2.5; the two reports are not merged. */
  lemma NoDescriptionsAt(l: Located)
    requires IsTag(l.node, "video") && !HasTrack(l.node, "descriptions")
    ensures OfKind(TimeBasedMediaAt(l), MissingAudioDescriptions) == [Reported(2, l)]
    ensures OfKind(TimeBasedMediaAt(l), MissingAudioDescriptionPrerecorded) == [Reported(4, l)]
    ensures Reported(2, l) != Reported(4, l)
  {
    MediaFlaggedAt(l, 2);
    MediaFlaggedAt(l, 4);
  }

  /** A `video` whose descriptions track is not marked `extended` passes 1.2.3 and
      1.2.5 but is still reported under 1.2.7. */
  lemma PlainDescriptionsAt(l: Located)
    requires IsTag(l.node, "video") && HasTrack(l.node, "descriptions")
    requires !HasDescendant(l.node, IsExtendedDescriptions)
    ensures OfKind(TimeBasedMediaAt(l), MissingAudioDescriptions) == []
    ensures OfKind(TimeBasedMediaAt(l), MissingAudioDescriptionPrerecorded) == []
    ensures OfKind(TimeBasedMediaAt(l), MissingExtendedAudioDescription) == [Reported(6, l)]
  {
    MediaPassesAt(l, 2);
    MediaPassesAt(l, 4);
    MediaFlaggedAt(l, 6);
  }

  /** An extended descriptions track is a descriptions track. */
  lemma ExtendedIsDescriptions(n: Node)
    requires HasDescendant(n, IsExtendedDescriptions)
    ensures HasTrack(n, "descriptions") && HasDescendant(n, IsAnyTrack)
  {
    var ds := Descendants(n);
    var i :| 0 <= i < |ds| && IsExtendedDescriptions(ds[i].node);
    assert IsTrack(ds[i].node, "descriptions") && IsAnyTrack(ds[i].node);
  }

  /** A `video` with an extended descriptions track satisfies 1.2.3, 1.2.5 and
      1.2.7 at once. */
  lemma ExtendedDescriptionsAt(l: Located)
    requires IsTag(l.node, "video") && HasDescendant(l.node, IsExtendedDescriptions)
    ensures OfKind(TimeBasedMediaAt(l), MissingAudioDescriptions) == []
    ensures OfKind(TimeBasedMediaAt(l), MissingAudioDescriptionPrerecorded) == []
    ensures OfKind(TimeBasedMediaAt(l), MissingExtendedAudioDescription) == []
  {
    ExtendedIsDescriptions(l.node);
    MediaPassesAt(l, 2);
    MediaPassesAt(l, 4);
    MediaPassesAt(l, 6);
  }

  /** Only elements with a `live` attribute are examined by 1.2.4 and 1.2.9. */
  lemma NotLiveAt(l: Located)
    requires !Has(l.node, "live")
    ensures OfKind(TimeBasedMediaAt(l), MissingCaptionsLive) == []
    ensures OfKind(TimeBasedMediaAt(l), MissingLiveAudioAlternative) == []
  {
    MediaPassesAt(l, 3);
    MediaPassesAt(l, 8);
  }

  /** A live `audio` or `video` without a captions track gets the 1.2.4 report,
      which names its element "video/audio" whichever it is. */
  lemma LiveCaptionsAt(l: Located)
    requires IsMedia(l.node) && Has(l.node, "live") && !HasTrack(l.node, "captions")
    ensures OfKind(TimeBasedMediaAt(l), MissingCaptionsLive) == [Reported(3, l)]
    ensures Reported(3, l).element == "video/audio"
  {
    MediaFlaggedAt(l, 3);
  }

  /** 1.2.9 fires exactly for a live `audio` without `aria-live`. */
  lemma LiveAudioAt(l: Located)
    ensures OfKind(TimeBasedMediaAt(l), MissingLiveAudioAlternative) != []
        <==> IsTag(l.node, "audio") && Has(l.node, "live") && !Has(l.node, "aria-live")
  {
    MediaAt(l, 8);
  }

  /** A video that is not live, has no tracks, no `controls` and no
      `aria-describedby` gets exactly seven reports, under 1.2.1, 1.2.2, 1.2.3,
      1.2.5, 1.2.6, 1.2.7 and 1.2.8, in that order. */
  lemma BareVideoAt(l: Located)
    requires IsTag(l.node, "video") && !Has(l.node, "live") && !Has(l.node, "controls") && !Has(l.node, "aria-describedby")
    requires !HasDescendant(l.node, IsAnyTrack)
    ensures TimeBasedMediaAt(l) == [Reported(0, l), Reported(1, l), Reported(2, l), Reported(4, l), Reported(5, l), Reported(6, l), Reported(7, l)]
    ensures Criteria(TimeBasedMediaAt(l)) == [AudioVideoOnlyPrerecorded, CaptionsPrerecorded, AudioDescriptionOrMediaAlternative,
                                              AudioDescriptionPrerecorded, SignLanguagePrerecorded, ExtendedAudioDescription,
                                              MediaAlternativePrerecorded]
  {
    var n := l.node;
    if HasTrack(n, "captions") { HasTrackIsTrack(n, "captions"); }
    if HasTrack(n, "descriptions") { HasTrackIsTrack(n, "descriptions"); }
    if HasTrack(n, "sign") { HasTrackIsTrack(n, "sign"); }
    if HasDescendant(n, IsExtendedDescriptions) { ExtendedIsDescriptions(n); }
    BareVideoReports(l);
    BareVideoCriteria(l);
  }

  lemma BareVideoCriteria(l: Located)
    ensures Criteria([Reported(0, l), Reported(1, l), Reported(2, l), Reported(4, l), Reported(5, l), Reported(6, l), Reported(7, l)])
         == [AudioVideoOnlyPrerecorded, CaptionsPrerecorded, AudioDescriptionOrMediaAlternative,
             AudioDescriptionPrerecorded, SignLanguagePrerecorded, ExtendedAudioDescription,
             MediaAlternativePrerecorded]
  {
  }

  lemma BareVideoReports(l: Located)
    requires IsTag(l.node, "video") && !Has(l.node, "live") && !Has(l.node, "controls") && !Has(l.node, "aria-describedby")
    requires !HasTrack(l.node, "captions") && !HasTrack(l.node, "descriptions") && !HasTrack(l.node, "sign")
    requires !HasDescendant(l.node, IsExtendedDescriptions)
    ensures TimeBasedMediaAt(l) == [Reported(0, l), Reported(1, l), Reported(2, l), Reported(4, l), Reported(5, l), Reported(6, l), Reported(7, l)]
  {
    BareVideoChecks(l);
    assert ReportsAt(l, Check, 0, 0) == [];
    assert ReportsAt(l, Check, 0, 1) == [Reported(0, l)];
    assert ReportsAt(l, Check, 0, 2) == [Reported(0, l), Reported(1, l)];
    assert ReportsAt(l, Check, 0, 3) == [Reported(0, l), Reported(1, l), Reported(2, l)];
    assert ReportsAt(l, Check, 0, 4) == [Reported(0, l), Reported(1, l), Reported(2, l)];
    assert ReportsAt(l, Check, 0, 5) == [Reported(0, l), Reported(1, l), Reported(2, l), Reported(4, l)];
    assert ReportsAt(l, Check, 0, 6) == [Reported(0, l), Reported(1, l), Reported(2, l), Reported(4, l), Reported(5, l)];
    assert ReportsAt(l, Check, 0, 7) == [Reported(0, l), Reported(1, l), Reported(2, l), Reported(4, l), Reported(5, l), Reported(6, l)];
    assert ReportsAt(l, Check, 0, 8) == [Reported(0, l), Reported(1, l), Reported(2, l), Reported(4, l), Reported(5, l), Reported(6, l), Reported(7, l)];
  }

  /** What each check says about a bare `video`. */
  lemma BareVideoChecks(l: Located)
    requires IsTag(l.node, "video") && !Has(l.node, "live") && !Has(l.node, "controls") && !Has(l.node, "aria-describedby")
    requires !HasTrack(l.node, "captions") && !HasTrack(l.node, "descriptions") && !HasTrack(l.node, "sign")
    requires !HasDescendant(l.node, IsExtendedDescriptions)
    ensures Check(0, l) == [Reported(0, l)] && Check(1, l) == [Reported(1, l)] && Check(2, l) == [Reported(2, l)]
    ensures Check(3, l) == [] && Check(4, l) == [Reported(4, l)] && Check(5, l) == [Reported(5, l)]
    ensures Check(6, l) == [Reported(6, l)] && Check(7, l) == [Reported(7, l)] && Check(8, l) == []
  {
  }
}
