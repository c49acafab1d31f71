# WCAG compliance auditor: the rule-evaluation layer in Dafny

The auditor loads a web page in a headless browser and runs rule files inside the page. Each rule file selects elements in document order, tests their attributes, descendants or text, and pushes one finding per failing element. A finding records the kind, element, path, description, WCAG criterion, impact and suggestion. This project models the logic that runs in the page, over a snapshot of the element tree:

- `Dom`: the page as a tree of `Node`s. `querySelectorAll` is a document-order walk that yields each element with its ancestors. `querySelector` on descendants, `closest` and `textContent` are modelled too. Values the browser computes while rendering are given fields of an element: inline style, layout size, tab index, a bound click handler, whether `className` is an SVG animated string, and computed colours.
- `Strings`: `trim`, ASCII `toLowerCase`, substring tests, class-token tests, `join`, and the `replace(/\s+/g, ".")` of the class-suffix path.
- `Paths`: the two `getElementPath` variants, both as the source's while loops, proved against recursive definitions.
  - The id-suffix variant is used by the three perceivable rule files, the trap audit and the legacy checker.
  - The class-suffix variant is used by the focusability audit. It throws on an SVG element without an id, because `className` is then not a string.
- `Messages` and `Findings`: the fixed strings of every finding, and the finding record.
- `Rules`: the shape all the rule files share. A numbered check (one `forEach` loop) maps an element to the reports it pushes. `RunLoop` and `RunLoops` are the imperative loops. `Run` is the rule-major output. `ReportsAt` is what one element gets, in check order.
- `TextAlternatives`: the 18 loops of `checkTextAlternatives` (1.1.1 and 4.1.2; 17 numbered checks, the SVG check being two loops), including CAPTCHA detection and the decorative/hidden-content audit.
- `TimeBasedMedia`: the nine loops of `checkTimeBasedMedia` (1.2.1 to 1.2.9).
- `Adaptable`: the five element loops of `checkAdaptable` and the single viewport check between them (1.3.1 to 1.3.6).
- `KeyboardAccessibility`: `checkKeyboardAccessibility`. It covers:
  - the focusability audit, with the class-suffix path;
  - the keyboard-trap audit, with the id-suffix path;
  - the two conversion loops into issue records;
  - the `catch` that leaves the list empty when an evaluation throws.
- `Checker`: `checkWCAGCompliance`. It covers:
  - the legacy alt, label, button and contrast checks;
  - the heading-order loop with its running `previousLevel`;
  - the `reduce` that groups issues by criterion, with the dictionary's insertion order;
  - the numbers the summary prints: the total, each group's count with "issue"/"issues", and the critical count.

Each rule file's evaluation is a method with loop invariants. The method is proved equal to a function of the page. Lemmas then state, for every check, exactly which elements produce which findings. They also state what a single element gets, in what order and with which criterion and impact.

## Model

| member | source | states |
|---|---|---|
| Paths.GetElementPath | src/perceivable/text-alternatives.ts:16-27 | the loop that climbs `parentNode` and unshifts selectors returns the " > "-joined root-to-node selectors of the element chain |
| Paths.SegmentsOfElements | src/perceivable/text-alternatives.ts:16-27 | over a chain of elements there is one selector per element, in root-to-node order, each the tag plus `#id` when the id is non-empty |
| Paths.PathExtendsParent | src/perceivable/text-alternatives.ts:16-27 | an element's path is its parent's path, then " > ", then its own selector |
| Paths.PathStopsAtNonElement | src/perceivable/text-alternatives.ts:18 | `Segments` over any chain of nodes stops at the first node that is not an element: nothing from it or above it contributes. The chains the walk builds hold only elements, so there the boundary is simply where the chain starts, at the document |
| Paths.PathExample | src/perceivable/text-alternatives.ts:16-27 | a `span` inside `div id="a"` gets the path "div#a > span" |
| Paths.GetClassSuffixPath | src/operable/keyboard-accessibility.ts:51-64 | the class-suffix loop returns the joined selectors: the id suffix wins, otherwise "." plus the class name with whitespace runs made dots; the loop throws (`None`) where the definition does |
| Paths.ClassSuffixPathThrows | src/operable/keyboard-accessibility.ts:55-58 | the class-suffix path throws exactly when some element of the chain is an SVG element without an id |
| Paths.ClassSuffixAgreesWithoutClasses | src/operable/keyboard-accessibility.ts:51-64 | on a chain without class names the two path variants give the same path |
| Strings.TrimSpec | src/perceivable/text-alternatives.ts:33 | `trim()` gives the slice left after stripping whitespace at both ends; it is empty exactly when the string is blank |
| Strings.DotRunsClean | src/operable/keyboard-accessibility.ts:58 | `replace(/\s+/g, ".")` leaves no whitespace and never lengthens the string |
| Strings.DotRunsSplit | src/operable/keyboard-accessibility.ts:58 | a maximal whitespace run between two pieces becomes exactly one ".", and each piece is rewritten on its own; with `DotRunsNoWhitespace` this fixes the result on every input |
| Strings.DotRunsNoWhitespace | src/operable/keyboard-accessibility.ts:58 | a class name without whitespace is appended unchanged |
| Strings.LowerContains | src/perceivable/text-alternatives.ts:339-346 | lower-casing preserves substring occurrences, so a keyword found in the raw text is found in the lower-cased text |
| Strings.TokenIsSubstring | src/operable/keyboard-accessibility.ts:73 | a `.modal` class token is in particular a `[class*="modal"]` substring |
| Dom.Walk | src/perceivable/adaptable.ts:64 | `querySelectorAll` yields only elements, each carrying the ancestors of the subtree it was found in |
| Dom.WalkParentChains | src/perceivable/adaptable.ts:64 | every yielded element sits at the end of a genuine parent chain |
| Dom.WalkListsAncestors | src/perceivable/adaptable.ts:64 | every ancestor of a yielded element is itself yielded, with its own ancestors |
| Dom.ChainTextContains | src/perceivable/adaptable.ts:66-68 | an element's `textContent` occurs in the `textContent` of each of its ancestors |
| Dom.HasTrackIsTrack | src/perceivable/time-based-media.ts:47 | a `track[kind=...]` descendant is a `track` descendant |
| Rules.RunLoop | src/perceivable/text-alternatives.ts:30-45 | one `forEach` loop appends, element by element in document order, the findings its check reports, each at the element's path |
| Rules.RunLoops | src/perceivable/text-alternatives.ts:29-448 | running the loops one after the other appends the concatenation of their findings |
| Rules.InRun | src/perceivable/text-alternatives.ts:29-448 | a finding is in a file's output iff some check reports it about some element, at that element's path |
| Rules.RunPermutesElementMajor | src/perceivable/text-alternatives.ts:29-448 | the loop-by-loop output is a permutation of the element-by-element reports |
| Rules.RunOfKind | src/perceivable/text-alternatives.ts:29-448 | when each check reports under one type, the findings of a type are exactly those pushed by the checks of that type |
| Rules.RunOfFlag | src/perceivable/text-alternatives.ts:29-448 | when a check is the only one of its type and pushes one report per flagged element, its type's findings are exactly those reports of the flagged elements |
| Rules.ReportsAtOfOneKind | src/perceivable/text-alternatives.ts:29-448 | what one element gets of a check's type is exactly what that check reports about it |
| Rules.RunAll | src/perceivable/text-alternatives.ts:29-448 | a property every report of every check has holds of every finding of the file |
| TextAlternatives.CheckTextAlternatives | src/perceivable/text-alternatives.ts:12-451 | the evaluation runs the 18 loops (17 numbered checks, the SVG check being two loops) over the page's elements and returns the findings the rule file defines |
| TextAlternatives.FlaggedFindings | src/perceivable/text-alternatives.ts:29-317 | for each single-type check, the findings of its type are one per flagged element, with that element's report and path |
| TextAlternatives.SvgFindings | src/perceivable/text-alternatives.ts:48-81 | an "SVG Icon" finding is the aria-label report of an svg missing its label or the role report of an svg missing its role |
| TextAlternatives.KindUnique | src/perceivable/text-alternatives.ts:29-448 | only the two SVG checks share a `type` |
| TextAlternatives.ImageAt | src/perceivable/text-alternatives.ts:30-45 | an `img` gets exactly one "Image" finding when `alt` is absent or blank, and none otherwise |
| TextAlternatives.SvgAt | src/perceivable/text-alternatives.ts:48-81 | an `svg` gets the aria-label report and then the role report; lacking both it gets both |
| TextAlternatives.ObjectAt | src/perceivable/text-alternatives.ts:122-140 | an `object` is reported iff it has neither `title` nor `aria-label`, and the description quotes `data` or "No Data" |
| TextAlternatives.ButtonAt | src/perceivable/text-alternatives.ts:229-241 | a `button` is reported iff its trimmed text is empty and it has no `aria-label`; an empty `aria-label` still suppresses the report |
| TextAlternatives.LinkAt | src/perceivable/text-alternatives.ts:244-259 | the same for a link |
| TextAlternatives.CaptchaAt | src/perceivable/text-alternatives.ts:320-389 | an element's CAPTCHA reports are those of the CAPTCHA check: the keyword report, then the iframe report |
| TextAlternatives.HiddenCaptcha | src/perceivable/text-alternatives.ts:323 | nothing inside an `aria-hidden="true"` subtree gets a CAPTCHA report |
| TextAlternatives.CaptchaSourceSimplified | src/perceivable/text-alternatives.ts:375 | the iframe pattern matches iff the lower-cased `src` contains "captcha" or "turnstile" |
| TextAlternatives.CaptchaKeywordAt | src/perceivable/text-alternatives.ts:320-370 | an element gets the keyword CAPTCHA report exactly when it has one of the seven candidate tags, is not inside an `aria-hidden="true"` subtree, and either a keyword occurs in its lower-cased alt, aria-label, src, class list or id, or a vendor class occurs in its class list or id; other tags get no CAPTCHA report |
| TextAlternatives.CaptchaFrameAt | src/perceivable/text-alternatives.ts:358-388 | an `iframe` outside any `aria-hidden="true"` subtree whose lower-cased `src` contains "captcha" gets two CAPTCHA reports, the keyword one and then the iframe one |
| TextAlternatives.DecorativeAt | src/perceivable/text-alternatives.ts:392-448 | an element's decorative-content reports are those of the decorative check |
| TextAlternatives.DecorativeReports | src/perceivable/text-alternatives.ts:404-447 | hidden content is reported iff visually hidden and not marked decorative; an `iframe` without `title` is reported under 4.1.2 regardless; nothing else is reported |
| TextAlternatives.ImageWithoutAltIsDecorative | src/perceivable/text-alternatives.ts:397 | an `img` without `alt` counts as decorative and never gets the hidden-content report |
| TextAlternatives.TextAlternativesGraded | src/perceivable/text-alternatives.ts:29-448 | every finding is critical except decorative content, which is moderate; every finding cites 1.1.1 except the untitled-iframe one, which cites 4.1.2 |
| TimeBasedMedia.CheckTimeBasedMedia | src/perceivable/time-based-media.ts:12-179 | the evaluation runs the nine loops over the page's elements and returns the findings the rule file defines |
| TimeBasedMedia.MediaFindings | src/perceivable/time-based-media.ts:29-176 | the findings of each check's type are one per flagged element, with that element's report and path |
| TimeBasedMedia.AllCritical | src/perceivable/time-based-media.ts:39-171 | every finding of the file is critical and asks for alternatives to time-based media |
| TimeBasedMedia.MediaAt | src/perceivable/time-based-media.ts:29-176 | an element gets one report of a check's type iff that check flags it |
| TimeBasedMedia.NoControlsAt | src/perceivable/time-based-media.ts:30-43 | audio or video without `controls` gets one 1.2.1 report, whatever its tracks |
| TimeBasedMedia.NoDescriptionsAt | src/perceivable/time-based-media.ts:62-111 | a video without a descriptions track gets two distinct reports, under 1.2.3 and under 1.2.5 |
| TimeBasedMedia.PlainDescriptionsAt | src/perceivable/time-based-media.ts:62-146 | a video with a descriptions track that is not `extended` gets the 1.2.7 report but neither the 1.2.3 nor the 1.2.5 one |
| TimeBasedMedia.ExtendedDescriptionsAt | src/perceivable/time-based-media.ts:62-146 | a video with an extended descriptions track gets none of the three description reports |
| TimeBasedMedia.NotLiveAt | src/perceivable/time-based-media.ts:80-95 | an element without `live` gets neither 1.2.4 nor 1.2.9 reports |
| TimeBasedMedia.LiveCaptionsAt | src/perceivable/time-based-media.ts:80-95 | live media without captions gets one 1.2.4 report whose element is "video/audio" |
| TimeBasedMedia.LiveAudioAt | src/perceivable/time-based-media.ts:164-176 | the 1.2.9 report is given iff the element is `audio[live]` without `aria-live` |
| TimeBasedMedia.BareVideoAt | src/perceivable/time-based-media.ts:30-161 | a non-live video with no tracks, no `controls` and no `aria-describedby` gets exactly seven reports, under 1.2.1, 1.2.2, 1.2.3, 1.2.5, 1.2.6, 1.2.7 and 1.2.8 in that order |
| Adaptable.CheckAdaptable | src/perceivable/adaptable.ts:12-140 | the evaluation runs three loops, the viewport check, then two loops, and returns the findings the rule file defines |
| Adaptable.FindViewportMeta | src/perceivable/adaptable.ts:84-86 | `querySelector` returns the first viewport `meta` in document order |
| Adaptable.FirstViewportMetaSpec | src/perceivable/adaptable.ts:84-86 | the search finds nothing iff there is no viewport `meta`; otherwise it finds one that no earlier element precedes |
| Adaptable.OneViewportFinding | src/perceivable/adaptable.ts:88-102 | the viewport finding occurs at most once |
| Adaptable.OnlyViewportFinding | src/perceivable/adaptable.ts:92-101 | every "Restricted viewport scaling" finding is the constant one, with the path "head > meta[name='viewport']" |
| Adaptable.FirstViewportDecides | src/perceivable/adaptable.ts:84-102 | the viewport finding is present iff the first viewport `meta`'s content contains "user-scalable=no" |
| Adaptable.AdaptableFindings | src/perceivable/adaptable.ts:29-137 | the findings of each element check's type are one per flagged element, with that element's report and path |
| Adaptable.AdaptableAtKind | src/perceivable/adaptable.ts:29-137 | an element gets one report of a check's type iff that check flags it |
| Adaptable.FormattingAt | src/perceivable/adaptable.ts:30-41 | every `b`, `i`, `u` or `font` is reported, moderate, under 1.3.1 |
| Adaptable.TabOrderAt | src/perceivable/adaptable.ts:44-61 | an element with `tabindex` is reported iff it has neither `aria-flowto` nor `aria-labelledby`; the report is critical, under 1.3.2 |
| Adaptable.SensoryAncestors | src/perceivable/adaptable.ts:64-81 | if an element is flagged for sensory instructions, every ancestor element is on the page and flagged too |
| Adaptable.AutocompleteAt | src/perceivable/adaptable.ts:105-118 | an `input` without `autocomplete` is reported, moderate, under 1.3.5 |
| Adaptable.RoleAt | src/perceivable/adaptable.ts:121-137 | a `[role]` element is reported iff it has neither `aria-label` nor `aria-describedby`; the report is critical, under 1.3.6 |
| KeyboardAccessibility.AuditFocus | src/operable/keyboard-accessibility.ts:15-67 | the focusability loop collects one item per flagged interactive element, or throws when a flagged element's class-suffix path throws |
| KeyboardAccessibility.CollectCompletes | src/operable/keyboard-accessibility.ts:26-49 | the loop completes iff the path of every flagged element completes |
| KeyboardAccessibility.AuditTraps | src/operable/keyboard-accessibility.ts:70-123 | the trap loop collects one item per flagged container, at its id-suffix path |
| KeyboardAccessibility.PushIssues | src/operable/keyboard-accessibility.ts:126-149 | a conversion loop appends one issue per item, in order |
| KeyboardAccessibility.Issues | src/operable/keyboard-accessibility.ts:126-149 | the conversion keeps the number and order of the items |
| KeyboardAccessibility.CheckKeyboardAccessibility | src/operable/keyboard-accessibility.ts:7-156 | the audit returns the converted focus items then the converted trap items, or nothing when an evaluation throws |
| KeyboardAccessibility.KeyboardThrows | src/operable/keyboard-accessibility.ts:150-156 | the audit throws iff some flagged element has an SVG element without an id on its chain, and then the result is empty |
| KeyboardAccessibility.FocusFindings | src/operable/keyboard-accessibility.ts:26-48 | a "keyboard-accessibility" finding is exactly the issue of an interactive element with a negative tab index, or with a click handler and no key handler |
| KeyboardAccessibility.FocusDescriptionOf | src/operable/keyboard-accessibility.ts:39-47 | the description is "not keyboard accessible" iff the tab index is negative, and the click-handler text otherwise |
| KeyboardAccessibility.TrapFindings | src/operable/keyboard-accessibility.ts:70-107 | a "keyboard-trap" finding is exactly the issue of a dialog-like container with a focusable descendant and no escape mechanism |
| KeyboardAccessibility.TrapNeedsFocusableNoEscape | src/operable/keyboard-accessibility.ts:86-106 | a container without a focusable descendant, or with `aria-modal`, is never flagged |
| KeyboardAccessibility.ModalTokenRedundant | src/operable/keyboard-accessibility.ts:73 | `.modal` adds nothing to `[class*="modal"]` in the container selector |
| KeyboardAccessibility.FocusBeforeTraps | src/operable/keyboard-accessibility.ts:126-149 | every issue is critical and of one of the two types, and no focusability issue follows a trap issue |
| Checker.EvaluateChecks | src/checker.ts:22-133 | the evaluation runs the four element loops and the heading loop, and returns the findings the checker defines |
| Checker.CheckFindings | src/checker.ts:46-113 | the findings of each element check's type are one per flagged element, with that element's report and path |
| Checker.AltPresencePasses | src/checker.ts:47-58 | an `img` is flagged iff it has no `alt` attribute, so `alt=""` passes |
| Checker.LabelForsMember | src/checker.ts:62-64 | a control has a label iff some `label` has an `htmlFor` equal to the control's `id` |
| Checker.EmptyForLabelsControlsWithoutId | src/checker.ts:61-79 | a `label` without `for` labels every control without an `id`, because both read as the empty string |
| Checker.ButtonNamed | src/checker.ts:82-97 | a `button` is flagged iff its text is blank and it has neither `aria-label` nor `aria-labelledby` |
| Checker.Level | src/checker.ts:118 | a heading's level is between 1 and 6 |
| Checker.CheckHeadings | src/checker.ts:116-130 | the loop carrying `previousLevel` appends one finding per heading that skips a level |
| Checker.PreviousLevelIsLastHeading | src/checker.ts:116-129 | `previousLevel` is 0 before the first heading and afterwards the level of the last heading seen |
| Checker.SkipsLevelSpec | src/checker.ts:118-129 | a first heading is flagged iff it is h2 or deeper; a later one iff it is more than one level below the previous heading, so a decrease is never flagged |
| Checker.HeadingFindingsMember | src/checker.ts:116-130 | the heading findings are exactly those of the headings that skip a level, all of type "heading-order" |
| Checker.HeadingOrderFindings | src/checker.ts:115-130 | the checker's "heading-order" findings are exactly those of the headings that skip a level |
| Checker.GroupByCriterion | src/checker.ts:157-161 | the `reduce` produces one key per criterion, in order of first appearance, mapped to that criterion's issues in order |
| Checker.KeysMember | src/checker.ts:157-161 | a criterion is a key iff some issue cites it |
| Checker.KeysDistinct | src/checker.ts:157-161 | no key occurs twice |
| Checker.KeysFirstAppearance | src/checker.ts:157-167 | groups are listed in order of the criteria's first appearance |
| Checker.GroupMember | src/checker.ts:157-161 | an issue is in a group iff it cites that group's criterion, so each issue is in exactly one group |
| Checker.GroupSizesSum | src/checker.ts:157-173 | the group sizes add up to the total number of issues |
| Checker.Noun | src/checker.ts:169-171 | "issue" is printed iff the count is 1 |
| Checker.CriticalsMember | src/checker.ts:175-177 | the critical count counts exactly the issues whose impact is critical |
| Checker.CriticalsCount | src/checker.ts:175-177 | every critical issue is kept as many times as it occurs and no other issue is kept, so the count includes repeats |
| Checker.CriticalsLength | src/checker.ts:175-178 | the printed critical count equals the number of positions in the issue list whose impact is critical |
| Checker.Summarize | src/checker.ts:163-178 | the summary holds the total, one line per group in insertion order and the critical count |
| Checker.SummaryCounts | src/checker.ts:163-178 | the summary lines follow the keys, their counts add up to the total, and the critical count is at most the total |
| Checker.LinesSpec | src/checker.ts:167-173 | one line per key, whose count is the size of that key's group |

## Left out

- Browser launch, navigation, `page.evaluate` and `browser.close` are not modelled: each rule file is modelled as the closure it evaluates, applied to a page snapshot.
- Rendering values are given fields of an element rather than computed: inline `style.display`/`style.visibility`, `offsetWidth`/`offsetHeight`, `tabIndex` defaulting, `onclick`, and `getComputedStyle` colours. The contrast check compares the two colour strings as given.
- URL resolution of the `href` and `src` properties is not modelled: `area.href`, `link.href` and `iframe.src` are taken to be the attribute values.
- Only ASCII letters are lower-cased. The CAPTCHA pattern and the sensory phrase pattern are case-insensitive substring tests.
- Console output is not modelled: the verbose issue listing, `chalk` colouring and the text around the numbers. The summary models the numbers and the "issue"/"issues" choice.
- `src/index.ts` (the CLI), `src/reportGeneration/pdfReport/index.ts` and `src/saveJson/index.ts` are not part of this model; they write files and lay out a PDF.
- `src/utils/browser.ts` is not part of this model.
- Checker.GroupByCriterion: the key order is the dictionary's insertion order. `Object.entries` would list integer-like keys first, but no criterion label is an integer index.
- The criterion labels are not proved pairwise distinct as strings. Grouping is stated over the label strings themselves, so nothing depends on it.

## Differences from the written description

The model follows the code where the two differ:

- Time-based media: the 1.2.2 check looks for a captions track. The 1.2.3 and 1.2.5 checks look for a descriptions track. The 1.2.7 check looks for a descriptions track with `extended`. A video without tracks therefore gets one captions finding and three description findings, not four captions findings.
- Track and `figcaption` lookups are `querySelector` calls, so they search all descendants, not only children.
- The decorative audit reads `alt` as `getAttribute("alt")?.trim() || ""`. An `img` without `alt` therefore counts as decorative, like one with `alt=""`.
- The trap audit's `getElementPath` is the id-suffix variant; only the focusability audit uses the class-suffix variant.
- The class-suffix path builder can throw. On an SVG element without an id, `className` is not a string, so `replace` throws. The `catch` then leaves the keyboard audit's result empty.
- In the legacy label check, `htmlFor` and `id` both read as "" when absent. A `label` without `for` therefore labels every control without an `id`.
