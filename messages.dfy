/** The fixed texts of a finding. Every rule writes its `type`, `wcagCriteria`,
    `description` and `suggestion` as string constants (a few descriptions quote
    an attribute of the element); the model names each text by a constructor and
    the functions below give its exact wording. */
module Messages {

  /** The `type` of a finding. */
  datatype Kind =
    // text alternatives
    | Image | SvgIcon | ImageButton | ImageMapArea | EmbeddedObject | Iframe | Video | Audio
    | Canvas | Abbreviation | Button | LinkWithIcon | Figure | TestExercise | SensoryContent
    | Captcha | DecorativeContent
    // time-based media
    | MediaWithoutControls | MissingCaptionsPrerecorded | MissingAudioDescriptions
    | MissingCaptionsLive | MissingAudioDescriptionPrerecorded | MissingSignLanguage
    | MissingExtendedAudioDescription | MissingMediaAlternative | MissingLiveAudioAlternative
    // adaptable
    | NonSemanticFormatting | TabOrderIssue | SensoryInstructions | RestrictedViewportScaling
    | MissingAutocomplete | UnlabeledComponent
    // keyboard accessibility
    | KeyboardAccessibility | KeyboardTrap
    // legacy checker
    | MissingAlt | MissingLabel | EmptyButton | LowContrast | HeadingOrder

  function KindName(k: Kind): string {
    match k
    case Image => "Image"
    case SvgIcon => "SVG Icon"
    case ImageButton => "Image Button"
    case ImageMapArea => "Image Map Area"
    case EmbeddedObject => "Embedded Object"
    case Iframe => "Iframe"
    case Video => "Video"
    case Audio => "Audio"
    case Canvas => "Canvas"
    case Abbreviation => "Abbreviation"
    case Button => "Button"
    case LinkWithIcon => "Link with Icon"
    case Figure => "Figure"
    case TestExercise => "Test/Exercise"
    case SensoryContent => "Sensory Content"
    case Captcha => "CAPTCHA"
    case DecorativeContent => "Decorative Content"
    case MediaWithoutControls => "Audio/Video without controls"
    case MissingCaptionsPrerecorded => "Missing Captions (Prerecorded)"
    case MissingAudioDescriptions => "Missing Audio Descriptions"
    case MissingCaptionsLive => "Missing Captions (Live)"
    case MissingAudioDescriptionPrerecorded => "Missing Audio Description (Prerecorded)"
    case MissingSignLanguage => "Missing Sign Language Interpretation"
    case MissingExtendedAudioDescription => "Missing Extended Audio Description"
    case MissingMediaAlternative => "Missing Media Alternative"
    case MissingLiveAudioAlternative => "Missing Alternative for Live Audio"
    case NonSemanticFormatting => "Non-semantic formatting"
    case TabOrderIssue => "Tab order issue"
    case SensoryInstructions => "Sensory-dependent instructions"
    case RestrictedViewportScaling => "Restricted viewport scaling"
    case MissingAutocomplete => "Missing autocomplete attribute"
    case UnlabeledComponent => "Unlabeled UI component"
    case KeyboardAccessibility => "keyboard-accessibility"
    case KeyboardTrap => "keyboard-trap"
    case MissingAlt => "missing-alt"
    case MissingLabel => "missing-label"
    case EmptyButton => "empty-button"
    case LowContrast => "contrast"
    case HeadingOrder => "heading-order"
  }

  /** The `wcagCriteria` of a finding. */
  datatype Criterion =
    | NonTextContent | NameRoleValue
    | AudioVideoOnlyPrerecorded | CaptionsPrerecorded | AudioDescriptionOrMediaAlternative
    | CaptionsLive | AudioDescriptionPrerecorded | SignLanguagePrerecorded
    | ExtendedAudioDescription | MediaAlternativePrerecorded | AudioOnlyLive
    | InfoAndRelationships | MeaningfulSequence | SensoryCharacteristics | Orientation
    | IdentifyInputPurpose | IdentifyPurpose
    | Keyboard | NoKeyboardTrap
    | ContrastMinimum

  function CriterionName(c: Criterion): string {
    match c
    case NonTextContent => "1.1.1 Non-text Content"
    case NameRoleValue => "4.1.2 Name, Role, Value"
    case AudioVideoOnlyPrerecorded => "1.2.1 Audio-only and Video-only (Prerecorded)"
    case CaptionsPrerecorded => "1.2.2 Captions (Prerecorded)"
    case AudioDescriptionOrMediaAlternative => "1.2.3 Audio Description or Media Alternative (Prerecorded)"
    case CaptionsLive => "1.2.4 Captions (Live)"
    case AudioDescriptionPrerecorded => "1.2.5 Audio Description (Prerecorded)"
    case SignLanguagePrerecorded => "1.2.6 Sign Language (Prerecorded)"
    case ExtendedAudioDescription => "1.2.7 Extended Audio Description (Prerecorded)"
    case MediaAlternativePrerecorded => "1.2.8 Media Alternative (Prerecorded)"
    case AudioOnlyLive => "1.2.9 Audio-only (Live)"
    case InfoAndRelationships => "1.3.1 Info and Relationships"
    case MeaningfulSequence => "1.3.2 Meaningful Sequence"
    case SensoryCharacteristics => "1.3.3 Sensory Characteristics"
    case Orientation => "1.3.4 Orientation"
    case IdentifyInputPurpose => "1.3.5 Identify Input Purpose"
    case IdentifyPurpose => "1.3.6 Identify Purpose"
    case Keyboard => "WCAG 2.1 Keyboard"
    case NoKeyboardTrap => "WCAG 2.1.2 No Keyboard Trap"
    case ContrastMinimum => "1.4.3 Contrast (Minimum)"
  }

  /** The `description` of a finding; the parameters are the quoted attribute values. */
  datatype Description =
    // text alternatives
    | ImageMissingAlt | SvgMissingLabel | SvgMissingRole | ImageButtonMissingAlt
    | MapAreaMissingAlt(link: string) | ObjectMissingAlt(data: string)
    | IframeMissingTitle(source: string) | VideoMissingTrack(source: string)
    | AudioMissingTrack(source: string) | CanvasMissingLabel | AbbreviationMissingTitle
    | ButtonMissingText | IconLinkMissingLabel(link: string) | FigureMissingCaption
    | TestMissingLabel | SensoryMissingDescription | CaptchaDetected | CaptchaFrameDetected
    | HiddenContentUnmarked | IframeMissingTitleAttribute
    // time-based media
    | MediaNeedsAlternatives
    // adaptable
    | NonSemanticElements | TabOrderUnclear | ReliesOnSensory | ViewportRestricted
    | InputMissingAutocomplete | RoleUnclear
    // keyboard accessibility
    | NotKeyboardAccessible | ClickWithoutKeyHandler | MayTrapFocus
    // legacy checker
    | ControlMissingLabel | ButtonWithoutName | MayLackContrast | HeadingSkipped

  function DescriptionText(d: Description): string {
    match d
    case ImageMissingAlt => "Image is missing alt text"
    case SvgMissingLabel => "SVG Icon is missing aria-label text"
    case SvgMissingRole => "SVG Icon is missing role text"
    case ImageButtonMissingAlt => "Image Button is missing alt text"
    case MapAreaMissingAlt(link) => "Image Map Area '" + link + "' is missing alt text"
    case ObjectMissingAlt(data) => "Embedded Object '" + data + "' is missing alt text"
    case IframeMissingTitle(source) => "Iframe '" + source + "' is missing title text"
    case VideoMissingTrack(source) => "Video '" + source + "' is missing track text"
    case AudioMissingTrack(source) => "Audio '" + source + "' is missing track text"
    case CanvasMissingLabel => "Canvas is missing aria-label text"
    case AbbreviationMissingTitle => "Abbreviation is missing title text"
    case ButtonMissingText => "Button is missing text or an aria-label"
    case IconLinkMissingLabel(link) => "Link with Icon '" + link + "' is missing aria-label text"
    case FigureMissingCaption => "Figure is missing figcaption text"
    case TestMissingLabel => "Test/Exercise is missing aria-label or title text"
    case SensoryMissingDescription => "Sensory Content is missing aria-describedby or aria-label text"
    case CaptchaDetected => "CAPTCHA detected, ensure an accessible alternative is available."
    case CaptchaFrameDetected => "CAPTCHA iframe detected, ensure an accessible alternative is available."
    case HiddenContentUnmarked => "Visually hidden content is missing proper accessibility attributes."
    case IframeMissingTitleAttribute => "Iframe is missing a title attribute, which may cause accessibility issues."
    case MediaNeedsAlternatives => "Provide alternatives for time-based media."
    case NonSemanticElements => "Non-semantic elements detected."
    case TabOrderUnclear => "Tab order may not reflect a meaningful reading sequence."
    case ReliesOnSensory => "Instructions rely on color, shape, or position."
    case ViewportRestricted => "Viewport scaling is restricted."
    case InputMissingAutocomplete => "Input field missing autocomplete attribute."
    case RoleUnclear => "UI component role is unclear."
    case NotKeyboardAccessible => "Element is not keyboard accessible"
    case ClickWithoutKeyHandler => "Element has click handler but no keyboard event handler"
    case MayTrapFocus => "Element may trap keyboard focus without providing an escape mechanism"
    case ControlMissingLabel => "Form control is missing a label"
    case ButtonWithoutName => "Button has no accessible name"
    case MayLackContrast => "Element might have insufficient color contrast"
    case HeadingSkipped => "Heading levels should not be skipped"
  }

  /** The `suggestion` of a finding. */
  datatype Suggestion =
    // text alternatives
    | AddImageAlt | LabelIcon | GiveIconRole | DescribeButtonAction | DescribeArea
    | TitleObject | TitleIframe | AddCaptionsTrack | AddDescriptionsTrack | LabelCanvas
    | DefineAbbreviation | NameButton | LabelLink | AddFigcaption | DescribeTest
    | DescribeSensory | OfferCaptchaAlternative | MarkDecorative | TitleOrHideIframe
    // time-based media
    | ProvideMediaAlternative | AddCaptionsTrackElement | DescribeVisualContent
    | CaptionLiveMedia | AddDescriptionsTrackElement | InterpretSignLanguage
    | ExtendAudioDescriptions | DescribeVideoContent | AlternativeForLiveAudio
    // adaptable
    | UseSemanticElements | KeepNavigationOrder | DescribeWithoutSenses | AllowScaling
    | AddAutocomplete | DescribeComponent
    // keyboard accessibility
    | AddKeyboardHandlers | AddEscapeMechanism

  function SuggestionText(s: Suggestion): string {
    match s
    case AddImageAlt => "Add an alt attribute with a meaningful description."
    case LabelIcon => "Use aria-label to describe the icon."
    case GiveIconRole => "Use role=\"img\" to describe the icon."
    case DescribeButtonAction => "Add an alt attribute to describe the button action."
    case DescribeArea => "Add an alt attribute describing the clickable area."
    case TitleObject => "Use the title attribute or aria-label for accessibility."
    case TitleIframe => "Add a title attribute describing the iframe content."
    case AddCaptionsTrack => "Provide a <track> with kind=\"captions\" for subtitles."
    case AddDescriptionsTrack => "Provide a <track> with kind=\"descriptions\" for transcripts."
    case LabelCanvas => "Use aria-label or provide fallback text inside <canvas>."
    case DefineAbbreviation => "Use the title attribute to define the abbreviation."
    case NameButton => "Ensure buttons have visible text or an aria-label."
    case LabelLink => "Add an aria-label to describe the purpose of the link."
    case AddFigcaption => "Add a <figcaption> to describe the figure content."
    case DescribeTest => "Provide a text description using aria-label or title."
    case DescribeSensory => "Provide captions, transcripts, or an ARIA description."
    case OfferCaptchaAlternative => "Provide alternative verification methods like audio CAPTCHA, text-based CAPTCHA, or human assistance."
    case MarkDecorative => "Use aria-hidden=\"true\", role=\"presentation\", or alt=\"\" for purely decorative elements."
    case TitleOrHideIframe => "Provide a descriptive title for meaningful iframes, or use aria-hidden=\"true\" for decorative ones."
    case ProvideMediaAlternative => "Ensure media has accessible alternative text or transcripts."
    case AddCaptionsTrackElement => "Add a <track kind=\"captions\"> to provide captions."
    case DescribeVisualContent => "Provide audio descriptions for visual content in videos."
    case CaptionLiveMedia => "Provide real-time captions for live media."
    case AddDescriptionsTrackElement => "Provide additional track for audio descriptions."
    case InterpretSignLanguage => "Provide sign language interpretation for audio content in video."
    case ExtendAudioDescriptions => "Provide extended audio descriptions when needed."
    case DescribeVideoContent => "Provide a text alternative describing video content."
    case AlternativeForLiveAudio => "Provide alternative content for live audio streams."
    case UseSemanticElements => "Use <strong> instead of <b>, <em> instead of <i>, and CSS for styling."
    case KeepNavigationOrder => "Use aria-flowto or aria-labelledby to maintain logical navigation order."
    case DescribeWithoutSenses => "Provide alternative text descriptions like 'Click the submit button.'"
    case AllowScaling => "Allow users to rotate their device by removing 'user-scalable=no'."
    case AddAutocomplete => "Add an 'autocomplete' attribute (e.g., autocomplete='email' for email fields)."
    case DescribeComponent => "Use aria-label or aria-describedby to describe the purpose of the UI component."
    case AddKeyboardHandlers => "Add keyboard event handlers or ensure proper tabIndex value"
    case AddEscapeMechanism => "Add a keyboard-accessible escape mechanism"
  }
}
