/** The client's value types (types.ts). */
module Types {
  import opened Wrappers

  /** The display language: English, Arabic or Farsi. */
  datatype Language = En | Ar | Fa

  /** The six transformation modes. */
  datatype AppMode =
    | HugPastSelf
    | CoupleKiss
    | StandingTogether
    | ZooBackground
    | SmoothFace
    | CustomText

  /** Every mode, as `Object.keys(AppMode)` lists them for the mode buttons. */
  const AllModes: set<AppMode> :=
    {HugPastSelf, CoupleKiss, StandingTogether, ZooBackground, SmoothFace, CustomText}

  /** Every language, as the language selector offers them. */
  const AllLanguages: set<Language> := {En, Ar, Fa}

  /** The mode enumeration is closed: `AllModes` lists every mode. */
  lemma AllModesListed()
    ensures forall m: AppMode :: m in AllModes
  {
    forall m: AppMode ensures m in AllModes {
      match m
      case HugPastSelf =>
      case CoupleKiss =>
      case StandingTogether =>
      case ZooBackground =>
      case SmoothFace =>
      case CustomText =>
    }
  }

  /** The language type is closed: `AllLanguages` lists every language. */
  lemma AllLanguagesListed()
    ensures forall l: Language :: l in AllLanguages
  {
    forall l: Language ensures l in AllLanguages {
      match l
      case En =>
      case Ar =>
      case Fa =>
    }
  }

  /** The label set of one display language; `modes` holds one button label per mode. */
  datatype Translation = Translation(
    title: string,
    uploadTitle: string,
    image1Label: string,
    image2Label: string,
    generateBtn: string,
    downloadBtn: string,
    loading: string,
    selectMode: string,
    modes: map<AppMode, string>,
    footer: string,
    customPromptPlaceholder: string
  )

  /**
   * The controller's single state record. The image slots and the result
   * hold data URLs (`data:<media type>;base64,<payload>`).
   */
  datatype AppState = AppState(
    image1: Option<string>,
    image2: Option<string>,
    generatedImage: Option<string>,
    isLoading: bool,
    mode: AppMode,
    customPrompt: string,
    language: Language,
    error: Option<string>
  )
}
