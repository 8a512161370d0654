/**
 * The controller of the single-page client (App.tsx): one mutable
 * `AppState` record and the handlers that replace it. Each
 * `setState(prev => ({ ...prev, ... }))` is a record update of `state`.
 */
module AppController {
  import opened Wrappers
  import opened Types
  import opened Constants
  import JsText
  import opened GeminiService

  const Image1Missing := "Please upload the first image."
  const Image2Missing := "Please upload the second image for this mode."
  const DescriptionMissing := "Please enter a description."
  const GenerationFailed := "Failed to generate image."

  /** The state the page starts in: no images, hug mode, Arabic, nothing pending. */
  const InitialState := AppState(None, None, None, false, HugPastSelf, "", Ar, None)

  /** Which upload slot an upload or clear addresses. */
  datatype Slot = Image1 | Image2

  /** The anchor a download offers: the result's data URL and the file name. */
  datatype DownloadLink = DownloadLink(href: string, filename: string)

  /**
   * The ordered checks `handleGenerate` makes before calling the service:
   * the first image, then the second image when the mode needs it, then a
   * non-blank description in custom-text mode. The first failing check wins.
   */
  function ValidationError(s: AppState): (error: Option<string>)
    ensures !Truthy(s.image1) ==> error == Some(Image1Missing)
    ensures Truthy(s.image1) && s.mode in TwoImageModes && !Truthy(s.image2)
      ==> error == Some(Image2Missing)
    ensures Truthy(s.image1) && (s.mode in TwoImageModes ==> Truthy(s.image2))
      && s.mode == CustomText && JsText.IsBlank(s.customPrompt)
      ==> error == Some(DescriptionMissing)
    ensures error.None? <==>
      && Truthy(s.image1)
      && (s.mode in TwoImageModes ==> Truthy(s.image2))
      && (s.mode == CustomText ==> !JsText.IsBlank(s.customPrompt))
  {
    JsText.TrimEmptyIffBlank(s.customPrompt);
    if !Truthy(s.image1) then Some(Image1Missing)
    else if ModeConfig()[s.mode].requiresTwoImages && !Truthy(s.image2) then Some(Image2Missing)
    else if s.mode == CustomText && JsText.Trim(s.customPrompt) == "" then Some(DescriptionMissing)
    else None
  }

  /** The update made once validation passes: loading, with the previous result and error cleared. */
  function Started(s: AppState): (t: AppState)
    ensures t.isLoading && t.error.None? && t.generatedImage.None?
    ensures t.(isLoading := s.isLoading, error := s.error, generatedImage := s.generatedImage) == s
  {
    s.(isLoading := true, error := None, generatedImage := None)
  }

  /**
   * The update made when the service settles: the result is stored, or the
   * error's message (the fallback text when the message is empty).
   */
  function Completed(s: AppState, outcome: Outcome): (t: AppState)
    ensures !t.isLoading
    ensures outcome.Generated? ==> t.generatedImage == Some(outcome.dataUrl) && t.error == s.error
    ensures outcome.Failed? ==> t.generatedImage == s.generatedImage && t.error.Some? && t.error.value != ""
    ensures outcome.Failed? && outcome.message != "" ==> t.error == Some(outcome.message)
    ensures outcome.Failed? && outcome.message == "" ==> t.error == Some(GenerationFailed)
    ensures t.(isLoading := s.isLoading, error := s.error, generatedImage := s.generatedImage) == s
  {
    match outcome
    case Generated(url) => s.(generatedImage := Some(url), isLoading := false)
    case Failed(message) =>
      s.(isLoading := false, error := Some(if message != "" then message else GenerationFailed))
  }

  /**
   * After a generation attempt that got past validation, loading is over and
   * exactly one of the result and the error is set, both non-empty; only
   * those three fields differ from the state before the attempt.
   */
  lemma AttemptSettlesExclusively(s: AppState, outcome: Outcome)
    requires outcome.Generated? ==> "data:" <= outcome.dataUrl
    ensures var t := Completed(Started(s), outcome);
      && !t.isLoading
      && (t.generatedImage.Some? <==> t.error.None?)
      && (t.generatedImage.Some? ==> t.generatedImage.value != "")
      && (t.error.Some? ==> t.error.value != "")
      && t.(generatedImage := s.generatedImage, error := s.error, isLoading := s.isLoading) == s
  {
  }

  /**
   * A validation failure sets only the error: a result shown from an earlier
   * attempt stays, so result and error can both be set. This spells out, for
   * the result field, what the first postcondition of `App.Generate` implies.
   */
  lemma ValidationErrorKeepsPreviousResult(s: AppState)
    requires Truthy(s.generatedImage) && ValidationError(s).Some?
    ensures var t := s.(error := ValidationError(s));
      t.generatedImage == s.generatedImage && t.error.Some?
  {
  }

  /**
   * Selecting a one-image mode does not clear the second slot, and the
   * service sends every non-empty second image: a stale second image is
   * still part of the request.
   */
  lemma StaleSecondImageSent(s: AppState)
    requires ValidationError(s).None? && s.mode !in TwoImageModes && Truthy(s.image2)
    ensures var parts := RequestParts(s.image1.value, s.image2, s.mode, s.customPrompt);
      |parts| == 3 && parts[1] == ImagePart(StripBase64(s.image2.value), JpegMimeType)
  {
  }

  /** `fusion-ai-<timestamp>.jpg`, the timestamp written in decimal. */
  function DownloadFileName(timestamp: nat): (name: string)
    ensures "fusion-ai-" <= name
    ensures |name| > 14 && name[|name| - 4..] == ".jpg"
    ensures JsText.IsDigits(name[10..|name| - 4])
    ensures JsText.DecimalValue(name[10..|name| - 4]) == timestamp
  {
    var digits := JsText.DecimalString(timestamp);
    var name := "fusion-ai-" + digits + ".jpg";
    assert name[10..|name| - 4] == digits;
    JsText.DecimalRoundTrip(timestamp);
    name
  }

  /** Downloads at different timestamps get different file names. */
  lemma DownloadFileNameInjective(t1: nat, t2: nat)
    requires DownloadFileName(t1) == DownloadFileName(t2)
    ensures t1 == t2
  {
  }

  class App {
    var state: AppState

    constructor ()
      ensures state == InitialState
    {
      state := InitialState;
    }

    /** Right-to-left layout: every language except English. */
    function IsRTL(): (rtl: bool)
      reads this
      ensures rtl <==> state.language != En
    {
      state.language == Ar || state.language == Fa
    }

    /** The selected mode's MODE_CONFIG flag. */
    function RequiresTwoImages(): (two: bool)
      reads this
      ensures two <==> state.mode in TwoImageModes
    {
      ModeConfig()[state.mode].requiresTwoImages
    }

    /** `t.modes[modeKey]`: the label of a mode button in the selected language. */
    function ModeLabel(mode: AppMode): (caption: string)
      reads this
      ensures caption != ""
    {
      Translations()[state.language].modes[mode]
    }

    /**
     * A file read ended (`onloadend`): the addressed slot takes the reader's
     * result and the error is cleared. The result is the data URL after a
     * successful read and null after a failed or aborted one, which empties
     * the slot without reporting anything.
     */
    method UploadCompleted(slot: Slot, result: Option<string>)
      modifies this
      ensures slot == Image1 ==> state == old(state).(image1 := result, error := None)
      ensures slot == Image2 ==> state == old(state).(image2 := result, error := None)
    {
      match slot {
        case Image1 => state := state.(image1 := result, error := None);
        case Image2 => state := state.(image2 := result, error := None);
      }
    }

    /** The clear button of a slot empties that slot and nothing else. */
    method ClearSlot(slot: Slot)
      modifies this
      ensures slot == Image1 ==> state == old(state).(image1 := None)
      ensures slot == Image2 ==> state == old(state).(image2 := None)
    {
      match slot {
        case Image1 => state := state.(image1 := None);
        case Image2 => state := state.(image2 := None);
      }
    }

    /** A mode button sets the mode and clears the error; both image slots are kept. */
    method SelectMode(mode: AppMode)
      modifies this
      ensures state == old(state).(mode := mode, error := None)
    {
      state := state.(mode := mode, error := None);
    }

    /** The description box replaces the custom prompt text. */
    method SetCustomPrompt(text: string)
      modifies this
      ensures state == old(state).(customPrompt := text)
    {
      state := state.(customPrompt := text);
    }

    /** The language selector changes the display language only. */
    method SetLanguage(language: Language)
      modifies this
      ensures state == old(state).(language := language)
    {
      state := state.(language := language);
    }

    /** Validation passed: show the loading state with no result and no error. */
    method BeginLoading()
      modifies this
      ensures state == old(state).(isLoading := true, error := None, generatedImage := None)
    {
      state := state.(isLoading := true, error := None, generatedImage := None);
    }

    /** The service settled: store its result, or its error message. */
    method Complete(outcome: Outcome)
      modifies this
      ensures outcome.Generated? ==> state == old(state).(generatedImage := Some(outcome.dataUrl), isLoading := false)
      ensures outcome.Failed? ==> state == old(state).(isLoading := false,
        error := Some(if outcome.message != "" then outcome.message else GenerationFailed))
    {
      match outcome {
        case Generated(url) =>
          state := state.(generatedImage := Some(url), isLoading := false);
        case Failed(message) =>
          state := state.(isLoading := false, error := Some(if message != "" then message else GenerationFailed));
      }
    }

    /**
     * `handleGenerate`: on a validation failure set only the error and send
     * nothing; otherwise load, send the request built from the state as it was,
     * and settle with the result or the error. `request` is what was sent.
     */
    method Generate(server: seq<RequestPart> -> Reply) returns (request: Option<seq<RequestPart>>)
      modifies this
      ensures ValidationError(old(state)).Some? ==>
        request.None? && state == old(state).(error := ValidationError(old(state)))
      ensures ValidationError(old(state)).None? ==>
        && request == Some(RequestParts(old(state).image1.value, old(state).image2, old(state).mode, old(state).customPrompt))
        && state == Completed(Started(old(state)), Interpret(server(request.value)))
      ensures ValidationError(old(state)).None? ==>
        !state.isLoading && (state.generatedImage.Some? <==> state.error.None?)
    {
      JsText.TrimEmptyIffBlank(state.customPrompt);
      if !Truthy(state.image1) {
        state := state.(error := Some(Image1Missing));
        return None;
      }
      if RequiresTwoImages() && !Truthy(state.image2) {
        state := state.(error := Some(Image2Missing));
        return None;
      }
      if state.mode == CustomText && JsText.Trim(state.customPrompt) == "" {
        state := state.(error := Some(DescriptionMissing));
        return None;
      }
      var captured := state;
      BeginLoading();
      var outcome;
      request, outcome := GenerateImage(captured.mode, captured.image1, captured.image2, captured.customPrompt, server);
      Complete(outcome);
      AttemptSettlesExclusively(captured, outcome);
    }

    /** `handleDownload`: nothing without a result; otherwise a link to it named by the timestamp. */
    method Download(timestamp: nat) returns (link: Option<DownloadLink>)
      ensures !Truthy(state.generatedImage) ==> link.None?
      ensures Truthy(state.generatedImage) ==>
        link == Some(DownloadLink(state.generatedImage.value, DownloadFileName(timestamp)))
    {
      if Truthy(state.generatedImage) {
        link := Some(DownloadLink(state.generatedImage.value, DownloadFileName(timestamp)));
      } else {
        link := None;
      }
    }
  }
}
