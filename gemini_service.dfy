/**
 * The request builder and response extractor of the generation client
 * (services/geminiService.ts). The hosted model is not modelled: the caller
 * passes `server`, the reply the endpoint gives to each request.
 */
module GeminiService {
  import opened Wrappers
  import opened Types
  import JsText

  /** The media type every outbound image part is tagged with, whatever the upload's own type. */
  const JpegMimeType := "image/jpeg"

  /** The error thrown when the first image is missing. */
  const Image1Required := "Image 1 is required"

  /** The error thrown when the reply carries no inline image. */
  const NoImageGenerated := "No image generated. Please try again or adjust your prompt."

  const HugPastSelfPrompt := "Merge these two images photorealistically. The first image is the adult version, and the second image is the child version of the same person. Generate an image where the adult is warmly hugging the child. Preserve the facial features and identity of both exactly as they appear in the source images. High quality, emotional reunion."
  const CoupleKissPrompt := "Merge these two images into a romantic scene. The first image is a man and the second is a woman. Generate a photorealistic image of them kissing passionately. Preserve their facial features, hairstyles, and identities exactly. Cinematic lighting, high detail."
  const StandingTogetherPrompt := "Combine these two people into a single photorealistic image standing next to each other. Preserve the facial features, heights, and body types exactly as shown in the source images. Ensure the lighting and shadows match naturally."
  const ZooBackgroundPrompt := "Keep the person/subject in this image exactly the same, but change the background to a beautiful, vibrant zoo with lush nature and animals in the distance. Photorealistic, high quality."
  const SmoothFacePrompt := "Retouch the face in this image. Smooth the skin, remove blemishes, and improve lighting while keeping the person's identity and main features exactly the same. Professional beauty photography style."

  /** The text before and after the user's instruction in the custom-text prompt. */
  const CustomPromptPrefix := "Edit this image according to the following instruction: "
  const CustomPromptSuffix := ". Preserve the main subject's identity unless asked otherwise."

  /** One part of the outbound request. `data` is absent when the data URL had no comma. */
  datatype RequestPart =
    | ImagePart(data: Option<string>, mimeType: string)
    | TextPart(text: string)

  /** The inline image of a response part. */
  datatype InlineData = InlineData(mimeType: string, data: string)

  datatype ResponsePart = ResponsePart(inlineData: Option<InlineData>, text: Option<string>)

  datatype Content = Content(parts: Option<seq<ResponsePart>>)

  datatype Candidate = Candidate(content: Option<Content>)

  datatype Response = Response(candidates: Option<seq<Candidate>>)

  /** What the endpoint gives back: a response, or a transport failure with its message. */
  datatype Reply = Delivered(response: Response) | Rejected(message: string)

  /** What `generateImage` settles to: a data URL, or a thrown error's message. */
  datatype Outcome = Generated(dataUrl: string) | Failed(message: string)

  /** A data URL with the given media type and base64 payload: it starts with `data:` and ends with the payload. */
  function DataUrl(mimeType: string, data: string): (url: string)
    ensures "data:" <= url
    ensures |url| == |mimeType| + |data| + 13
    ensures url[|url| - |data|..] == data
    ensures url[5..5 + |mimeType|] == mimeType
    ensures url[5 + |mimeType|..|url| - |data|] == ";base64,"
  {
    "data:" + mimeType + ";base64," + data
  }

  /**
   * `dataUrl.split(',')[1]`: the text between the first and the second comma
   * (or the end), and undefined when there is no comma.
   */
  function StripBase64(dataUrl: string): (payload: Option<string>)
    ensures payload.Some? <==> ',' in dataUrl
    ensures payload.Some? ==> ',' !in payload.value
  {
    var pieces := JsText.Split(dataUrl, ',');
    if |pieces| > 1 then Some(pieces[1]) else None
  }

  /**
   * For a comma-free prefix `p` and a comma-free segment `d` followed by
   * nothing or by another comma, stripping keeps `d`.
   */
  lemma StripBase64Segment(p: string, d: string, rest: string)
    requires ',' !in p && ',' !in d
    requires rest == "" || rest[0] == ','
    ensures StripBase64(p + "," + d + rest) == Some(d)
  {
    if rest == "" {
      var pieces := [p, d];
      JsText.JoinCons(p, [d], ',');
      assert JsText.Join(pieces, ',') == p + "," + d + rest;
      JsText.SplitOfJoin(pieces, ',');
    } else {
      var tail := JsText.Split(rest[1..], ',');
      var pieces := [p, d] + tail;
      forall i | 0 <= i < |pieces| ensures ',' !in pieces[i] {
        if i >= 2 { assert pieces[i] == tail[i - 2]; }
      }
      JsText.JoinCons(d, tail, ',');
      assert [p, d] + tail == [p] + ([d] + tail);
      JsText.JoinCons(p, [d] + tail, ',');
      assert [','] + rest[1..] == rest;
      assert JsText.Join(pieces, ',') == p + "," + d + rest;
      JsText.SplitOfJoin(pieces, ',');
    }
  }

  /** Stripping a data URL built from a comma-free media type and payload gives back the payload. */
  lemma StripBase64OfDataUrl(mimeType: string, data: string)
    requires ',' !in mimeType && ',' !in data
    ensures StripBase64(DataUrl(mimeType, data)) == Some(data)
  {
    var p := "data:" + mimeType + ";base64";
    assert ',' !in p by {
      forall i | 0 <= i < |p| ensures p[i] != ',' {
        if 5 <= i < 5 + |mimeType| { assert p[i] == mimeType[i - 5]; }
      }
    }
    assert DataUrl(mimeType, data) == p + "," + data + "";
    StripBase64Segment(p, data, "");
  }

  /**
   * The five literal templates of the fixed modes. The clauses that use it
   * summarise the per-mode postconditions of `Prompt`, which already imply them.
   */
  const FixedPrompts: set<string> :=
    {HugPastSelfPrompt, CoupleKissPrompt, StandingTogetherPrompt, ZooBackgroundPrompt, SmoothFacePrompt}

  /**
   * The prompt text for a mode: a fixed mode sends its literal template, the
   * custom-text mode the user's text between the fixed prefix and suffix.
   */
  function Prompt(mode: AppMode, customPrompt: string): (p: string)
    ensures mode == HugPastSelf ==> p == HugPastSelfPrompt
    ensures mode == CoupleKiss ==> p == CoupleKissPrompt
    ensures mode == StandingTogether ==> p == StandingTogetherPrompt
    ensures mode == ZooBackground ==> p == ZooBackgroundPrompt
    ensures mode == SmoothFace ==> p == SmoothFacePrompt
    ensures mode != CustomText ==> p in FixedPrompts
    ensures mode == CustomText ==>
      && |p| == |CustomPromptPrefix| + |customPrompt| + |CustomPromptSuffix|
      && CustomPromptPrefix <= p
      && p[|CustomPromptPrefix|..|CustomPromptPrefix| + |customPrompt|] == customPrompt
  {
    match mode
    case HugPastSelf => HugPastSelfPrompt
    case CoupleKiss => CoupleKissPrompt
    case StandingTogether => StandingTogetherPrompt
    case ZooBackground => ZooBackgroundPrompt
    case SmoothFace => SmoothFacePrompt
    case CustomText => CustomPromptPrefix + customPrompt + CustomPromptSuffix
  }

  /** The five fixed modes send their own template whatever the user typed. */
  lemma FixedPromptIgnoresCustomText(mode: AppMode, text1: string, text2: string)
    requires mode != CustomText
    ensures Prompt(mode, text1) == Prompt(mode, text2)
    ensures Prompt(mode, text1) in FixedPrompts
    ensures Prompt(mode, text1) == match mode
      case HugPastSelf => HugPastSelfPrompt
      case CoupleKiss => CoupleKissPrompt
      case StandingTogether => StandingTogetherPrompt
      case ZooBackground => ZooBackgroundPrompt
      case _ => SmoothFacePrompt
  {
  }

  /**
   * The custom-text prompt carries the user's text verbatim between the fixed
   * prefix and suffix, so different texts give different prompts.
   */
  lemma CustomPromptEmbedsText(text: string)
    ensures var p := Prompt(CustomText, text);
      && |p| == |CustomPromptPrefix| + |text| + |CustomPromptSuffix|
      && p[..|CustomPromptPrefix|] == CustomPromptPrefix
      && p[|CustomPromptPrefix|..|CustomPromptPrefix| + |text|] == text
      && p[|CustomPromptPrefix| + |text|..] == CustomPromptSuffix
  {
  }

  lemma CustomPromptInjective(text1: string, text2: string)
    requires Prompt(CustomText, text1) == Prompt(CustomText, text2)
    ensures text1 == text2
  {
  }

  /**
   * The parts sent for a request whose first image is `image1`: the first
   * image, the second image only when `image2` is a non-empty string (whatever
   * the mode), then exactly one text part carrying the mode's prompt.
   */
  function RequestParts(image1: string, image2: Option<string>, mode: AppMode, customPrompt: string)
    : (parts: seq<RequestPart>)
    ensures |parts| == if Truthy(image2) then 3 else 2
    ensures parts[0] == ImagePart(StripBase64(image1), JpegMimeType)
    ensures Truthy(image2) ==> parts[1] == ImagePart(StripBase64(image2.value), JpegMimeType)
    ensures parts[|parts| - 1] == TextPart(Prompt(mode, customPrompt))
    ensures forall i :: 0 <= i < |parts| - 1 ==> parts[i].ImagePart? && parts[i].mimeType == JpegMimeType
  {
    [ImagePart(StripBase64(image1), JpegMimeType)]
    + (if Truthy(image2) then [ImagePart(StripBase64(image2.value), JpegMimeType)] else [])
    + [TextPart(Prompt(mode, customPrompt))]
  }

  /**
   * `response.candidates?.[0]?.content?.parts || []`: the parts of the first
   * candidate, and none when any link of that chain is missing.
   */
  function CandidateParts(response: Response): (parts: seq<ResponsePart>)
    ensures response.candidates.Some? && |response.candidates.value| > 0
      && response.candidates.value[0].content.Some?
      && response.candidates.value[0].content.value.parts.Some?
      ==> parts == response.candidates.value[0].content.value.parts.value
    ensures parts != [] ==>
      && response.candidates.Some? && |response.candidates.value| > 0
      && response.candidates.value[0].content.Some?
      && response.candidates.value[0].content.value.parts == Some(parts)
  {
    match response.candidates
    case None => []
    case Some(candidates) =>
      if |candidates| == 0 then []
      else match candidates[0].content
        case None => []
        case Some(content) =>
          match content.parts
          case None => []
          case Some(parts) => parts
  }

  /** Candidates after the first never influence the parts that are scanned. */
  lemma OnlyFirstCandidateRead(c: Candidate, others1: seq<Candidate>, others2: seq<Candidate>)
    ensures CandidateParts(Response(Some([c] + others1))) == CandidateParts(Response(Some([c] + others2)))
  {
  }

  /** Some part carries inline image data. */
  predicate HasInlineImage(parts: seq<ResponsePart>) {
    exists i :: 0 <= i < |parts| && parts[i].inlineData.Some?
  }

  /** `k` is the index of the first part that carries inline image data. */
  predicate FirstInlineAt(parts: seq<ResponsePart>, k: int) {
    && 0 <= k < |parts|
    && parts[k].inlineData.Some?
    && forall j :: 0 <= j < k ==> parts[j].inlineData.None?
  }

  /** The data URL of the first part, in order, that carries inline image data. */
  function FirstInlineImage(parts: seq<ResponsePart>): (image: Option<string>)
    ensures image.Some? <==> HasInlineImage(parts)
    ensures image.Some? ==> "data:" <= image.value
    decreases |parts|
  {
    if parts == [] then None
    else match parts[0].inlineData
      case Some(d) => Some(DataUrl(d.mimeType, d.data))
      case None =>
        var image := FirstInlineImage(parts[1..]);
        assert HasInlineImage(parts[1..]) ==> HasInlineImage(parts) by {
          if HasInlineImage(parts[1..]) {
            var i :| 0 <= i < |parts[1..]| && parts[1..][i].inlineData.Some?;
            assert parts[i + 1].inlineData.Some?;
          }
        }
        image
  }

  /** The scan returns exactly the first inline image: earlier parts are text, later parts are ignored. */
  lemma {:induction false} FirstInlineImageIsFirst(parts: seq<ResponsePart>, k: int)
    requires FirstInlineAt(parts, k)
    ensures FirstInlineImage(parts) == Some(DataUrl(parts[k].inlineData.value.mimeType, parts[k].inlineData.value.data))
    decreases k
  {
    if k > 0 {
      assert parts[0].inlineData.None?;
      assert FirstInlineAt(parts[1..], k - 1);
      FirstInlineImageIsFirst(parts[1..], k - 1);
    }
  }

  /**
   * The outcome of one delivered or rejected reply: a transport failure is
   * passed on unchanged; otherwise the first inline image of the first
   * candidate, or the no-image error.
   */
  function Interpret(reply: Reply): (outcome: Outcome)
    ensures reply.Rejected? ==> outcome == Failed(reply.message)
    ensures reply.Delivered? && !HasInlineImage(CandidateParts(reply.response)) ==> outcome == Failed(NoImageGenerated)
    ensures outcome.Generated? ==> reply.Delivered? && "data:" <= outcome.dataUrl
  {
    match reply
    case Rejected(message) => Failed(message)
    case Delivered(response) =>
      match FirstInlineImage(CandidateParts(response))
      case Some(url) => Generated(url)
      case None => Failed(NoImageGenerated)
  }

  /** A delivered reply whose scanned parts hold an image yields the first one. */
  lemma InterpretFirstImage(response: Response, k: int)
    requires FirstInlineAt(CandidateParts(response), k)
    ensures var d := CandidateParts(response)[k].inlineData.value;
      Interpret(Delivered(response)) == Generated(DataUrl(d.mimeType, d.data))
  {
    FirstInlineImageIsFirst(CandidateParts(response), k);
  }

  /** A reply with no candidates is the no-image error, not a crash. */
  lemma NoCandidatesNoImage()
    ensures Interpret(Delivered(Response(None))) == Failed(NoImageGenerated)
    ensures Interpret(Delivered(Response(Some([])))) == Failed(NoImageGenerated)
  {
  }

  /** A text part ahead of an image part is skipped, and the image comes back as a data URL. */
  lemma TextThenImage(note: string, mimeType: string, data: string)
    ensures var parts := [ResponsePart(None, Some(note)), ResponsePart(Some(InlineData(mimeType, data)), None)];
      Interpret(Delivered(Response(Some([Candidate(Some(Content(Some(parts))))])))) == Generated(DataUrl(mimeType, data))
  {
    var parts := [ResponsePart(None, Some(note)), ResponsePart(Some(InlineData(mimeType, data)), None)];
    InterpretFirstImage(Response(Some([Candidate(Some(Content(Some(parts))))])), 1);
  }

  /**
   * The `for…of` loop of `generateImage`: walk the parts in order and return
   * the first inline image as a data URL, or nothing.
   */
  method ScanForImage(parts: seq<ResponsePart>) returns (image: Option<string>)
    ensures image == FirstInlineImage(parts)
  {
    var i := 0;
    while i < |parts|
      invariant 0 <= i <= |parts|
      invariant FirstInlineImage(parts[i..]) == FirstInlineImage(parts)
    {
      if parts[i].inlineData.Some? {
        var d := parts[i].inlineData.value;
        return Some(DataUrl(d.mimeType, d.data));
      }
      assert parts[i..][1..] == parts[i + 1..];
      i := i + 1;
    }
    return None;
  }

  /**
   * `generateImage`: refuse a missing first image before building anything;
   * otherwise build the parts, send them, and scan the first candidate's parts
   * for the first inline image. `request` is what was sent, if anything.
   */
  method GenerateImage(
    mode: AppMode, img1: Option<string>, img2: Option<string>, customPrompt: string,
    server: seq<RequestPart> -> Reply)
    returns (request: Option<seq<RequestPart>>, outcome: Outcome)
    ensures !Truthy(img1) ==> request.None? && outcome == Failed(Image1Required)
    ensures Truthy(img1) ==> request == Some(RequestParts(img1.value, img2, mode, customPrompt))
    ensures Truthy(img1) ==> outcome == Interpret(server(request.value))
  {
    if !Truthy(img1) {
      return None, Failed(Image1Required);
    }
    var parts: seq<RequestPart> := [];
    parts := parts + [ImagePart(StripBase64(img1.value), JpegMimeType)];
    if Truthy(img2) {
      parts := parts + [ImagePart(StripBase64(img2.value), JpegMimeType)];
    }
    var prompt := "";
    match mode {
      case HugPastSelf => prompt := HugPastSelfPrompt;
      case CoupleKiss => prompt := CoupleKissPrompt;
      case StandingTogether => prompt := StandingTogetherPrompt;
      case ZooBackground => prompt := ZooBackgroundPrompt;
      case SmoothFace => prompt := SmoothFacePrompt;
      case CustomText => prompt := CustomPromptPrefix + customPrompt + CustomPromptSuffix;
    }
    assert prompt == Prompt(mode, customPrompt);
    parts := parts + [TextPart(prompt)];
    assert parts == RequestParts(img1.value, img2, mode, customPrompt);
    request := Some(parts);

    match server(parts) {
      case Rejected(message) =>
        outcome := Failed(message);
      case Delivered(response) =>
        var image := ScanForImage(CandidateParts(response));
        match image {
          case Some(url) => outcome := Generated(url);
          case None => outcome := Failed(NoImageGenerated);
        }
    }
  }
}
