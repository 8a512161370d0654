# Fusion AI client: request builder, response extractor and controller

A Dafny model of the logic core of a browser client that merges or edits
photos through a hosted image-generation model. The user uploads one or two
photos, picks one of six modes (hug past self, couple kiss, standing
together, zoo background, smooth face, custom text) and presses generate.
The client validates its state, builds an ordered list of request parts
(image 1, an optional image 2, one prompt text), sends it, and takes the
first inline image of the first candidate of the reply as the result.

Four modules follow the source files (`Types`, `Constants`, `GeminiService`, `AppController`); two hold wrappers and the JavaScript built-ins the core uses (`Wrappers`, `JsText`):

- `Wrappers` (`wrappers.dfy`): `Option` for `T | null` / `undefined`, and JavaScript truthiness of a `string | null`.
- `JsText` (`js_text.dfy`): the JavaScript built-ins the core relies on: `split(',')` (with `Join` as its inverse), `trim()` with the ECMAScript whitespace set written out, and the decimal rendering of a timestamp.
- `Types` (`types.dfy`): `Language`, `AppMode`, `Translation` and the `AppState` record (types.ts).
- `Constants` (`constants.dfy`): the `MODE_CONFIG` and `TRANSLATIONS` tables (constants.ts).
- `GeminiService` (`gemini_service.dfy`): `stripBase64`, the prompt switch, the request parts and the reply scan (services/geminiService.ts). `GenerateImage` is imperative like the source: it appends parts one by one, assigns the prompt in a `match`, and scans the reply parts with an early return. That loop is the method `ScanForImage`, proved against the recursive specification `FirstInlineImage`.
- `AppController` (`app.dfy`): class `App` holds one `state: AppState` field, as the component holds one `useState<AppState>`. Each handler replaces it by a record update, as `setState(prev => ({ ...prev, ... }))` does.

The network is a parameter: `server: seq<RequestPart> -> Reply` gives the endpoint's reply to a request. The reply is either a `Response` or a transport failure with a message. `GenerateImage` and `App.Generate` also return the request they sent, or `None` when nothing was sent.

In these places the model follows the code's exact JavaScript behaviour:

- The image checks use JavaScript truthiness. An empty string in a slot counts as missing (`!img1Base64`, `!state.image1`), and an empty second image is not sent (`if (img2Base64)`). The model uses `Truthy` for all of these.
- `split(',')[1]` keeps the text between the first and second comma. It is `undefined` when there is no comma. An image part's `data` is therefore an `Option`.
- Every outbound image is tagged `image/jpeg`, whatever its own media type.
- A validation failure only sets `error`. A result from an earlier attempt stays set beside the new error (`ValidationErrorKeepsPreviousResult`). The "exactly one of result and error" property holds after every attempt that passed validation (`AttemptSettlesExclusively`, `App.Generate`).
- `reader.onloadend` also fires after a failed or aborted read, and then `reader.result` is null. A failed or aborted read stores null in its slot and clears the error, so the failure is never reported. The uploader offers its file input only for an empty slot, so a slot that already holds an image is emptied this way only when a second read of the same slot fails after the first one filled it. `App.UploadCompleted` takes the reader's result as an `Option` for this reason.
- Selecting a one-image mode keeps a second image uploaded earlier, and that image is still sent (`StaleSecondImageSent`).

## Model

| member | source | states |
|---|---|---|
| `JsText.Split` | services/geminiService.ts:7 | `split` yields at least one piece. No piece contains the separator, joining the pieces gives the input back, and there is one piece exactly when the separator does not occur |
| `JsText.SplitOfJoin` | services/geminiService.ts:7 | splitting the join of separator-free pieces gives the pieces back |
| `JsText.TrimStart` | App.tsx:42 | the result is a suffix of the input, only whitespace was dropped, and it does not start with whitespace |
| `JsText.TrimEnd` | App.tsx:42 | the result is a prefix of the input, only whitespace was dropped, and it does not end with whitespace |
| `JsText.Trim` | App.tsx:42 | `trim()` removes a whitespace-only prefix and a whitespace-only suffix and keeps the contiguous middle, which neither starts nor ends with whitespace |
| `JsText.TrimKeepsMiddle` | App.tsx:42 | removing leading then trailing whitespace removes only blank ends of the original text |
| `JsText.TrimEmptyIffBlank` | App.tsx:42 | `trim()` gives the empty string exactly when the text is empty or whitespace only |
| `JsText.DecimalString` | App.tsx:61 | the timestamp is rendered as a non-empty string of decimal digits with no leading zero (except for 0) |
| `JsText.DecimalRoundTrip` | App.tsx:61 | reading back the decimal rendering of a number gives the number |
| `JsText.DecimalStringInjective` | App.tsx:61 | different numbers have different decimal renderings |
| `Types.AllModesListed` | types.ts:3-10 | the six modes are all the modes there are |
| `Types.AllLanguagesListed` | types.ts:1 | `en`, `ar` and `fa` are all the languages there are |
| `Constants.ModeConfig` | constants.ts:68-75 | every mode has an entry. Hug, kiss and standing-together require two images; zoo, smooth-face and custom-text do not |
| `Constants.EnglishLabels` | constants.ts:4-23 | the English table labels every mode with a non-empty label |
| `Constants.ArabicLabels` | constants.ts:24-43 | the Arabic table labels every mode with a non-empty label |
| `Constants.FarsiLabels` | constants.ts:44-63 | the Farsi table labels every mode with a non-empty label |
| `Constants.Translations` | constants.ts:3-64 | every language has a label set, and `modes[mode]` is defined and non-empty for every language and mode |
| `GeminiService.DataUrl` | services/geminiService.ts:77 | the URL is `data:`, then the media type, then `;base64,`, then the payload, with exactly that length |
| `GeminiService.StripBase64` | services/geminiService.ts:7 | a payload exists exactly when the data URL contains a comma, and it contains no comma |
| `GeminiService.StripBase64Segment` | services/geminiService.ts:7 | for `p + "," + d` followed by nothing or another comma, with `p` and `d` comma-free, the result is `d` |
| `GeminiService.StripBase64OfDataUrl` | services/geminiService.ts:77 | stripping `data:<m>;base64,<d>` with comma-free `m` and `d` gives back `d` |
| `GeminiService.Prompt` | services/geminiService.ts:39-60 | each fixed mode sends its own literal template. The custom prompt is the fixed prefix, the user's text verbatim and the fixed suffix, with exactly that length |
| `GeminiService.FixedPromptIgnoresCustomText` | services/geminiService.ts:41-56 | each fixed mode's prompt is that mode's own literal template and does not depend on the user's text |
| `GeminiService.CustomPromptEmbedsText` | services/geminiService.ts:57-58 | the custom prompt is the fixed prefix, then the user's text verbatim, then the fixed suffix |
| `GeminiService.CustomPromptInjective` | services/geminiService.ts:57-58 | different user texts give different custom prompts |
| `GeminiService.RequestParts` | services/geminiService.ts:19-62 | the parts are image 1, then image 2 only when a non-empty second image is given (whatever the mode), then exactly one text part last. The length is 2 or 3, and every image part is tagged `image/jpeg` |
| `GeminiService.CandidateParts` | services/geminiService.ts:75 | when the first candidate's content has parts, exactly those parts are scanned; otherwise none are |
| `GeminiService.OnlyFirstCandidateRead` | services/geminiService.ts:75 | candidates after the first never change the parts that are scanned |
| `GeminiService.FirstInlineImage` | services/geminiService.ts:75-79 | the scan finds an image exactly when some part carries inline data, and the result is a `data:` URL |
| `GeminiService.FirstInlineImageIsFirst` | services/geminiService.ts:75-78 | the result is built from the first part with inline data as `data:<mime>;base64,<data>`; earlier and later parts are ignored |
| `GeminiService.ScanForImage` | services/geminiService.ts:75-79 | the loop returns the data URL of the first part with inline data, or nothing, exactly as `FirstInlineImage` |
| `GeminiService.Interpret` | services/geminiService.ts:64-86 | a transport failure is re-thrown unchanged. A reply with no inline image is "No image generated. Please try again or adjust your prompt.". A result is always a `data:` URL |
| `GeminiService.InterpretFirstImage` | services/geminiService.ts:75-78 | a delivered reply yields the first inline image of its first candidate |
| `GeminiService.NoCandidatesNoImage` | services/geminiService.ts:75-82 | a reply with no or empty candidates is the no-image error |
| `GeminiService.TextThenImage` | services/geminiService.ts:75-78 | a text part before an image part is skipped and the image is returned |
| `GeminiService.GenerateImage` | services/geminiService.ts:9-88 | a missing first image fails with "Image 1 is required" and sends nothing. Otherwise exactly `RequestParts` is sent, and the outcome is the interpretation of the reply |
| `AppController.ValidationError` | App.tsx:33-45 | the ordered checks: first image missing; else second image missing in a two-image mode; else a blank description in custom-text mode. Validation passes exactly when none applies |
| `AppController.Started` | App.tsx:47 | loading is on, error and result are cleared, and every other field keeps its value |
| `AppController.Completed` | App.tsx:51-53 | loading is off. Success stores the result and keeps the error. Failure keeps the result and stores the message, or "Failed to generate image." when the message is empty. Nothing else changes |
| `AppController.AttemptSettlesExclusively` | App.tsx:47-54 | after loading and settling, loading is off and exactly one of result and error is set, non-empty. Nothing else changes |
| `AppController.ValidationErrorKeepsPreviousResult` | App.tsx:34-45 | a validation failure leaves an earlier result in place beside the new error |
| `AppController.StaleSecondImageSent` | App.tsx:50 | in a one-image mode, a second image still in its slot is sent as the second part |
| `AppController.DownloadFileName` | App.tsx:61 | the file name is `fusion-ai-`, then decimal digits whose value is the timestamp, then `.jpg` |
| `AppController.DownloadFileNameInjective` | App.tsx:61 | different timestamps give different file names |
| `AppController.App.constructor` | App.tsx:9-18 | the page starts with empty slots, no result, no error, not loading, hug mode, empty prompt, Arabic |
| `AppController.App.IsRTL` | App.tsx:21 | the layout is right-to-left exactly when the language is not English (Arabic or Farsi) |
| `AppController.App.RequiresTwoImages` | App.tsx:22 | the selected mode needs two images exactly when it is hug, kiss or standing-together |
| `AppController.App.ModeLabel` | App.tsx:145 | every mode button has a non-empty label in the selected language |
| `AppController.App.UploadCompleted` | App.tsx:25-31 | a finished read writes the reader's result (the data URL, or null after a failed read) into the addressed slot only and clears the error |
| `AppController.App.ClearSlot` | App.tsx:158-168 | clearing a slot empties that slot only |
| `AppController.App.SelectMode` | App.tsx:138 | selecting a mode sets the mode and clears the error. Both slots are kept |
| `AppController.App.SetCustomPrompt` | App.tsx:179 | typing replaces the custom prompt only |
| `AppController.App.SetLanguage` | App.tsx:86 | choosing a language changes the language only |
| `AppController.App.BeginLoading` | App.tsx:47 | before the call: loading, no error, no result |
| `AppController.App.Complete` | App.tsx:51-53 | on success the result is stored and loading ends. On failure loading ends and the error is the message, or "Failed to generate image." when the message is empty |
| `AppController.App.Generate` | App.tsx:33-55 | on a validation failure only the error changes and nothing is sent. Otherwise the request built from the state is sent, and the state becomes loading then settled. After that, loading is off and exactly one of result and error is set |
| `AppController.App.Download` | App.tsx:57-66 | there is no link without a result. Otherwise the link points at the result and is named `fusion-ai-<timestamp>.jpg` |

## Left out

- The `GoogleGenAI` client, the model identifier and the API key read (services/geminiService.ts:1-4, 17, 65-70). This is a network call. It is the `server` parameter.
- `console.error` in the catch block (services/geminiService.ts:85). It is a side effect; the error is re-thrown unchanged, as modelled.
- `FileReader.readAsDataURL` (App.tsx:26-30). This is browser I/O and base64 encoding. An upload is modelled as its completion event, carrying the reader's result: an opaque data-URL string, or null.
- The DOM anchor, `click()` and `Date.now()` in `handleDownload` (App.tsx:59-64). `Download` returns the link it would click, and the timestamp is a parameter.
- JSX rendering, styling and SVG markup (App.tsx:68-213), and the `ImageUploader` and `LanguageSelector` widgets. The widgets only forward the first chosen file or the clicked language, and `UploadCompleted` and `SetLanguage` model those callbacks.
- Asynchrony: React's batching of `setState`, the `state` closure captured by `handleGenerate`, and the generate button disabled while loading (App.tsx:189). The model runs one generate at a time, sequentially, and passes the state as it was before loading to the service, as the closure does.
- `INSTAGRAM_LINK` (constants.ts:66). It is presentation only.
- GeminiService.Interpret: the inline data's `mimeType` and `data` are modelled as strings. The case where the SDK omits one of them, which a template literal would render as `undefined`, is not modelled.
- JsText.DecimalString: a JavaScript number at or above 10^21 would be rendered with an exponent. Timestamps never get there, so the model renders every natural number in decimal.
- JsText.IsJsWhitespace: the Unicode space-separator set is fixed at its current members. Strings are sequences of Unicode scalar values rather than UTF-16 code units, which makes no difference to the operations modelled.
