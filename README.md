# Virtual Try-On Studio — a verified model of its session logic

Virtual Try-On Studio is a small web app. The user uploads a photo of themselves and a photo of a
garment. The app sends both to an image-generation backend, shows the composited picture and
offers it for download. This project models the three pieces of that app that have exact
behaviour, and proves properties of them:

- **Session** (`App.tsx`). The five state fields of the `App` component are `userImage`,
  `garmentImage`, `resultImage`, `isLoading` and `error`. They become the fields of the class
  `Session.App`. Each handler is a method: the two uploads, reset, and the try-on handler. The
  try-on handler is split at its `await` into `VirtualTryOnStart` and `VirtualTryOnSettle`.
  `HandleVirtualTryOn` runs start, service call and settle back to back. The outcome of each
  file read is an input (`FileRead`). A ghost field `pending` counts the try-on calls that have
  been started but not settled. The invariant `Valid()` says loading is on only while such a
  call exists.
- **Codec** (`App.tsx:27`). `fileToBase64` keeps `result.split(',')[1]` of the FileReader's
  data URL. `Split` is JavaScript's `split` for one separator character. `Join` undoes
  `Split`, and `Split` undoes `Join` on separator-free segments; every segment is
  separator-free. `Payload` is proved to be the
  comma-free text right after the first comma. For `header + "," + payload` with no other
  comma, it is exactly the payload.
- **GeminiService** (`services/geminiService.ts`). `virtualTryOn` fails when no API key is
  given. Otherwise it builds a three-part request: user image, garment image, fixed instruction.
  It asks for image output only. It hands the request to the backend and scans the parts of the
  first candidate for inline data. The backend is a function parameter. The scan is a loop
  (`ExtractImage`) proved equal to the reference `FirstInlineData`. A lemma proves that
  `FirstInlineData` returns the first inline part and skips all earlier parts.
- **ResultDisplay** (`components/ResultDisplay.tsx`). This is the three-way pane choice. It
  also covers when the download button is visible and what a download produces.

JavaScript truthiness is modelled where the code relies on it. An API key is missing when it
is absent or the empty string. A `resultImage` that is the empty string counts as no result
both for the pane and for the download button.

Points of the code's behaviour that the model keeps as they are:

- Reset does not wait for a pending call. It turns `isLoading` off at once, so after two new
  uploads the button is enabled again and a second call starts while the first is still in
  flight. `Session.ResetDuringGeneration` builds exactly that run. When the first call settles
  later, it writes its result (or error) into the reset session: `VirtualTryOnSettle` does not
  look at what happened in between.
- Try-on (App.tsx:57) and reset (App.tsx:76) clear the error. A successful upload keeps an
  earlier one (App.tsx:35, 44).
- Any non-empty API key, a placeholder included, is passed to the backend. Only an absent or
  empty key fails early.

## Model

| member | source | states |
|---|---|---|
| `Codec.Split` | App.tsx:27 | `split` gives at least one segment, and exactly one iff the separator does not occur |
| `Codec.JoinSplit` | App.tsx:27 | joining the segments with the separator gives back the original string |
| `Codec.SplitJoin` | App.tsx:27 | splitting the join of separator-free segments gives back exactly those segments |
| `Codec.SegmentsExcludeSeparator` | App.tsx:27 | no segment of the split contains the separator |
| `Codec.FirstSegment` | App.tsx:27 | the first segment is the longest separator-free prefix, and the other segments are the split of the remainder after the first separator |
| `Codec.SplitWithoutSeparator` | App.tsx:27 | a string without the separator splits into itself alone |
| `Codec.SplitAtFirstSeparator` | App.tsx:27 | a separator-free head, a separator, then any tail split into the head followed by the split of the tail |
| `Codec.SplitHeaderPayload` | App.tsx:27 | `header + sep + payload`, both free of the separator, splits into exactly `[header, payload]` |
| `Codec.Payload` | App.tsx:27 | `split(',')[1]` is comma-free, starts right after the first comma and runs up to the next comma or the end |
| `Codec.PayloadOfDataUrl` | App.tsx:27 | for a data URL `header,payload` with a comma-free header and payload, the stored base64 is exactly the payload |
| `Session.FileToBase64` | App.tsx:23-30 | a rejected read gives no payload; a loaded one gives a comma-free payload |
| `Session.ResultDataUrl` | App.tsx:63 | the stored result `data:image/png;base64,<payload>` is non-empty and holds a comma |
| `Session.ResultDataUrlRoundTrip` | App.tsx:63 | taking the payload of the stored result URL gives back the generated comma-free payload |
| `Session.Dispatch` | App.tsx:62 | the call passes user base64 and `file.type` before the garment's, and the request built from it carries the user image, then the garment image, each unchanged |
| `Session.App.constructor` | App.tsx:17-21 | both slots and the result are null, loading is off, there is no error, nothing is in flight |
| `Session.App.TryOnDisabled` | App.tsx:110 | the button is disabled iff a slot is empty or loading is on; while it is enabled the result pane is not the loading skeleton (and `VirtualTryOnStart` shows that pressing it dispatches a call and disables it) |
| `Session.App.UploadUserImage` | App.tsx:32-39 | a loaded read sets the user slot to `{file, payload}` and leaves the error unchanged; a failed read sets "Failed to load user image." and leaves the slot unchanged; garment, result and loading never change |
| `Session.App.UploadGarmentImage` | App.tsx:41-48 | a loaded read sets the garment slot to `{file, payload}` and leaves the error unchanged; a failed read sets "Failed to load garment image." and leaves the slot unchanged; user, result and loading never change |
| `Session.App.VirtualTryOnStart` | App.tsx:50-62 | with a slot empty it only sets "Please upload both your photo and a garment photo." and makes no call; otherwise loading is on, the error and result are cleared, the loading skeleton shows, the button is disabled, and the call passes user base64 and type before garment base64 and type; the handler ignores `isLoading`, and every state in which the button is enabled dispatches |
| `Session.App.VirtualTryOnSettle` | App.tsx:62-69 | success stores `data:image/png;base64,` + payload, which the result pane then shows with the download button; failure sets "Failed to generate the try-on image. The AI model might be busy. Please try again."; loading is off after either; slots are unchanged |
| `Session.App.Reset` | App.tsx:72-78 | from any state both slots, result and error end up null and loading off |
| `Session.App.HandleVirtualTryOn` | App.tsx:50-70 | a full run without interleaving: with both photos and a key, the backend gets the key and the request built from the user photo then the garment, and the outcome is its rejection or the first inline data of its response; a missing key surfaces as a failed generation; success leaves that result and no error; failure leaves no result and the generation error; loading is off afterwards |
| `Session.ResetDuringGeneration` | App.tsx:50-78 | a reset during generation re-enables the button after new uploads, so two calls are in flight at once |
| `GeminiService.BuildRequest` | services/geminiService.ts:11-38 | exactly three parts in the order user image, garment image, text: the images are the caller's data and media types unchanged, user first; the third part is the fixed instruction and is the only text; model `gemini-2.5-flash-image`; response modalities exactly `[IMAGE]` |
| `GeminiService.FirstInlineDataIsFirst` | services/geminiService.ts:41-47 | the scan finds nothing iff no part has inline data; otherwise it returns the data of a part with inline data before which no part has any |
| `GeminiService.FirstInlineDataSkipsLeadingParts` | services/geminiService.ts:41-45 | leading parts without inline data (text parts) do not change what is found |
| `GeminiService.FirstInlineDataIgnoresLaterParts` | services/geminiService.ts:42-44 | the scan returns at the first inline part, so parts after it do not matter |
| `GeminiService.ExtractImage` | services/geminiService.ts:41-47 | the `for…of` loop returns the first inline data, or fails with the error whose text (`Message`) is "Could not extract image from Gemini response." when there is none |
| `GeminiService.OnlyFirstCandidateRead` | services/geminiService.ts:41 | candidates after the first are ignored |
| `GeminiService.MissingFieldsReadAsNoParts` | services/geminiService.ts:41 | missing candidates, a missing first candidate, content or parts read as an empty part list |
| `GeminiService.ResponseParts` | services/geminiService.ts:41 | when the first candidate has content with a part list, exactly that list is read; any non-empty list read comes from there |
| `GeminiService.VirtualTryOn` | services/geminiService.ts:5-48 | the missing-key error is reported exactly when the key is absent or empty (`Options.Truthy` fails), whatever the backend, with the text (`Message`) "API_KEY environment variable is not set."; otherwise the backend gets the key and the built request, its rejection is passed on, and a response yields the first inline data of the first candidate's parts or the extraction error |
| `ResultDisplay.SelectPane` | components/ResultDisplay.tsx:51-57 | the skeleton shows exactly while loading, whatever the result; the result image shows exactly when the download button is visible, with the result string itself as source, and that same string is what the download links to; otherwise the placeholder |
| `ResultDisplay.DownloadVisible` | components/ResultDisplay.tsx:47-58 | the download button is rendered exactly when nothing is loading and `handleDownload` would download something |
| `ResultDisplay.Download` | components/ResultDisplay.tsx:36-45 | a null or empty result makes the download a no-op; otherwise the link's `href` is the result and its filename is `generated-image.png` |

## Left out

- The backend call itself is not modelled: the `GoogleGenAI` client, `generateContent` and the generative model (services/geminiService.ts:9, 30-38). The backend is the parameter `generate` of `VirtualTryOn`, from key and request to a response or a rejection. The model cannot say what the backend returns.
- `FileReader` (App.tsx:24-29) is browser I/O. Its outcome is the input `FileRead`.
- `Session.FileToBase64`: assumes that a loaded read is a data URL holding a comma (`Codec.DataUrl`). A result without a comma, which some browsers are reported to give for an empty file (`data:`), makes `split(',')[1]` `undefined` in the source. The model does not cover that case.
- The base64 encoding of the file bytes is done by the browser. So encode-then-decode preserving the bytes is not stated.
- React's scheduling, re-rendering and `useCallback` closure capture (App.tsx:50, 70) are not modelled. The start and settle steps stand in for the single await.
- Nothing enforces that an upload's read finishes within one step. Starting a read changes no state, so the model keeps only its completion.
- `console.error` on a failed generation (App.tsx:65) is logging only.
- The preview URLs from `URL.createObjectURL` (App.tsx:91, 97) are browser side effects, and so is the creation, click and removal of the download link (components/ResultDisplay.tsx:39-44). `Download` gives the link's `href` and filename instead.
- components/ImageUploader.tsx only forwards the first picked file and picks an icon. Its `accept` filter is advisory.
- The header, the SVGs, the styling, the text of the loading skeleton and the rendering of the error text are presentation only. The `loadingText` prop that `App` does not pass is a typing issue.
- `HandleVirtualTryOn`: does not cover interleavings. Uploads or resets during the await are covered only by calling `VirtualTryOnStart` and `VirtualTryOnSettle` separately.
