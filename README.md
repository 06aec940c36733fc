# Upload pipeline and generation route, modelled in Dafny

This project models the two decision cores of the "yacht photo" web page:

- **The photo upload button** (`src/components/upload-photo-button.tsx`). A
  selected file is accepted only if its lower-cased media type is one of
  `image/jpeg`, `image/jpg`, `image/png`, `image/webp`, `image/heic` and
  `image/heif`, and it is at most 10 MiB. HEIC/HEIF files are converted to JPEG.
  The image is then downscaled on a canvas when its longer side exceeds 2048
  pixels. The size ceiling is checked again on the processed image. Only then
  is the result written, as a data URL, to the session-storage slot
  `userUploadDataUrl`, and a `user-uploaded-photo` event is dispatched. A reset
  removes the slot. An `isBusy` flag covers every run that got past validation.
- **The generation route** (`src/app/api/generate/route.ts`). The body either
  fails to parse (400, `Invalid JSON`), or has no truthy `imageUrl` (400,
  `imageUrl is required`), or has its `imageUrl` echoed back in `{ok: true,
  received: {imageUrl}}`.

Layout:

- `wrappers.dfy`: module `Wrappers`, the `Option` type.
- `upload_rules.dfy`: module `UploadRules`, the pure rules of the upload
  button. It holds the allow-list and size check, the target media type, and
  the downscale size rule in exact real arithmetic. It also holds
  `DownscaleViaCanvas` and `OnChangeOutcome`, two specification functions over
  a `Platform`. A `Platform` bundles the browser operations the pipeline calls:
  FileReader, image decoding, the HEIC converter, canvas export and
  `sessionStorage.setItem`. Each one is a total function, and `None` stands for
  a rejected promise or a thrown exception.
- `upload_button.dfy`: module `UploadButton`. It holds class `Uploader`, with
  the slot, `isBusy` and `hasUpload` as fields, a count of dispatched
  notifications, and a ghost log of every value written to `isBusy`.
  `OnChange` reassigns `blobToStore` step by step, as the source does, and is
  proved equal to `OnChangeOutcome`.
- `generate_route.dfy`: module `GenerateRoute`. It holds a JSON value type,
  `Post`, an independent classification `Decide`, and a client-side reading
  `ReadResponse`. The round trip `ReadResponse(Post(x)) == Some(Decide(x))`
  shows that every request gets exactly one of the three answers.

The route's source is a stub that echoes `imageUrl`. It does not compose a
prompt, fetch images or call a model. The model follows the code, so none of
those steps appear here. For the same reason there is no `Prompt is required`
answer and no structured error with a correlation id.

## Model

| member | source | states |
|---|---|---|
| `UploadRules.LowerChar` | src/components/upload-photo-button.tsx:134 | an upper-case ASCII letter becomes its own lower-case letter (code point plus 32); every other character is kept |
| `UploadRules.Lower` | src/components/upload-photo-button.tsx:134 | the lower-cased type has no upper-case ASCII letter and equals the declared type up to letter case, which determines it uniquely |
| `UploadRules.LowerIgnoresCase` | src/components/upload-photo-button.tsx:134 | two strings equal up to ASCII letter case have the same lower-case form |
| `UploadRules.TypeChecksIgnoreCase` | src/components/upload-photo-button.tsx:134-150 | for all declared types equal up to letter case, the allow-list verdict is the same and the HEIC/HEIF verdict is the same |
| `UploadRules.LowerIdempotent` | src/components/upload-photo-button.tsx:134 | lower-casing an already lower-cased type changes nothing |
| `UploadRules.SelectionCheckSpec` | src/components/upload-photo-button.tsx:126-135 | a file passes the first check iff its lower-cased type is one of the six listed types and its size is at most 10485760 bytes |
| `UploadRules.SelectionCheckExamples` | src/components/upload-photo-button.tsx:126-135 | exactly 10 MiB passes and one byte more fails; 11 MiB fails; `IMAGE/HEIC` passes (case-insensitive); `image/bmp` and the empty type fail |
| `UploadRules.RejectedIffCheckFails` | src/components/upload-photo-button.tsx:136-142 | `onChange` ends in `Rejected` iff the check fails, and a rejection is the same on every platform, because no browser operation is consulted |
| `UploadRules.TargetMimeTypeOfAllowed` | src/components/upload-photo-button.tsx:148-163 | for an accepted type, HEIC/HEIF (after lower-casing) map to `image/jpeg`, and every other accepted type keeps its declared type unchanged; the target is itself accepted and never HEIC/HEIF |
| `UploadRules.HeicIsAllowed` | src/components/upload-photo-button.tsx:126-150 | every type treated as HEIC/HEIF is also on the allow-list |
| `UploadRules.Scale` | src/components/upload-photo-button.tsx:46-47 | the scale lies in [0, 1] and equals 1 exactly when the longer side is at most the maximum dimension |
| `UploadRules.ScaledSide` | src/components/upload-photo-button.tsx:51-52 | a rounded, scaled side is never below 1 |
| `UploadRules.PlanKeepsIff` | src/components/upload-photo-button.tsx:44-49 | the plan keeps the original iff a side is 0 or the longer side is at most the maximum dimension |
| `UploadRules.ScaledSideAtMostSide` | src/components/upload-photo-button.tsx:51-52 | a factor below 1 never lengthens a positive side after rounding |
| `UploadRules.ScaledSideMonotone` | src/components/upload-photo-button.tsx:51-52 | scaling and rounding preserve the order of two sides |
| `UploadRules.ScaledLongerSide` | src/components/upload-photo-button.tsx:46-52 | the longer side, scaled by maxDimension/maxSide, becomes exactly maxDimension |
| `UploadRules.ScaledShorterSide` | src/components/upload-photo-button.tsx:46-52 | any side no longer than the longer side ends at most at maxDimension |
| `UploadRules.ResizeBounds` | src/components/upload-photo-button.tsx:46-52 | when resizing happens, each target side is between 1 and its original side, the longer target side is exactly maxDimension, and orientation is kept |
| `UploadRules.DownscaleReturnsInput` | src/components/upload-photo-button.tsx:42-58 | after a successful read and decode, the input blob is returned unchanged when a side is 0, when the longer side is at most maxDimension, or when there is no 2D context |
| `UploadRules.DownscaleRendersPlannedSize` | src/components/upload-photo-button.tsx:51-76 | otherwise the result is the canvas export at the planned size in the requested type (JPEG when empty), and that size obeys the resize bounds |
| `UploadRules.AlertsTellFailuresApart` | src/components/upload-photo-button.tsx:136-206 | every outcome shows an alert except a missing file and a successful store; the message for an original file over 10 MiB differs from the one for a processed image over 10 MiB |
| `UploadRules.OnlyHeicIsConverted` | src/components/upload-photo-button.tsx:148-160 | for a non-HEIC file, the outcome does not depend on the HEIC converter at all |
| `UploadRules.HeicGoesThroughJpeg` | src/components/upload-photo-button.tsx:148-168 | a HEIC/HEIF file whose conversion fails ends in a processing failure; otherwise the converted blob is downscaled with target type `image/jpeg` |
| `UploadRules.SmallImageStoredAsIs` | src/components/upload-photo-button.tsx:151-195 | a non-HEIC file whose longer side is at most 2048 is itself the processed blob, and it is stored unless storage refuses its data URL |
| `UploadRules.StoredImpliesChecksPassed` | src/components/upload-photo-button.tsx:170-195 | a stored data URL comes from a file that passed the check, whose processed blob is at most 10 MiB and reads into exactly that URL, and that storage accepted |
| `UploadRules.OversizeAbortsBeforeStore` | src/components/upload-photo-button.tsx:170-176 | a processed blob over 10 MiB ends the run as `TooLargeAfterProcessing` |
| `UploadButton.LabelReflectsState` | src/components/upload-photo-button.tsx:222-227 | the label is "Uploading..." iff busy, "Reset" iff idle with an upload, "Upload your photo" iff idle without one; a click resets iff an upload exists |
| `UploadButton.Uploader.constructor` | src/components/upload-photo-button.tsx:88-109 | mounting starts idle, with `hasUpload` synced to the stored slot and no notifications |
| `UploadButton.Uploader.Sync` | src/components/upload-photo-button.tsx:98-105 | the listener sets `hasUpload` to whether the slot holds a non-empty string |
| `UploadButton.Uploader.Notify` | src/components/upload-photo-button.tsx:106-116 | a dispatch counts one notification and re-syncs `hasUpload` with the slot |
| `UploadButton.Uploader.SetBusy` | src/components/upload-photo-button.tsx:144 | writing `isBusy` appends the written value to the log of writes |
| `UploadButton.Uploader.Reset` | src/components/upload-photo-button.tsx:111-119 | the slot becomes absent, one notification fires, `hasUpload` is false and the label returns to "Upload your photo" |
| `UploadButton.Uploader.ProcessAndStore` | src/components/upload-photo-button.tsx:145-195 | the outcome equals `OnChangeOutcome`; the slot holds the new data URL and one notification fires iff the outcome is `Stored`; otherwise slot, notifications and `hasUpload` are unchanged |
| `UploadButton.Uploader.OnChange` | src/components/upload-photo-button.tsx:121-211 | as above; a missing or rejected file does not write `isBusy`; every other run writes true then false, and leaves the button idle, with the label showing "Reset" after storing a non-empty URL and unchanged after any failure |
| `GenerateRoute.Post` | src/app/api/generate/route.ts:9-28 | the status is 200 or 400; the body is an object holding `error` iff the status is 400 and `ok` iff it is 200; unparsable JSON gets `{error: "Invalid JSON"}` |
| `GenerateRoute.PostAnswersDecision` | src/app/api/generate/route.ts:9-28 | reading any response back gives exactly the decision for the body (invalid JSON, missing imageUrl, or echo of the very value sent) |
| `GenerateRoute.EchoCarriesInput` | src/app/api/generate/route.ts:21-24 | the success form has status 200, `ok: true`, `received: {imageUrl}` with the input value unchanged, and no `error` field |
| `GenerateRoute.ImageUrlRequirement` | src/app/api/generate/route.ts:12-16 | a null or non-object body, a missing key, and `null`, `false`, `0` or `""` as `imageUrl` all get "imageUrl is required"; a whitespace-only string is echoed |
| `GenerateRoute.RejectionsAreFixedErrors` | src/app/api/generate/route.ts:11-27 | status 400 iff the request is not echoed, and each rejection carries its fixed message |

## Left out

- `UploadRules.Lower`: models `toLowerCase` on ASCII letters only. No other character lower-cases to a single character from the allow-list, so membership in the allow-list is unaffected.
- `UploadRules.Scale`, `UploadRules.ScaledSide`: exact real arithmetic, with `Math.round` as floor(x + 0.5). Floating-point rounding of `maxDimension / maxSide` and of `width * scale` is not modelled. The bounds are claimed in exact arithmetic only.
- `UploadRules.DownscaleViaCanvas`: FileReader, Image decoding, canvas drawing and `toBlob` are fields of `Platform`. The export quality (0.85) is not modelled. Neither is the quality 0.9 of the HEIC converter or its dynamic import, which fails like a conversion.
- `UploadButton.Uploader.OnChange`: the run is atomic. React's batching of state updates, re-entrant selections while busy, and resetting the file input's value are not modelled.
- Showing the `alert` and the `console.error` calls are not modelled; the alert text of each outcome is given by `UploadRules.AlertFor`. Neither are the scroll to `#make-shot` and its fallback hash change.
- `UploadRules.Blob` carries only a declared type and a size, not the bytes. So the `Platform` operations see two blobs of equal type and size as the same blob: two such photos read into the same data URL. No lemma relies on this.
- Failures of `sessionStorage.getItem` and `removeItem` are not modelled. The source swallows them. The slot is always readable and removable here, and only `setItem` may refuse (`Platform.storageAccepts`).
- Listeners of other widgets on `user-uploaded-photo` are not modelled. Only the button's own listener is, and it runs during dispatch.
- `openPicker` (clicking the hidden file input) is represented only by `UploadButton.ButtonAction`. It is a DOM call.
- `GenerateRoute.Post`: JSON text parsing and response serialization are not modelled. The input is the parsed value, or `None` when `req.json()` rejects. Numbers are exact reals, so a literal that underflows to zero in a double is not modelled.
- `GenerateRoute.EchoCarriesInput`: the echo carries the parsed value unchanged, but only up to JSON serialization. A number literal that overflows a double (such as `1e400`) parses to `Infinity`, which is truthy and so echoed. `NextResponse.json` then writes it as `null`, so the client would read `imageUrl: null`. Doubles are not modelled, so this case is not captured.
- `src/components/generate-section.tsx`, `upload-preview.tsx`, `upload-status-text.tsx`, `src/app/page.tsx`, `src/app/layout.tsx`, `next.config.ts` and `src/lib/prompt.ts` are not part of this model. They are markup, configuration and fetch glue around the two cores.
