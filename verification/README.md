# AIIMAGE_V2 frontend logic in Dafny

This project models the decision logic and in-place bookkeeping of the browser frontend of
AIIMAGE_V2, an image-generation service, and proves properties of that model. It covers the
following parts:

- the generation orchestrator `ImageService` (`frontend/v2/js/api/image.js`): mode detection,
  prompt variants, request batches, one retry, success/failure counts, the refund request and
  the post-processing of returned image records;
- the history view's lazy loader (`HistoryRenderer.js`): card datasets, the trigger guard, the
  admission counter with its ceiling of two, the per-card status and the tile list;
- the reference-image upload store (`UploadManager.js`) and its closure-based twin in the page
  script (`legacy.js`), together with the page script's inline rules: optimiser mode,
  textarea height, the regenerate guard and cost, reference restoration, placeholders and the
  final toast;
- the generator panel (`GeneratorUI.js`), the login/register dialog (`AuthUI.js`), the image
  viewer (`ImageViewer.js`), the HTTP client (`client.js`), the history service (`history.js`)
  and the pure helpers (`helpers.js`).

Network calls, timers, the clock and `FileReader` results are not performed. Each becomes an
input of the operation that awaits it:

- a scripted outcome per request (`Fail` or `Ok(images)`);
- the `Date.now()` reading;
- the data URL the reader produced (`None` when it never fires);
- the `fetch` outcome.

`Promise.allSettled` is modelled by processing the settled outcomes in dispatch order. Sleeps
and awaits appear as steps (`Wait(6000)`, `AwaitAll`) of a request plan.

Objects whose fields the source updates in place are classes:

- `Uploads.UploadManager`: the upload store;
- `Legacy.UploadPanel`: the page script's upload closure state;
- `HistoryRenderer.LazyLoader`: the lazy-load state;
- `GeneratorUI.Grid`: a task card's grid;
- `AuthUI.SubmitButton` and `AuthUI.AuthModal`: the submit button and the dialog;
- `ImageViewer.Viewer`: the image viewer;
- `ApiClient.Client`: the HTTP client's token.

A JavaScript `Map` is a sequence of key/value pairs kept in insertion order (module
`OrderedMap`), and DOM labels are a map from element identity to their dataset. Integers are
unbounded. `parseInt` yields `NaN` or an integer (`Strings.JsInt`), and JavaScript
truthiness is written out where the source relies on it (`Images.Truthy`).

Source paths below are relative to the repository root.

## Model

| member | source | states |
|---|---|---|
| Images.DisplayUrl | frontend/v2/js/modules/HistoryRenderer.js:279-293 | A history tile's URL is the string itself, else the first truthy of `url`, `thumbnail_url`, `b64_json` (as a PNG data URI). It is empty exactly when none of them is usable. |
| Helpers.ValidateImageFile | js/utils/helpers.js:9-22 | A file is accepted iff its type is one of the four image types and its size is at most 10 MiB. A wrong type gets the format message, and a right type that is too large gets the size message. |
| Helpers.WrongTypeReportedFirst | js/utils/helpers.js:13-19 | An oversized GIF is rejected for its type, not its size. |
| Helpers.SizeBoundary | js/utils/helpers.js:17 | Exactly 10 MiB is accepted and one byte more is rejected, because the comparison is strict. |
| Helpers.TruncateText | js/utils/helpers.js:267-270 | A text that is empty or within `maxLength` UTF-16 code units is returned unchanged. Otherwise the result is a proper prefix of the text followed by the suffix. The prefix has at most `maxLength` code units (0 for a negative limit), and it falls short only by one unit, just before a character of two units. With a non-negative limit, the result has at most `maxLength` plus the suffix's units. |
| Strings.Utf16Length | js/utils/helpers.js:268 | A string's JavaScript length lies between its character count and twice it. |
| Strings.Utf16Prefix | js/utils/helpers.js:269 | The result is the longest prefix of at most `k` code units: adding the next character would exceed `k`. |
| Strings.Utf16LengthAppend | js/utils/helpers.js:269 | Lengths add up under concatenation. |
| Strings.Utf16LengthOfBmp | js/utils/helpers.js:268 | A string with no character above U+FFFF has one code unit per character. |
| Helpers.ParseImageUrl | js/utils/helpers.js:183-199 | An empty or missing URL gives `""`. A `data:image` URI and any URL not starting with `/` are returned unchanged. A path starting with `/` gets the origin prepended. |
| Helpers.ParseImageUrlIdempotent | js/utils/helpers.js:183-199 | Resolving an already resolved URL again changes nothing. |
| Helpers.GenerateId | js/utils/helpers.js:66-68 | The id is `temp_` followed by the clock reading. |
| Helpers.GenerateIdUnique | js/utils/helpers.js:66-68 | Two ids are equal iff they were made at the same millisecond. |
| ImageService.DetectMode | frontend/v2/js/api/image.js:487-502 | The series flag gives series whatever the image count. Otherwise the mode is text-to-image iff there are no reference images. |
| ImageService.GenerateVariantPrompt | frontend/v2/js/api/image.js:21-27 | A single image keeps the prompt. Otherwise the result is the prompt followed by exactly `index` spaces. |
| ImageService.VariantPromptsDistinct | frontend/v2/js/api/image.js:21-27 | With more than one image, index 0 keeps the prompt and distinct indices give distinct prompts. |
| ImageService.Normalize | frontend/v2/js/api/image.js:83-90 | `description` is removed. A truthy `b64_json` without a truthy `url` becomes a JPEG data URI in `url`. Nothing else changes. |
| ImageService.NormalizeIdempotent | frontend/v2/js/api/image.js:544-549 | Post-processing an already processed image changes nothing. |
| ImageService.NormalizeAll | frontend/v2/js/api/image.js:82-93 | Every returned image is post-processed, in order. |
| ImageService.RefundFor | frontend/v2/js/api/image.js:156-178 | A refund is requested iff fewer images than requested arrived and a token is stored. It carries the task id, the mode and the two counts, which read back as numbers. |
| ImageService.TextPlanDispatchesEachIndexOnce | frontend/v2/js/api/image.js:116-138 | The initial text-to-image round starts every index in `[0, count)` exactly once, in order. |
| ImageService.TextPlanBatches | frontend/v2/js/api/image.js:116-138 | With at most four images there is one batch and one final await. With more, requests 0 and 1 are fully awaited before index 2 starts. |
| ImageService.EditPlanDispatchesEachIndexOnce | frontend/v2/js/api/image.js:313-337 | Image-to-image starts every index in `[0, count)` exactly once, in order. |
| ImageService.EditPlanPacing | frontend/v2/js/api/image.js:313-337 | There is one await, at the end. The 6000 ms sleep occurs iff `count > 2`, right after requests 0 and 1 start and without awaiting them. |
| ImageService.FailedUpTo | frontend/v2/js/api/image.js:140-144 | The failed positions are exactly the rejected entries of `results`, ascending. |
| ImageService.TextStepsDispatchTextCalls | frontend/v2/js/api/image.js:116-150 | The full text-to-image plan starts the initial indices followed by the retry arguments. |
| ImageService.StreamedProgressReports | frontend/v2/js/api/image.js:92-103 | The `k`-th progress call reports the first `k + 1` images as completed, out of `count`. |
| ImageService.TextRetryTargets | frontend/v2/js/api/image.js:138-150 | With at most four images exactly the failed indices are retried. With more, position `p` is retried iff request `p + 2` failed, because positions index the last batch. |
| ImageService.TextRetryIgnoresFirstBatch | frontend/v2/js/api/image.js:129-150 | With more than four images the retry round does not depend on the outcomes of requests 0 and 1. |
| ImageService.TextFirstBatchFailureNotRetried | frontend/v2/js/api/image.js:129-150 | With five images a failure of request 0 is never retried. |
| ImageService.TextRetryOfRequestTwo | frontend/v2/js/api/image.js:140-148 | With five images a failure of request 2 is retried as `generateSingle(0)`. |
| ImageService.TextRetryUsesPositionPrompt | frontend/v2/js/api/image.js:53-56 | Request 2 used the prompt plus two spaces, while its retry `generateSingle(0)` sends the unmodified prompt. |
| ImageService.TextRetryCountBound | frontend/v2/js/api/image.js:140-150 | There are never more retries than failed initial requests. |
| ImageService.TextSuccessBounded | frontend/v2/js/api/image.js:152-153 | If every response carries at most one image, the success count never exceeds the requested count. |
| ImageService.TextFailedCountCanBeNegative | frontend/v2/js/api/image.js:152-153 | One response with two images for a single request makes `failed_count` equal -1. |
| ImageService.ReceiveText | frontend/v2/js/api/image.js:81-104 | The returned images are post-processed and appended, with one progress call per image. |
| ImageService.SendTextRange | frontend/v2/js/api/image.js:116-136 | Sending requests `lo..hi-1` collects their images in index order and dispatches exactly that range. |
| ImageService.TextInitialRound | frontend/v2/js/api/image.js:116-138 | The initial round follows the batch plan, collects every delivered image and returns the last batch's results. |
| ImageService.FailedIndicesOf | frontend/v2/js/api/image.js:140-144 | The loop computes exactly the rejected positions of the awaited batch. |
| ImageService.TextRetryRound | frontend/v2/js/api/image.js:146-150 | Each failed position is retried once, in order, and failures are swallowed. The round is awaited only when non-empty. |
| ImageService.TextToImageRun | frontend/v2/js/api/image.js:39-185 | Plan, requests, images and progress are as specified. `success_count` is the number of images, `failed_count` is `count` minus it, and the refund follows `RefundFor`. |
| ImageService.SelectedReferences | frontend/v2/js/api/image.js:209-210 | At most the first three references are used, in order. |
| ImageService.EditAttemptsPerSlot | frontend/v2/js/api/image.js:286-292 | Each slot is attempted once when its first attempt delivers images and exactly twice otherwise. |
| ImageService.EditAfterCounts | frontend/v2/js/api/image.js:266-296 | `completedCount` is the number of successful slots, and every slot is counted exactly once, given an `onProgress` that returns. |
| ImageService.EditAfterRequests | frontend/v2/js/api/image.js:230-255 | The posted requests are the same form repeated once per attempt: once per slot, twice for a slot whose first attempt delivered nothing. |
| ImageService.EditProgressStable | frontend/v2/js/api/image.js:270-305 | A slot's progress call does not change while later slots settle. |
| ImageService.EditImagesGrow | frontend/v2/js/api/image.js:258-266 | Images are only appended: an earlier image list is a prefix of a later one. |
| ImageService.EditProgressReports | frontend/v2/js/api/image.js:270-305 | Progress call `k` carries `failed` iff slot `k` failed both attempts, reports the successes among slots `0..k`, and its image list is a prefix of the final one. |
| ImageService.AppendImages | frontend/v2/js/api/image.js:258-266 | The returned images are post-processed and appended in order. |
| ImageService.RunSlot | frontend/v2/js/api/image.js:230-308 | One `generateSingle` with its retry settles exactly one slot, with the effect `SettleSlot` defines. |
| ImageService.SettleSlotCases | frontend/v2/js/api/image.js:257-306 | A slot settles in one of three ways. If the first attempt delivers, there is one request, its images are appended, `completedCount` goes up and a progress call without `failed` is made. If only the retry delivers, the same happens after two requests. If neither delivers, there are two requests, the images are unchanged, `failedCount` goes up and the progress call carries it. |
| ImageService.RunSlots | frontend/v2/js/api/image.js:313-337 | Starting slots `lo..hi-1` one after another advances the state to `hi` and dispatches that range. |
| ImageService.ImageToImageRun | frontend/v2/js/api/image.js:198-371 | There is one copy of the selected references per image, and the pacing plan is followed. The result, requests and progress match the slot fold. `failed_count` is `count` minus `success_count`, and the refund follows `RefundFor`. |
| ImageService.EditRefundIffSlotFailed | frontend/v2/js/api/image.js:343-366 | Image-to-image requests a refund iff some slot failed both attempts and a token is stored. |
| ImageService.SucceededAllIff | frontend/v2/js/api/image.js:266-296 | All slots count as completed iff every slot succeeded. |
| ImageService.EmptyResponseIsFailure | frontend/v2/js/api/image.js:258-285 | A response without images counts as a failure even though it was not rejected, and it triggers a refund. |
| ImageService.ConversationRequestFor | frontend/v2/js/api/image.js:377-400 | A series request carries every uploaded file, with no limit of three. It uses the edit endpoint with files and the generate endpoint without. |
| ImageService.ConversationResult | frontend/v2/js/api/image.js:413-425 | The result is rejected iff the request failed or `images` is truthy but not an array, because the `forEach` that follows throws. A missing list gives a result without images. An image list gives one post-processed image per returned image, at the same position. |
| ImageService.SeriesProgress | frontend/v2/js/api/image.js:550-558 | Series mode makes one `completed` progress call iff the result has an image list, and it reports all the images. |
| ImageService.Generate | frontend/v2/js/api/image.js:514-615 | The mode is `detectMode`'s. Series sends one conversation request, and the other modes delegate to the text-to-image or image-to-image runs. |
| HistoryRenderer.ImageCountOf | frontend/v2/js/modules/HistoryRenderer.js:149 | The task's `image_count` is used, and a missing or zero count falls back to four. |
| HistoryRenderer.CreateTaskCard | frontend/v2/js/modules/HistoryRenderer.js:105-157 | The card starts `pending` with the task id and prompt (`""` if missing) and the ratio (`1:1` if falsy). Series is set iff the mode is conversation, and reference images iff image-to-image or conversation. It holds one placeholder per counted image. |
| HistoryRenderer.TilesShowTheirImage | frontend/v2/js/modules/HistoryRenderer.js:279-296 | Every tile shows the non-empty URL of the image it stands for. |
| HistoryRenderer.TilesInOrder | frontend/v2/js/modules/HistoryRenderer.js:279-296 | Tiles keep the images' order. |
| HistoryRenderer.TilesComplete | frontend/v2/js/modules/HistoryRenderer.js:279-296 | Every image with a URL gets a tile, and images without one are skipped. |
| HistoryRenderer.RenderImages | frontend/v2/js/modules/HistoryRenderer.js:276-298 | The loop builds exactly the tile list. |
| HistoryRenderer.Listed | frontend/v2/js/modules/HistoryRenderer.js:233-244 | An array is used as is, a string is JSON-parsed, and a parse failure leaves the list empty. |
| HistoryRenderer.Settled | frontend/v2/js/modules/HistoryRenderer.js:232-265 | The status is `error` iff the request threw, `loaded` iff images were listed and a grid exists, and `empty` iff the list is empty. Without `generated_images`, or with images but no grid, nothing is written. The status is never `pending` or `loading`. |
| HistoryRenderer.UnparsableImagesAreEmpty | frontend/v2/js/modules/HistoryRenderer.js:236-246 | A JSON string that does not parse marks the card `empty`. |
| HistoryRenderer.LazyLoader.constructor | frontend/v2/js/modules/HistoryRenderer.js:16-22 | Both id sets are empty, the counter is 0, the ceiling is 2 and every card is `pending`. |
| HistoryRenderer.LazyLoader.Admit | frontend/v2/js/modules/HistoryRenderer.js:221-224 | The id is marked loading, the counter goes up by one and the card becomes `loading`, keeping the counter within the ceiling. |
| HistoryRenderer.LazyLoader.LoadTaskImages | frontend/v2/js/modules/HistoryRenderer.js:212-224 | Below the ceiling the load is admitted at once. Otherwise it polls, leaving the card `pending`, so a second trigger for the same card remains possible. |
| HistoryRenderer.LazyLoader.OnIntersect | frontend/v2/js/modules/HistoryRenderer.js:184-191 | A load starts iff the card has an id, is `pending`, and is neither loaded nor loading. |
| HistoryRenderer.LazyLoader.PollTick | frontend/v2/js/modules/HistoryRenderer.js:217-219 | A polling load is admitted once the counter is below the ceiling, and otherwise nothing changes. |
| HistoryRenderer.LazyLoader.Finish | frontend/v2/js/modules/HistoryRenderer.js:226-270 | The card gets its settled status (and tiles when loaded), and in every case the slot and the loading mark are released. |
| HistoryRenderer.LazyLoader.Release | frontend/v2/js/modules/HistoryRenderer.js:266-270 | The `finally` block decrements the counter and drops the loading mark, matching exactly one admission. |
| Uploads.FirstWithSlot | js/modules/UploadManager.js:169-176 | The result is absent iff no stored image has the slot. A found id is non-empty. |
| Uploads.FirstWithSlotIsFirst | js/modules/UploadManager.js:169-176 | The found id belongs to the first entry, in insertion order, with that slot. |
| Uploads.DetachClearsSlot | js/modules/UploadManager.js:143-153 | Deleting the image found for a slot leaves the slot without an image. |
| Uploads.SetKeepsSlotsUnique | js/modules/UploadManager.js:109-123 | Storing an image for a free slot keeps at most one image per slot and makes it the slot's image. |
| Uploads.RemoveKeepsSlotsUnique | js/modules/UploadManager.js:141-163 | Deleting an id keeps at most one image per slot. |
| Uploads.DetachTarget | js/modules/UploadManager.js:138-164 | The id deleted is the slot's image when the label has a slot holding one, else the label's own truthy `data-image-id`. |
| Uploads.DetachedLabels | js/modules/UploadManager.js:138-164 | A detach only clears previews and never changes a label's slot or presence. |
| Uploads.RowIdCanCollide | js/modules/UploadManager.js:240-261 | After a removal, a new row can take the id of a row still present and overwrite its entry. |
| Uploads.SlotNamesDistinct | js/modules/UploadManager.js:241-242 | The two slots of a new row have different names. |
| Uploads.UploadManager.constructor | js/modules/UploadManager.js:11-28 | The store starts with no images and no rows. |
| Uploads.UploadManager.FindImageBySlot | js/modules/UploadManager.js:169-176 | The scan returns the first id in insertion order stored for the slot, or none. |
| Uploads.UploadManager.DetachLabelImage | js/modules/UploadManager.js:138-164 | The detach target is deleted and the labels are reset as specified. Afterwards the label's slot holds no image, and the store's invariants hold. |
| Uploads.UploadManager.RemoveImage | js/modules/UploadManager.js:147-160 | `uploadedImages.delete(id)` keeps ids unique, slots unique and ids non-empty. |
| Uploads.UploadManager.HandleImageUpload | js/modules/UploadManager.js:98-133 | Nothing changes without a file or label, or for an invalid file. Otherwise the label is detached, and once read the image is stored under `temp_<now>` with the label's slot and previewed. The slot's first image is then the new one. |
| Uploads.UploadManager.StoreImage | js/modules/UploadManager.js:113-126 | The image is set under its id with the label's slot and previewed on every label of the slot. The slot's image is the new one. |
| Uploads.UploadManager.AddUploadRow | js/modules/UploadManager.js:234-287 | A row is added iff fewer than three exist. The new row is `upload-row-<size+1>` with slots `additional-<2·size+1>` and `additional-<2·size+2>`. The bound of three holds. |
| Uploads.UploadManager.RemoveUploadRow | js/modules/UploadManager.js:292-305 | An unknown row changes nothing. Otherwise both labels are detached in order, and the row leaves the map and the document. Previews are only ever cleared. |
| Uploads.UploadManager.DetachRow | js/modules/UploadManager.js:296-301 | Both labels are detached, first one first, and leave the document. |
| Uploads.UploadManager.LeaveDocument | js/modules/UploadManager.js:301 | The row's labels leave the document, and nothing else changes. |
| Uploads.UploadManager.GetFiles | js/modules/UploadManager.js:311-317 | The result holds one file per stored image, in insertion order. |
| Uploads.UploadManager.Clear | js/modules/UploadManager.js:334-346 | No images and no rows remain, and the label set is kept. Each label of a removed row loses its preview and leaves the document. The main and icon labels lose their preview, and every other label is unchanged. |
| Uploads.RowDetachedWithoutImages | js/modules/UploadManager.js:292-305 | With no images stored, removing a row only clears its two labels' previews and takes them out of the document. |
| Uploads.RowsRemovedLabelsPointwise | js/modules/UploadManager.js:343 | After every row is removed, exactly the rows' labels have lost their previews and left the document. |
| Uploads.UploadManager.RemoveAllRows | js/modules/UploadManager.js:343 | The loop removes every row and leaves the labels as `RowsRemovedLabels` of the old ones. |
| Uploads.UploadManager.RemoveFirstRow | js/modules/UploadManager.js:292-305 | With no images stored, the first row leaves the map and its labels become `RowDetachedLabels` of the old ones. |
| Legacy.OptimizeMode | frontend/v2/js/legacy.js:204-210 | Series gives conversation. Otherwise uploads give image-to-image and no uploads give text-to-image. |
| Legacy.OptimizeModeAgreesWithDetectMode | frontend/v2/js/legacy.js:204-210 | The optimiser's mode and the orchestrator's `detectMode` agree, in both directions. |
| Legacy.TextareaHeight | frontend/v2/js/legacy.js:140-165 | The height is at least 64, at most the ceiling when that is at least 64, and equals the scroll height within range. |
| Legacy.ExpandedIffTaller | frontend/v2/js/legacy.js:140-165 | The textarea is marked expanded iff both its content and its ceiling exceed one line. |
| Legacy.TextareaHeightMonotone | frontend/v2/js/legacy.js:140-165 | More content never makes the textarea shorter. |
| Legacy.RemainingPlaceholders | frontend/v2/js/legacy.js:391-398 | Images plus placeholders make up `max(total, images.length)`. |
| Legacy.FinalToast | frontend/v2/js/legacy.js:405-423 | The toast is a warning iff the failed count is positive. The success figure is `success_count`, or the number of images when that is missing or zero. |
| Legacy.CheckRegenerate | frontend/v2/js/legacy.js:959-1000 | Regeneration proceeds iff the user is logged in, the card has a prompt, and a user exists with at least the required particles (2 for a series, else the count). The checks run in that order. |
| Legacy.RegenerateReadsCardBack | frontend/v2/js/legacy.js:969-994 | Regenerating a history card reads back its image count, its series flag (iff conversation) and the matching cost. |
| Legacy.RestoreReferences | frontend/v2/js/legacy.js:1009-1064 | References are rebuilt only for a card with reference images, a task id and a fetched list. Entries are made in order until the first data URL that `dataURLtoFile` cannot convert, so there is one per entry of `ConvertedTypes`. Entry `i` has id `regenerate-<now>-<i>`, slot `image-upload-<i+1>` and the `type` of the `File` made from it, which is `FileType` of the header's `:…;` group, and the ids are unique. A warning is shown iff the fetch threw or a conversion threw. |
| Legacy.ConvertedTypesSpec | frontend/v2/js/legacy.js:1042-1057 | Every reference before the end of the list converts, to the listed type, and the reference just after it, if any, does not. |
| Legacy.FileType | frontend/v2/js/legacy.js:1039 | The `File` constructor's `type`: empty if any character is outside U+0020..U+007E, otherwise the same length with each ASCII upper case letter lowered. |
| Legacy.FileTypeNormalised | frontend/v2/js/legacy.js:1039 | A file's type is printable ASCII with no upper case letter, and normalising it again changes nothing. |
| Legacy.FileTypeExamples | frontend/v2/js/legacy.js:1032-1039 | The header `Image/PNG` makes a file of type `image/png`, and a header with a non-ASCII character makes an untyped file. |
| Legacy.ConvertedTypesAt | frontend/v2/js/legacy.js:1042-1057 | Reference `i` converts exactly when `i` is not yet the end of the list, and then to the listed type. |
| Legacy.NoColonFrom | frontend/v2/js/legacy.js:1032 | Without a colon in the header, `match(/:(.*?);/)` finds nothing. |
| Legacy.NoColonNoType | frontend/v2/js/legacy.js:1030-1032 | A data URL without a colon cannot be converted. |
| Legacy.ConvertedTypesStopAtFirstFailure | frontend/v2/js/legacy.js:1042-1057 | The restore stops exactly at the first reference that does not convert. |
| Legacy.RestoredEntriesUnique | frontend/v2/js/legacy.js:1045 | Ids of the form `regenerate-<now>-<index>` never collide between positions, whatever the clock reads, so no restored entry overwrites another. |
| Legacy.ReferenceIdsDistinct | frontend/v2/js/legacy.js:1043-1057 | Entries for different positions get different ids, whatever the clock reads. |
| Legacy.RegeneratedHasReferences | frontend/v2/js/legacy.js:1076 | The regenerated card says it has references iff some were restored. |
| Legacy.AppendFresh | frontend/v2/js/legacy.js:693-696 | An id made from the counter is fresh, so `set` appends, and keys stay unique and below the raised counter. |
| Legacy.RemoveKeepsKeysBelow | frontend/v2/js/legacy.js:693-696 | Deleting keeps every key below the counter. |
| Legacy.UploadPanel.constructor | frontend/v2/js/legacy.js:693-696 | All maps are empty, both counters are 0 and the add button is enabled. |
| Legacy.UploadPanel.DetachLabelImage | frontend/v2/js/legacy.js:719-750 | The panel's new images, slot map and labels are `Detach` of the old ones. A mapped slot is no longer mapped afterwards, and rows and counters are unchanged. |
| Legacy.Detach | frontend/v2/js/legacy.js:719-750 | A detach keeps every label, its slot and its presence, and only ever clears previews. |
| Legacy.DetachDropsPrevious | frontend/v2/js/legacy.js:719-750 | The label's previous image is deleted, whether the slot map or the label named it. A mapped slot loses its mapping. The label previews nothing afterwards unless it is out of the document and its slot was mapped. |
| Legacy.UploadPanel.DetachSlot | frontend/v2/js/legacy.js:723-736 | The mapped image and the mapping are deleted, and every label of the slot is reset. |
| Legacy.UploadPanel.DetachOwn | frontend/v2/js/legacy.js:739-744 | The label's own image entry is deleted and the label reset. |
| Legacy.UploadPanel.RemoveImage | frontend/v2/js/legacy.js:693-696 | `uploadedImages.delete(id)` keeps the invariants. |
| Legacy.UploadPanel.HandleImageUpload | frontend/v2/js/legacy.js:760-797 | A bad file changes nothing. Otherwise the label is detached first. An image is stored iff the file was read, under `img_<counter>`, which is fresh in the detached panel, and the counter advances. The image is appended to the detached images, and the slot is mapped to it and previews it, or the unslotted label previews it. |
| Legacy.UploadPanel.StoreImage | frontend/v2/js/legacy.js:779-792 | The image is appended under a fresh id and previewed, and the slot, if any, is mapped to it. |
| Legacy.UploadPanel.AppendImage | frontend/v2/js/legacy.js:780-787 | `img_<counter++>` is fresh, so the entry is appended. |
| Legacy.UploadPanel.ShowPreview | frontend/v2/js/legacy.js:837-849 | Every label of the slot (or the label alone) previews the id, and the slot is mapped to it. |
| Legacy.UploadPanel.AddUploadRow | frontend/v2/js/legacy.js:478-555 | A row is added iff fewer than three exist. It is `row_<counter>` with slots `<rowId>-1` and `<rowId>-2` and a fresh key, and the button is disabled exactly at three rows. |
| Legacy.UploadPanel.DeleteRow | frontend/v2/js/legacy.js:524-533 | An unknown row changes nothing. Otherwise the row leaves the map and the count drops by one. The images, slot map and labels become `RowRemoved` of the old ones, and the add button is enabled again. |
| Legacy.UploadPanel.ForgetRow | frontend/v2/js/legacy.js:530-532 | The row leaves the map, the add button is enabled, and the images, slots and labels are unchanged. |
| Legacy.UploadPanel.DetachRow | frontend/v2/js/legacy.js:527-529 | The panel becomes `RowRemoved` of the old one: both labels detached, first one first, then out of the document. Rows and counters are unchanged. |
| Legacy.UploadPanel.LeaveDocument | frontend/v2/js/legacy.js:529 | The panel becomes `LeaveRow` of the old one, which keeps every label, and nothing else changes. |
| GeneratorUI.GetGenerationParams | js/modules/GeneratorUI.js:213-241 | The prompt is trimmed. The count is `parseInt` of the active button (1 without one) and the ratio is the active one (`1:1` without one). The mode is conversation for a series, else image-to-image with uploads and text-to-image without. |
| GeneratorUI.ParamsModeAgrees | js/modules/GeneratorUI.js:227-233 | The panel's mode equals the page script's and agrees with `detectMode`. |
| GeneratorUI.CountButtonReadBack | js/modules/GeneratorUI.js:216-217 | A count button showing a number yields that number. |
| GeneratorUI.LoopCount | js/modules/GeneratorUI.js:348 | A `for` loop bounded by `NaN` or a non-positive count runs zero times. |
| GeneratorUI.CreateTaskCard | js/modules/GeneratorUI.js:314-361 | The card carries the parameters and a header of the prompt cut at 40 UTF-16 code units with `...`. The grid holds exactly `count` placeholders in the card's ratio. |
| GeneratorUI.HandleGenerateStart | js/modules/GeneratorUI.js:248-255 | An empty trimmed prompt warns and starts nothing. Otherwise the parameters are used. |
| GeneratorUI.BlankPromptRefused | js/modules/GeneratorUI.js:249-255 | A generation is refused iff the prompt is all whitespace. |
| GeneratorUI.GenerateOutcome | js/modules/GeneratorUI.js:276-308 | Success draws the images. A failure with `TIMEOUT_504` shows the background panel with the user message or a default. Any other failure shows its message, or `生成失败`, on the panel and in the toast. A thrown error shows its message in both places, and an empty one shows `生成失败，请重试` with the toast `生成失败`. |
| GeneratorUI.CreateImageElement | js/modules/GeneratorUI.js:386-437 | The URL is the string itself, else the first truthy of `url`, `thumbnail_url`, `b64_json`. The source is the URL after `parseImageUrl`, and the alt text numbers the image from 1. |
| GeneratorUI.OnProgress | js/modules/GeneratorUI.js:366-381 | A processing or completed update with images replaces the grid with one element per image, in order. Any other update leaves the grid alone. |
| GeneratorUI.DeleteCard | js/modules/GeneratorUI.js:460-485 | Without confirmation nothing happens. The backend is called iff the card has a task id, and the card goes iff there is none or the backend call succeeded. |
| AuthUI.Field | js/modules/AuthUI.js:192-193 | A present input is trimmed, and a missing one stays missing. |
| AuthUI.ValidateLogin | js/modules/AuthUI.js:189-198 | A login request is made iff both trimmed fields are non-empty. Otherwise the single message is shown. |
| AuthUI.BlankLoginRefused | js/modules/AuthUI.js:195-198 | A username of only whitespace is refused without a request. |
| AuthUI.ValidateRegister | js/modules/AuthUI.js:226-248 | The checks run in order: empty field, mismatch, then a password shorter than six UTF-16 code units. The first failure is reported. Otherwise the trimmed fields are sent. |
| AuthUI.RegisterRequestIff | js/modules/AuthUI.js:235-248 | A registration is sent iff all fields are filled and the passwords agree with at least six UTF-16 code units. |
| AuthUI.SixCharactersSuffice | js/modules/AuthUI.js:245 | A password of six code units passes, because the comparison is strict. |
| AuthUI.ThreeAstralCharactersSuffice | js/modules/AuthUI.js:245 | Three emoji make a valid password, because each counts as two code units. |
| AuthUI.WithLoading | js/modules/AuthUI.js:165-184 | Loading stashes the label, disables the button and shows the text. Leaving loading re-enables the button, and only a non-empty stash is restored and dropped. |
| AuthUI.LoadingRoundTrip | js/modules/AuthUI.js:165-184 | A loading round trip gives back the enabled button with its label and no stash. |
| AuthUI.EmptyLabelNotRestored | js/modules/AuthUI.js:176-181 | An empty label is not restored, so the loading text stays. |
| AuthUI.SubmitButton.SetFormLoading | js/modules/AuthUI.js:165-184 | The button's new state is `WithLoading` of the old one. |
| AuthUI.LoginMessage | js/modules/AuthUI.js:205-219 | The strip shows success iff the login succeeded, and otherwise the server's message when it gives one. |
| AuthUI.AuthModal.SwitchTab | js/modules/AuthUI.js:107-125 | The named tab becomes active. `login` shows the login form and any other name shows the register form, so exactly one form shows. The message hides. |
| AuthUI.AuthModal.OpenModal | js/modules/AuthUI.js:84-90 | With the dialog, it opens on the tab (login by default), exactly one form shows and the message hides. Missing forms or a missing message strip are left as they were. Without the dialog nothing changes. |
| AuthUI.AuthModal.CloseModal | js/modules/AuthUI.js:95-102 | The dialog closes and the message hides. |
| AuthUI.AuthModal.ShowMessage | js/modules/AuthUI.js:130-149 | The strip shows the message when it exists. |
| AuthUI.AuthModal.HideMessage | js/modules/AuthUI.js:154-160 | The strip hides when it exists. |
| AuthUI.AuthModal.HandleLoginSubmit | js/modules/AuthUI.js:189-221 | A request is made iff validation passes. Then the button goes through a loading round trip and the strip shows the outcome. Otherwise the error shows and the button is untouched. |
| ImageViewer.FullUrl | js/modules/ImageViewer.js:130-137 | The original's URL is the string, else `url`, else `b64_json` as a PNG data URI. It is empty exactly when none is usable. |
| ImageViewer.FullUrlIgnoresThumbnail | js/modules/ImageViewer.js:126-137 | `thumbnail_url` never affects the original's URL. |
| ImageViewer.FullUrlAgreesWithDisplayUrl | js/modules/ImageViewer.js:126-137 | The viewer and the history tiles agree except on a thumbnail-only record. |
| ImageViewer.ShownUrl | js/modules/ImageViewer.js:124-159 | The viewer shows the original when it can be found, and falls back to the thumbnail otherwise. |
| ImageViewer.Viewer.constructor | js/modules/ImageViewer.js:11-18 | The viewer starts closed. |
| ImageViewer.Viewer.Open | js/modules/ImageViewer.js:54-78 | With both elements present it opens on the resolved source and locks scrolling. Loading gives half opacity and a visible loader. |
| ImageViewer.Viewer.UpdateImage | js/modules/ImageViewer.js:84-94 | The new source is shown at full opacity with the loader hidden, and the open state is untouched. |
| ImageViewer.Viewer.Close | js/modules/ImageViewer.js:99-106 | The overlay is hidden and scrolling is restored. |
| ImageViewer.Viewer.OpenWithOriginal | js/modules/ImageViewer.js:114-160 | With an image element the viewer shows `ShownUrl`, resolved, at full opacity, and the loader, when present, is hidden. With both elements the overlay shows and scrolling is locked. Anything missing is left as it was. |
| ApiClient.Respond | js/api/client.js:83-118 | The ladder, first match wins: 401 expired, 402 the detail or balance message, 504 the timeout marker, other non-2xx the detail or `请求失败: <status>`, otherwise the parsed body. An abort becomes the timeout message, and other errors pass through. |
| ApiClient.FailureNamesStatus | js/api/client.js:100-103 | A failing status without a detail names the status. |
| ApiClient.Client.constructor | js/api/client.js:9-12 | The token is the stored one. |
| ApiClient.Client.GetToken | js/api/client.js:17-19 | Returns the stored token. |
| ApiClient.Client.SetToken | js/api/client.js:24-26 | Afterwards the token is the given one. |
| ApiClient.Client.ClearToken | js/api/client.js:31-33 | Afterwards there is no token. |
| ApiClient.Client.BuildHeaders | js/api/client.js:38-53 | `Content-Type` is present iff a truthy type is given, with that value. `Authorization: Bearer <token>` is present iff auth is required and a token is stored. |
| ApiClient.Client.FormDataHeaders | js/api/client.js:148-157 | Form-data posts send no `Content-Type`. |
| ApiClient.Client.JsonHeaders | js/api/client.js:125-143 | JSON requests send `application/json`. |
| ApiClient.Client.Request | js/api/client.js:58-120 | The outcome is `Respond`'s, and a 401 also clears the token. |
| HistoryService.TasksUrlLimit | frontend/v2/js/api/history.js:14-18 | No limit asks for eight, and different limits give different URLs. |
| HistoryService.TaskDetailUrl | frontend/v2/js/api/history.js:26-31 | The URL ends in `?full=1` or `?full=0`, followed by `&max_images=N` only for a truthy `maxImages`. |
| HistoryService.MaxImagesParameter | frontend/v2/js/api/history.js:26-31 | A zero `maxImages` is dropped like a missing one, and distinct positive values give distinct URLs. |
| HistoryService.FullImagesUrl | frontend/v2/js/api/history.js:76-78 | `loadFullImages(id)` asks for `<tasks>/<id>?full=1`: originals, with no image cap. |
| HistoryService.FullImagesUrlDiffersFromPreview | frontend/v2/js/api/history.js:26-31 | The full-image URL and the preview URL `<tasks>/<id>?full=0&max_images=1` share the task path, differ in the `full` flag, and only the preview carries a cap, so they differ. |
| HistoryService.ProgressCallsReportSuccesses | frontend/v2/js/api/history.js:59-61 | Every callback call reports a successful task, by its 1-based position, out of all tasks. |
| HistoryService.ProgressCallsIncrease | frontend/v2/js/api/history.js:59-61 | Callback calls come in strictly increasing task order. |
| HistoryService.ProgressCallsComplete | frontend/v2/js/api/history.js:59-61 | Every successful task gets a call. |
| HistoryService.BatchLoadTaskDetails | frontend/v2/js/api/history.js:48-68 | There is one single-thumbnail request and one result per task, in order. A failed task becomes a copy marked as an error, and there is a callback call per success, given an `onProgress` that returns. |

## Left out

- Timing and interleavings: `Promise.allSettled` is modelled as processing outcomes in dispatch order. The 2 s retry back-off, the 6 s pacing and the 100 ms admission poll are steps, not time. The order of images in `allImages` under other interleavings is not modelled.
- Races across the `FileReader` await (two uploads to one slot) are not modelled. The reader's result is an input, and the detach and the store happen in one run.
- In-place mutation and aliasing of returned image objects: post-processing is a function returning a new record. The series path's second `delete description` is covered by `NormalizeIdempotent`.
- DOM and styling are not modelled: HTML templates, class toggling, IntersectionObserver wiring, scrolling, the sidebar, thumbnails, `cacheLabelDefault`/`resetLabelContent` markup, and the `closeModal` form reset.
- The browser APIs `fetch`, `FormData`, `File.slice` copies, `FileReader`, `base64ToBlob`, `localStorage`, the clipboard and downloads are not modelled. The token is a field, a fetch is its outcome, and a file copy is the same `File` value. Of `atob`, only whether it accepts its input is modelled, not the bytes it decodes.
- `formatTime`, `formatDate`, `formatFileSize`, `debounce`, `throttle`, `sleep`, `copyToClipboard` and the storage helpers are Date, floating-point, timer or browser code.
- `optimizePrompt`, `deleteTask`, `postUrlEncoded` and `delete` requests, `getFileBySlot` and `getStats` are not modelled beyond the header and URL rules above. The copy and regenerate menu actions of `GeneratorUI.js` only log.
- `generateTaskId` and `Date.now()` are parameters. `Legacy.RestoreReferences` takes one clock reading per entry.
- ApiClient.Respond: a `detail` that is not a string, and a body that is JSON but not an object, are not modelled.
- Legacy.CheckRegenerate: `currentUser.particles` being `undefined` is not modelled, because particles are an integer.
- GeneratorUI.CreateTaskCard: counts are read as `parseInt` results, and a negative count is a loop that runs zero times.
- HistoryRenderer.Listed: JSON values other than an array or a parse failure (a string parsing to a number or an object) are not modelled.
- ImageService.TextToImageRun: the token is one parameter read for the whole run. The source calls `getToken` again for each request (frontend/v2/js/api/image.js:71, 248) and for the refund (157, 343), so a logout or a 401 that clears the token mid-run is not modelled.
- ImageService.ImageToImageRun: the same single token as `TextToImageRun`; a token cleared between slots is not modelled.
- ImageService.Generate: the token is read once per call, as the source does for the series requests (404, 453), and the delegated runs inherit the limitation above.
- ImageService.TextToImageRun: the `onProgress` callback is assumed to return. In the source it runs inside the request's `try` (frontend/v2/js/api/image.js:95-101, 73-109), so a throwing callback rejects a request whose image is already in `allImages`; in the last batch that request is then retried and its retry adds further images to those kept.
- ImageService.ImageToImageRun: the `onProgress` callback is assumed to return. In the source a throw after `completedCount++` (image.js:268-277) lands in the `catch` at 287-292, which retries the slot, so one slot can be counted as completed and again as completed or failed, and `completedCount + failedCount` can exceed `count`.
- ImageService.EditAfterCounts: "every slot is counted exactly once" holds only under the returning-callback assumption stated for `ImageToImageRun`.
- HistoryService.BatchLoadTaskDetails: the `onProgress` callback is assumed to return. In the source `results.push(detail)` precedes the callback (frontend/v2/js/api/history.js:57-64), so a throwing callback also pushes `{...task, error: true}` and the task gets two results.
- Helpers.TruncateText: a cut that falls inside a surrogate pair keeps a lone high surrogate in JavaScript. Characters here are whole code points, so the model stops one code unit short instead.
- Legacy.RestoreReferences: a restored reference records its data URL and its file type, not the file's bytes or size.
- app.js glue, the toast and confirm widgets and the DOM wrappers (`dom.js`) are not part of this model.
