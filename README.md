# Deployment tool: credential rotation and upload rules

This project is a Dafny model of the two parts of a static-site deployment tool that have behaviour.

- **The backend handler** (`api/deploy.js`) holds a fixed list of provider API tokens and a process-wide cursor. For each POST it checks the request and creates a hosting project with the active token. It then deploys once (the intended flow; see the `DeployApi.Handler` line under "Left out" for what the code as written does at that step). If that deployment has a URL, it rotates the cursor and reports success. If it has no URL, it rotates once and retries once with the next token and the same payload. If the retry answers without a URL, the handler reports the first attempt's error. If the retry call itself throws, it reports the retry's own thrown message.
- **The browser form** (`script.js`) has a per-type configuration table and a file validator. The validator checks a case-insensitive extension allow-list and a 50 MiB cap on ZIP archives. The file-input and drop handlers rebuild the selection from the valid files. The submit handler has two guards and keeps three deployment counters.

Module layout, by source file:

- `wrappers.dfy` (`Wrappers`): `Option`.
- `js_text.dfy` (`JsText`): the JavaScript string operations the code relies on. These are truthiness of a string field, the `||` fallback, `toLowerCase`, `endsWith`, `join` and `trim`.
- `token_pool.dfy` (`TokenRotation`): the token pool as a class `TokenPool`, with the cursor arithmetic `Next`/`Advance` and its lemmas.
- `deploy_handler.dfy` (`DeployApi`): the handler, as a method over a `TokenPool`. The provider's answers are inputs. The handler returns the response and the log of the provider calls it made.
- `file_validation.dfy` (`FileValidation`): `fileTypeConfigs` and `validateFile`, with lemmas that characterise it. `validateFile` is split in two. `Check` returns which of the checks, taken in the source's order, a file fails first. `ValidateFile` attaches the source's message to that verdict.
- `upload_form.dfy` (`UploadForm`): the in-order filter of valid files and its lemmas. The class `DeployForm` holds the selected type, `selectedFiles` and `deploymentStats`, and its methods are the page's event handlers.
- `end_to_end.dfy` (`EndToEnd`): how the form reads the handler's JSON reply.

The handler's cursor moves only through `RotateToken`. A ghost counter `rotations` in `TokenPool` lets the handler's contract count rotations. The handler's contract covers every path:

- 405 and 400 with no provider call and no rotation;
- a failed project creation: 500, no deployment, no rotation. The error is 'Project creation failed: ' plus the provider's message only when the project call answers not-ok and its body decodes. When the call or the decoding throws, the error is the thrown message, without that prefix;
- a first deployment call that throws: 500 with the caught message, no rotation and no retry;
- a first deployment with a URL: 200, one rotation, and `tokenIndex` is the cursor after rotating;
- a first deployment without a URL: one rotation and one retry with the rotated token and the identical payload. The result is then 200 on retry success. A retry answered without a URL gives the first attempt's `error.message`, with fallback `'Deployment failed'`. A retry that throws gives 500 with the retry's caught message.

There are never more than two deployment calls. The net cursor advance is 0 or 1.

Inputs that are parameters rather than modelled: every provider answer (`ProviderReplies`), the backend's JSON answer as the form sees it (`ServerReply`), the raw site-name text, and the chosen or dropped files as (name, size) pairs.

The code rotates the cursor at most once per request. It does not rotate when the request is refused, when the project cannot be created, or when the first deployment call throws. The index reported on success is the cursor after that rotation.

The configured pool in the source holds five literal tokens. The model takes any non-empty list, and the values are opaque.

## Model

| member | source | states |
|---|---|---|
| TokenRotation.Next | api/deploy.js:24 | the next cursor is below the pool size and is the successor of `i`, wrapping to 0 after the last token |
| TokenRotation.AdvanceIsModular | api/deploy.js:23-26 | `k` successive rotations from `i` leave the cursor at `(i + k) mod n` |
| TokenRotation.RotationIsCyclic | api/deploy.js:24 | rotating as many times as there are tokens returns the cursor to where it started |
| TokenRotation.NextDiffers | api/deploy.js:110-117 | with more than one token, the retry's token slot is different from the first attempt's |
| TokenRotation.TokenPool.constructor | api/deploy.js:2-15 | the pool starts with the configured non-empty token list and the cursor at 0 |
| TokenRotation.TokenPool.GetActiveToken | api/deploy.js:18-20 | returns the token under the cursor and changes nothing |
| TokenRotation.TokenPool.RotateToken | api/deploy.js:23-26 | moves the cursor to `(index + 1) mod n`, keeps it in range, returns the token it now points at, counts one rotation |
| TokenRotation.ReadActiveTwice | api/deploy.js:18-20 | two reads of the active token with no rotation between return the same token |
| DeployApi.CaughtMessage | api/deploy.js:140-145 | a caught error is reported with its own message, or 'Internal server error' when that is empty; never empty |
| DeployApi.DeployCallCountAppend | api/deploy.js:85-121 | the deployment calls in a log made of two parts are those of the first part plus those of the second |
| DeployApi.Handler | api/deploy.js:29-147 | the full decision procedure: 405/400 with no call or rotation; project failure gives 500 and no deployment or rotation, with 'Project creation failed: ' only for a not-ok reply whose body decodes and the caught message when the call throws; a first deployment that throws gives 500 with the caught message, no rotation and no retry; first URL gives 200, one rotation and the post-rotation `tokenIndex`; no URL gives one rotation and one retry with the new token and the same payload, then 200 on a retry URL, the first attempt's error (fallback 'Deployment failed') on a retry without URL, or the retry's caught message when it throws; at most two deployment calls |
| JsText.Lower | script.js:120 | the lower-cased name contains no upper-case ASCII letter |
| JsText.LowerIdempotent | script.js:120 | lower-casing an already lower-cased name changes nothing |
| JsText.TrimEmptyIff | script.js:375-382 | the site name trims to empty, so the submit is refused, exactly when every character is white space |
| JsText.TrimHasNoOuterSpace | script.js:375 | the trimmed site name sent to the backend neither starts nor ends with white space |
| FileValidation.Config | script.js:35-66 | only the `multiple` type allows more than one file; each of the five allow-lists is non-empty and holds dotted extensions; html, js and css are each covered by the multiple-files list, which does not take `.zip` |
| FileValidation.ValidateFile | script.js:118-151 | the result is valid exactly when its message is 'File is valid', and the message is never empty; its full characterisation is the lemma `ValidateFileCharacterised` |
| FileValidation.SomeEndsWithIff | script.js:123 | the `some`/`endsWith` search holds exactly when one of the listed extensions is a suffix |
| FileValidation.HtmlCheckIsRedundant | script.js:143-148 | a name that passed the html allow-list always ends with `.html` or `.htm`, so the html-only check never rejects |
| FileValidation.ValidateFileCharacterised | script.js:118-151 | valid (and `IsValid`) iff the lower-cased name ends with an allowed extension and, for zip only, size is at most 52428800; the extension error comes first, then the size error; a valid result says 'File is valid' |
| FileValidation.ValidateIgnoresCase | script.js:120-123 | two names that differ only in letter case get the same validation result |
| FileValidation.ZipSizeBoundary | script.js:133-140 | a zip of exactly 50 MiB is valid; one byte more yields 'ZIP file too large (max 50MB)' |
| FileValidation.SizeMattersOnlyForZip | script.js:133-141 | for every type other than zip the result does not depend on the size |
| FileValidation.ExtensionErrorText | script.js:125-129 | the extension error lists the allowed extensions joined with ', ' (html and zip shown in full) |
| UploadForm.ValidFiles | script.js:180-189 | the kept files are no more than the chosen ones and every kept file is valid |
| UploadForm.ValidFilesKeepsExactlyValid | script.js:180-189 | each valid file is kept exactly as often as it was chosen; invalid files are never kept |
| UploadForm.ValidFilesKeepsOrder | script.js:180-189 | the kept files are a subsequence of the chosen files (original order) |
| UploadForm.ValidFilesIdempotent | script.js:261-277 | re-validating the files the drop handler accepted, as its dispatched change event does, keeps them all |
| UploadForm.ChangeAfterDrop | script.js:250-277 | when a drop passes the one-file check, the change event it dispatches keeps every accepted file |
| UploadForm.DropAgreesWithChange | script.js:250-277 | a drop that passes the one-file check and has at least one valid file leaves the same selection as choosing those files in the input |
| UploadForm.FilterDropped | script.js:257-269 | the drop loop collects exactly the valid dropped files, in order (`ValidFiles`), and `validFilesCount` is their number |
| UploadForm.DeployForm.constructor | script.js:27-32 | the page starts with no selected files and all three counters at 0 |
| UploadForm.DeployForm.ChangeFileType | script.js:100-115 | switching the type clears the selection and leaves the counters alone |
| UploadForm.DeployForm.ChooseFiles | script.js:154-224 | the selection becomes empty for more than one file of a single-file type, otherwise exactly the valid files in order; reports whether some file was rejected |
| UploadForm.DeployForm.DropFiles | script.js:239-282 | an empty drop, more than one file for a single-file type, or a drop with no valid file leave the selection unchanged; otherwise the selection is the valid dropped files |
| UploadForm.DeployForm.Submit | script.js:372-461 | an empty trimmed name or empty selection sends nothing and changes no counter; otherwise sends (trimmed name, type, selection), increments `total` and exactly one of success/failed, preserving `total == success + failed` |
| EndToEnd.ClientReply | api/deploy.js:102-138 | the handler's body decodes to a reply whose `success` is true exactly for a success record |
| EndToEnd.SuccessCountedIffStatus200 | script.js:421-447 | the form counts a success exactly when the handler answered 200 |

## Left out

- DOM rendering, console lines, the result and info panels, drag styling, the clipboard, `setTimeout` and `updateFileInfo` are presentation only.
- `fetch`, `FormData`, JSON encoding and HTTP transport are not modelled. Each provider answer and the backend's decoded reply are inputs, and a network or JSON-decoding failure is the `Threw`/`ConnectionFailed` variant of that input.
- `formatFileSize` is not modelled because it is floating-point (`Math.log`, `Math.pow`, `toFixed`).
- The html, zip and single-file branches at api/deploy.js:37-51 are empty stubs and are not modelled.
- DeployApi.Handler: the payload's `file` field is taken from the request's `fileName` value, and the model treats the payload as an opaque value built once. In the source, `fileName` at api/deploy.js:82 has no binding in scope: the constants at :38 and :49 are block-scoped, and the file is an ES module. As written, every request that gets past project creation therefore throws a ReferenceError while building the payload. The catch at :140-145 then answers 500 with the error "fileName is not defined", and no deployment call and no rotation happen. The model describes the intended flow instead and does not reproduce this scoping.
- DeployApi.Handler: a request without a body is not modelled. In the source, destructuring it throws and the catch-all answers 500.
- The console logging of the token number (api/deploy.js:60, 111) is not modelled.
- Concurrent, overlapping handler invocations that interleave cursor updates are not modelled. The model is one request at a time.
- The literal token values are not modelled. The pool is any non-empty list; the configured one has five entries.
- JsText.Lower: `toLowerCase` is modelled on ASCII letters only. Other scripts' case mappings are not modelled, so case-insensitivity is stated for ASCII.
- The file type is one of the five configuration keys. An unknown selector value, which would make `fileTypeConfigs[fileType]` undefined, is not modelled.
- UploadForm.DeployForm.Submit: errors thrown by the page's own rendering code inside the `try` are not modelled. A throw before script.js:434 lands in the catch branch and counts as one failure. A throw from `updateStatsDisplay` (:436) or `showInfoPanel` (:438) comes after `success` and `total` were incremented, and the catch then increments `failed` and `total` too. That attempt counts as both a success and a failure, and `total` goes up by 2. A throw from `updateStatsDisplay` in the failure branch (:446) comes after `failed` and `total` were incremented, and the catch increments both again. That attempt counts as two failures, and `total` goes up by 2. `total == success + failed` still holds in all these cases.
