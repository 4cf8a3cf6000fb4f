# Deep Revive: backend file rules and client request chain

Deep Revive is a web app that enhances photos. The browser uploads an
image to a Flask backend, asks the backend to enhance it, and then shows
previews and offers a download. This project models two pieces of that
flow and proves properties about them.

- **The backend's naming and validation rules** (`backend/server.py`).
  These cover the extension whitelist, the upload and enhance validation
  cascades, and how a requested name is routed to the upload folder or to
  the enhanced folder. The pure decisions are in module `ServerRules`.
  The endpoints are in module `ImageServer`, as a class `Server` whose two
  folders are maps from file name to contents. `secure_filename` and the
  image-processing pipeline are constructor-supplied function values, so
  the model treats them as uninterpreted. The pipeline receives the output
  name as well as the bytes, because saving the result picks the image
  format from that name's extension and fails without one.
- **The client request chain** (`src/services/api.ts`), in module
  `ApiClient`. It covers the availability probe, the bounded retry loop,
  `enhanceImage` (gate, retried POST, error-message fallback),
  `uploadImage` with `handleApiError`, and `getPreviewUrl`. Each `fetch`
  is an oracle value saying what that call produced. The retried action
  is a function from the attempt number to its outcome. Module `Decimal`
  renders the timestamp in the way a JavaScript template literal does and
  reads it back.

What the code does:
- `uploadImage` makes one POST. It has no availability gate and no retry.
- When the upload response is not 2xx and its body is not JSON,
  `response.json()` rejects. The message of that rejection goes through
  `handleApiError`. The generic "Failed to upload image" is used only when
  the body parses but has no non-empty `error`.
- The 2xx path ends in `return response.json()`, which is not awaited
  inside the `try`. A parse failure there therefore escapes
  `handleApiError` unchanged.
- The retry loop re-raises the last call's own error. "Max retries
  reached" is raised only when `maxRetries` is 0 or less.

## Model

| member | source | states |
|---|---|---|
| `ServerRules.AllowedFile` | backend/server.py:43-44 | the whitelist on the text after the last '.'; any accepted name contains a '.' and is at least four characters long |
| `ServerRules.LastDot` | backend/server.py:44 | finds the last '.', with no '.' after it; None exactly when the name has no '.' |
| `ServerRules.AllowedFileIff` | backend/server.py:33-44 | a name is accepted iff it has a '.' and the lower-cased text after the last '.' is png, jpg, jpeg or gif |
| `ServerRules.AllowedFileExamples` | backend/server.py:43-44 | "A.PNG" and "photo.jpeg" are accepted; "a.png.exe", "x." and "png" are refused |
| `ServerRules.ValidateUpload` | backend/server.py:95-112 | ordered cascade with 400 on failure: no `file` part gives "No file part", then an empty name gives "No selected file", then a missing or non-whitelisted name gives "File type not allowed"; otherwise the original name is accepted |
| `ServerRules.ValidateEnhance` | backend/server.py:117-122 | a missing or empty `filename` gives 400 "No filename provided"; otherwise that name goes on; `options` plays no part |
| `ServerRules.EnhancedName` | backend/server.py:133 | the output name starts with `enhanced_`, and stripping the prefix gives the input name back |
| `ServerRules.PreviewFolder` | backend/server.py:149-152 | preview looks in the enhanced folder exactly for the names that enhancement can produce (`enhanced_` followed by anything), and in the upload folder otherwise |
| `ServerRules.DownloadName` | backend/server.py:173-174 | the normalised name always starts with `enhanced_`; a prefixed name is kept and any other name gets the prefix |
| `ServerRules.DownloadNameIdempotent` | backend/server.py:173-174 | normalising twice equals normalising once |
| `ServerRules.DownloadKeepsExactlyEnhancedRoutes` | backend/server.py:149-174 | download keeps a name unchanged iff preview routes that name to the enhanced folder |
| `ServerRules.EnhancedNameRouting` | backend/server.py:133-176 | a name produced by enhance is routed to the enhanced folder by preview, and download does not add the prefix again |
| `ServerRules.PrefixedUploadShadowed` | backend/server.py:149-152 | an uploaded name that already starts with `enhanced_` is looked up by preview in the enhanced folder, not in the upload folder; download keeps such a name as it is, so it differs from the name enhance would produce |
| `ImageServer.Server.constructor` | backend/server.py:31-37 | both folders start with the given contents; the sanitiser and the processing pipeline are the given functions |
| `ImageServer.Server.UploadFile` | backend/server.py:93-112 | a rejected request answers the cascade's error and stores nothing; an accepted one stores the contents under the sanitised name and answers that name (500 and nothing stored if the name sanitises to ""); the enhanced folder never changes |
| `ImageServer.Server.EnhanceImage` | backend/server.py:115-143 | 400 before any lookup for a missing name; 404 if the name is not in the upload folder; 500 with the pipeline's message if processing raises; in these three cases no folder changes; the pipeline is given the output name `enhanced_<name>`, so a save that fails on that name (no extension) also gives 500; otherwise exactly `enhanced_<name>` is added to the enhanced folder, holding the processed image; the result is then routed to the enhanced folder by preview and download; options are ignored |
| `ImageServer.Server.GetPreview` | backend/server.py:146-168 | answers the file from the folder the name's prefix selects, with its stored contents, or 404 "File not found" when that folder lacks it |
| `ImageServer.Server.DownloadFile` | backend/server.py:171-187 | answers the enhanced file under the normalised name, or 404 "Enhanced file not found"; anything it sends carries the prefix |
| `ImageServer.UploadEnhanceRetrieve` | backend/server.py:93-187 | after an accepted upload whose sanitised name is non-empty, and whose processing and save under the output name succeed, preview and download of the name enhance returned both send the processed image |
| `ApiClient.CheckApiAvailability` | src/services/api.ts:5-19 | never raises; a network failure gives false; a response gives true iff its status is 2xx, whatever its body |
| `ApiClient.ErrorOr` | src/services/api.ts:45 | the `error || fallback` rule: the result is the field when it is a non-empty string and the fallback otherwise, so it is never empty when the fallback is not |
| `ApiClient.HandleApiError` | src/services/api.ts:22-27 | the raised message is never empty: it is the original message, or the generic message when the original is empty |
| `ApiClient.RetryFrom` | src/services/api.ts:60-69 | the loop entered at attempt i below the budget makes at least one more call and stops within the budget; entered at or past the budget it raises "Max retries reached" without calling |
| `ApiClient.Retry` | src/services/api.ts:55-70 | the result and call count of `retryRequest`: with a positive budget 1 to `maxRetries` calls, otherwise no call and "Max retries reached" |
| `ApiClient.RetryTrace` | src/services/api.ts:60-66 | a run of n >= 1 calls has 2n-1 steps, starting with the first call and ending with the last |
| `ApiClient.RetryFromOutcome` | src/services/api.ts:60-69 | the loop entered at attempt i stops after a success or after its last allowed call; it returns the outcome of its last call, every earlier call failed, and an error means the whole budget was used |
| `ApiClient.RetryOutcome` | src/services/api.ts:55-70 | at most `maxRetries` calls; the result is the last call's outcome, preceded only by failures; an error is raised only after `maxRetries` calls; with `maxRetries <= 0` there are no calls and the error is "Max retries reached" |
| `ApiClient.RetrySucceedsAfterFailures` | src/services/api.ts:60-64 | an action that fails k times and then succeeds, with k < maxRetries, returns that success after exactly k+1 calls |
| `ApiClient.RetryAllFail` | src/services/api.ts:60-64 | an action that always fails is called exactly maxRetries times, and the last call's error is raised |
| `ApiClient.RetryTraceShape` | src/services/api.ts:60-67 | calls alternate with waits of the fixed delay, starting and ending with a call, so there is one wait fewer than there are calls |
| `ApiClient.RetryRequest` | src/services/api.ts:55-70 | the loop's result and its number of calls are those of the retry specification, and its steps are the alternating call/wait trace |
| `ApiClient.EnhanceAttempt` | src/services/api.ts:89-105 | succeeds iff the response is 2xx with a JSON body, which it returns; a non-2xx response raises the body's non-empty `error`, or "Failed to enhance image" when that is missing or empty or the body is not JSON; a network failure, or a 2xx body that is not JSON, raises its own reason unchanged |
| `ApiClient.EnhanceImage` | src/services/api.ts:76-111 | the health probe is always the first request; if it fails, the error is the "server is not available" message and no enhance POST is sent; otherwise the result and the number of POSTs are those of the retry loop with budget 3 (so 1 to 3 POSTs), each carrying `filename` unchanged and `options`, which defaults to `{}` |
| `ApiClient.UploadImage` | src/services/api.ts:30-52 | exactly one POST with the file under field `file`, and no gate or retry; succeeds iff the response is 2xx with a JSON body; a non-2xx response raises the body's non-empty `error`, or else "Failed to upload image", or the parse failure's message when the body is not JSON; an error raised inside the `try` never has an empty message |
| `ApiClient.GetPreviewUrl` | src/services/api.ts:113-116 | the URL starts with the base, `/api/preview/`, the file name as given and `?t=`, and ends in a non-empty run of digits |
| `ApiClient.PreviewUrlRoundTrip` | src/services/api.ts:113-116 | the preview URL parses back into exactly the file name, which is inserted verbatim whatever its characters, and the timestamp |
| `ApiClient.PreviewUrlInjective` | src/services/api.ts:113-116 | different file names or timestamps never give the same preview URL |
| `Decimal.Show` | src/services/api.ts:115 | the timestamp is written in canonical decimal: digits only, at least one, and no leading zero unless it is 0 |
| `Decimal.ValueOfShow` | src/services/api.ts:115 | reading the written timestamp back gives the number again |

## Left out

- Flask, CORS, `MAX_CONTENT_LENGTH`, `send_file`, MIME guessing and the preview's cache headers (backend/server.py:21-28, 41, 46-48, 162-164, 181-185) are framework and library behaviour. The model keeps only the status and which file is sent.
- `secure_filename` and `enhance_image_processing` (backend/server.py:50-70, 103) are supplied functions. The supplied pipeline function stands for processing followed by `enhanced.save` under the output name (backend/server.py:130-135). What it does with a given name and image is not interpreted.
- ImageServer.Server.GetPreview, ImageServer.Server.DownloadFile: read errors inside the `try` (500 with the exception text) are not modelled. A name in a folder is always readable.
- ImageServer.Server.EnhanceImage: folders are flat maps of names. Names that are really paths are not modelled: `..`, `/`, `.` or a name that is a directory.
- ImageServer.Server.EnhanceImage: `filename` is modelled as a string or absent. Three other request shapes are not modelled:
  - A falsy non-string `filename` (`0`, `false`, `[]`) fails the check at backend/server.py:121 and gets 400 "No filename provided", like a missing one.
  - A truthy non-string `filename` passes that check. It then raises at the path join (backend/server.py:124), which gives 500.
  - A body that parses as JSON but is not an object (`null`, a list, a string or a number) fails at `data.get` (backend/server.py:118) with 500, before any check.
  - A missing or malformed JSON body is refused by `request.get_json()` itself (backend/server.py:117): 400, or 415 from Werkzeug 2.3 on for a non-JSON content type. Before Flask 2.1, a body without a JSON content type reached line 118 (500); malformed JSON was already refused with 400 at line 117.
- `Lower` lower-cases ASCII letters only. For membership in {png, jpg, jpeg, gif}, this decides the same as Python's `str.lower`.
- The retry delay is recorded as a `Wait` step in the trace. No real time passes. `maxRetries` is an integer, so fractional budgets are not modelled.
- `Date.now()` is the parameter `now`. That successive timestamps do not decrease is a property of the clock, which is not part of this model.
- `fetch` and `json()` are oracle values. A JSON `error` field that is not a string, and a body of `null`, are not modelled. Logging (`console.*`) is left out.
- `API_BASE_URL` is the parameter `base`. The port constants (backend/server.py:190, src/services/api.ts:2) are deployment configuration.
- src/services/proxy.ts, the Next.js API route, the React pages and components, and the Next.js configuration are not part of this model. They are pass-through or presentation code.
