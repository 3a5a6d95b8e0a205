# Upload page model

A Dafny model of the upload page in `src/App.tsx`. The page lets a user pick one
spreadsheet or CSV file. `handleFiles` checks its size and type, and `onUpload`
does three things in order:

- it uploads the file to the `uploads` bucket of the storage service under a
  fresh `public/…` key;
- it looks up the file's public URL;
- it posts the URL and the file's name, type and size to the automation webhook.

It drives a five-value status label, a progress bar and a banner message.

The model has five modules:

- `JsString`: the JavaScript string operations the page uses —
  `toLowerCase`, `endsWith`, `split('.')` with `pop()`, and the decimal
  rendering of a number in a template literal. It proves their inverses
  (`Join`/`Split`, `ParseDecimal`/`Decimal`) and their characterising facts.
- `Admission`: the `ACCEPTED` list, `MAX_MB`, the `ACCEPTED.some(…)` type rule,
  and the verdict of `handleFiles` with its check order (size first, then type).
- `StorageKey`: the extension (`split('.').pop()?.toLowerCase() || 'bin'`) and
  the object key `public/${now}-${hex}.${ext}`.
- `Workflow`:
  - The page's state as a `Record`.
  - Each handler's run as the sequence of `Event`s it issues. These are setter
    calls (`setFile`, `setStatus`, `setProgress`, `setMessage`) and the external
    calls (storage upload, public-URL lookup, webhook post).
  - `Replay`, which folds the events over the record.
  - Lemmas for every outcome of `onUpload`, the ordering of the external calls,
    the progress and status traces, and the at-rest invariant.
- `App`: the component as a class, `UploadForm`.
  - The four `useState` variables are its fields (plus a ghost log of events).
  - The setters and the two handlers are methods.
  - Every handler is proved to append exactly the `Workflow` events and to leave
    exactly the `Workflow` record.

Inputs the page reads from its environment are parameters:

- the clock (`Date.now()`): the parameter `nowMillis`;
- the random suffix (`Math.random().toString(16).slice(2)`): the parameter
  `randomHex`;
- the storage service's public-URL resolution: a function `UrlResolver` from key
  to URL;
- the outcomes of the storage upload and of the webhook `fetch`: `StorageResult`
  and `WebhookResult`.

What the code does, and so what the model does:

- Each of the five `ACCEPTED` entries is tried against both the declared MIME
  type and the lower-cased name.
- The page has none of the following, and the model has none either:
  - a client drop-down, a per-client webhook, or per-client keys;
  - drag-and-drop or a multipart notification;
  - a "duplicate name" message or a DNS-failure message;
  - a content-type fallback.
- Keys start with `public/`, and the upload's content type is the file's
  declared type as is.
- The extension is `bin` whenever the text after the last '.' is empty (`archive.`,
  or an empty name). A name without any '.' gives its whole lower-cased name (`README`
  gives `readme`), not `bin`.

## Model

| member | source | states |
|---|---|---|
| `JsString.LowerChar` | src/App.tsx:37 | exactly the letters 'A'–'Z' change; the result is never an upper-case letter; a letter moves up by 32 code points |
| `JsString.Lower` | src/App.tsx:37 | `toLowerCase` keeps the length and lower-cases each character in place |
| `JsString.LowerIdempotent` | src/App.tsx:48 | lower-casing twice is lower-casing once |
| `JsString.LowerAppend` | src/App.tsx:37 | lower-casing distributes over concatenation (so the lower-cased name ends with the lower-cased extension) |
| `JsString.LowerKeepsNonLetters` | src/App.tsx:48 | a non-letter such as '.' occurs in the lower-cased string exactly when it occurs in the original |
| `JsString.EndsWith` | src/App.tsx:37 | `endsWith`: the suffix is no longer than the string and equals its tail (definition) |
| `JsString.Last` | src/App.tsx:48 | `pop()` on the non-empty result of `split`: its last element (definition) |
| `JsString.Split` | src/App.tsx:48 | `split` yields at least one segment, and no segment contains the separator |
| `JsString.JoinSplit` | src/App.tsx:48 | joining the segments of a string with the separator gives the string back |
| `JsString.SplitJoin` | src/App.tsx:48 | splitting the join of separator-free segments gives the segments back |
| `JsString.SplitAppendSegment` | src/App.tsx:48 | appending a separator and a separator-free text adds exactly that text as one more segment |
| `JsString.SplitOfSeparatorFree` | src/App.tsx:48 | a string without the separator is a single segment |
| `JsString.LastSegmentIsAfterLastSeparator` | src/App.tsx:48 | the segment `pop()` returns holds no separator, is a suffix of the string, and is the whole string when there is no separator, otherwise preceded by one |
| `JsString.Decimal` | src/App.tsx:49 | `${n}` is a non-empty string of decimal digits without a leading zero, of one digit exactly when `n < 10` |
| `JsString.ParseDecimalOfDecimal` | src/App.tsx:49 | reading back the decimal rendering gives the number |
| `JsString.DecimalInjective` | src/App.tsx:49 | different numbers render differently |
| `Admission.MatchesEntry` | src/App.tsx:37 | the `some` callback: the declared type equals the entry or the lower-cased name ends with it (definition) |
| `Admission.SomeMatches` | src/App.tsx:37 | `ACCEPTED.some(…)` is true exactly when some entry equals the declared type or ends the lower-cased name |
| `Admission.Admit` | src/App.tsx:36-38 | too large exactly when over `MAX_BYTES`; unsupported exactly when within the limit and no entry matches type or name; admitted exactly when within the limit and some entry matches |
| `Admission.SizeLimitConstants` | src/App.tsx:36 | the limit `MAX_MB*1024*1024` is 52428800 bytes and the message `Máx ${MAX_MB}MB` reads `Máx 50MB` |
| `Admission.SizeBoundary` | src/App.tsx:36 | a file of exactly 50 MiB passes the size check, one byte more fails it |
| `Admission.UpperCaseExtensionAccepted` | src/App.tsx:37 | any name ending in `.CSV` within the limit is admitted whatever its declared type |
| `Admission.ReportCsvAccepted` | src/App.tsx:37 | `report.CSV` with an unrelated type is admitted |
| `Admission.DeclaredTypeAccepted` | src/App.tsx:37 | type `text/csv` admits a file within the limit whatever its name |
| `Admission.PdfRefused` | src/App.tsx:36-38 | a `.pdf` name of type `application/pdf` is refused as unsupported, or as too large when over the limit: size is checked before type |
| `Admission.LastCharMismatch` | src/App.tsx:37 | `endsWith` fails when the last characters differ |
| `StorageKey.Extension` | src/App.tsx:48 | the extension is non-empty and holds no '.' |
| `StorageKey.ExtensionIsLowerCase` | src/App.tsx:48 | the extension is in lower case |
| `StorageKey.ExtensionIsLowerLastSegment` | src/App.tsx:48 | the extension is the lower-cased text after the name's last '.' (the whole name without a '.'), or `bin` when that text is empty |
| `StorageKey.ExtensionOfUpperCase` | src/App.tsx:48 | `report.CSV` gets `csv` |
| `StorageKey.ExtensionOfTrailingDot` | src/App.tsx:48 | `archive.` gets `bin` |
| `StorageKey.ExtensionWithoutDot` | src/App.tsx:48 | `README` gets `readme` |
| `StorageKey.ExtensionAfterLastDot` | src/App.tsx:48 | `vendas.2024.XLSX` gets `xlsx` |
| `StorageKey.Key` | src/App.tsx:49 | the key starts with `public/` and ends with `.` followed by the extension |
| `StorageKey.KeyKeepsExtension` | src/App.tsx:48-49 | the key's own last '.'-segment, and so its own extension, is the file's extension |
| `StorageKey.KeyClockReadsBack` | src/App.tsx:49 | after `public/` the key holds decimal digits up to the first `-`, and they read back as the clock reading |
| `StorageKey.KeysDifferInTime` | src/App.tsx:49 | uploads at different clock readings get different keys, whatever the two file names and the two random suffixes |
| `Workflow.ErrorText` | src/App.tsx:87 | the `catch` message is the error's message when it is present and non-empty, otherwise `Falha no upload` |
| `Workflow.HttpErrorText` | src/App.tsx:79 | the thrown message is `n8n ` followed by a non-empty run of decimal digits without a leading zero (unless the code is 0) that reads back as the status code |
| `Workflow.IsOk` | src/App.tsx:79 | `r.ok`: the status code is in 200–299 (definition) |
| `Workflow.PayloadFor` | src/App.tsx:70-76 | the JSON body: the public URL, the file's name, type and size, and `source: 'supabase'` (definition) |
| `Workflow.SelectionEvents` | src/App.tsx:33-40 | `handleFiles` makes no external call, and it does nothing exactly when the list is missing or empty |
| `Workflow.FailReplay` | src/App.tsx:86-87 | a failure report sets status `error` and the message, and nothing else |
| `Workflow.StoreReplay` | src/App.tsx:39 | storing a file sets the file, status `idle` and an empty message, and nothing else |
| `Workflow.Select` | src/App.tsx:33-40 | the record after `handleFiles`: its steps replayed over the record; characterised by `EmptySelectionIsNoop`, `OversizedFileRefused`, `TypeRule` and `OnlyFirstFileCounts` |
| `Workflow.EmptySelectionIsNoop` | src/App.tsx:34 | a missing or empty file list leaves the state unchanged |
| `Workflow.OversizedFileRefused` | src/App.tsx:36 | a file over 50 MiB gives `error` and `Máx 50MB` whatever its type, and keeps the stored file and the progress |
| `Workflow.TypeRule` | src/App.tsx:37-39 | a file within the limit is stored with `idle` and no message exactly when some entry equals its type or ends its lower-cased name; otherwise `error` and `Use .xlsx ou .csv`, keeping the stored file |
| `Workflow.OnlyFirstFileCounts` | src/App.tsx:35 | only the first file of the list affects the outcome |
| `Workflow.UploadEvents` | src/App.tsx:42-89 | `onUpload` issues no step exactly when no file is selected |
| `Workflow.Run` | src/App.tsx:42-89 | the record after `onUpload`, which reads the record's own file; characterised by `NoFileNoRun` and the four outcome lemmas below |
| `Workflow.NoFileNoRun` | src/App.tsx:43 | without a file, `onUpload` issues no step and leaves the state unchanged |
| `Workflow.StorageFailureEndsRun` | src/App.tsx:53-57 | a failed storage upload ends in `error` with its message or `Falha no upload`, keeps the file and progress 5, and posts nothing to the webhook |
| `Workflow.WebhookHttpErrorEndsRun` | src/App.tsx:79 | a non-ok response ends in `error` with `n8n ` and the status code, keeps the file, progress 80 |
| `Workflow.WebhookThrowEndsRun` | src/App.tsx:85-88 | a thrown webhook failure ends in `error` with its message or `Falha no upload`, keeps the file, progress 80 |
| `Workflow.FullSuccess` | src/App.tsx:81-84 | a stored upload and an ok response end with no file, `success`, progress 100 and `✅ Enviado e notificado!` |
| `Workflow.StoredRun` | src/App.tsx:58-64 | after a stored upload the webhook's answer is applied to the state `notifying`, progress 80, no message |
| `Workflow.RunSettles` | src/App.tsx:42-89 | every run with a file ends in `success` or `error` |
| `Workflow.WebhookOnlyAfterStored` | src/App.tsx:53-77 | a webhook post happens only when the upload was stored; it is the eighth step, after the upload under the derived key (fourth) and the URL lookup of that key (sixth), and it posts that URL with the file's name, type, size and `supabase` |
| `Workflow.StoredUploadIsPublished` | src/App.tsx:58-77 | a stored upload is always followed by the URL lookup of its key (sixth step) and the webhook post of that URL with the file's name, type, size and `supabase` (eighth step); with `WebhookOnlyAfterStored`, a run posts exactly when its upload was stored |
| `Workflow.UploadCallArguments` | src/App.tsx:53-55 | the fourth step is always the upload under a `public/` key ending in the extension with the declared content type and no overwrite |
| `Workflow.ProgressCheckpoints` | src/App.tsx:44-81 | the progress writes of a run are a prefix of `[5, 80, 100]`: 80 exactly when stored, 100 exactly when stored and answered ok |
| `Workflow.StatusFollowsStateMachine` | src/App.tsx:44-86 | the status writes are `uploading, error`, `uploading, notifying, error` or `uploading, notifying, success` |
| `Workflow.AttemptWrites` | src/App.tsx:44-86 | the progress and status writes of a run for each storage and webhook outcome |
| `Workflow.InitialAtRest` | src/App.tsx:26-29 | the initial state has no file and status `idle`, and is at rest |
| `Workflow.SelectKeepsAtRest` | src/App.tsx:33-40 | `handleFiles` keeps the at-rest invariant: status neither `uploading` nor `notifying`, progress in {0, 5, 80, 100}, success only with no file and the confirmation, no message while idle |
| `Workflow.RunKeepsAtRest` | src/App.tsx:42-89 | `onUpload`, run to completion from an at-rest record, ends at rest |
| `App.UploadForm.constructor` | src/App.tsx:26-29 | the page opens with no file, `idle`, progress 0, no message and an empty log |
| `App.UploadForm.SetFile` | src/App.tsx:26 | `setFile` changes the file only |
| `App.UploadForm.SetStatus` | src/App.tsx:27 | `setStatus` changes the status only |
| `App.UploadForm.SetProgress` | src/App.tsx:28 | `setProgress` changes the progress only |
| `App.UploadForm.SetMessage` | src/App.tsx:29 | `setMessage` changes the message only |
| `App.UploadForm.HandleFiles` | src/App.tsx:33-40 | the handler issues exactly `SelectionEvents(files)`, leaves `Select(old state, files)` and keeps the page at rest |
| `App.UploadForm.Check` | src/App.tsx:36-39 | the checks on one file issue exactly the steps of its verdict |
| `App.UploadForm.OnUpload` | src/App.tsx:42-89 | the handler issues exactly `UploadEvents` for the stored file, leaves `Run(old state, …)` and keeps the page at rest |
| `App.UploadForm.Begin` | src/App.tsx:44-55 | `uploading`, progress 5, no message, then the upload call |
| `App.UploadForm.Transfer` | src/App.tsx:57-88 | the `catch` block after a failed upload, otherwise the notification and its outcome |
| `App.UploadForm.Publish` | src/App.tsx:58-77 | progress 80, the URL lookup, `notifying`, the post, and the webhook's ending |
| `App.UploadForm.Settle` | src/App.tsx:79-88 | success steps for an ok response, the `catch` block otherwise |
| `App.UploadForm.Fail` | src/App.tsx:86-87 | status `error` and the message, nothing else |
| `App.PickFiles` | src/App.tsx:33-40 | a 60 MiB `data.csv` is refused with `error` and `Máx 50MB` and leaves the stored file as it was, then `invoice.xlsx` is stored with `idle` |
| `App.UploadAttempts` | src/App.tsx:42-89 | a failed upload keeps the file; a retry answered 500 keeps it; the next retry succeeds and clears it; a further click does nothing |

## Left out

- The JSX rendering, `onBrowse`, `inputRef` and `prettyBytes` are presentation
  only. The model builds no DOM and formats no sizes.
- The storage client, environment variables and webhook URL are left out, and
  so are the webhook request's method and headers. Creating the storage client
  and reading the environment are configuration; the model records the bucket
  name and the payload.
- `JSON.stringify` is not modelled: the payload is a datatype with the same five
  fields.
- The clock and the random number generator are inputs. `randomHex` stands for
  any string, so the hex formatting of `Math.random()` is not modelled.
- The file's bytes are not modelled. A file is its name, size and declared type.
- Asynchrony is not modelled. Each handler runs to completion as one step.
  - Because of this, `Valid()` / `AtRest` holds between handler calls. In the
    page it need not: the browse button (line 98) is never disabled, and a
    `handleFiles` call during an `await` of `onUpload` sets the status to `error`
    or `idle` (lines 36-39). That re-enables the upload button (line 106), so a
    second `onUpload` can start while the first is still running, and the first
    run's `setFile(null)` (line 84) then clears the newly picked file. The model
    does not capture these interleavings.
  - React batches state updates. The model applies each setter immediately;
    this makes no difference, because the handlers never read state they have
    written.
  - `onUpload` reads the `file` its closure captured. The model reads the field
    once, at the start.
- The storage error: the storage client may return an error or throw one. Both
  become `StorageFailed` carrying the error's message, which may be missing.
  An error whose `message` is not a string is not modelled.
- `JsString.Lower`, `JsString.LowerChar`: lower-case only 'A'–'Z'. JavaScript's `toLowerCase` also
  lower-cases non-ASCII letters, so names with such letters in their extension
  are outside the model.
- `pop()` on the result of `split` always returns a segment. The optional chain
  after it therefore never short-circuits, and no path is modelled for it.
- `vite.config.ts` is build configuration and is not part of this model.
