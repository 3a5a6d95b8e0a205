/** The upload page's state record `{file, status, progress, message}` and what
    its two handlers do to it, as the sequence of state writes and external
    calls each handler issues (`handleFiles` and `onUpload` in src/App.tsx). */
module Workflow {
  import opened Wrappers
  import opened JsString
  import opened Admission
  import opened StorageKey

  /** The five values of the status label. */
  datatype Status = Idle | Uploading | Notifying | Success | Error

  /** The page's state: the selected file, the status label, the progress-bar
      percentage and the banner message. */
  datatype Record = Record(file: Option<FileInfo>, status: Status, progress: int, message: string)

  /** The state when the page opens. */
  const INITIAL: Record := Record(None, Idle, 0, "")

  /** The storage bucket the page uploads into. */
  const BUCKET: string := "uploads"

  /** The `source` field of every notification. */
  const SOURCE_TAG: string := "supabase"

  /** The message shown after a complete run. */
  const SUCCESS_MESSAGE: string := "✅ Enviado e notificado!"

  /** The message shown for a failure that carries no message of its own. */
  const FALLBACK_ERROR: string := "Falha no upload"

  /** The JSON body posted to the webhook. */
  datatype Payload = Payload(url: string, filename: string, mimetype: string, size: nat, source: string)

  /** One step of a handler: a call of a state setter, or an external call. */
  datatype Event =
    | WroteFile(file: Option<FileInfo>)
    | WroteStatus(status: Status)
    | WroteProgress(progress: int)
    | WroteMessage(message: string)
    | StorageUpload(bucket: string, key: string, body: FileInfo, contentType: string, upsert: bool)
    | PublicUrlLookup(bucket: string, key: string)
    | WebhookPost(payload: Payload)
  {
    /** Whether this step is a call out of the page. */
    predicate IsExternal()
    {
      StorageUpload? || PublicUrlLookup? || WebhookPost?
    }
  }

  /** The outcome of the storage upload: no error, or an error (returned or
      thrown) with its `message`, which may be missing. */
  datatype StorageResult = Stored | StorageFailed(errorMessage: Option<string>)

  /** The outcome of the webhook `fetch`: a response with its status code, or a
      thrown error with its `message`, which may be missing. */
  datatype WebhookResult = Responded(statusCode: nat) | Threw(errorMessage: Option<string>)

  /** `Response.ok`: the status code is in the 2xx range. */
  predicate IsOk(statusCode: nat)
  {
    200 <= statusCode <= 299
  }

  /** `e?.message || 'Falha no upload'`: a missing or empty message falls back
      to the generic one. */
  function ErrorText(errorMessage: Option<string>): (text: string)
    ensures text != []
    ensures errorMessage.Some? && errorMessage.value != [] ==> text == errorMessage.value
    ensures errorMessage.None? || errorMessage.value == [] ==> text == FALLBACK_ERROR
  {
    match errorMessage
    case Some(m) => if m != [] then m else FALLBACK_ERROR
    case None => FALLBACK_ERROR
  }

  /** The message of the error thrown for a non-ok response: `n8n ${r.status}`. */
  function HttpErrorText(statusCode: nat): (text: string)
    ensures StartsWith(text, "n8n ") && |text| > 4
    ensures forall i :: 4 <= i < |text| ==> '0' <= text[i] <= '9'
    ensures text[4] == '0' ==> statusCode == 0
    ensures ParseDecimal(text[4..]) == statusCode
  {
    assert ("n8n " + Decimal(statusCode))[4..] == Decimal(statusCode);
    ParseDecimalOfDecimal(statusCode);
    "n8n " + Decimal(statusCode)
  }

  /** The effect of one step on the record; external calls leave it alone. */
  function Apply(r: Record, e: Event): Record
  {
    match e
    case WroteFile(f) => r.(file := f)
    case WroteStatus(s) => r.(status := s)
    case WroteProgress(p) => r.(progress := p)
    case WroteMessage(m) => r.(message := m)
    case _ => r
  }

  /** The record after the steps `es`, applied in order. */
  function Replay(r: Record, es: seq<Event>): Record
    decreases |es|
  {
    if es == [] then r else Apply(Replay(r, es[..|es| - 1]), Last(es))
  }

  /** One more step at the end. */
  lemma ReplaySnoc(r: Record, es: seq<Event>, e: Event)
    ensures Replay(r, es + [e]) == Apply(Replay(r, es), e)
  {
    assert (es + [e])[..|es|] == es;
  }

  /** Replaying two step sequences one after the other. */
  lemma {:induction false} ReplayAppend(r: Record, a: seq<Event>, b: seq<Event>)
    ensures Replay(r, a + b) == Replay(Replay(r, a), b)
    decreases |b|
  {
    if b != [] {
      var init := b[..|b| - 1];
      assert a + b == (a + init) + [Last(b)];
      assert b == init + [Last(b)];
      ReplaySnoc(r, a + init, Last(b));
      ReplaySnoc(Replay(r, a), init, Last(b));
      ReplayAppend(r, a, init);
    } else {
      assert a + b == a;
    }
  }

  lemma ReplayTwo(r: Record, a: Event, b: Event)
    ensures Replay(r, [a, b]) == Apply(Apply(r, a), b)
  {
    ReplaySnoc(r, [], a);
    ReplaySnoc(r, [a], b);
    assert [] + [a] == [a] && [a] + [b] == [a, b];
  }

  lemma ReplayThree(r: Record, a: Event, b: Event, c: Event)
    ensures Replay(r, [a, b, c]) == Apply(Apply(Apply(r, a), b), c)
  {
    ReplayTwo(r, a, b);
    ReplaySnoc(r, [a, b], c);
    assert [a, b] + [c] == [a, b, c];
  }

  lemma ReplayFour(r: Record, a: Event, b: Event, c: Event, d: Event)
    ensures Replay(r, [a, b, c, d]) == Apply(Apply(Apply(Apply(r, a), b), c), d)
  {
    ReplayThree(r, a, b, c);
    ReplaySnoc(r, [a, b, c], d);
    assert [a, b, c] + [d] == [a, b, c, d];
  }

  /** The values that `pick` extracts from each step of `es`, in order. */
  function Collect<T>(es: seq<Event>, pick: Event -> seq<T>): seq<T>
    decreases |es|
  {
    if es == [] then [] else Collect(es[..|es| - 1], pick) + pick(Last(es))
  }

  lemma {:induction false} CollectAppend<T>(a: seq<Event>, b: seq<Event>, pick: Event -> seq<T>)
    ensures Collect(a + b, pick) == Collect(a, pick) + Collect(b, pick)
    decreases |b|
  {
    if b != [] {
      var init := b[..|b| - 1];
      assert (a + b)[..|a + b| - 1] == a + init;
      assert Last(a + b) == Last(b);
      CollectAppend(a, init, pick);
    } else {
      assert a + b == a;
    }
  }

  lemma CollectTwo<T>(a: Event, b: Event, pick: Event -> seq<T>)
    ensures Collect([a, b], pick) == pick(a) + pick(b)
  {
    assert [a, b][..1] == [a];
    assert [a][..0] == [];
    assert Collect([a], pick) == [] + pick(a);
  }

  lemma CollectFour<T>(a: Event, b: Event, c: Event, d: Event, pick: Event -> seq<T>)
    ensures Collect([a, b, c, d], pick) == pick(a) + pick(b) + pick(c) + pick(d)
  {
    CollectAppend([a, b], [c, d], pick);
    assert [a, b] + [c, d] == [a, b, c, d];
    CollectTwo(a, b, pick);
    CollectTwo(c, d, pick);
  }

  /** The progress value a step writes, if it writes one. */
  function ProgressOf(e: Event): seq<int>
  {
    if e.WroteProgress? then [e.progress] else []
  }

  /** The status value a step writes, if it writes one. */
  function StatusOf(e: Event): seq<Status>
  {
    if e.WroteStatus? then [e.status] else []
  }

  /** The progress values a sequence of steps writes, in order. */
  function ProgressWrites(es: seq<Event>): seq<int>
  {
    Collect(es, ProgressOf)
  }

  /** The status values a sequence of steps writes, in order. */
  function StatusWrites(es: seq<Event>): seq<Status>
  {
    Collect(es, StatusOf)
  }

  // ---------------------------------------------------------------------
  // handleFiles

  /** A failure report: status `error` and the failure's message (a refused
      file in `handleFiles`, the `catch` block in `onUpload`). */
  function FailSteps(message: string): seq<Event>
  {
    [WroteStatus(Error), WroteMessage(message)]
  }

  /** An accepted file: stored, with status `idle` and no message. */
  function StoreSteps(f: FileInfo): seq<Event>
  {
    [WroteFile(Some(f)), WroteStatus(Idle), WroteMessage("")]
  }

  /** The steps of checking the picked file `f`: refused for its size, refused
      for its type, or stored. */
  function CheckSteps(f: FileInfo): seq<Event>
  {
    match Admit(f)
    case TooLarge => FailSteps(TOO_LARGE_MESSAGE)
    case UnsupportedType => FailSteps(UNSUPPORTED_MESSAGE)
    case Admitted => StoreSteps(f)
  }

  /** The steps of `handleFiles`: nothing for a missing or empty file list;
      otherwise the first file is checked and either stored or refused. */
  function SelectionEvents(files: Option<seq<FileInfo>>): (es: seq<Event>)
    ensures forall i :: 0 <= i < |es| ==> !es[i].IsExternal()
    ensures files.None? || files.value == [] <==> es == []
  {
    if files.None? || files.value == [] then [] else CheckSteps(files.value[0])
  }

  /** A failure report sets the status and the message and nothing else. */
  lemma FailReplay(r: Record, message: string)
    ensures Replay(r, FailSteps(message)) == r.(status := Error, message := message)
  {
    ReplayTwo(r, WroteStatus(Error), WroteMessage(message));
  }

  /** Storing a file sets the file, status `idle` and no message. */
  lemma StoreReplay(r: Record, f: FileInfo)
    ensures Replay(r, StoreSteps(f)) == r.(file := Some(f), status := Idle, message := "")
  {
    ReplayThree(r, WroteFile(Some(f)), WroteStatus(Idle), WroteMessage(""));
  }

  /** The record after `handleFiles(files)`. */
  function Select(r: Record, files: Option<seq<FileInfo>>): Record
  {
    Replay(r, SelectionEvents(files))
  }

  /** A missing or empty file list changes nothing. */
  lemma EmptySelectionIsNoop(r: Record, files: Option<seq<FileInfo>>)
    requires files.None? || files.value == []
    ensures Select(r, files) == r
  {
  }

  /** A file over 50 MiB is refused with `Máx 50MB`, whatever its type; the
      stored file and the progress are kept. */
  lemma OversizedFileRefused(r: Record, f: FileInfo, rest: seq<FileInfo>)
    requires f.size > MAX_BYTES
    ensures Select(r, Some([f] + rest)) == r.(status := Error, message := "Máx 50MB")
  {
    SizeLimitConstants();
    assert ([f] + rest)[0] == f;
    FailReplay(r, TOO_LARGE_MESSAGE);
  }

  /** A file within the limit is stored, with status `idle` and no message,
      exactly when some entry of ACCEPTED equals its type or ends its
      lower-cased name; otherwise it is refused with `Use .xlsx ou .csv` and the
      stored file is kept. */
  lemma TypeRule(r: Record, f: FileInfo, rest: seq<FileInfo>)
    requires f.size <= MAX_BYTES
    ensures var accepted := exists a :: a in ACCEPTED && (f.mimeType == a || EndsWith(Lower(f.name), a));
      Select(r, Some([f] + rest)) ==
        if accepted then r.(file := Some(f), status := Idle, message := "")
        else r.(status := Error, message := "Use .xlsx ou .csv")
  {
    assert ([f] + rest)[0] == f;
    StoreReplay(r, f);
    FailReplay(r, UNSUPPORTED_MESSAGE);
  }

  /** Only the first file of the list is looked at. */
  lemma OnlyFirstFileCounts(r: Record, f: FileInfo, rest: seq<FileInfo>)
    ensures Select(r, Some([f] + rest)) == Select(r, Some([f]))
  {
    assert ([f] + rest)[0] == [f][0];
  }

  // ---------------------------------------------------------------------
  // onUpload

  /** The public URL the storage service resolves for an object key, given as
      a parameter. */
  type UrlResolver = string -> string

  /** The first steps of a run: status `uploading`, progress 5, no message,
      then the storage upload under `key` with the declared type and no
      overwrite. */
  function StartSteps(f: FileInfo, key: string): seq<Event>
  {
    [WroteStatus(Uploading), WroteProgress(5), WroteMessage(""), StorageUpload(BUCKET, key, f, f.mimeType, false)]
  }

  /** The steps after a stored upload: progress 80, the URL lookup, status
      `notifying`, then the webhook post. */
  function NotifySteps(key: string, payload: Payload): seq<Event>
  {
    [WroteProgress(80), PublicUrlLookup(BUCKET, key), WroteStatus(Notifying), WebhookPost(payload)]
  }

  /** The steps after an ok webhook response. */
  function SuccessSteps(): seq<Event>
  {
    [WroteProgress(100), WroteStatus(Success), WroteMessage(SUCCESS_MESSAGE), WroteFile(None)]
  }

  /** The webhook body: the public URL and the file's name, type and size. */
  function PayloadFor(f: FileInfo, url: string): Payload
  {
    Payload(url, f.name, f.mimeType, f.size, SOURCE_TAG)
  }

  /** The steps after the webhook answered or threw. */
  function WebhookEnding(webhook: WebhookResult): seq<Event>
  {
    match webhook
    case Responded(code) =>
      if IsOk(code) then SuccessSteps() else FailSteps(ErrorText(Some(HttpErrorText(code))))
    case Threw(e) => FailSteps(ErrorText(e))
  }

  /** The steps after the storage upload of `f` under `key`: the `catch`
      block when it failed, otherwise the notification and its outcome. */
  function StorageEnding(f: FileInfo, key: string, publicUrl: UrlResolver,
                         storage: StorageResult, webhook: WebhookResult): seq<Event>
  {
    match storage
    case StorageFailed(e) => FailSteps(ErrorText(e))
    case Stored => NotifySteps(key, PayloadFor(f, publicUrl(key))) + WebhookEnding(webhook)
  }

  /** The steps of the `try` block for the file `f` stored under `key`, with
      the storage service's URL resolution and the outcomes of the two network
      calls. */
  function Attempt(f: FileInfo, key: string, publicUrl: UrlResolver,
                   storage: StorageResult, webhook: WebhookResult): seq<Event>
  {
    StartSteps(f, key) + StorageEnding(f, key, publicUrl, storage, webhook)
  }

  /** The steps of `onUpload` for the selected file `file`, the clock reading
      `nowMillis` and the random hex digits `randomHex` that make up the key,
      the storage service's URL resolution and the outcomes of the two network
      calls. */
  function UploadEvents(file: Option<FileInfo>, nowMillis: nat, randomHex: string,
                        publicUrl: UrlResolver, storage: StorageResult,
                        webhook: WebhookResult): (es: seq<Event>)
    ensures file.None? <==> es == []
  {
    match file
    case None => []
    case Some(f) => Attempt(f, Key(f.name, nowMillis, randomHex), publicUrl, storage, webhook)
  }

  /** The record after `onUpload`, which reads the record's own file. */
  function Run(r: Record, nowMillis: nat, randomHex: string, publicUrl: UrlResolver,
               storage: StorageResult, webhook: WebhookResult): Record
  {
    Replay(r, UploadEvents(r.file, nowMillis, randomHex, publicUrl, storage, webhook))
  }

  /** Without a selected file `onUpload` changes nothing and calls nothing. */
  lemma NoFileNoRun(r: Record, nowMillis: nat, randomHex: string, publicUrl: UrlResolver,
                    storage: StorageResult, webhook: WebhookResult)
    requires r.file.None?
    ensures UploadEvents(r.file, nowMillis, randomHex, publicUrl, storage, webhook) == []
    ensures Run(r, nowMillis, randomHex, publicUrl, storage, webhook) == r
  {
  }

  /** The record after the `try` block for the file `f` under `key`. */
  lemma RunIsAttempt(r: Record, nowMillis: nat, randomHex: string, publicUrl: UrlResolver,
                     storage: StorageResult, webhook: WebhookResult)
    requires r.file.Some?
    ensures Run(r, nowMillis, randomHex, publicUrl, storage, webhook)
      == Replay(r, Attempt(r.file.value, Key(r.file.value.name, nowMillis, randomHex), publicUrl, storage, webhook))
  {
  }

  /** The steps of a failed storage upload. */
  lemma ReplayToFailure(r: Record, f: FileInfo, key: string, publicUrl: UrlResolver,
                        e: Option<string>, webhook: WebhookResult)
    ensures Replay(r, Attempt(f, key, publicUrl, StorageFailed(e), webhook))
      == r.(status := Error, progress := 5, message := ErrorText(e))
  {
    var r1 := r.(status := Uploading, progress := 5, message := "");
    StartReplay(r, f, key);
    FailReplay(r1, ErrorText(e));
    ReplayAppend(r, StartSteps(f, key), FailSteps(ErrorText(e)));
  }

  /** A failed storage upload ends in `error` with the error's message (or the
      generic one), keeps the file, leaves the progress at 5, and no webhook
      call is made whatever the webhook would have answered. */
  lemma StorageFailureEndsRun(r: Record, nowMillis: nat, randomHex: string, publicUrl: UrlResolver,
                              e: Option<string>, webhook: WebhookResult)
    requires r.file.Some?
    ensures Run(r, nowMillis, randomHex, publicUrl, StorageFailed(e), webhook)
      == r.(status := Error, progress := 5, message := ErrorText(e))
    ensures forall ev :: ev in UploadEvents(r.file, nowMillis, randomHex, publicUrl, StorageFailed(e), webhook) ==>
      !ev.WebhookPost?
  {
    var f := r.file.value;
    var key := Key(f.name, nowMillis, randomHex);
    RunIsAttempt(r, nowMillis, randomHex, publicUrl, StorageFailed(e), webhook);
    ReplayToFailure(r, f, key, publicUrl, e, webhook);
    NoPostAfterFailure(f, key, publicUrl, e, webhook);
  }

  /** A run whose storage upload failed holds no webhook post. */
  lemma NoPostAfterFailure(f: FileInfo, key: string, publicUrl: UrlResolver,
                           e: Option<string>, webhook: WebhookResult)
    ensures var es := Attempt(f, key, publicUrl, StorageFailed(e), webhook);
      forall k :: 0 <= k < |es| ==> !es[k].WebhookPost?
  {
    var es := Attempt(f, key, publicUrl, StorageFailed(e), webhook);
    assert es == [es[0], es[1], es[2], es[3], es[4], es[5]];
  }

  /** Replaying three blocks, given what the first two do. */
  lemma ReplayThrough(r: Record, a: seq<Event>, b: seq<Event>, c: seq<Event>, ra: Record, rb: Record)
    requires Replay(r, a) == ra && Replay(ra, b) == rb
    ensures Replay(r, a + (b + c)) == Replay(rb, c)
  {
    ReplayAppend(r, a, b + c);
    ReplayAppend(ra, b, c);
  }

  lemma StartReplay(r: Record, f: FileInfo, key: string)
    ensures Replay(r, StartSteps(f, key)) == r.(status := Uploading, progress := 5, message := "")
  {
    var start := StartSteps(f, key);
    ReplayFour(r, start[0], start[1], start[2], start[3]);
  }

  lemma NotifyReplay(r: Record, key: string, payload: Payload)
    ensures Replay(r, NotifySteps(key, payload)) == r.(status := Notifying, progress := 80)
  {
    var notify := NotifySteps(key, payload);
    ReplayFour(r, notify[0], notify[1], notify[2], notify[3]);
  }

  /** The steps up to the webhook post leave the record `notifying` at 80
      with no message. */
  lemma ReplayToNotifying(r: Record, f: FileInfo, key: string, publicUrl: UrlResolver,
                          webhook: WebhookResult)
    ensures Replay(r, Attempt(f, key, publicUrl, Stored, webhook))
      == Replay(r.(status := Notifying, progress := 80, message := ""), WebhookEnding(webhook))
  {
    var payload := PayloadFor(f, publicUrl(key));
    var r1 := r.(status := Uploading, progress := 5, message := "");
    StartReplay(r, f, key);
    NotifyReplay(r1, key, payload);
    ReplayThrough(r, StartSteps(f, key), NotifySteps(key, payload), WebhookEnding(webhook),
                  r1, r1.(status := Notifying, progress := 80));
  }

  /** After a stored upload the record is `notifying` at 80 with no message
      when the webhook's answer is applied. */
  lemma StoredRun(r: Record, nowMillis: nat, randomHex: string, publicUrl: UrlResolver,
                  webhook: WebhookResult)
    requires r.file.Some?
    ensures Run(r, nowMillis, randomHex, publicUrl, Stored, webhook)
      == Replay(r.(status := Notifying, progress := 80, message := ""), WebhookEnding(webhook))
  {
    var f := r.file.value;
    RunIsAttempt(r, nowMillis, randomHex, publicUrl, Stored, webhook);
    ReplayToNotifying(r, f, Key(f.name, nowMillis, randomHex), publicUrl, webhook);
  }

  /** A non-ok webhook response with status code `code` ends in `error` with
      the message `n8n ` followed by the code, keeps the file, and leaves the
      progress at 80. */
  lemma WebhookHttpErrorEndsRun(r: Record, nowMillis: nat, randomHex: string, publicUrl: UrlResolver,
                                code: nat)
    requires r.file.Some? && !IsOk(code)
    ensures Run(r, nowMillis, randomHex, publicUrl, Stored, Responded(code))
      == r.(status := Error, progress := 80, message := "n8n " + Decimal(code))
  {
    StoredRun(r, nowMillis, randomHex, publicUrl, Responded(code));
    ReplayTwo(r.(status := Notifying, progress := 80, message := ""),
              WroteStatus(Error), WroteMessage(ErrorText(Some(HttpErrorText(code)))));
  }

  /** A thrown webhook failure ends in `error` with its message (or the generic
      one), keeps the file, and leaves the progress at 80. */
  lemma WebhookThrowEndsRun(r: Record, nowMillis: nat, randomHex: string, publicUrl: UrlResolver,
                            e: Option<string>)
    requires r.file.Some?
    ensures Run(r, nowMillis, randomHex, publicUrl, Stored, Threw(e))
      == r.(status := Error, progress := 80, message := ErrorText(e))
  {
    StoredRun(r, nowMillis, randomHex, publicUrl, Threw(e));
    ReplayTwo(r.(status := Notifying, progress := 80, message := ""), WroteStatus(Error), WroteMessage(ErrorText(e)));
  }

  /** A stored upload and an ok webhook response end in `success` with the
      confirmation message and progress 100, and clear the file. */
  lemma FullSuccess(r: Record, nowMillis: nat, randomHex: string, publicUrl: UrlResolver, code: nat)
    requires r.file.Some? && IsOk(code)
    ensures Run(r, nowMillis, randomHex, publicUrl, Stored, Responded(code))
      == Record(None, Success, 100, "✅ Enviado e notificado!")
  {
    StoredRun(r, nowMillis, randomHex, publicUrl, Responded(code));
    ReplayFour(r.(status := Notifying, progress := 80, message := ""),
               WroteProgress(100), WroteStatus(Success), WroteMessage(SUCCESS_MESSAGE), WroteFile(None));
  }

  /** Every run with a file ends in `success` or `error`. */
  lemma RunSettles(r: Record, nowMillis: nat, randomHex: string, publicUrl: UrlResolver,
                   storage: StorageResult, webhook: WebhookResult)
    requires r.file.Some?
    ensures Run(r, nowMillis, randomHex, publicUrl, storage, webhook).status in {Success, Error}
  {
    match storage
    case StorageFailed(e) => StorageFailureEndsRun(r, nowMillis, randomHex, publicUrl, e, webhook);
    case Stored =>
      match webhook
      case Responded(code) =>
        if IsOk(code) {
          FullSuccess(r, nowMillis, randomHex, publicUrl, code);
        } else {
          WebhookHttpErrorEndsRun(r, nowMillis, randomHex, publicUrl, code);
        }
      case Threw(e) => WebhookThrowEndsRun(r, nowMillis, randomHex, publicUrl, e);
  }

  /** The webhook is posted only after the storage upload succeeded: it is the
      eighth step, after the upload (the fourth) and the URL lookup for the
      same key (the sixth), and it posts that URL with the file's name, type
      and size. */
  lemma WebhookOnlyAfterStored(f: FileInfo, nowMillis: nat, randomHex: string, publicUrl: UrlResolver,
                               storage: StorageResult, webhook: WebhookResult, i: nat)
    requires var es := UploadEvents(Some(f), nowMillis, randomHex, publicUrl, storage, webhook);
      i < |es| && es[i].WebhookPost?
    ensures storage == Stored
    ensures var es := UploadEvents(Some(f), nowMillis, randomHex, publicUrl, storage, webhook);
      var key := Key(f.name, nowMillis, randomHex);
      i == 7 && es[3] == StorageUpload(BUCKET, key, f, f.mimeType, false) &&
      es[5] == PublicUrlLookup(BUCKET, key) &&
      es[i].payload == Payload(publicUrl(key), f.name, f.mimeType, f.size, "supabase")
  {
    AttemptPostsAfterStored(f, Key(f.name, nowMillis, randomHex), publicUrl, storage, webhook, i);
  }

  /** `WebhookOnlyAfterStored` for any key. */
  lemma AttemptPostsAfterStored(f: FileInfo, key: string, publicUrl: UrlResolver,
                                storage: StorageResult, webhook: WebhookResult, i: nat)
    requires var es := Attempt(f, key, publicUrl, storage, webhook);
      i < |es| && es[i].WebhookPost?
    ensures storage == Stored
    ensures var es := Attempt(f, key, publicUrl, storage, webhook);
      i == 7 && es[3] == StorageUpload(BUCKET, key, f, f.mimeType, false) &&
      es[5] == PublicUrlLookup(BUCKET, key) &&
      es[i].payload == Payload(publicUrl(key), f.name, f.mimeType, f.size, "supabase")
  {
    match storage
    case StorageFailed(e) =>
      NoPostAfterFailure(f, key, publicUrl, e, webhook);
    case Stored =>
      StoredPostIsEighth(f, key, publicUrl, webhook, i);
  }

  /** `AttemptPostsAfterStored` for a stored upload. */
  lemma StoredPostIsEighth(f: FileInfo, key: string, publicUrl: UrlResolver, webhook: WebhookResult, i: nat)
    requires var es := Attempt(f, key, publicUrl, Stored, webhook);
      i < |es| && es[i].WebhookPost?
    ensures var es := Attempt(f, key, publicUrl, Stored, webhook);
      i == 7 && es[3] == StorageUpload(BUCKET, key, f, f.mimeType, false) &&
      es[5] == PublicUrlLookup(BUCKET, key) &&
      es[i].payload == Payload(publicUrl(key), f.name, f.mimeType, f.size, "supabase")
  {
    EndingPostsNothing(webhook);
    PostIsEighth(f, key, PayloadFor(f, publicUrl(key)), WebhookEnding(webhook), i);
  }

  /** A stored upload is always followed by the URL lookup of its key (the
      sixth step) and the webhook post of that URL with the file's name, type
      and size (the eighth step); with `WebhookOnlyAfterStored`, a run posts
      to the webhook exactly when its upload was stored. */
  lemma StoredUploadIsPublished(f: FileInfo, nowMillis: nat, randomHex: string, publicUrl: UrlResolver,
                                webhook: WebhookResult)
    ensures var es := UploadEvents(Some(f), nowMillis, randomHex, publicUrl, Stored, webhook);
      var key := Key(f.name, nowMillis, randomHex);
      |es| >= 8 && es[3] == StorageUpload(BUCKET, key, f, f.mimeType, false) &&
      es[5] == PublicUrlLookup(BUCKET, key) &&
      es[7] == WebhookPost(Payload(publicUrl(key), f.name, f.mimeType, f.size, "supabase"))
  {
    AttemptIsPublished(f, Key(f.name, nowMillis, randomHex), publicUrl, webhook);
  }

  /** `StoredUploadIsPublished` for any key. */
  lemma AttemptIsPublished(f: FileInfo, key: string, publicUrl: UrlResolver, webhook: WebhookResult)
    ensures var es := Attempt(f, key, publicUrl, Stored, webhook);
      |es| >= 8 && es[3] == StorageUpload(BUCKET, key, f, f.mimeType, false) &&
      es[5] == PublicUrlLookup(BUCKET, key) &&
      es[7] == WebhookPost(Payload(publicUrl(key), f.name, f.mimeType, f.size, "supabase"))
  {
    var a, b, c := StartSteps(f, key), NotifySteps(key, PayloadFor(f, publicUrl(key))), WebhookEnding(webhook);
    assert |c| >= 2;
    var es := a + (b + c);
    assert es[3] == a[3] && es[5] == b[1] && es[7] == b[3];
  }

  /** After the start and the notification steps under `key`, and then steps
      that post nothing, a post is the eighth step. */
  lemma PostIsEighth(f: FileInfo, key: string, payload: Payload, c: seq<Event>, i: nat)
    requires NoPost(c)
    requires var es := StartSteps(f, key) + (NotifySteps(key, payload) + c);
      i < |es| && es[i].WebhookPost?
    ensures var es := StartSteps(f, key) + (NotifySteps(key, payload) + c);
      i == 7 && es[3] == StorageUpload(BUCKET, key, f, f.mimeType, false) &&
      es[5] == PublicUrlLookup(BUCKET, key) && es[7] == WebhookPost(payload)
  {
    var a, b := StartSteps(f, key), NotifySteps(key, payload);
    var es := a + (b + c);
    if i < 8 {
      assert es[i] == [a[0], a[1], a[2], a[3], b[0], b[1], b[2], b[3]][i];
    }
  }

  /** Whether no step of `es` is a webhook post. */
  predicate NoPost(es: seq<Event>)
  {
    forall k :: 0 <= k < |es| ==> !es[k].WebhookPost?
  }

  /** The steps after the webhook's answer post nothing. */
  lemma EndingPostsNothing(webhook: WebhookResult)
    ensures NoPost(WebhookEnding(webhook))
  {
    match webhook
    case Responded(code) =>
      if IsOk(code) {
        var s := SuccessSteps();
        assert s == [s[0], s[1], s[2], s[3]];
      } else {
        FailPostsNothing(ErrorText(Some(HttpErrorText(code))));
      }
    case Threw(e) =>
      FailPostsNothing(ErrorText(e));
  }

  /** The `catch` block posts nothing. */
  lemma FailPostsNothing(message: string)
    ensures NoPost(FailSteps(message))
  {
    var s := FailSteps(message);
    assert s == [s[0], s[1]];
  }

  /** The storage upload uses the derived key, the declared type and no
      overwrite, and is always the fourth step of a run. */
  lemma UploadCallArguments(f: FileInfo, nowMillis: nat, randomHex: string, publicUrl: UrlResolver,
                            storage: StorageResult, webhook: WebhookResult)
    ensures var es := UploadEvents(Some(f), nowMillis, randomHex, publicUrl, storage, webhook);
      |es| >= 6 && es[3].StorageUpload? &&
      StartsWith(es[3].key, "public/") && EndsWith(es[3].key, "." + Extension(f.name)) &&
      es[3].contentType == f.mimeType && !es[3].upsert
  {
    var key := Key(f.name, nowMillis, randomHex);
    AttemptUploadCall(f, key, publicUrl, storage, webhook);
  }

  /** The fourth step of every attempt is the storage upload under `key`. */
  lemma AttemptUploadCall(f: FileInfo, key: string, publicUrl: UrlResolver,
                          storage: StorageResult, webhook: WebhookResult)
    ensures var es := Attempt(f, key, publicUrl, storage, webhook);
      |es| >= 6 && es[3] == StorageUpload(BUCKET, key, f, f.mimeType, false)
  {
    var start, ending := StartSteps(f, key), StorageEnding(f, key, publicUrl, storage, webhook);
    assert |ending| >= 2;
    assert (start + ending)[3] == start[3];
  }

  /** Within a run the progress bar is written 5, then 80 once the file is
      stored, then 100 on success: a prefix of [5, 80, 100], so it only takes
      those values and only grows. */
  lemma ProgressCheckpoints(f: FileInfo, nowMillis: nat, randomHex: string, publicUrl: UrlResolver,
                            storage: StorageResult, webhook: WebhookResult)
    ensures var p := ProgressWrites(UploadEvents(Some(f), nowMillis, randomHex, publicUrl, storage, webhook));
      1 <= |p| <= 3 && p == [5, 80, 100][..|p|] &&
      (|p| >= 2 <==> storage == Stored) &&
      (|p| == 3 <==> storage == Stored && webhook.Responded? && IsOk(webhook.statusCode))
  {
    AttemptWrites(f, Key(f.name, nowMillis, randomHex), publicUrl, storage, webhook);
    CheckpointPrefixes();
  }

  /** The three possible progress traces are prefixes of [5, 80, 100]. */
  lemma CheckpointPrefixes()
    ensures [5, 80, 100][..1] == [5] && [5, 80, 100][..2] == [5, 80] && [5, 80, 100][..3] == [5, 80, 100]
  {
  }

  /** The status label follows the state machine: `uploading`, then `error`,
      or `notifying` and then `success` or `error`. */
  lemma StatusFollowsStateMachine(f: FileInfo, nowMillis: nat, randomHex: string, publicUrl: UrlResolver,
                                  storage: StorageResult, webhook: WebhookResult)
    ensures StatusWrites(UploadEvents(Some(f), nowMillis, randomHex, publicUrl, storage, webhook)) in
      {[Uploading, Error], [Uploading, Notifying, Error], [Uploading, Notifying, Success]}
  {
    AttemptWrites(f, Key(f.name, nowMillis, randomHex), publicUrl, storage, webhook);
  }

  /** The progress and status writes of an attempt under any key, block by block. */
  lemma AttemptWrites(f: FileInfo, key: string, publicUrl: UrlResolver,
                      storage: StorageResult, webhook: WebhookResult)
    ensures var es := Attempt(f, key, publicUrl, storage, webhook);
      var ok := webhook.Responded? && IsOk(webhook.statusCode);
      ProgressWrites(es) == (if storage.StorageFailed? then [5] else if ok then [5, 80, 100] else [5, 80]) &&
      StatusWrites(es) == (if storage.StorageFailed? then [Uploading, Error]
                           else if ok then [Uploading, Notifying, Success] else [Uploading, Notifying, Error])
  {
    var start := StartSteps(f, key);
    StartWrites(f, key);
    match storage
    case StorageFailed(e) =>
      FailWrites(ErrorText(e));
      WritesAppend(start, FailSteps(ErrorText(e)));
    case Stored =>
      StoredWrites(f, key, publicUrl, webhook);
  }

  /** The writes of an attempt whose upload was stored. */
  lemma StoredWrites(f: FileInfo, key: string, publicUrl: UrlResolver, webhook: WebhookResult)
    ensures var es := Attempt(f, key, publicUrl, Stored, webhook);
      var ok := webhook.Responded? && IsOk(webhook.statusCode);
      ProgressWrites(es) == [5] + ([80] + (if ok then [100] else [])) &&
      StatusWrites(es) == [Uploading] + ([Notifying] + (if ok then [Success] else [Error]))
  {
    var start, notify, ending := StartSteps(f, key), NotifySteps(key, PayloadFor(f, publicUrl(key))), WebhookEnding(webhook);
    StartWrites(f, key);
    NotifyWrites(key, PayloadFor(f, publicUrl(key)));
    EndingWrites(webhook);
    WritesThrough(start, notify, ending);
  }

  /** The writes of three step sequences one after the other. */
  lemma WritesThrough(a: seq<Event>, b: seq<Event>, c: seq<Event>)
    ensures ProgressWrites(a + (b + c)) == ProgressWrites(a) + (ProgressWrites(b) + ProgressWrites(c))
    ensures StatusWrites(a + (b + c)) == StatusWrites(a) + (StatusWrites(b) + StatusWrites(c))
  {
    WritesAppend(a, b + c);
    WritesAppend(b, c);
  }

  /** The writes of two step sequences one after the other. */
  lemma WritesAppend(a: seq<Event>, b: seq<Event>)
    ensures ProgressWrites(a + b) == ProgressWrites(a) + ProgressWrites(b)
    ensures StatusWrites(a + b) == StatusWrites(a) + StatusWrites(b)
  {
    CollectAppend(a, b, ProgressOf);
    CollectAppend(a, b, StatusOf);
  }

  lemma StartWrites(f: FileInfo, key: string)
    ensures ProgressWrites(StartSteps(f, key)) == [5]
    ensures StatusWrites(StartSteps(f, key)) == [Uploading]
  {
    var start := StartSteps(f, key);
    CollectFour(start[0], start[1], start[2], start[3], ProgressOf);
    CollectFour(start[0], start[1], start[2], start[3], StatusOf);
  }

  lemma NotifyWrites(key: string, payload: Payload)
    ensures ProgressWrites(NotifySteps(key, payload)) == [80]
    ensures StatusWrites(NotifySteps(key, payload)) == [Notifying]
  {
    var notify := NotifySteps(key, payload);
    CollectFour(notify[0], notify[1], notify[2], notify[3], ProgressOf);
    CollectFour(notify[0], notify[1], notify[2], notify[3], StatusOf);
  }

  lemma FailWrites(message: string)
    ensures ProgressWrites(FailSteps(message)) == []
    ensures StatusWrites(FailSteps(message)) == [Error]
  {
    CollectTwo(WroteStatus(Error), WroteMessage(message), ProgressOf);
    CollectTwo(WroteStatus(Error), WroteMessage(message), StatusOf);
  }

  lemma EndingWrites(webhook: WebhookResult)
    ensures var ok := webhook.Responded? && IsOk(webhook.statusCode);
      ProgressWrites(WebhookEnding(webhook)) == (if ok then [100] else []) &&
      StatusWrites(WebhookEnding(webhook)) == (if ok then [Success] else [Error])
  {
    var ending := WebhookEnding(webhook);
    if webhook.Responded? && IsOk(webhook.statusCode) {
      CollectFour(ending[0], ending[1], ending[2], ending[3], ProgressOf);
      CollectFour(ending[0], ending[1], ending[2], ending[3], StatusOf);
    } else {
      CollectTwo(ending[0], ending[1], ProgressOf);
      CollectTwo(ending[0], ending[1], StatusOf);
    }
  }

  // ---------------------------------------------------------------------
  // The state between handler calls

  /** The record between two handler calls, each handler taken to run to
      completion: the status label shows no run in flight, the progress is at
      one of its checkpoints, the file is cleared after a success, and there is
      no message while idle. */
  predicate AtRest(r: Record)
  {
    r.status != Uploading && r.status != Notifying &&
    r.progress in {0, 5, 80, 100} &&
    (r.status == Success ==> r.file.None? && r.progress == 100 && r.message == SUCCESS_MESSAGE) &&
    (r.status == Idle ==> r.message == [])
  }

  /** The page opens at rest. */
  lemma InitialAtRest()
    ensures AtRest(INITIAL) && INITIAL.file.None? && INITIAL.status == Idle
  {
  }

  /** `handleFiles` keeps the record at rest. */
  lemma SelectKeepsAtRest(r: Record, files: Option<seq<FileInfo>>)
    requires AtRest(r)
    ensures AtRest(Select(r, files))
  {
    if files.Some? && files.value != [] {
      var f := files.value[0];
      assert files.value == [f] + files.value[1..];
      if f.size > MAX_BYTES {
        OversizedFileRefused(r, f, files.value[1..]);
      } else {
        TypeRule(r, f, files.value[1..]);
      }
    }
  }

  /** `onUpload` keeps the record at rest. */
  lemma RunKeepsAtRest(r: Record, nowMillis: nat, randomHex: string, publicUrl: UrlResolver,
                       storage: StorageResult, webhook: WebhookResult)
    requires AtRest(r)
    ensures AtRest(Run(r, nowMillis, randomHex, publicUrl, storage, webhook))
  {
    if r.file.Some? {
      match storage
      case StorageFailed(e) => StorageFailureEndsRun(r, nowMillis, randomHex, publicUrl, e, webhook);
      case Stored =>
        match webhook
        case Responded(code) =>
          if IsOk(code) {
            FullSuccess(r, nowMillis, randomHex, publicUrl, code);
          } else {
            WebhookHttpErrorEndsRun(r, nowMillis, randomHex, publicUrl, code);
          }
        case Threw(e) => WebhookThrowEndsRun(r, nowMillis, randomHex, publicUrl, e);
    }
  }
}
