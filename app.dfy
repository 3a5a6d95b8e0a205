/** The upload page component of src/App.tsx as an object: its four pieces of
    React state are fields, its state setters are methods, and its two event
    handlers, `handleFiles` and `onUpload`, call those setters step by step.
    The network calls, the clock and the random generator are parameters. */
module App {
  import opened Wrappers
  import opened JsString
  import opened Admission
  import opened StorageKey
  import opened Workflow

  class UploadForm {
    var file: Option<FileInfo>
    var status: Status
    var progress: int
    var message: string

    /** Every setter call and external call made so far, in order. */
    ghost var log: seq<Event>

    /** The four state variables as one record. */
    function State(): Record
      reads this
    {
      Record(file, status, progress, message)
    }

    /** Between handler calls the page is at rest. */
    ghost predicate Valid()
      reads this
    {
      AtRest(State())
    }

    /** The initial `useState` values: no file, `idle`, 0, no message. */
    constructor ()
      ensures Valid() && State() == INITIAL && log == []
    {
      file, status, progress, message := None, Idle, 0, "";
      log := [];
    }

    /** `setFile`. */
    method SetFile(f: Option<FileInfo>)
      modifies this
      ensures State() == old(State()).(file := f)
      ensures log == old(log) + [WroteFile(f)]
    {
      file := f;
      log := log + [WroteFile(f)];
    }

    /** `setStatus`. */
    method SetStatus(s: Status)
      modifies this
      ensures State() == old(State()).(status := s)
      ensures log == old(log) + [WroteStatus(s)]
    {
      status := s;
      log := log + [WroteStatus(s)];
    }

    /** `setProgress`. */
    method SetProgress(p: int)
      modifies this
      ensures State() == old(State()).(progress := p)
      ensures log == old(log) + [WroteProgress(p)]
    {
      progress := p;
      log := log + [WroteProgress(p)];
    }

    /** `setMessage`. */
    method SetMessage(m: string)
      modifies this
      ensures State() == old(State()).(message := m)
      ensures log == old(log) + [WroteMessage(m)]
    {
      message := m;
      log := log + [WroteMessage(m)];
    }

    /** `handleFiles`: check the first picked file and store it, or refuse it
        with a message and keep the file already stored. */
    method HandleFiles(files: Option<seq<FileInfo>>)
      requires Valid()
      modifies this
      ensures Valid()
      ensures log == old(log) + SelectionEvents(files)
      ensures State() == Select(old(State()), files)
    {
      if files.None? || |files.value| == 0 {
        assert log == log + [];
        return;
      }
      ghost var r0 := State();
      Check(files.value[0]);
      assert Valid() by {
        SelectKeepsAtRest(r0, files);
      }
    }

    /** The checks of `handleFiles` on the picked file `f`: the size, then the
        type against ACCEPTED. */
    method Check(f: FileInfo)
      modifies this
      ensures log == old(log) + CheckSteps(f)
      ensures State() == Replay(old(State()), CheckSteps(f))
    {
      ghost var r0 := State();
      if f.size > MAX_BYTES {
        Fail(TOO_LARGE_MESSAGE);
        FailReplay(r0, TOO_LARGE_MESSAGE);
        return;
      }
      var ok := SomeMatches(ACCEPTED, f);
      if !ok {
        Fail(UNSUPPORTED_MESSAGE);
        FailReplay(r0, UNSUPPORTED_MESSAGE);
        return;
      }
      SetFile(Some(f));
      SetStatus(Idle);
      SetMessage("");
      StoreReplay(r0, f);
    }

    /** `onUpload`: upload the stored file under a fresh key, look up its
        public URL, post it to the webhook, and report the outcome. A missing
        file does nothing. The handler runs to completion here, so it starts
        and ends with the page at rest. */
    method OnUpload(nowMillis: nat, randomHex: string, publicUrl: UrlResolver,
                    storage: StorageResult, webhook: WebhookResult)
      requires Valid()
      modifies this
      ensures Valid()
      ensures log == old(log) + UploadEvents(old(file), nowMillis, randomHex, publicUrl, storage, webhook)
      ensures State() == Run(old(State()), nowMillis, randomHex, publicUrl, storage, webhook)
    {
      if file.None? {
        return;
      }
      ghost var r0, log0 := State(), log;
      var f := file.value;
      var key := Key(f.name, nowMillis, randomHex);
      ghost var start := StartSteps(f, key);
      Begin(f, key);
      Transfer(f, key, publicUrl, storage, webhook);
      ghost var tail := StorageEnding(f, key, publicUrl, storage, webhook);
      ghost var es := UploadEvents(Some(f), nowMillis, randomHex, publicUrl, storage, webhook);
      assert es == start + tail;
      assert log == log0 + es by {
        AppendAssoc(log0, start, tail);
      }
      assert State() == Replay(r0, es) by {
        ReplayAppend(r0, start, tail);
      }
      assert Valid() by {
        RunKeepsAtRest(r0, nowMillis, randomHex, publicUrl, storage, webhook);
      }
    }

    /** The start of the `try` block: status `uploading`, progress 5, no
        message, then the storage upload of `f` under `key` without overwrite. */
    method Begin(f: FileInfo, key: string)
      modifies this
      ensures log == old(log) + StartSteps(f, key)
      ensures State() == Replay(old(State()), StartSteps(f, key))
    {
      ghost var r0 := State();
      SetStatus(Uploading);
      SetProgress(5);
      SetMessage("");
      log := log + [StorageUpload(BUCKET, key, f, f.mimeType, false)];
      StartReplay(r0, f, key);
    }

    /** What follows the storage upload of `f` under `key`: the `catch` block
        when it failed, otherwise the notification and its outcome. */
    method Transfer(f: FileInfo, key: string, publicUrl: UrlResolver,
                    storage: StorageResult, webhook: WebhookResult)
      modifies this
      ensures log == old(log) + StorageEnding(f, key, publicUrl, storage, webhook)
      ensures State() == Replay(old(State()), StorageEnding(f, key, publicUrl, storage, webhook))
    {
      ghost var r0 := State();
      match storage
      case StorageFailed(e) =>
        Fail(ErrorText(e));
        FailReplay(r0, ErrorText(e));
      case Stored =>
        Publish(f, key, publicUrl, webhook);
    }

    /** The rest of the `try` block once the file is stored: progress 80, the
        public URL of `key`, status `notifying`, the webhook post, and then
        either the success report or the `catch` block. */
    method Publish(f: FileInfo, key: string, publicUrl: UrlResolver, webhook: WebhookResult)
      modifies this
      ensures log == old(log) + NotifySteps(key, PayloadFor(f, publicUrl(key))) + WebhookEnding(webhook)
      ensures State() == Replay(old(State()), NotifySteps(key, PayloadFor(f, publicUrl(key))) + WebhookEnding(webhook))
    {
      ghost var r0 := State();
      SetProgress(80);
      log := log + [PublicUrlLookup(BUCKET, key)];
      var fileUrl := publicUrl(key);
      SetStatus(Notifying);
      log := log + [WebhookPost(PayloadFor(f, fileUrl))];
      ghost var notify := NotifySteps(key, PayloadFor(f, fileUrl));
      assert State() == Replay(r0, notify) by {
        NotifyReplay(r0, key, PayloadFor(f, fileUrl));
      }
      assert log == old(log) + notify;
      Settle(webhook);
      ReplayAppend(r0, notify, WebhookEnding(webhook));
    }

    /** The end of the `try` block: for an ok response, progress 100, status
        `success`, the confirmation and no file; for a non-ok response or a
        thrown error, the `catch` block. */
    method Settle(webhook: WebhookResult)
      modifies this
      ensures log == old(log) + WebhookEnding(webhook)
      ensures State() == Replay(old(State()), WebhookEnding(webhook))
    {
      ghost var r0 := State();
      match webhook
      case Responded(code) =>
        if !IsOk(code) {
          Fail(ErrorText(Some(HttpErrorText(code))));
          FailReplay(r0, ErrorText(Some(HttpErrorText(code))));
        } else {
          SetProgress(100);
          SetStatus(Success);
          SetMessage(SUCCESS_MESSAGE);
          SetFile(None);
          ReplayFour(r0, WroteProgress(100), WroteStatus(Success), WroteMessage(SUCCESS_MESSAGE), WroteFile(None));
        }
      case Threw(e) =>
        Fail(ErrorText(e));
        FailReplay(r0, ErrorText(e));
    }

    /** A failure report: status `error` and `message` (a refused file, or the
        `catch` block with the caught error's message or the generic one). */
    method Fail(message: string)
      modifies this
      ensures State() == old(State()).(status := Error, message := message)
      ensures log == old(log) + FailSteps(message)
    {
      SetStatus(Error);
      SetMessage(message);
    }
  }

  /** Concatenation is associative. */
  lemma AppendAssoc<T>(a: seq<T>, b: seq<T>, c: seq<T>)
    ensures a + b + c == a + (b + c)
  {
  }

  /** A spreadsheet within the size limit, accepted by its declared type. */
  const INVOICE: FileInfo :=
    FileInfo("invoice.xlsx", 10 * 1024 * 1024, "application/vnd.openxmlformats-officedocument.spreadsheetml.sheet")

  /** A session, first part: an oversized file is refused, then a good one is
      stored. */
  method PickFiles() returns (page: UploadForm)
    ensures fresh(page) && page.Valid()
    ensures page.State() == Record(Some(INVOICE), Idle, 0, "")
  {
    page := new UploadForm();
    var big := FileInfo("data.csv", 60 * 1024 * 1024, "text/csv");
    page.HandleFiles(Some([big]));
    OversizedFileRefused(INITIAL, big, []);
    assert [big] + [] == [big];
    assert page.State() == INITIAL.(status := Error, message := "Máx 50MB");

    ghost var r1 := page.State();
    page.HandleFiles(Some([INVOICE]));
    TypeRule(r1, INVOICE, []);
    assert [INVOICE] + [] == [INVOICE];
    assert ACCEPTED[0] == INVOICE.mimeType;
  }

  /** A session, second part: the storage upload fails and the file stays;
      the retry is stored but the webhook answers 500; the next retry
      succeeds and clears the file, after which the upload does nothing. */
  method UploadAttempts(page: UploadForm, publicUrl: UrlResolver, now: nat)
    requires page.Valid() && page.State() == Record(Some(INVOICE), Idle, 0, "")
    modifies page
    ensures page.Valid() && page.State() == Record(None, Success, 100, SUCCESS_MESSAGE)
  {
    ghost var r2 := page.State();
    var conflict := Some("The resource already exists");
    page.OnUpload(now, "abc123", publicUrl, StorageFailed(conflict), Responded(200));
    StorageFailureEndsRun(r2, now, "abc123", publicUrl, conflict, Responded(200));
    assert page.State() == Record(Some(INVOICE), Error, 5, "The resource already exists");

    ghost var r3 := page.State();
    page.OnUpload(now + 1, "def456", publicUrl, Stored, Responded(500));
    WebhookHttpErrorEndsRun(r3, now + 1, "def456", publicUrl, 500);
    assert page.State() == Record(Some(INVOICE), Error, 80, "n8n " + Decimal(500));

    ghost var r4 := page.State();
    page.OnUpload(now + 2, "0fe9", publicUrl, Stored, Responded(204));
    FullSuccess(r4, now + 2, "0fe9", publicUrl, 204);

    page.OnUpload(now + 3, "77", publicUrl, Stored, Responded(200));
  }
}
