/** File admission on the upload page: the size bound and the accepted-type
    rule applied to the file a user picks (`handleFiles` in src/App.tsx). */
module Admission {
  import opened JsString

  /** What the page reads of a browser `File`: its name, its size in bytes and
      its declared MIME type. */
  datatype FileInfo = FileInfo(name: string, size: nat, mimeType: string)

  /** The accepted entries: three MIME types and two extensions. Each entry is
      tried both against the declared type and as a suffix of the name. */
  const ACCEPTED: seq<string> := [
    "application/vnd.openxmlformats-officedocument.spreadsheetml.sheet",
    "application/vnd.ms-excel",
    "text/csv", ".xlsx", ".csv"
  ]

  /** The size limit in mebibytes. */
  const MAX_MB: nat := 50

  /** The size limit in bytes. */
  const MAX_BYTES: nat := MAX_MB * 1024 * 1024

  /** The message shown for a file over the size limit: `Máx ${MAX_MB}MB`. */
  const TOO_LARGE_MESSAGE: string := "Máx " + Decimal(MAX_MB) + "MB"

  /** The message shown for a file of an unaccepted type. */
  const UNSUPPORTED_MESSAGE: string := "Use .xlsx ou .csv"

  /** The callback given to `ACCEPTED.some`: the declared type equals the entry,
      or the lower-cased name ends with it. */
  predicate MatchesEntry(f: FileInfo, a: string)
  {
    f.mimeType == a || EndsWith(Lower(f.name), a)
  }

  /** `entries.some(a => MatchesEntry(f, a))`, scanning left to right. */
  function SomeMatches(entries: seq<string>, f: FileInfo): (b: bool)
    ensures b <==> exists a :: a in entries && MatchesEntry(f, a)
    decreases |entries|
  {
    if entries == [] then false
    else MatchesEntry(f, entries[0]) || SomeMatches(entries[1..], f)
  }

  /** The outcome of checking one picked file. */
  datatype Verdict = TooLarge | UnsupportedType | Admitted

  /** The checks of `handleFiles` in their order: size first, then type. */
  function Admit(f: FileInfo): (v: Verdict)
    ensures v == TooLarge <==> f.size > MAX_BYTES
    ensures v == UnsupportedType <==>
      f.size <= MAX_BYTES && f.mimeType !in ACCEPTED &&
      forall a :: a in ACCEPTED ==> !EndsWith(Lower(f.name), a)
    ensures v == Admitted <==>
      f.size <= MAX_BYTES &&
      (f.mimeType in ACCEPTED || exists a :: a in ACCEPTED && EndsWith(Lower(f.name), a))
  {
    if f.size > MAX_BYTES then TooLarge
    else if !SomeMatches(ACCEPTED, f) then UnsupportedType
    else Admitted
  }

  /** The size limit is 50 MiB, and its message reads `Máx 50MB`. */
  lemma SizeLimitConstants()
    ensures MAX_BYTES == 52428800
    ensures TOO_LARGE_MESSAGE == "Máx 50MB"
  {
    assert Decimal(50) == Decimal(5) + [DigitChar(0)];
  }

  /** A file of exactly 50 MiB passes the size check; one byte more does not. */
  lemma SizeBoundary(name: string, mimeType: string)
    ensures Admit(FileInfo(name, MAX_BYTES, mimeType)) != TooLarge
    ensures Admit(FileInfo(name, MAX_BYTES + 1, mimeType)) == TooLarge
  {
  }

  /** An upper-case extension is accepted whatever the declared type:
      `report.CSV`, or any other name ending in `.CSV`. */
  lemma UpperCaseExtensionAccepted(stem: string, size: nat, mimeType: string)
    requires size <= MAX_BYTES
    ensures Admit(FileInfo(stem + ".CSV", size, mimeType)) == Admitted
  {
    var f := FileInfo(stem + ".CSV", size, mimeType);
    LowerAppend(stem, ".CSV");
    var low := Lower(stem) + Lower(".CSV");
    assert Lower(".CSV") == ".csv";
    assert low[|low| - 4..] == ".csv";
    assert MatchesEntry(f, ACCEPTED[4]);
  }

  /** For example, `report.CSV` is accepted. */
  lemma ReportCsvAccepted(size: nat, mimeType: string)
    requires size <= MAX_BYTES
    ensures Admit(FileInfo("report.CSV", size, mimeType)) == Admitted
  {
    UpperCaseExtensionAccepted("report", size, mimeType);
    assert "report" + ".CSV" == "report.CSV";
  }

  /** The declared type alone admits a file whatever its name. */
  lemma DeclaredTypeAccepted(name: string, size: nat)
    requires size <= MAX_BYTES
    ensures Admit(FileInfo(name, size, "text/csv")) == Admitted
  {
    assert ACCEPTED[2] == "text/csv";
  }

  /** A name with another extension and an unrelated type is refused, and the
      size check takes precedence over the type check: `notes.pdf`, or any
      other name ending in `.pdf`. */
  lemma PdfRefused(stem: string, size: nat)
    ensures Admit(FileInfo(stem + ".pdf", size, "application/pdf")) ==
      if size > MAX_BYTES then TooLarge else UnsupportedType
  {
    var f := FileInfo(stem + ".pdf", size, "application/pdf");
    LowerAppend(stem, ".pdf");
    assert Lower(".pdf") == ".pdf";
    var low := Lower(stem) + ".pdf";
    assert low[|low| - 1] == 'f';
    forall k | 0 <= k < |ACCEPTED|
      ensures !MatchesEntry(f, ACCEPTED[k])
    {
      LastCharMismatch(low, ACCEPTED[k]);
    }
  }

  /** A string does not end with a suffix whose last character differs. */
  lemma LastCharMismatch(s: string, suffix: string)
    requires |s| > 0 && |suffix| > 0 && s[|s| - 1] != suffix[|suffix| - 1]
    ensures !EndsWith(s, suffix)
  {
    if |suffix| <= |s| {
      assert s[|s| - |suffix|..][|suffix| - 1] == s[|s| - 1];
    }
  }
}
