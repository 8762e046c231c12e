/**
 * The ask-the-doctor page (src/pages/AskDoctor.tsx): the attachment list
 * (adding validated files, per-id progress and completion updates, removal),
 * the storage file name built from the original name, the upload retry loop,
 * and the submission that stores the question and then each file.
 */
module AskDoctor {
  import opened Common
  import opened Attachments

  // ---------------------------------------------------------------------------
  // Attachment list
  // ---------------------------------------------------------------------------

  predicate IsImageMime(mime: string)
  {
    |mime| >= 6 && mime[..6] == "image/"
  }

  /** `uploadType` from the file's MIME type. */
  function UploadTypeOf(mime: string): (r: UploadType)
    ensures r == ImageUpload <==> IsImageMime(mime)
    ensures r == PdfUpload <==> mime == "application/pdf"
    ensures r == DocumentUpload <==> !IsImageMime(mime) && mime != "application/pdf"
  {
    assert "application/pdf"[0] == 'a';
    if IsImageMime(mime) then ImageUpload
    else if mime == "application/pdf" then PdfUpload
    else DocumentUpload
  }

  const StartingProgress := ProgressInfo("analyzing", "Starting upload...", 0, None)

  /** The entry a new file starts as: processing, no data yet, a preview only for an image. */
  function InitialAttachment(file: FileInfo, id: string, objectUrl: string): (r: Attachment)
    ensures r.id == id && r.file == file && r.uploadType == UploadTypeOf(file.mime)
    ensures r.status == Processing && r.base64Data == "" && r.progress.percentage == 0
    ensures r.preview.Some? <==> IsImageMime(file.mime)
    ensures r.preview.Some? ==> r.preview.value == objectUrl
    ensures r.extractedText.None? && r.pdfPageCount.None? && r.error.None?
  {
    Attachment(id, file, UploadTypeOf(file.mime), Processing, "",
               if IsImageMime(file.mime) then Some(objectUrl) else None,
               None, None, StartingProgress, None)
  }

  /** What the validator says about a batch of files. */
  datatype Validation = Valid | Invalid(error: Option<string>)

  /** What the file processor hands back for one attachment; it is merged over the entry. */
  datatype Processed = Processed(
    status: Status, base64Data: string, extractedText: Option<string>,
    pdfPageCount: Option<nat>, progress: ProgressInfo, error: Option<string>)

  /** Replace the progress of every entry with the given id. */
  function WithProgress(atts: seq<Attachment>, id: string, p: ProgressInfo): (r: seq<Attachment>)
    ensures |r| == |atts|
    ensures forall i | 0 <= i < |atts| :: atts[i].id != id ==> r[i] == atts[i]
    ensures forall i | 0 <= i < |atts| :: atts[i].id == id ==> r[i] == atts[i].(progress := p)
  {
    seq(|atts|, i requires 0 <= i < |atts| => if atts[i].id == id then atts[i].(progress := p) else atts[i])
  }

  /** Merge the processing result into every entry with the given id. */
  function WithProcessed(atts: seq<Attachment>, id: string, p: Processed): (r: seq<Attachment>)
    ensures |r| == |atts|
    ensures forall i | 0 <= i < |atts| :: atts[i].id != id ==> r[i] == atts[i]
    ensures forall i | 0 <= i < |atts| :: atts[i].id == id ==>
              r[i].id == id && r[i].file == atts[i].file && r[i].uploadType == atts[i].uploadType &&
              r[i].preview == atts[i].preview && r[i].status == p.status && r[i].base64Data == p.base64Data &&
              r[i].extractedText == p.extractedText && r[i].pdfPageCount == p.pdfPageCount &&
              r[i].progress == p.progress && r[i].error == p.error
  {
    seq(|atts|, i requires 0 <= i < |atts| =>
      if atts[i].id == id then
        atts[i].(status := p.status, base64Data := p.base64Data, extractedText := p.extractedText,
                 pdfPageCount := p.pdfPageCount, progress := p.progress, error := p.error)
      else atts[i])
  }

  function WithoutAttachment(atts: seq<Attachment>, id: string): seq<Attachment>
  {
    Filter(atts, (a: Attachment) => a.id != id)
  }

  function HasId(id: string): Attachment -> bool
  {
    (a: Attachment) => a.id == id
  }

  /** Removal drops exactly the entries with that id, keeping the others in order. */
  lemma WithoutAttachmentDrops(atts: seq<Attachment>, id: string)
    ensures forall i | 0 <= i < |WithoutAttachment(atts, id)| :: WithoutAttachment(atts, id)[i].id != id
    ensures forall i | 0 <= i < |atts| :: atts[i].id != id ==> atts[i] in WithoutAttachment(atts, id)
    ensures IsSubsequence(WithoutAttachment(atts, id), atts)
  {
    FilterIsSubsequence(atts, (a: Attachment) => a.id != id);
  }

  // ---------------------------------------------------------------------------
  // Storage file name
  // ---------------------------------------------------------------------------

  /** `\w`: ASCII letters, digits and the underscore. */
  predicate IsWordChar(c: char)
  {
    ('A' <= c <= 'Z') || ('a' <= c <= 'z') || ('0' <= c <= '9') || c == '_'
  }

  predicate IsKept(c: char)
  {
    IsWordChar(c) || IsSpace(c) || c == '-'
  }

  /** `replace(/\.[^.]*$/, '')`: drop the last dot and what follows it. */
  function StripExtension(name: string): (r: string)
    ensures |r| <= |name| && r == name[..|r|]
    ensures '.' !in name ==> r == name
    ensures '.' in name ==> |r| < |name| && name[|r|] == '.' && '.' !in name[|r| + 1..]
  {
    match LastIndexOf(name, '.')
    case None => name
    case Some(i) => name[..i]
  }

  /** A character the stored base name may contain: a word character or a dash. */
  predicate IsNameChar(c: char)
  {
    IsWordChar(c) || c == '-'
  }

  predicate KeptOnly(s: string)
  {
    forall i | 0 <= i < |s| :: IsKept(s[i])
  }

  /** `replace(/[^\w\s-]/g, '')`: only characters are removed, and no allowed one is lost. */
  function KeepAllowed(s: string): (r: string)
    ensures |r| <= |s| && multiset(r) <= multiset(s)
    ensures forall i | 0 <= i < |s| && IsKept(s[i]) :: s[i] in r
  {
    if s == [] then []
    else
      var rest := KeepAllowed(s[1..]);
      assert s == [s[0]] + s[1..];
      assert forall i | 1 <= i < |s| :: s[i] == s[1..][i - 1];
      (if IsKept(s[0]) then [s[0]] else []) + rest
  }

  /** The leading whitespace of `s` dropped: what remains is empty or starts with a non-space. */
  function DropSpaces(s: string): (r: string)
    ensures |r| <= |s| && r == s[|s| - |r|..]
    ensures forall i | 0 <= i < |s| - |r| :: IsSpace(s[i])
    ensures r != [] ==> !IsSpace(r[0])
  {
    if s != [] && IsSpace(s[0]) then DropSpaces(s[1..]) else s
  }

  /** `replace(/\s+/g, '-')`: every run of whitespace becomes one dash (CollapseRun), so no whitespace remains. */
  function CollapseSpaces(s: string): (r: string)
    ensures |r| <= |s|
    ensures forall i | 0 <= i < |r| :: !IsSpace(r[i])
    decreases |s|
  {
    if s == [] then []
    else if IsSpace(s[0]) then "-" + CollapseSpaces(DropSpaces(s[1..]))
    else [s[0]] + CollapseSpaces(s[1..])
  }

  /** `trim()`, whitespace runs to dashes, then at most 50 characters. */
  function CleanName(s: string): (r: string)
    ensures |r| <= 50
    ensures var collapsed := CollapseSpaces(Trim(KeepAllowed(s)));
            r <= collapsed && (|collapsed| <= 50 ==> r == collapsed) && (|collapsed| > 50 ==> |r| == 50)
  {
    var collapsed := CollapseSpaces(Trim(KeepAllowed(s)));
    if |collapsed| > 50 then collapsed[..50] else collapsed
  }

  /** The filter works character by character: it distributes over concatenation. */
  lemma {:induction false} KeepAllowedDistributes(s: string, t: string)
    ensures KeepAllowed(s + t) == KeepAllowed(s) + KeepAllowed(t)
    decreases |s|
  {
    if s == [] {
      assert s + t == t;
    } else {
      assert (s + t)[1..] == s[1..] + t;
      KeepAllowedDistributes(s[1..], t);
    }
  }

  /** A single character is kept when it is a word character, whitespace or '-', and deleted otherwise. */
  lemma KeepAllowedOne(c: char)
    ensures KeepAllowed([c]) == if IsKept(c) then [c] else []
  {
    assert [c][1..] == [];
  }

  /** A whitespace prefix followed by text that does not start with whitespace is dropped exactly. */
  lemma {:induction false} DropSpacesRun(ws: string, t: string)
    requires forall i | 0 <= i < |ws| :: IsSpace(ws[i])
    requires t == [] || !IsSpace(t[0])
    ensures DropSpaces(ws + t) == t
    decreases |ws|
  {
    if ws == [] {
      assert ws + t == t;
    } else {
      assert (ws + t)[1..] == ws[1..] + t;
      DropSpacesRun(ws[1..], t);
    }
  }

  /** A run of whitespace at the front becomes one dash. */
  lemma CollapseRunAt(ws: string, t: string)
    requires ws != [] && forall i | 0 <= i < |ws| :: IsSpace(ws[i])
    requires t == [] || !IsSpace(t[0])
    ensures CollapseSpaces(ws + t) == "-" + CollapseSpaces(t)
  {
    assert (ws + t)[0] == ws[0] && (ws + t)[1..] == ws[1..] + t;
    DropSpacesRun(ws[1..], t);
  }

  /**
   * A word `w` without whitespace, then a non-empty run of whitespace, then
   * text `t` that does not start with whitespace: the run becomes one dash.
   */
  lemma {:induction false} CollapseRun(w: string, ws: string, t: string)
    requires forall i | 0 <= i < |w| :: !IsSpace(w[i])
    requires ws != [] && forall i | 0 <= i < |ws| :: IsSpace(ws[i])
    requires t == [] || !IsSpace(t[0])
    ensures CollapseSpaces(w + ws + t) == w + "-" + CollapseSpaces(t)
    decreases |w|
  {
    if w == [] {
      assert w + ws + t == ws + t;
      CollapseRunAt(ws, t);
    } else {
      var s := w + ws + t;
      assert s[0] == w[0] && s[1..] == w[1..] + ws + t;
      CollapseRun(w[1..], ws, t);
      assert CollapseSpaces(s) == [w[0]] + CollapseSpaces(s[1..]);
      assert w == [w[0]] + w[1..];
    }
  }

  lemma {:induction false} KeepAllowedKeeps(s: string)
    ensures KeptOnly(KeepAllowed(s))
    decreases |s|
  {
    if s != [] {
      KeepAllowedKeeps(s[1..]);
    }
  }

  lemma TrimKeeps(s: string)
    requires KeptOnly(s)
    ensures KeptOnly(Trim(s))
  {
  }

  lemma SuffixKept(s: string, rest: string)
    requires KeptOnly(s) && |rest| <= |s| && rest == s[|s| - |rest|..]
    ensures KeptOnly(rest)
  {
    forall i | 0 <= i < |rest| ensures IsKept(rest[i]) {
      assert rest[i] == s[|s| - |rest| + i];
    }
  }

  /** Collapsing a string of kept characters leaves only word characters and dashes. */
  lemma {:induction false} CollapseNameChars(s: string)
    requires KeptOnly(s)
    ensures forall i | 0 <= i < |CollapseSpaces(s)| :: IsNameChar(CollapseSpaces(s)[i])
    decreases |s|
  {
    if s != [] {
      SuffixKept(s, s[1..]);
      if IsSpace(s[0]) {
        var rest := DropSpaces(s[1..]);
        SuffixKept(s[1..], rest);
        CollapseNameChars(rest);
      } else {
        CollapseNameChars(s[1..]);
      }
    }
  }

  /** The cleaned name is at most 50 characters, each a word character or a dash. */
  lemma CleanNameChars(s: string)
    ensures |CleanName(s)| <= 50
    ensures forall i | 0 <= i < |CleanName(s)| :: IsNameChar(CleanName(s)[i])
  {
    KeepAllowedKeeps(s);
    TrimKeeps(KeepAllowed(s));
    CollapseNameChars(Trim(KeepAllowed(s)));
  }

  const FallbackBaseName := "medical-document"

  /** The cleaned name before the length check; `normalize` stands for the string's `normalize('NFKD')`. */
  function CleanedName(fileName: string, normalize: string -> string): string
  {
    CleanName(normalize(StripExtension(fileName)))
  }

  /** The base of the stored file name: the cleaned name, or "medical-document" when that is empty or shorter than 3. */
  function SanitizedBase(fileName: string, normalize: string -> string): (r: string)
    ensures 3 <= |r| <= 50
    ensures forall i | 0 <= i < |r| :: IsNameChar(r[i])
    ensures |CleanedName(fileName, normalize)| >= 3 ==> r == CleanedName(fileName, normalize)
    ensures |CleanedName(fileName, normalize)| < 3 ==> r == FallbackBaseName
  {
    var cleaned := CleanedName(fileName, normalize);
    if |cleaned| < 3 then
      FallbackIsName();
      FallbackBaseName
    else
      CleanNameChars(normalize(StripExtension(fileName)));
      cleaned
  }

  lemma FallbackIsName()
    ensures |FallbackBaseName| == 16
    ensures forall i | 0 <= i < |FallbackBaseName| :: IsNameChar(FallbackBaseName[i])
  {
  }

  lemma {:induction false} KeepAllKept(s: string)
    requires KeptOnly(s)
    ensures KeepAllowed(s) == s
    decreases |s|
  {
    if s != [] {
      assert KeptOnly(s[1..]);
      KeepAllKept(s[1..]);
      assert [s[0]] + s[1..] == s;
    }
  }

  lemma {:induction false} TrimOfNoSpaces(s: string)
    requires forall i | 0 <= i < |s| :: !IsSpace(s[i])
    ensures Trim(s) == s
  {
  }

  lemma {:induction false} CollapseOfNoSpaces(s: string)
    requires forall i | 0 <= i < |s| :: !IsSpace(s[i])
    ensures CollapseSpaces(s) == s
    decreases |s|
  {
    if s != [] {
      CollapseOfNoSpaces(s[1..]);
      assert [s[0]] + s[1..] == s;
    }
  }

  /** A name that is already 3 to 50 word characters and dashes (after normalisation) is kept as it is. */
  lemma CleanNameKept(fileName: string, normalize: string -> string)
    requires var n := normalize(StripExtension(fileName));
             3 <= |n| <= 50 && forall i | 0 <= i < |n| :: IsNameChar(n[i])
    ensures SanitizedBase(fileName, normalize) == normalize(StripExtension(fileName))
  {
    var n := normalize(StripExtension(fileName));
    assert forall i | 0 <= i < |n| :: !IsSpace(n[i]);
    KeepAllKept(n);
    TrimOfNoSpaces(n);
    CollapseOfNoSpaces(n);
    assert CleanName(n) == n;
  }

  /** `split('.').pop() || 'pdf'`: the text after the last dot (the whole name without one), or "pdf" when that is empty. */
  function Extension(fileName: string): (r: string)
    ensures r != "" && '.' !in r
    ensures '.' !in fileName && fileName != "" ==> r == fileName
    ensures AfterLast(fileName, '.') == "" ==> r == "pdf"
    ensures AfterLast(fileName, '.') != "" ==> r == AfterLast(fileName, '.')
  {
    OrElse(AfterLast(fileName, '.'), "pdf")
  }

  /** `${questionId}/${baseName}-${timestamp}.${originalExtension}` */
  function JoinPath(folder: string, base: string, stamp: string, ext: string): string
  {
    folder + "/" + base + "-" + stamp + "." + ext
  }

  /** The path under the question's folder: the base name right after the '/', followed by '-'. */
  function StoragePath(questionId: string, fileName: string, stamp: nat, normalize: string -> string): (r: string)
    ensures LaidOut(r, questionId, SanitizedBase(fileName, normalize), NatToString(stamp), Extension(fileName))
  {
    var b, st, ext := SanitizedBase(fileName, normalize), NatToString(stamp), Extension(fileName);
    JoinedFolder(questionId, b, st, ext);
    JoinPath(questionId, b, st, ext)
  }

  lemma {:induction false} LastIndexOfAfterSeparator(front: string, c: char, back: string)
    requires c !in back
    ensures LastIndexOf(front + [c] + back, c) == Some(|front|)
  {
    var s := front + [c] + back;
    var r := LastIndexOf(s, c);
    assert s[|front|] == c;
    assert r.Some?;
    assert s[|front| + 1..] == back;
  }

  /** The stored object keeps the original's extension: the text after the path's last dot is exactly `Extension(fileName)`. */
  lemma StoredExtension(questionId: string, fileName: string, stamp: nat, normalize: string -> string)
    ensures AfterLast(StoragePath(questionId, fileName, stamp, normalize), '.') == Extension(fileName)
  {
    JoinedExtension(questionId, SanitizedBase(fileName, normalize), NatToString(stamp), Extension(fileName));
  }

  lemma JoinedExtension(folder: string, base: string, stamp: string, ext: string)
    requires '.' !in ext
    ensures AfterLast(JoinPath(folder, base, stamp, ext), '.') == ext
  {
    var front := folder + "/" + base + "-" + stamp;
    assert JoinPath(folder, base, stamp, ext) == front + ['.'] + ext;
    LastIndexOfAfterSeparator(front, '.', ext);
  }

  /** The path lies under the question's folder. */
  lemma StoredUnderQuestion(questionId: string, fileName: string, stamp: nat, normalize: string -> string)
    ensures var p := StoragePath(questionId, fileName, stamp, normalize);
            |p| > |questionId| && p[..|questionId|] == questionId && p[|questionId|] == '/'
  {
  }

  /** `p` is the folder and '/', the base name and '-', the stamp, and '.' with the extension, each at its place. */
  predicate LaidOut(p: string, folder: string, base: string, stamp: string, ext: string)
  {
    var n := |folder|;
    |p| == n + 1 + |base| + 1 + |stamp| + 1 + |ext| &&
    p[..n + 1] == folder + "/" && p[n + 1..n + 1 + |base|] == base && p[n + 1 + |base|] == '-' &&
    p[n + 2 + |base|..n + 2 + |base| + |stamp|] == stamp && p[n + 2 + |base| + |stamp|..] == "." + ext
  }

  lemma JoinedFolder(folder: string, base: string, stamp: string, ext: string)
    ensures var p := JoinPath(folder, base, stamp, ext);
            |p| > |folder| && p[..|folder|] == folder && p[|folder|] == '/'
    ensures LaidOut(JoinPath(folder, base, stamp, ext), folder, base, stamp, ext)
  {
    var p := JoinPath(folder, base, stamp, ext);
    assert p == (folder + "/") + base + ("-" + stamp + "." + ext);
    assert p == (folder + "/" + base + "-") + stamp + ("." + ext);
  }

  // ---------------------------------------------------------------------------
  // Upload retry loop
  // ---------------------------------------------------------------------------

  /** The outcome of one storage upload call: accepted, or an error returned or thrown. */
  datatype Attempt = AttemptOk | AttemptFailed(err: Thrown)

  /** What the retry loop does, in order: upload calls and the pauses between them. */
  datatype RetryStep = Uploaded(path: string, contentType: string, upsert: bool) | Waited(ms: nat)

  datatype RetryRun = RetryRun(steps: seq<RetryStep>, succeeded: bool, lastError: Option<Thrown>)

  /** `Math.pow(2, retry) * 1000` */
  function Backoff(retry: nat): nat
  {
    if retry == 0 then 1000 else 2 * Backoff(retry - 1)
  }

  /** The loop from attempt `retry` on, having failed last with `last`. */
  function RetryFrom(path: string, contentType: string, attempt: nat -> Attempt, retry: nat, last: Option<Thrown>): (r: RetryRun)
    ensures retry >= 3 ==> r == RetryRun([], false, last)
    ensures retry < 3 ==> |r.steps| >= 1 && r.steps[0] == Uploaded(path, contentType, retry > 0)
    ensures r.succeeded <==> exists k | retry <= k < 3 :: attempt(k).AttemptOk?
    decreases 3 - retry
  {
    if retry >= 3 then RetryRun([], false, last)
    else
      var call := Uploaded(path, contentType, retry > 0);
      match attempt(retry)
      case AttemptOk => RetryRun([call], true, last)
      case AttemptFailed(e) =>
        var pause := if retry < 2 then [Waited(Backoff(retry))] else [];
        var rest := RetryFrom(path, contentType, attempt, retry + 1, Some(e));
        RetryRun([call] + pause + rest.steps, rest.succeeded, rest.lastError)
  }

  /** The run `rest` preceded by the steps already taken. */
  function After(steps: seq<RetryStep>, rest: RetryRun): RetryRun
  {
    RetryRun(steps + rest.steps, rest.succeeded, rest.lastError)
  }

  /** A failed attempt: what is left of the run is the call, the pause, and the run from the next attempt. */
  lemma RetryFailedStep(path: string, contentType: string, attempt: nat -> Attempt, retry: nat, last: Option<Thrown>, steps: seq<RetryStep>)
    requires retry < 3 && attempt(retry).AttemptFailed?
    ensures var pause := if retry < 2 then [Waited(Backoff(retry))] else [];
            After(steps, RetryFrom(path, contentType, attempt, retry, last)) ==
            After(steps + [Uploaded(path, contentType, retry > 0)] + pause, RetryFrom(path, contentType, attempt, retry + 1, Some(attempt(retry).err)))
  {
  }

  method UploadWithRetry(path: string, contentType: string, attempt: nat -> Attempt) returns (run: RetryRun)
    ensures run == RetryFrom(path, contentType, attempt, 0, None)
  {
    var steps: seq<RetryStep> := [];
    var last: Option<Thrown> := None;
    var retry := 0;
    while retry < 3
      invariant 0 <= retry <= 3
      invariant After(steps, RetryFrom(path, contentType, attempt, retry, last)) == RetryFrom(path, contentType, attempt, 0, None)
    {
      var call := Uploaded(path, contentType, retry > 0);
      var outcome := attempt(retry);
      if outcome.AttemptOk? {
        run := RetryRun(steps + [call], true, last);
        return;
      }
      var pause := if retry < 2 then [Waited(Backoff(retry))] else [];
      RetryFailedStep(path, contentType, attempt, retry, last, steps);
      steps := steps + [call] + pause;
      last := Some(outcome.err);
      retry := retry + 1;
    }
    assert RetryFrom(path, contentType, attempt, retry, last) == RetryRun([], false, last);
    assert steps + [] == steps;
    run := RetryRun(steps, false, last);
  }

  /**
   * The whole schedule: at most three calls, stopping at the first success;
   * only the first call without upsert; 1 s after the first failure, 2 s after
   * the second, no pause after the last; when every call fails, the third
   * call's error is the one reported.
   */
  lemma RetrySchedule(path: string, contentType: string, attempt: nat -> Attempt)
    ensures var run := RetryFrom(path, contentType, attempt, 0, None);
            var first := Uploaded(path, contentType, false);
            var again := Uploaded(path, contentType, true);
            (attempt(0).AttemptOk? ==> run == RetryRun([first], true, None)) &&
            (attempt(0).AttemptFailed? && attempt(1).AttemptOk? ==>
               run == RetryRun([first, Waited(1000), again], true, Some(attempt(0).err))) &&
            (attempt(0).AttemptFailed? && attempt(1).AttemptFailed? && attempt(2).AttemptOk? ==>
               run == RetryRun([first, Waited(1000), again, Waited(2000), again], true, Some(attempt(1).err))) &&
            (attempt(0).AttemptFailed? && attempt(1).AttemptFailed? && attempt(2).AttemptFailed? ==>
               run == RetryRun([first, Waited(1000), again, Waited(2000), again], false, Some(attempt(2).err)))
  {
  }

  /** The loop reports success exactly when one of the first three calls succeeds. */
  lemma RetrySucceedsIff(path: string, contentType: string, attempt: nat -> Attempt)
    ensures RetryFrom(path, contentType, attempt, 0, None).succeeded <==>
            (attempt(0).AttemptOk? || attempt(1).AttemptOk? || attempt(2).AttemptOk?)
    ensures !RetryFrom(path, contentType, attempt, 0, None).succeeded ==>
            RetryFrom(path, contentType, attempt, 0, None).lastError.Some?
  {
  }

  // ---------------------------------------------------------------------------
  // Submission
  // ---------------------------------------------------------------------------

  /** An error the database client returns; whether it is an `Error` instance is the client library's business. */
  datatype DbError = DbError(message: Option<string>, code: string, isErrorInstance: bool)

  datatype InsertOutcome = Inserted | InsertRejected(e: DbError)

  /** What the database and storage do for the file at one position. */
  datatype FileEnv = FileEnv(attempt: nat -> Attempt, metadataInsert: InsertOutcome, fallbackInsert: InsertOutcome)

  /** A `doctor_question_attachments` row; absent columns are `None`. */
  datatype AttachmentRow = AttachmentRow(
    question_id: string, file_name: string, file_type: string, file_size: nat,
    file_path: Option<string>, upload_status: Option<string>,
    extracted_text: Option<string>, pdf_page_count: Option<nat>, extraction_method: Option<string>,
    error_message: Option<string>)

  /** A `throw` of the client's error, as the catch block sees it. */
  function Raised(e: DbError): Thrown
  {
    if e.isErrorInstance then ErrorThrown(if e.message.Some? then e.message.value else "") else OtherThrown(e.message)
  }

  /** `err instanceof Error ? err.message : 'Upload failed'`; a missing error is not an `Error`. */
  function FailureMessage(err: Option<Thrown>): (r: string)
    ensures (err.Some? && err.value.ErrorThrown?) ==> r == err.value.message
    ensures !(err.Some? && err.value.ErrorThrown?) ==> r == "Upload failed"
  {
    match err
    case Some(ErrorThrown(m)) => m
    case _ => "Upload failed"
  }

  /** The insert failed because of an unknown column: the message mentions "column", or the code is 42703. */
  predicate IsColumnError(e: DbError)
  {
    (e.message.Some? && Contains(e.message.value, "column")) || e.code == "42703"
  }

  function Truthy(s: Option<string>): Option<string>
  {
    if Present(s) then s else None
  }

  function SuccessRow(questionId: string, a: Attachment, path: string): AttachmentRow
  {
    AttachmentRow(questionId, a.file.name, a.file.mime, a.file.size, Some(path), Some("success"),
                  Truthy(a.extractedText),
                  if a.pdfPageCount.Some? && a.pdfPageCount.value != 0 then a.pdfPageCount else None,
                  Truthy(a.progress.extractionMethod), None)
  }

  function PlainRow(questionId: string, a: Attachment, path: string): AttachmentRow
  {
    AttachmentRow(questionId, a.file.name, a.file.mime, a.file.size, Some(path), None, None, None, None, None)
  }

  function FailedRow(questionId: string, a: Attachment, message: string): AttachmentRow
  {
    AttachmentRow(questionId, a.file.name, a.file.mime, a.file.size, None, Some("failed"), None, None, None, Some(message))
  }

  /** One file's storage calls and attachment-row insert requests. */
  datatype FileResult = FileResult(storage: seq<RetryStep>, rows: seq<AttachmentRow>)

  /**
   * The insert requests one file makes, in order, given its path and how its
   * upload went: a failed upload asks for a failed row; otherwise the full
   * row is asked for, then the plain row after a column error, and an insert
   * that is still refused is followed by a request for a failed row instead
   * of stopping the loop. A refused request stays in the list.
   */
  function FileRows(questionId: string, a: Attachment, path: string, run: RetryRun, env: FileEnv): (r: seq<AttachmentRow>)
    ensures 1 <= |r| <= 3 && r[0].question_id == questionId && r[0].file_name == a.file.name
    ensures !run.succeeded <==> |r| == 1 && r[0].upload_status == Some("failed")
  {
    if !run.succeeded then [FailedRow(questionId, a, FailureMessage(run.lastError))]
    else
      var full := SuccessRow(questionId, a, path);
      match env.metadataInsert
      case Inserted => [full]
      case InsertRejected(e) =>
        if IsColumnError(e) then
          match env.fallbackInsert
          case Inserted => [full, PlainRow(questionId, a, path)]
          case InsertRejected(f) => [full, PlainRow(questionId, a, path), FailedRow(questionId, a, FailureMessage(Some(Raised(f))))]
        else [full, FailedRow(questionId, a, FailureMessage(Some(Raised(e))))]
  }

  /** One file of the loop: its path from the name and position, the retried upload, then the insert requests. */
  function FileSteps(questionId: string, a: Attachment, index: nat, now: nat, normalize: string -> string, env: FileEnv): FileResult
  {
    var path := StoragePath(questionId, a.file.name, now + index, normalize);
    var run := RetryFrom(path, a.file.mime, env.attempt, 0, None);
    FileResult(run.steps, FileRows(questionId, a, path, run, env))
  }

  method UploadFile(questionId: string, a: Attachment, index: nat, now: nat, normalize: string -> string, env: FileEnv)
      returns (r: FileResult)
    ensures r == FileSteps(questionId, a, index, now, normalize, env)
  {
    var path := StoragePath(questionId, a.file.name, now + index, normalize);
    var run := UploadWithRetry(path, a.file.mime, env.attempt);
    r := FileResult(run.steps, FileRows(questionId, a, path, run, env));
  }

  /** Every file makes one to three insert requests, all naming it; a failed upload asks for exactly one failed row with no path. */
  lemma FileAlwaysRecorded(questionId: string, a: Attachment, path: string, run: RetryRun, env: FileEnv)
    ensures var rows := FileRows(questionId, a, path, run, env);
            1 <= |rows| <= 3 && rows[0].question_id == questionId && rows[0].file_name == a.file.name &&
            (forall k | 0 <= k < |rows| :: rows[k].question_id == questionId && rows[k].file_name == a.file.name)
    ensures !run.succeeded ==>
              FileRows(questionId, a, path, run, env) == [FailedRow(questionId, a, FailureMessage(run.lastError))] &&
              FailedRow(questionId, a, FailureMessage(run.lastError)).file_path.None? &&
              FailedRow(questionId, a, FailureMessage(run.lastError)).upload_status == Some("failed")
    ensures run.succeeded ==> FileRows(questionId, a, path, run, env)[0] == SuccessRow(questionId, a, path)
  {
  }

  lemma FileStepsRecorded(questionId: string, a: Attachment, index: nat, now: nat, normalize: string -> string, env: FileEnv)
    ensures var rows := FileSteps(questionId, a, index, now, normalize, env).rows;
            |rows| >= 1 && rows[0].file_name == a.file.name
  {
    var path := StoragePath(questionId, a.file.name, now + index, normalize);
    FileAlwaysRecorded(questionId, a, path, RetryFrom(path, a.file.mime, env.attempt, 0, None), env);
  }

  /** The per-file results one after the other. */
  function Joined(results: seq<FileResult>): FileResult
    decreases |results|
  {
    if results == [] then FileResult([], [])
    else
      var before := Joined(results[..|results| - 1]);
      var last := results[|results| - 1];
      FileResult(before.storage + last.storage, before.rows + last.rows)
  }

  /** Each file's result, from its position `k` in the list and the clock reading `now(k)` taken on that pass of the loop. */
  function PerFile(questionId: string, atts: seq<Attachment>, now: nat -> nat, normalize: string -> string, env: nat -> FileEnv): (r: seq<FileResult>)
    ensures |r| == |atts|
  {
    seq(|atts|, k requires 0 <= k < |atts| => FileSteps(questionId, atts[k], k, now(k), normalize, env(k)))
  }

  /** The files in order: the storage steps and insert requests of each, one after the other. */
  function AllFiles(questionId: string, atts: seq<Attachment>, now: nat -> nat, normalize: string -> string, env: nat -> FileEnv): FileResult
  {
    Joined(PerFile(questionId, atts, now, normalize, env))
  }

  /** The per-file loop; a failed file does not stop the ones after it. */
  method UploadAll(questionId: string, atts: seq<Attachment>, now: nat -> nat, normalize: string -> string, env: nat -> FileEnv)
      returns (r: FileResult)
    ensures r == AllFiles(questionId, atts, now, normalize, env)
  {
    ghost var all := PerFile(questionId, atts, now, normalize, env);
    r := FileResult([], []);
    var index := 0;
    while index < |atts|
      invariant 0 <= index <= |atts|
      invariant r == Joined(all[..index])
    {
      var one := UploadFile(questionId, atts[index], index, now(index), normalize, env(index));
      assert one == all[index];
      JoinedStep(all, index);
      r := FileResult(r.storage + one.storage, r.rows + one.rows);
      index := index + 1;
    }
    assert all[..index] == all;
  }

  /** One more result appends its storage calls and insert requests to the joined ones. */
  lemma JoinedStep(results: seq<FileResult>, i: nat)
    requires i < |results|
    ensures Joined(results[..i + 1]) ==
            FileResult(Joined(results[..i]).storage + results[i].storage, Joined(results[..i]).rows + results[i].rows)
  {
    assert results[..i + 1][..i] == results[..i];
  }

  /** When every result has an insert request, the joined requests hold each result's first one, so there are at least as many requests as results. */
  lemma {:induction false} JoinedKeepsFirstRows(results: seq<FileResult>)
    requires forall k | 0 <= k < |results| :: |results[k].rows| >= 1
    ensures |Joined(results).rows| >= |results|
    ensures forall k | 0 <= k < |results| :: results[k].rows[0] in Joined(results).rows
    decreases |results|
  {
    if results != [] {
      var init := results[..|results| - 1];
      JoinedKeepsFirstRows(init);
      var last := results[|results| - 1];
      var rows := Joined(results).rows;
      assert rows == Joined(init).rows + last.rows;
      forall k | 0 <= k < |results| ensures results[k].rows[0] in rows {
        if k < |init| {
          assert results[k] == init[k];
        } else {
          assert rows[|Joined(init).rows|] == last.rows[0];
        }
      }
    }
  }

  /** Every attachment gets at least one insert request carrying its name, whatever happens to the others. */
  lemma EveryFileRecorded(questionId: string, atts: seq<Attachment>, now: nat -> nat, normalize: string -> string, env: nat -> FileEnv)
    ensures |AllFiles(questionId, atts, now, normalize, env).rows| >= |atts|
    ensures forall k | 0 <= k < |atts| :: exists j | 0 <= j < |AllFiles(questionId, atts, now, normalize, env).rows| ::
              AllFiles(questionId, atts, now, normalize, env).rows[j].file_name == atts[k].file.name
  {
    var all := PerFile(questionId, atts, now, normalize, env);
    forall k | 0 <= k < |atts| ensures |all[k].rows| >= 1 && all[k].rows[0].file_name == atts[k].file.name {
      FileStepsRecorded(questionId, atts[k], k, now(k), normalize, env(k));
    }
    JoinedKeepsFirstRows(all);
    var rows := Joined(all).rows;
    forall k | 0 <= k < |atts| ensures exists j | 0 <= j < |rows| :: rows[j].file_name == atts[k].file.name {
      assert all[k].rows[0] in rows;
    }
  }

  /** A `doctor_questions` row. */
  datatype QuestionRow = QuestionRow(
    name: string, email: string, phone: Option<string>, question: string,
    ai_response: Option<string>, ai_response_at: Option<string>)

  datatype QuestionInsert = QuestionCreated(id: string) | QuestionRejected

  /** The row for the form's fields; `aiText` is the AI's answer, `None` when that call threw. */
  function QuestionRowOf(name: string, email: string, phone: string, question: string, aiText: Option<string>, nowIso: string): (r: QuestionRow)
    ensures r.phone.None? <==> phone == ""
    ensures r.ai_response == aiText
    ensures r.ai_response_at.Some? <==> Present(aiText)
  {
    QuestionRow(name, email, if phone == "" then None else Some(phone), question, aiText,
                if Present(aiText) then Some(nowIso) else None)
  }

  /** The ids of the entries, in order: what clearing the form releases. */
  function IdsOf(atts: seq<Attachment>): (r: seq<string>)
    ensures |r| == |atts| && forall i | 0 <= i < |atts| :: r[i] == atts[i].id
  {
    seq(|atts|, i requires 0 <= i < |atts| => atts[i].id)
  }

  const ValidationFallback := "File validation failed"
  const ProcessingFailed := "Failed to process some files. Please try again."

  class AskDoctorForm {
    var question: string
    var name: string
    var email: string
    var phone: string
    var attachments: seq<Attachment>
    var submitted: bool
    var isSubmitting: bool
    var error: Option<string>
    var isUploadingFiles: bool
    var uploadingFileCount: nat
    /** Ids of the entries handed to `cleanupAttachments`, in order. */
    var cleaned: seq<string>
    /** The question inserts requested, accepted or not. */
    var questionRows: seq<QuestionRow>
    var storage: seq<RetryStep>
    /** The attachment-row inserts requested, accepted or not. */
    var attachmentRows: seq<AttachmentRow>

    constructor ()
      ensures question == "" && name == "" && email == "" && phone == "" && attachments == []
      ensures !submitted && !isSubmitting && error == None && !isUploadingFiles && uploadingFileCount == 0
      ensures cleaned == [] && questionRows == [] && storage == [] && attachmentRows == []
    {
      question, name, email, phone, attachments := "", "", "", "", [];
      submitted, isSubmitting, error, isUploadingFiles, uploadingFileCount := false, false, None, false, 0;
      cleaned, questionRows, storage, attachmentRows := [], [], [], [];
    }

    /**
     * processFiles, up to the start of processing: a rejected batch only
     * sets the error; an accepted one is appended after the existing entries,
     * in file order, each as a fresh processing entry.
     */
    method AddFiles(files: seq<FileInfo>, validation: Validation, newId: nat -> string, objectUrl: nat -> string)
      modifies this
      ensures validation.Invalid? ==>
                unchanged(this`attachments, this`isUploadingFiles, this`uploadingFileCount) &&
                error == Some(if validation.error.Some? && validation.error.value != "" then validation.error.value else ValidationFallback)
      ensures validation.Valid? ==>
                error == None && isUploadingFiles && uploadingFileCount == |files| &&
                |attachments| == |old(attachments)| + |files| &&
                attachments[..|old(attachments)|] == old(attachments) &&
                forall i | 0 <= i < |files| :: attachments[|old(attachments)| + i] == InitialAttachment(files[i], newId(i), objectUrl(i))
      ensures unchanged(this`question, this`name, this`email, this`phone, this`submitted, this`cleaned)
      ensures unchanged(this`questionRows, this`storage, this`attachmentRows, this`isSubmitting)
    {
      if validation.Invalid? {
        var e := validation.error;
        error := Some(if e.Some? && e.value != "" then e.value else ValidationFallback);
        return;
      }
      error := None;
      isUploadingFiles := true;
      uploadingFileCount := |files|;
      var added := seq(|files|, i requires 0 <= i < |files| => InitialAttachment(files[i], newId(i), objectUrl(i)));
      attachments := attachments + added;
    }

    /** A progress report for one file changes only the entries with its id. */
    method ApplyProgress(id: string, p: ProgressInfo)
      modifies this`attachments
      ensures attachments == WithProgress(old(attachments), id, p)
    {
      attachments := WithProgress(attachments, id, p);
    }

    /** The processing result for one file is merged only into the entries with its id. */
    method ApplyProcessed(id: string, p: Processed)
      modifies this`attachments
      ensures attachments == WithProcessed(old(attachments), id, p)
    {
      attachments := WithProcessed(attachments, id, p);
    }

    /** The end of processFiles: a failure is reported; the upload indicator is reset either way. */
    method FinishProcessing(outcome: Outcome)
      modifies this`error, this`isUploadingFiles, this`uploadingFileCount
      ensures !isUploadingFiles && uploadingFileCount == 0
      ensures outcome.Failed? ==> error == Some(ProcessingFailed)
      ensures outcome.Done? ==> unchanged(this`error)
    {
      if outcome.Failed? {
        error := Some(ProcessingFailed);
      }
      isUploadingFiles := false;
      uploadingFileCount := 0;
    }

    /** removeAttachment: release the first entry with that id, and drop every entry with it. */
    method RemoveAttachment(id: string)
      modifies this`attachments, this`cleaned
      ensures attachments == WithoutAttachment(old(attachments), id)
      ensures (exists i | 0 <= i < |old(attachments)| :: old(attachments)[i].id == id) ==> cleaned == old(cleaned) + [id]
      ensures (forall i | 0 <= i < |old(attachments)| :: old(attachments)[i].id != id) ==> cleaned == old(cleaned)
    {
      var first := FindFirst(attachments, HasId(id));
      if first.Some? {
        cleaned := cleaned + [attachments[first.value].id];
      }
      attachments := WithoutAttachment(attachments, id);
    }

    /**
     * handleQuestionSubmit after the AI call: ask to store the question; if
     * that is refused, show `errorText` and keep the form; otherwise upload
     * every attachment and request its rows, then clear the form.
     */
    method SubmitQuestion(aiText: Option<string>, nowIso: string, insert: QuestionInsert, now: nat -> nat,
                          normalize: string -> string, env: nat -> FileEnv, errorText: string)
      modifies this`error, this`isSubmitting, this`questionRows, this`storage, this`attachmentRows
      modifies this`cleaned, this`submitted, this`question, this`name, this`email, this`phone, this`attachments
      ensures !isSubmitting
      ensures questionRows == old(questionRows) + [QuestionRowOf(old(name), old(email), old(phone), old(question), aiText, nowIso)]
      ensures insert.QuestionRejected? ==>
                error == Some(errorText) &&
                unchanged(this`question, this`name, this`email, this`phone, this`attachments, this`submitted) &&
                unchanged(this`storage, this`attachmentRows, this`cleaned)
      ensures insert.QuestionCreated? ==>
                var files := AllFiles(insert.id, old(attachments), now, normalize, env);
                error == None && submitted && question == "" && name == "" && email == "" && phone == "" &&
                attachments == [] && storage == old(storage) + files.storage &&
                attachmentRows == old(attachmentRows) + files.rows &&
                cleaned == old(cleaned) + IdsOf(old(attachments))
    {
      error := None;
      isSubmitting := true;
      questionRows := questionRows + [QuestionRowOf(name, email, phone, question, aiText, nowIso)];
      if insert.QuestionRejected? {
        error := Some(errorText);
        isSubmitting := false;
        return;
      }
      var files := UploadAll(insert.id, attachments, now, normalize, env);
      storage := storage + files.storage;
      attachmentRows := attachmentRows + files.rows;
      ClearFormAndAttachments();
      isSubmitting := false;
    }

    /** clearFormAndAttachments: release every entry, mark the form submitted and empty it. */
    method ClearFormAndAttachments()
      modifies this`cleaned, this`submitted, this`question, this`name, this`email, this`phone, this`attachments
      ensures cleaned == old(cleaned) + IdsOf(old(attachments))
      ensures submitted && question == "" && name == "" && email == "" && phone == "" && attachments == []
    {
      cleaned := cleaned + IdsOf(attachments);
      submitted := true;
      question, name, email, phone := "", "", "", "";
      attachments := [];
    }
  }
}
