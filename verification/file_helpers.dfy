/** Decisions of the shared download helpers: the total size of a
    (possibly resumed) download, whether to send a progress update, whether
    a finished file is rejected, and whether a partial file can be resumed.
    File-system reads and the clock are parameters; times are integer
    milliseconds. */
module FileHelpers {
  import opened Wrappers
  import opened Text

  // ----- calculate_total_size -----

  /** `calculate_total_size`: the bytes already on disk plus the bytes
      announced, or only the announced bytes for a fresh download; `None`
      where the source raises because the total is zero. */
  function CalculateTotalSize(initialSize: int, contentLength: int): (r: Option<int>)
    ensures r.None? <==> (if initialSize > 0 then initialSize + contentLength else contentLength) == 0
    ensures r.Some? ==> r.value != 0
    ensures r.Some? && initialSize > 0 ==> r.value - initialSize == contentLength
    ensures r.Some? && initialSize <= 0 ==> r.value == contentLength
  {
    var totalSize := if initialSize > 0 then initialSize + contentLength else contentLength;
    if totalSize == 0 then None else Some(totalSize)
  }

  /** A resumed download whose remaining length is positive always has a
      total larger than what is already on disk; a fresh download with an
      empty body is rejected. */
  lemma TotalSizeBounds(initialSize: int, contentLength: int)
    ensures initialSize > 0 && contentLength > 0 ==>
      CalculateTotalSize(initialSize, contentLength).Some? && CalculateTotalSize(initialSize, contentLength).value > initialSize
    ensures initialSize <= 0 ==> (CalculateTotalSize(initialSize, contentLength).None? <==> contentLength == 0)
  {
  }

  // ----- should_update_progress -----

  const ProgressIntervalMs: int := 2500

  /** `should_update_progress`: send when the download is complete or at
      least 2.5 s have passed since the last send. `lastSendTime` is `None`
      before the first send, and then counts as time 0. The size of the
      last update takes no part in the decision. */
  function ShouldUpdateProgress(downloaded: int, lastUpdateSize: int, totalSize: int, lastSendTime: Option<int>, now: int): (r: bool)
    ensures r <==> downloaded >= totalSize || now - (if lastSendTime.Some? then lastSendTime.value else 0) >= ProgressIntervalMs
  {
    var lastUpdateTime := if lastSendTime.Some? then lastSendTime.value else 0;
    var timeSinceLastUpdate := now - lastUpdateTime;
    downloaded >= totalSize || timeSinceLastUpdate >= ProgressIntervalMs
  }

  /** Once an update is due it stays due as time passes, the finished
      download is always reported, and the size of the last update never
      changes the decision. */
  lemma ProgressUpdateFacts(downloaded: int, lastUpdateSize: int, otherSize: int, totalSize: int, lastSendTime: Option<int>, now: int, later: int)
    requires now <= later
    ensures ShouldUpdateProgress(downloaded, lastUpdateSize, totalSize, lastSendTime, now) ==>
      ShouldUpdateProgress(downloaded, lastUpdateSize, totalSize, lastSendTime, later)
    ensures downloaded >= totalSize ==> ShouldUpdateProgress(downloaded, lastUpdateSize, totalSize, lastSendTime, now)
    ensures ShouldUpdateProgress(downloaded, lastUpdateSize, totalSize, lastSendTime, now) ==
            ShouldUpdateProgress(downloaded, otherSize, totalSize, lastSendTime, now)
  {
  }

  // ----- validate_downloaded_file -----

  /** Content types that mark a download as a web page rather than a file. */
  const WrongTypes: seq<string> := ["text/html", "text/css", "text/javascript", "application/json"]

  /** Texts that mark the first 512 bytes of a small file as an error page. */
  const ErrorPatterns: seq<string> := ["<html", "<body", "error", "404", "403", "not found", "access denied"]

  const SmallFileBytes: int := 1024

  datatype Rejection = NoData | WrongType | ErrorPage

  /** The check on small files: the lower-cased start of the file holds one
      of the error-page texts. `head` is the decoded first 512 bytes. */
  predicate LooksLikeErrorPage(downloaded: int, head: string) {
    downloaded < SmallFileBytes && ContainsAny(Lower(head), ErrorPatterns)
  }

  /** `validate_downloaded_file` as written: nothing received, or a web
      content type, raises. The error-page exception of the small-file
      check is raised inside a `try` whose `except Exception` catches it
      and only logs it, so the file content never leads to a rejection. */
  function ValidateDownloadedFile(downloaded: int, contentType: string, head: string): (r: Option<Rejection>)
    ensures r.None? <==> downloaded != 0 && !ContainsAny(contentType, WrongTypes)
    ensures r == Some(NoData) <==> downloaded == 0
    ensures r != Some(ErrorPage)
  {
    if downloaded == 0 then Some(NoData)
    else if ContainsAny(contentType, WrongTypes) then Some(WrongType)
    else None
  }

  /** The validation as evidently intended: a small file that looks like an
      error page is rejected too. */
  function ValidateDownloadedFileIntended(downloaded: int, contentType: string, head: string): (r: Option<Rejection>)
    ensures r.None? <==> downloaded != 0 && !ContainsAny(contentType, WrongTypes) && !LooksLikeErrorPage(downloaded, head)
    ensures r == Some(ErrorPage) <==> downloaded != 0 && !ContainsAny(contentType, WrongTypes) && LooksLikeErrorPage(downloaded, head)
  {
    if downloaded == 0 then Some(NoData)
    else if ContainsAny(contentType, WrongTypes) then Some(WrongType)
    else if LooksLikeErrorPage(downloaded, head) then Some(ErrorPage)
    else None
  }

  /** The two validations differ exactly on small files that look like an
      error page; elsewhere the intended one agrees with the source. */
  lemma ValidationsAgreeElsewhere(downloaded: int, contentType: string, head: string)
    ensures ValidateDownloadedFile(downloaded, contentType, head) != ValidateDownloadedFileIntended(downloaded, contentType, head)
        <==> downloaded != 0 && !ContainsAny(contentType, WrongTypes) && LooksLikeErrorPage(downloaded, head)
  {
  }

  /** A 100-byte download served as `video/mp4` whose content is an
      HTML "404 Not Found" page is accepted by the source. */
  lemma ErrorPageAccepted()
    ensures LooksLikeErrorPage(100, "<HTML>404 Not Found</HTML>")
    ensures ValidateDownloadedFile(100, "video/mp4", "<HTML>404 Not Found</HTML>").None?
    ensures ValidateDownloadedFileIntended(100, "video/mp4", "<HTML>404 Not Found</HTML>") == Some(ErrorPage)
  {
    var head := "<HTML>404 Not Found</HTML>";
    assert Lower(head)[..5] == "<html";
    assert Contains(Lower(head), ErrorPatterns[0]);
    var ct := "video/mp4";
    forall j | 0 <= j < |WrongTypes|
      ensures !Contains(ct, WrongTypes[j])
    {
      NotContainsHead(ct, WrongTypes[j]);
    }
  }

  // ----- check_file_resume_status -----

  datatype ResumeState = NewDownload | Completed | ResumeAttempt | ExistingFile

  /** `check_file_resume_status`. `fileExists` and `currentSize` describe the
      file on disk; `totalSize` is the row's total, `None` for NULL (a
      total of 0 counts as unknown too). */
  function CheckFileResumeStatus(fileExists: bool, currentSize: nat, initialSize: int, totalSize: Option<int>): (r: (ResumeState, nat))
    ensures !fileExists ==> r == (NewDownload, 0)
    ensures r.0 == Completed <==> fileExists && totalSize.Some? && totalSize.value != 0 && currentSize >= totalSize.value
    ensures r.0 == ResumeAttempt <==> fileExists && r.0 != Completed && currentSize > 0 && initialSize > 0
    ensures r.0 == ExistingFile <==> fileExists && r.0 != Completed && currentSize > 0 && initialSize <= 0
    ensures r.0 == NewDownload <==> !fileExists || (r.0 != Completed && currentSize == 0)
    ensures r.1 == if r.0 == NewDownload then 0 else currentSize
  {
    if !fileExists then (NewDownload, 0)
    else if totalSize.Some? && totalSize.value != 0 && currentSize >= totalSize.value then (Completed, currentSize)
    else if currentSize > 0 && initialSize > 0 then (ResumeAttempt, currentSize)
    else if currentSize > 0 then (ExistingFile, currentSize)
    else (NewDownload, 0)
  }

  /** Without a known total, a non-empty file is never reported complete:
      it is resumed or reused. A negative total makes every existing file
      count as complete. */
  lemma ResumeWithoutTotal(currentSize: nat, initialSize: int, totalSize: Option<int>)
    ensures totalSize.None? || totalSize == Some(0) ==>
      var r := CheckFileResumeStatus(true, currentSize, initialSize, totalSize);
      (r.0 == NewDownload <==> currentSize == 0) && r.0 != Completed
    ensures totalSize.Some? && totalSize.value < 0 ==> CheckFileResumeStatus(true, currentSize, initialSize, totalSize).0 == Completed
  {
  }
}
