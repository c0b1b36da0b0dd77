/** Whether a failed download is tried again: the general policy and the
    automatic retry of free 1fichier downloads. Both compare lower-cased
    error text against fixed phrase lists. */
module RetryPolicy {
  import opened Text

  const MaxRetries: int := 10

  /** Phrases that mark a network error. They only choose the log line:
      the decision never depends on them. */
  const NetworkErrors: seq<string> := [
    "nameresolutionerror", "getaddrinfo failed", "failed to resolve", "connection timeout",
    "connection refused", "network is unreachable", "temporary failure in name resolution",
    "max retries exceeded", "connection aborted", "connection reset", "httpsconnectionpool",
    "errno 11001", "name or service not known", "nodename nor servname provided",
    "dns resolution failed"]

  /** DNS failures, taken to mean an expired link. */
  const DnsErrors: seq<string> := [
    "failed to resolve", "name or service not known",
    "no address associated with hostname", "nameresolutionerror"]

  const NoRetryErrors: seq<string> := [
    "404", "not found", "file not found", "invalid url", "파싱 실패",
    "direct link를 찾을 수 없", "다운로드 링크를 찾을 수 없", "parsing failed",
    "link expired", "invalid link", "파일을 찾을 수 없습니다", "잘못된 링크",
    "permission denied", "access denied", "unauthorized", "forbidden"]

  const FichierNoRetryErrors: seq<string> := [
    "404", "not found", "file not found", "invalid url", "link expired", "invalid link",
    "permission denied", "access denied", "unauthorized", "forbidden", "dstorage.fr",
    "파싱 실패", "direct link를 찾을 수 없", "다운로드 링크를 찾을 수 없"]

  /** File names the parser reports when it found none. */
  const PlaceholderNames: seq<string> := ["1fichier.com: Cloud Storage", "알 수 없음"]

  /** Selects the log line only. */
  predicate IsNetworkError(errorMessage: string) {
    ContainsAny(Lower(errorMessage), NetworkErrors)
  }

  /** `should_retry_download`. */
  function ShouldRetryDownload(retryCount: int, errorMessage: string): (r: bool)
    ensures retryCount >= MaxRetries ==> !r
    ensures r <==> (
      && retryCount < MaxRetries
      && !Contains(Lower(errorMessage), "dstorage.fr")
      && !ContainsAny(Lower(errorMessage), DnsErrors)
      && !ContainsAny(Lower(errorMessage), NoRetryErrors))
  {
    var errorLower := Lower(errorMessage);
    if retryCount >= MaxRetries then false
    else if Contains(errorLower, "dstorage.fr") then false
    else if ContainsAny(errorLower, DnsErrors) then false
    else if ContainsAny(errorLower, NoRetryErrors) then false
    else true
  }

  /** `should_1fichier_auto_retry`; a missing name or size is the empty string. */
  function Should1fichierAutoRetry(url: string, fileName: string, fileSize: string, fichierRetryCount: int, errorMessage: string): (r: bool)
    ensures r <==> (
      && Contains(Lower(url), "1fichier.com")
      && fileName != "" && fileSize != "" && fileName !in PlaceholderNames
      && fichierRetryCount < MaxRetries
      && !ContainsAny(Lower(errorMessage), FichierNoRetryErrors))
  {
    if !Contains(Lower(url), "1fichier.com") then false
    else if fileName == "" || fileSize == "" then false
    else if fileName in PlaceholderNames then false
    else if fichierRetryCount >= MaxRetries then false
    else !ContainsAny(Lower(errorMessage), FichierNoRetryErrors)
  }

  /** The decision ignores the case of ASCII letters in the message (the
      case mapping here is ASCII only; Python's full Unicode mapping can
      differ, as for the dotless ı). */
  lemma RetryIgnoresCase(retryCount: int, errorMessage: string)
    ensures ShouldRetryDownload(retryCount, Upper(errorMessage)) == ShouldRetryDownload(retryCount, errorMessage)
  {
    LowerOfUpper(errorMessage);
  }

  /** A message that stops retries still stops them with more text around it. */
  lemma {:induction false} BlockedStaysBlocked(retryCount: int, errorMessage: string, before: string, after: string)
    requires retryCount < MaxRetries && !ShouldRetryDownload(retryCount, errorMessage)
    ensures !ShouldRetryDownload(retryCount, before + errorMessage + after)
  {
    var m := Lower(errorMessage);
    var big := Lower(before + errorMessage + after);
    LowerAppend(before + errorMessage, after);
    LowerAppend(before, errorMessage);
    assert big == Lower(before) + m + Lower(after);
    forall p | Contains(m, p)
      ensures Contains(big, p)
    {
      ContainsPrepend(Lower(before), m, p);
      ContainsAppend(Lower(before) + m, Lower(after), p);
    }
    if !Contains(m, "dstorage.fr") && !ContainsAny(m, DnsErrors) {
      var j :| 0 <= j < |NoRetryErrors| && Contains(m, NoRetryErrors[j]);
      assert Contains(big, NoRetryErrors[j]);
    } else if !Contains(m, "dstorage.fr") {
      var j :| 0 <= j < |DnsErrors| && Contains(m, DnsErrors[j]);
      assert Contains(big, DnsErrors[j]);
    }
  }

  /** A name-resolution error is logged as a network error, yet it is not
      retried: the network list does not override the DNS list. */
  lemma NameResolutionNotRetried(retryCount: int, errorMessage: string)
    requires Contains(Lower(errorMessage), "nameresolutionerror")
    ensures IsNetworkError(errorMessage) && !ShouldRetryDownload(retryCount, errorMessage)
  {
    assert NetworkErrors[0] == "nameresolutionerror";
    assert DnsErrors[3] == "nameresolutionerror";
  }

  /** Every phrase that stops the automatic 1fichier retry also stops the
      general retry. */
  lemma FichierPhrasesAreBlocking()
    ensures forall j | 0 <= j < |FichierNoRetryErrors| ::
      FichierNoRetryErrors[j] == "dstorage.fr" || FichierNoRetryErrors[j] in NoRetryErrors
  {
  }

  /** For a 1fichier download with a real name and size, any error the
      general policy would retry is also retried automatically. The
      converse fails: DNS errors stop only the general policy. */
  lemma {:induction false} RetryImpliesAutoRetry(url: string, fileName: string, fileSize: string, count: int, errorMessage: string)
    requires Contains(Lower(url), "1fichier.com") && fileName != "" && fileSize != "" && fileName !in PlaceholderNames
    requires ShouldRetryDownload(count, errorMessage)
    ensures Should1fichierAutoRetry(url, fileName, fileSize, count, errorMessage)
  {
    var m := Lower(errorMessage);
    FichierPhrasesAreBlocking();
    forall j | 0 <= j < |FichierNoRetryErrors|
      ensures !Contains(m, FichierNoRetryErrors[j])
    {
      if FichierNoRetryErrors[j] != "dstorage.fr" {
        var k :| 0 <= k < |NoRetryErrors| && NoRetryErrors[k] == FichierNoRetryErrors[j];
        assert !Contains(m, NoRetryErrors[k]);
      }
    }
  }
}
