/**
 * The retry loop of `_download_media(url, path)`: up to `max_retries`
 * whole-transfer attempts, deleting the partial file after each failed one.
 * The network is an oracle `attempt`, giving the fate of the transfer on each
 * retry index; whether a file is at `path` is tracked as a ghost flag.
 */
module Fetch {

  /** How one attempt of the `try` block at lines 231-246 ends. */
  datatype Attempt =
    | Completed          // body streamed to `path`, `return True`
    | FailedBeforeOpen   // request or status error: `path` never opened
    | FailedAfterOpen    // failure while streaming: `open(path, "wb")` left a partial file

  /** Some attempt among the first `maxRetries` completes. */
  ghost predicate Succeeds(maxRetries: int, attempt: nat -> Attempt) {
    exists i: nat :: i < maxRetries && attempt(i) == Completed
  }

  /** `range(max_retries)` has this many elements. */
  function Budget(maxRetries: int): nat {
    if maxRetries > 0 then maxRetries else 0
  }

  /**
   * `_download_media`: `ok` is true iff one of the first `maxRetries`
   * attempts completes; it stops at the first that does, so `tries` is that
   * attempt's number, and otherwise the whole budget is spent (none when
   * `maxRetries <= 0`). `after[i]` says whether a file is at `path` once
   * attempt `i` is over: exactly when it completed, so no partial file
   * survives a failed attempt.
   */
  method DownloadMedia(maxRetries: int, attempt: nat -> Attempt, ghost existed: bool)
    returns (ok: bool, ghost tries: nat, ghost present: bool, ghost after: seq<bool>)
    ensures ok <==> Succeeds(maxRetries, attempt)
    ensures tries <= Budget(maxRetries)
    ensures ok ==> tries >= 1
    ensures !ok ==> tries == Budget(maxRetries)
    ensures forall i: nat :: i < tries ==> (attempt(i) == Completed <==> ok && i == tries - 1)
    ensures |after| == tries
    ensures forall i :: 0 <= i < tries ==> after[i] == (attempt(i) == Completed)
    ensures present == if tries == 0 then existed else after[tries - 1]
  {
    ok, tries, present, after := false, 0, existed, [];
    var retry: nat := 0;
    while retry < maxRetries
      invariant retry <= Budget(maxRetries)
      invariant tries == retry == |after|
      invariant forall i: nat :: i < retry ==> attempt(i) != Completed && !after[i]
      invariant present == if retry == 0 then existed else false
    {
      var outcome := attempt(retry);
      tries := tries + 1;
      if outcome != FailedBeforeOpen {
        present := true;   // open(path, "wb")
      }
      if outcome == Completed {
        after := after + [present];
        ok := true;
        return;
      }
      // except: `if path.exists(): path.unlink()`, then `time.sleep(2)`
      if present {
        present := false;
      }
      after := after + [present];
      retry := retry + 1;
    }
  }
}
