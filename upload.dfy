/**
 * The iOS `UploadService`: it records each upload in the persisted
 * `UploadRequest` table and in the in-memory `activeUploads` dictionary,
 * calls the API client, and on a retriable network error retries with an
 * attempt counter and an exponential back-off. The answers of the API
 * client, the file system and the audio-duration probes are inputs.
 */
module Upload {
  import opened Wrappers
  import opened Statuses
  import opened Formats
  import opened Network

  /** `Constants.API.maxRetryAttempts`. */
  const MaxRetryAttempts := 3

  /** The reason carried by the error thrown once the retries are used up. */
  const MaxAttemptsReason := "Max retry attempts reached"

  const MaxAttemptsError := IosUploadFailed(MaxAttemptsReason)

  /** What one call of `apiClient.upload` answered: the new speech id, or a network error. */
  datatype Attempt = Accepted(speechId: string) | Rejected(error: IosNetworkError)

  /** How `uploadSpeech` ends: it returns the speech id or throws an error. */
  datatype UploadOutcome = Succeeded(speechId: string) | Threw(error: IosNetworkError)

  /** The outcome of an upload, the number of API calls it made and the back-off delays (seconds) it slept, in order. */
  datatype Run = Run(outcome: UploadOutcome, calls: nat, delays: seq<nat>)

  /** A failed call after which the service tries again. */
  predicate RetriableFailure(a: Attempt)
  {
    a.Rejected? && a.error.IsRetriable()
  }

  function Pow2(n: nat): (r: nat)
    ensures r >= 1
  {
    if n == 0 then 1 else 2 * Pow2(n - 1)
  }

  /** `pow(2.0, Double(attemptNumber - 1))`: the delay before retry `attemptNumber`. */
  function RetryDelay(attemptNumber: nat): (d: nat)
    requires attemptNumber >= 1
  {
    Pow2(attemptNumber - 1)
  }

  /** The delays double from one second: 1, 2, 4. */
  lemma RetryDelays()
    ensures RetryDelay(1) == 1 && RetryDelay(2) == 2 && RetryDelay(3) == 4
    ensures forall n :: 1 <= n ==> RetryDelay(n + 1) == 2 * RetryDelay(n)
  {
  }

  // ------------------------------------------------------------ retry policy

  /**
   * `retryUpload(attemptNumber: n)`: past `maxRetryAttempts` it gives up
   * with "Max retry attempts reached" without calling; otherwise it sleeps
   * 2^(n-1) seconds and makes call number n (counting the first call as
   * 0), retrying on a retriable failure and rethrowing any other.
   */
  function RetryRun(attempts: seq<Attempt>, n: nat): (r: Run)
    requires 1 <= n && |attempts| > MaxRetryAttempts
    decreases MaxRetryAttempts + 1 - n
  {
    if n > MaxRetryAttempts then Run(Threw(MaxAttemptsError), n, [])
    else
      match attempts[n]
      case Accepted(id) => Run(Succeeded(id), n + 1, [RetryDelay(n)])
      case Rejected(e) =>
        if e.IsRetriable() then
          var rest := RetryRun(attempts, n + 1);
          rest.(delays := [RetryDelay(n)] + rest.delays)
        else Run(Threw(e), n + 1, [RetryDelay(n)])
  }

  /** `performUpload`: one call, then the retries on a retriable failure. */
  function UploadRun(attempts: seq<Attempt>): (r: Run)
    requires |attempts| > MaxRetryAttempts
  {
    match attempts[0]
    case Accepted(id) => Run(Succeeded(id), 1, [])
    case Rejected(e) => if e.IsRetriable() then RetryRun(attempts, 1) else Run(Threw(e), 1, [])
  }

  /** What the retries from attempt `n` on do: calls, delays, and which answer decides the outcome. */
  lemma {:induction false} RetryRunShape(attempts: seq<Attempt>, n: nat)
    requires 1 <= n <= MaxRetryAttempts + 1 && |attempts| > MaxRetryAttempts
    ensures var r := RetryRun(attempts, n);
      && n <= r.calls <= MaxRetryAttempts + 1
      && |r.delays| == r.calls - n
      && (forall i :: 0 <= i < |r.delays| ==> r.delays[i] == Pow2(n - 1 + i))
      && (forall k :: n <= k < r.calls - 1 ==> RetriableFailure(attempts[k]))
      && (r.outcome.Succeeded? ==> r.calls > n && attempts[r.calls - 1] == Accepted(r.outcome.speechId))
      && (r.outcome.Threw? ==>
            ((r.outcome.error == MaxAttemptsError && r.calls == MaxRetryAttempts + 1
              && (n <= MaxRetryAttempts ==> RetriableFailure(attempts[MaxRetryAttempts])))
             || (r.calls > n && attempts[r.calls - 1] == Rejected(r.outcome.error) && !r.outcome.error.IsRetriable())))
    decreases MaxRetryAttempts + 1 - n
  {
    if n <= MaxRetryAttempts && RetriableFailure(attempts[n]) {
      RetryRunShape(attempts, n + 1);
      var rest := RetryRun(attempts, n + 1);
      assert RetryRun(attempts, n).delays == [RetryDelay(n)] + rest.delays;
    }
  }

  /**
   * An upload makes between one and four calls and sleeps 1, 2, 4 seconds
   * before the second, third and fourth; every call but the last failed
   * retriably, and the last answer decides the outcome, except that a
   * fourth retriable failure ends in "Max retry attempts reached".
   */
  lemma UploadRunShape(attempts: seq<Attempt>)
    requires |attempts| > MaxRetryAttempts
    ensures var r := UploadRun(attempts);
      && 1 <= r.calls <= MaxRetryAttempts + 1
      && |r.delays| == r.calls - 1
      && (forall i :: 0 <= i < |r.delays| ==> r.delays[i] == Pow2(i))
      && (forall k :: 0 <= k < r.calls - 1 ==> RetriableFailure(attempts[k]))
      && (r.outcome.Succeeded? ==> attempts[r.calls - 1] == Accepted(r.outcome.speechId))
      && (r.outcome.Threw? ==>
            ((r.outcome.error == MaxAttemptsError && r.calls == MaxRetryAttempts + 1
              && RetriableFailure(attempts[MaxRetryAttempts]))
             || (attempts[r.calls - 1] == Rejected(r.outcome.error) && !r.outcome.error.IsRetriable())))
  {
    if RetriableFailure(attempts[0]) {
      RetryRunShape(attempts, 1);
    }
  }

  /** A first failure that is not retriable is rethrown at once: one call, no delay. */
  lemma NonRetriableFailsAtOnce(attempts: seq<Attempt>, e: IosNetworkError)
    requires |attempts| > MaxRetryAttempts && attempts[0] == Rejected(e) && !e.IsRetriable()
    ensures UploadRun(attempts) == Run(Threw(e), 1, [])
  {
  }

  /** Four retriable failures in a row exhaust the retries after delays of 1, 2 and 4 seconds. */
  lemma {:induction false} RetriesExhausted(attempts: seq<Attempt>)
    requires |attempts| > MaxRetryAttempts
    requires forall k :: 0 <= k <= MaxRetryAttempts ==> RetriableFailure(attempts[k])
    ensures UploadRun(attempts) == Run(Threw(MaxAttemptsError), 4, [1, 2, 4])
  {
    assert RetriableFailure(attempts[0]) && RetriableFailure(attempts[1]);
    assert RetriableFailure(attempts[2]) && RetriableFailure(attempts[3]);
    assert RetryRun(attempts, 4) == Run(Threw(MaxAttemptsError), 4, []);
    assert RetryRun(attempts, 3).delays == [4];
    assert RetryRun(attempts, 2).delays == [2, 4];
  }

  /** The upload succeeds exactly when some call is accepted before a non-retriable failure and within four calls. */
  lemma {:induction false} UploadSucceedsIff(attempts: seq<Attempt>)
    requires |attempts| > MaxRetryAttempts
    ensures UploadRun(attempts).outcome.Succeeded? <==>
      exists k :: 0 <= k <= MaxRetryAttempts && attempts[k].Accepted? && (forall j :: 0 <= j < k ==> RetriableFailure(attempts[j]))
  {
    var r := UploadRun(attempts);
    UploadRunShape(attempts);
    if r.outcome.Succeeded? {
      assert attempts[r.calls - 1].Accepted?;
    } else if k :| 0 <= k <= MaxRetryAttempts && attempts[k].Accepted? && (forall j :: 0 <= j < k ==> RetriableFailure(attempts[j])) {
      assert false;
    }
  }

  // ------------------------------------------------------------ duration and metadata

  /** `max(1, Int(round(seconds)))` for a positive duration; Swift rounds halves away from zero. */
  function RoundedSeconds(seconds: real): (n: int)
    requires seconds > 0.0
    ensures n >= 1
    ensures seconds >= 0.5 ==> (n as real) - 0.5 <= seconds < (n as real) + 0.5
    ensures seconds < 0.5 ==> n == 1
  {
    var r := (seconds + 0.5).Floor;
    if r < 1 then 1 else r
  }

  /**
   * `ensureDuration`: a stored positive duration is kept; otherwise the
   * asset's duration, then the audio player's, each used only when
   * positive (`None` stands for a probe that failed or was not finite);
   * otherwise 0.
   */
  function EnsureDuration(stored: int, assetSeconds: Option<real>, playerSeconds: Option<real>): (d: int)
    ensures stored > 0 ==> d == stored
    ensures d >= 0
    ensures d > 0 <==>
      (stored > 0 || (assetSeconds.Some? && assetSeconds.value > 0.0) || (playerSeconds.Some? && playerSeconds.value > 0.0))
  {
    if stored > 0 then stored
    else if assetSeconds.Some? && assetSeconds.value > 0.0 then RoundedSeconds(assetSeconds.value)
    else if playerSeconds.Some? && playerSeconds.value > 0.0 then RoundedSeconds(playerSeconds.value)
    else 0
  }

  /** The asset probe wins over the audio player whenever it gives a positive duration. */
  lemma AssetDurationFirst(stored: int, asset: real, playerSeconds: Option<real>)
    requires stored <= 0 && asset > 0.0
    ensures EnsureDuration(stored, Some(asset), playerSeconds) == RoundedSeconds(asset)
  {
  }

  /** The metadata dictionary sent with an upload. */
  datatype UploadMetadata = UploadMetadata(
    speakerName: string, speakerPosition: string, durationSeconds: int, studentLevel: string)

  /** A persisted `UploadRequest` row (the creation time is the position in the table). */
  datatype UploadRequest = UploadRequest(
    id: string, fileUrl: string, metadata: UploadMetadata, attemptCount: nat, status: UploadStatus)

  /** The in-memory `UploadTask`. */
  datatype UploadTask = UploadTask(id: string, fileUrl: string, progress: real)

  /** The ids of the requests, in table order. */
  function RequestIds(rs: seq<UploadRequest>): (ids: seq<string>)
    ensures |ids| == |rs|
  {
    if rs == [] then [] else [rs[0].id] + RequestIds(rs[1..])
  }

  /** `deleteRequest`: removes the first request with the id, if any. */
  function RemoveRequest(rs: seq<UploadRequest>, id: string): (r: seq<UploadRequest>)
    ensures |r| == if id in RequestIds(rs) then |rs| - 1 else |rs|
  {
    if rs == [] then []
    else if rs[0].id == id then rs[1..]
    else [rs[0]] + RemoveRequest(rs[1..], id)
  }

  /** Deleting keeps every other request and nothing new. */
  lemma {:induction false} RemoveRequestKeepsOthers(rs: seq<UploadRequest>, id: string)
    ensures forall x :: x in RemoveRequest(rs, id) ==> x in rs
    ensures forall x :: x in rs && x.id != id ==> x in RemoveRequest(rs, id)
  {
    if rs != [] {
      RemoveRequestKeepsOthers(rs[1..], id);
      assert forall x :: x in rs <==> x == rs[0] || x in rs[1..];
    }
  }

  /** Deleting removes exactly one occurrence of the id, if there is one, and no other id. */
  lemma {:induction false} RemoveRequestIds(rs: seq<UploadRequest>, id: string)
    ensures multiset(RequestIds(RemoveRequest(rs, id))) == multiset(RequestIds(rs)) - multiset{id}
  {
    if rs != [] {
      RemoveRequestIds(rs[1..], id);
      assert RequestIds(rs) == [rs[0].id] + RequestIds(rs[1..]);
      if rs[0].id != id {
        assert RequestIds(RemoveRequest(rs, id)) == [rs[0].id] + RequestIds(RemoveRequest(rs[1..], id));
      }
    }
  }

  /** What `resumePendingUploads` keeps: the requests whose file still exists, in order. */
  function KeepExisting(rs: seq<UploadRequest>, existingFiles: set<string>): (r: seq<UploadRequest>)
    ensures |r| <= |rs|
  {
    if rs == [] then []
    else (if rs[0].fileUrl in existingFiles then [rs[0]] else []) + KeepExisting(rs[1..], existingFiles)
  }

  /** A request survives exactly when it was pending and its file exists. */
  lemma {:induction false} KeepExistingMembers(rs: seq<UploadRequest>, existingFiles: set<string>)
    ensures forall x :: x in KeepExisting(rs, existingFiles) <==> x in rs && x.fileUrl in existingFiles
  {
    if rs != [] {
      KeepExistingMembers(rs[1..], existingFiles);
      assert forall x :: x in rs <==> x == rs[0] || x in rs[1..];
    }
  }

  // ------------------------------------------------------------ the service

  class UploadService {
    var activeUploads: map<string, UploadTask>
    /** The `UploadRequest` table, oldest first. */
    var pendingRequests: seq<UploadRequest>

    /** `init`: nothing in flight; the table is what was persisted. `resumePendingUploads` is a separate call. */
    constructor(persisted: seq<UploadRequest>)
      ensures activeUploads == map[] && pendingRequests == persisted
    {
      activeUploads := map[];
      pendingRequests := persisted;
    }

    /** `isUploading`: the id is tracked in `activeUploads`. */
    predicate IsUploading(recordingId: string)
      reads this
    {
      recordingId in activeUploads
    }

    /**
     * `uploadSpeech`: the target debate is the backend id when there is
     * one, else the local session id; the request is persisted and tracked,
     * then uploaded with retries. However it ends, the id is no longer
     * tracked; the persisted request is deleted only on success.
     */
    method UploadSpeech(recordingId: string, localFilePath: string, speakerName: string, speakerPosition: string,
                        storedDuration: int, assetSeconds: Option<real>, playerSeconds: Option<real>,
                        backendDebateId: Option<string>, localSessionId: string, level: StudentLevel,
                        attempts: seq<Attempt>)
      returns (target: Endpoint, outcome: UploadOutcome, calls: nat, delays: seq<nat>)
      requires |attempts| > MaxRetryAttempts
      modifies this
      ensures target == Endpoint.UploadSpeech(backendDebateId.GetOr(localSessionId))
      ensures Run(outcome, calls, delays) == UploadRun(attempts)
      ensures activeUploads == old(activeUploads) - {recordingId}
      ensures var request := UploadRequest(recordingId, localFilePath,
          UploadMetadata(speakerName, speakerPosition, EnsureDuration(storedDuration, assetSeconds, playerSeconds), level.RawValue()),
          0, UploadStatus.Pending);
        pendingRequests == if outcome.Succeeded? then RemoveRequest(old(pendingRequests) + [request], recordingId)
                           else old(pendingRequests) + [request]
    {
      var debateId := backendDebateId.GetOr(localSessionId);
      var metadata := UploadMetadata(speakerName, speakerPosition,
        EnsureDuration(storedDuration, assetSeconds, playerSeconds), level.RawValue());
      pendingRequests := pendingRequests + [UploadRequest(recordingId, localFilePath, metadata, 0, UploadStatus.Pending)];
      activeUploads := activeUploads[recordingId := UploadTask(recordingId, localFilePath, 0.0)];
      target := Endpoint.UploadSpeech(debateId);
      outcome, calls, delays := PerformUpload(recordingId, attempts);
    }

    /** `performUpload`: the first call; success deletes the request, a retriable failure retries, any other failure stops tracking and rethrows. */
    method PerformUpload(uploadId: string, attempts: seq<Attempt>) returns (outcome: UploadOutcome, calls: nat, delays: seq<nat>)
      requires |attempts| > MaxRetryAttempts
      modifies this
      ensures Run(outcome, calls, delays) == UploadRun(attempts)
      ensures activeUploads == old(activeUploads) - {uploadId}
      ensures pendingRequests == if outcome.Succeeded? then RemoveRequest(old(pendingRequests), uploadId) else old(pendingRequests)
    {
      match attempts[0]
      case Accepted(id) =>
        DeleteRequest(uploadId);
        activeUploads := activeUploads - {uploadId};
        outcome, calls, delays := Succeeded(id), 1, [];
      case Rejected(e) =>
        if e.IsRetriable() {
          outcome, calls, delays := RetryUpload(uploadId, attempts, 1);
        } else {
          activeUploads := activeUploads - {uploadId};
          outcome, calls, delays := Threw(e), 1, [];
        }
    }

    /** `retryUpload`, recursing with the attempt counter. */
    method RetryUpload(uploadId: string, attempts: seq<Attempt>, attemptNumber: nat)
      returns (outcome: UploadOutcome, calls: nat, delays: seq<nat>)
      requires 1 <= attemptNumber && |attempts| > MaxRetryAttempts
      modifies this
      decreases MaxRetryAttempts + 1 - attemptNumber
      ensures Run(outcome, calls, delays) == RetryRun(attempts, attemptNumber)
      ensures activeUploads == old(activeUploads) - {uploadId}
      ensures pendingRequests == if outcome.Succeeded? then RemoveRequest(old(pendingRequests), uploadId) else old(pendingRequests)
    {
      if attemptNumber > MaxRetryAttempts {
        activeUploads := activeUploads - {uploadId};
        outcome, calls, delays := Threw(MaxAttemptsError), attemptNumber, [];
        return;
      }
      var delay := RetryDelay(attemptNumber);
      match attempts[attemptNumber]
      case Accepted(id) =>
        DeleteRequest(uploadId);
        activeUploads := activeUploads - {uploadId};
        outcome, calls, delays := Succeeded(id), attemptNumber + 1, [delay];
      case Rejected(e) =>
        if e.IsRetriable() {
          outcome, calls, delays := RetryUpload(uploadId, attempts, attemptNumber + 1);
          delays := [delay] + delays;
        } else {
          activeUploads := activeUploads - {uploadId};
          outcome, calls, delays := Threw(e), attemptNumber + 1, [delay];
        }
    }

    /** `deleteRequest`. */
    method DeleteRequest(id: string)
      modifies `pendingRequests
      ensures pendingRequests == RemoveRequest(old(pendingRequests), id)
    {
      pendingRequests := RemoveRequest(pendingRequests, id);
    }

    /** `cancelUpload`: stops tracking the id and deletes its persisted request. */
    method CancelUpload(recordingId: string)
      modifies this
      ensures activeUploads == old(activeUploads) - {recordingId}
      ensures !IsUploading(recordingId)
      ensures pendingRequests == RemoveRequest(old(pendingRequests), recordingId)
    {
      if recordingId in activeUploads {
        activeUploads := activeUploads - {recordingId};
      }
      DeleteRequest(recordingId);
    }

    /** `resumePendingUploads`: walks the table oldest first and deletes every request whose file is gone. */
    method ResumePendingUploads(existingFiles: set<string>)
      modifies `pendingRequests
      ensures pendingRequests == KeepExisting(old(pendingRequests), existingFiles)
    {
      var all := pendingRequests;
      if all == [] {
        return;
      }
      var kept := [];
      var i := 0;
      while i < |all|
        invariant 0 <= i <= |all|
        invariant kept + KeepExisting(all[i..], existingFiles) == KeepExisting(all, existingFiles)
      {
        assert all[i..] == [all[i]] + all[i + 1..];
        if all[i].fileUrl in existingFiles {
          kept := kept + [all[i]];
        }
        i := i + 1;
      }
      pendingRequests := kept;
    }
  }
}
